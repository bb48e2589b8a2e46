/**
 How far concurrent `add` calls on the Redis store can overrun the channel cap: each
 call suspends between asking whether its channel is new, counting the channels and
 adding its own.
 */
module RedisChannelCap {
  import opened Basics
  import opened PyList
  import opened RelayTypes
  import opened RedisTasks

  predicate Adds(w: Task) { w.Counting? || w.Claiming? || w.Pushing? || w.Trimming? || w.Signalling? }

  /** The adds in flight. */
  function InFlight(tasks: map<nat, Task>): set<nat> { set t | t in tasks && Adds(tasks[t]) }

  /** Those that have seen room and are about to take it. */
  function Claims(tasks: map<nat, Task>): set<nat> { set t | t in tasks && tasks[t].Claiming? }

  /** At every moment of the run at most k adds are in flight. */
  ghost predicate AtMost(cfg: Config, steps: seq<Step>, k: nat) {
    |InFlight(Played(cfg, steps).tasks)| <= k && (steps != [] ==> AtMost(cfg, steps[..|steps| - 1], k))
  }

  // ---- the bound --------------------------------------------------------

  /** Whatever a step does to other tasks, they stay at their command. */
  lemma OthersStay(cfg: Config, h: Hub, s: Step, t: nat)
    requires t in Next(cfg, h, s).tasks && t != s.task
    ensures t in h.tasks
    ensures Next(cfg, h, s).tasks[t].Claiming? <==> h.tasks[t].Claiming?
  {
    if s.Go? && s.task in h.tasks {
      GoChanges(cfg, h, s.task, h.tasks[s.task], t);
    }
  }

  /** The step is a count that finds room. */
  ghost predicate FindsRoom(cfg: Config, h: Hub, s: Step) {
    s.Go? && s.task in h.tasks && h.tasks[s.task].Counting? && |h.server.names| < cfg.maxChannels
  }

  ghost predicate TakesRoom(h: Hub, s: Step) { s.Go? && s.task in h.tasks && h.tasks[s.task].Claiming? }

  /** Only a count that finds room makes a claim, and only a claim makes a name. */
  lemma ClaimsOnlyLess(cfg: Config, h: Hub, s: Step)
    requires !FindsRoom(cfg, h, s)
    ensures Claims(Next(cfg, h, s).tasks) <= if TakesRoom(h, s) then Claims(h.tasks) - {s.task} else Claims(h.tasks)
  {
    var g := Next(cfg, h, s);
    forall t | t in Claims(g.tasks) ensures t in Claims(h.tasks) && (TakesRoom(h, s) ==> t != s.task) {
      if t != s.task {
        OthersStay(cfg, h, s, t);
      }
    }
  }

  lemma NamesOnlyByClaims(cfg: Config, h: Hub, s: Step)
    ensures Next(cfg, h, s).server.names <=
            h.server.names + if TakesRoom(h, s) then {h.tasks[s.task].channel} else {}
  {}

  lemma StepBound(cfg: Config, h: Hub, s: Step, k: nat)
    requires |h.server.names| + |Claims(h.tasks)| <= Max(cfg.maxChannels, 0) + k - 1
    requires |InFlight(Next(cfg, h, s).tasks)| <= k
    ensures var g := Next(cfg, h, s); |g.server.names| + |Claims(g.tasks)| <= Max(cfg.maxChannels, 0) + k - 1
  {
    var g := Next(cfg, h, s);
    NamesOnlyByClaims(cfg, h, s);
    if FindsRoom(cfg, h, s) {
      SubsetSize(Claims(g.tasks), InFlight(g.tasks));
    } else {
      ClaimsOnlyLess(cfg, h, s);
      if TakesRoom(h, s) {
        SubsetSize(Claims(g.tasks), Claims(h.tasks) - {s.task});
        SubsetSize(g.server.names, h.server.names + {h.tasks[s.task].channel});
      } else {
        SubsetSize(Claims(g.tasks), Claims(h.tasks));
        SubsetSize(g.server.names, h.server.names);
      }
    }
  }

  lemma {:induction false} ClaimsBounded(cfg: Config, steps: seq<Step>, k: nat)
    requires k >= 1 && AtMost(cfg, steps, k)
    ensures var h := Played(cfg, steps); |h.server.names| + |Claims(h.tasks)| <= Max(cfg.maxChannels, 0) + k - 1
  {
    if steps != [] {
      ClaimsBounded(cfg, steps[..|steps| - 1], k);
      StepBound(cfg, Played(cfg, steps[..|steps| - 1]), steps[|steps| - 1], k);
    }
  }

  /**
   With at most k adds in flight the channel set never holds more than cap + k - 1 names,
   whatever else is suspended where, and whatever raises; calls made one at a time (k = 1)
   keep the cap exactly.
   */
  lemma {:induction false} CapOverrun(cfg: Config, steps: seq<Step>, k: nat)
    requires k >= 1 && AtMost(cfg, steps, k)
    ensures |Played(cfg, steps).server.names| <= Max(cfg.maxChannels, 0) + k - 1
  {
    ClaimsBounded(cfg, steps, k);
  }

  // ---- the bound is reached ---------------------------------------------

  /** Some run with at most k adds in flight ends in this state. */
  ghost predicate Within(cfg: Config, k: nat, h: Hub) {
    exists steps :: AtMost(cfg, steps, k) && Played(cfg, steps) == h
  }

  lemma Then(cfg: Config, k: nat, h: Hub, s: Step, h': Hub)
    requires Within(cfg, k, h) && h' == Next(cfg, h, s) && |InFlight(h'.tasks)| <= k
    ensures Within(cfg, k, h')
  {
    var steps :| AtMost(cfg, steps, k) && Played(cfg, steps) == h;
    var more := steps + [s];
    assert more[..|more| - 1] == steps && Played(cfg, more) == h';
    assert AtMost(cfg, more, k);
  }

  /** Such a run leads to these names and suspended tasks, whatever the lists hold. */
  ghost predicate Reaches(cfg: Config, k: nat, names: set<string>, tasks: map<nat, Task>) {
    exists h :: Within(cfg, k, h) && h.server.names == names && h.tasks == tasks
  }

  /** Channel names that do not repeat. */
  function Name(i: nat): string { seq(i, _ => 'x') }

  function NamesUpto(n: nat): set<string> { if n == 0 then {} else NamesUpto(n - 1) + {Name(n - 1)} }

  lemma {:induction false} NamesUptoSize(n: nat)
    ensures |NamesUpto(n)| == n
    ensures forall s :: s in NamesUpto(n) ==> |s| < n
  {
    if n > 0 {
      NamesUptoSize(n - 1);
      assert |Name(n - 1)| == n - 1;
    }
  }

  lemma NameIsFar(n: nat, i: nat)
    requires n <= i
    ensures |NamesUpto(n)| == n && Name(i) !in NamesUpto(n)
  {
    NamesUptoSize(n);
    assert |Name(i)| == i;
  }

  function Note(i: nat): Message { Message("", Name(i), "", "", 0) }

  predicate AllAdds(tasks: map<nat, Task>) { forall t :: t in tasks ==> Adds(tasks[t]) }

  lemma AllInFlight(tasks: map<nat, Task>, i: nat, w: Task)
    requires AllAdds(tasks) && Adds(w)
    ensures InFlight(tasks) == tasks.Keys && AllAdds(tasks[i := w])
    ensures InFlight(tasks[i := w]) == tasks.Keys + {i}
  {}

  /** One more step of task i, after which its next command is w. */
  lemma One(cfg: Config, k: nat, h: Hub, i: nat, s: Step, w: Task, rest: map<nat, Task>, h': Hub)
    requires Within(cfg, k, h) && AllAdds(rest) && Adds(w) && h' == Next(cfg, h, s)
    requires h'.tasks == rest[i := w] && |rest.Keys + {i}| <= k
    ensures Within(cfg, k, h')
  {
    AllInFlight(rest, i, w);
    Then(cfg, k, h, s, h');
  }

  /** One more add sees room and stops just before taking it. */
  lemma Claim(cfg: Config, k: nat, names: set<string>, tasks: map<nat, Task>, i: nat)
    requires Reaches(cfg, k, names, tasks) && AllAdds(tasks) && i !in tasks && |tasks.Keys| < k
    requires Name(i) !in names && |names| < cfg.maxChannels
    ensures Reaches(cfg, k, names, tasks[i := Claiming(Name(i), Note(i))])
  {
    var h :| Within(cfg, k, h) && h.server.names == names && h.tasks == tasks;
    var h1 := h.(tasks := tasks[i := Counting(Name(i), Note(i))]);
    One(cfg, k, h, i, Begin(i, Post(Note(i))), Counting(Name(i), Note(i)), tasks, h1);
    var h2 := h.(tasks := tasks[i := Claiming(Name(i), Note(i))]);
    Overwrite(tasks, i, Counting(Name(i), Note(i)), Claiming(Name(i), Note(i)));
    One(cfg, k, h1, i, Go(i), Claiming(Name(i), Note(i)), tasks, h2);
  }

  /** A claim is taken: the name is added. */
  lemma Take(cfg: Config, k: nat, names: set<string>, tasks: map<nat, Task>, i: nat)
    requires Reaches(cfg, k, names, tasks) && AllAdds(tasks) && |tasks.Keys| <= k
    requires i in tasks && tasks[i] == Claiming(Name(i), Note(i))
    ensures Reaches(cfg, k, names + {Name(i)}, tasks[i := Pushing(Name(i), Note(i), true)])
  {
    var h :| Within(cfg, k, h) && h.server.names == names && h.tasks == tasks;
    var w := Pushing(Name(i), Note(i), true);
    var h' := h.(server := h.server.(names := names + {Name(i)}), tasks := tasks[i := w]);
    assert tasks.Keys + {i} == tasks.Keys;
    One(cfg, k, h, i, Go(i), w, tasks, h');
  }

  /** A lone add pushes, trims and signals. */
  lemma Finish(cfg: Config, k: nat, names: set<string>, i: nat)
    requires k >= 1 && Reaches(cfg, k, names, map[i := Pushing(Name(i), Note(i), true)])
    ensures Reaches(cfg, k, names, map[])
  {
    var c := Name(i);
    var h :| Within(cfg, k, h) && h.server.names == names && h.tasks == map[i := Pushing(c, Note(i), true)];
    var h1 := Next(cfg, h, Go(i));
    Alone(cfg, k, h, i, h1, Trimming(c));
    var h2 := Next(cfg, h1, Go(i));
    Alone(cfg, k, h1, i, h2, Signalling(c));
    var h3 := Next(cfg, h2, Go(i));
    assert h3.tasks == map[];
    Then(cfg, k, h2, Go(i), h3);
  }

  lemma Alone(cfg: Config, k: nat, h: Hub, i: nat, h': Hub, w: Task)
    requires k >= 1 && Within(cfg, k, h) && h' == Next(cfg, h, Go(i)) && h'.tasks == map[i := w] && Adds(w)
    ensures Within(cfg, k, h')
  {
    var none: map<nat, Task> := map[];
    assert none[i := w] == h'.tasks && none.Keys + {i} == {i};
    One(cfg, k, h, i, Go(i), w, none, h');
  }

  /** n channels made by adds that each finish before the next begins. */
  lemma {:induction false} OneByOne(cfg: Config, k: nat, n: nat)
    requires n <= cfg.maxChannels && k >= 1
    ensures Reaches(cfg, k, NamesUpto(n), map[])
  {
    if n == 0 {
      assert Played(cfg, []) == START && InFlight(map[]) == {};
      assert Within(cfg, k, START);
    } else {
      var i := n - 1;
      OneByOne(cfg, k, i);
      NameIsFar(i, i);
      Claim(cfg, k, NamesUpto(i), map[], i);
      var none: map<nat, Task> := map[];
      var claimed := none[i := Claiming(Name(i), Note(i))];
      assert claimed.Keys == {i};
      Take(cfg, k, NamesUpto(i), claimed, i);
      assert claimed[i := Pushing(Name(i), Note(i), true)] == map[i := Pushing(Name(i), Note(i), true)];
      Finish(cfg, k, NamesUpto(n), i);
    }
  }

  /** What add i of the crowd does next once those before `taken` have their names. */
  function Stage(i: nat, taken: nat): Task {
    if i < taken then Pushing(Name(i), Note(i), true) else Claiming(Name(i), Note(i))
  }

  /** n adds in flight for the channels from base on. */
  function Crowd(base: nat, n: nat, taken: nat): map<nat, Task> {
    map i: nat | base <= i < base + n :: Stage(i, taken)
  }

  lemma CrowdAdds(base: nat, n: nat, taken: nat)
    ensures AllAdds(Crowd(base, n, taken))
    ensures forall i: nat :: i in Crowd(base, n, taken).Keys <==> base <= i < base + n
  {}

  lemma {:induction false} RangeSize(base: nat, n: nat, range: set<nat>)
    requires forall i: nat :: i in range <==> base <= i < base + n
    ensures |range| == n
  {
    if n > 0 {
      RangeSize(base, n - 1, range - {base + n - 1});
    }
  }

  lemma CrowdSize(base: nat, n: nat, taken: nat)
    ensures |Crowd(base, n, taken).Keys| == n && AllAdds(Crowd(base, n, taken))
  {
    CrowdAdds(base, n, taken);
    RangeSize(base, n, Crowd(base, n, taken).Keys);
  }

  lemma CrowdGrows(base: nat, n: nat, i: nat)
    requires i == base + n
    ensures i !in Crowd(base, n, base)
    ensures Crowd(base, n + 1, base) == Crowd(base, n, base)[i := Claiming(Name(i), Note(i))]
  {}

  /** n adds, for n new channels, all past the count at once. */
  lemma {:induction false} AllClaim(cfg: Config, k: nat, base: nat, n: nat)
    requires base < cfg.maxChannels && k >= 1 && n <= k
    ensures Reaches(cfg, k, NamesUpto(base), Crowd(base, n, base))
  {
    if n == 0 {
      OneByOne(cfg, k, base);
      assert Crowd(base, 0, base) == map[];
    } else {
      var i := base + n - 1;
      AllClaim(cfg, k, base, n - 1);
      CrowdSize(base, n - 1, base);
      NameIsFar(base, i);
      Claim(cfg, k, NamesUpto(base), Crowd(base, n - 1, base), i);
      CrowdGrows(base, n - 1, i);
    }
  }

  /** Of k claims those up to `taken` are taken. */
  lemma {:induction false} AllTake(cfg: Config, k: nat, base: nat, taken: nat)
    requires base < cfg.maxChannels && 1 <= k && base <= taken <= base + k
    ensures Reaches(cfg, k, NamesUpto(taken), Crowd(base, k, taken))
  {
    if taken == base {
      AllClaim(cfg, k, base, k);
    } else {
      AllTake(cfg, k, base, taken - 1);
      OneTakes(cfg, k, base, taken - 1);
    }
  }

  lemma OneTakes(cfg: Config, k: nat, base: nat, i: nat)
    requires base <= i < base + k && Reaches(cfg, k, NamesUpto(i), Crowd(base, k, i))
    ensures Reaches(cfg, k, NamesUpto(i + 1), Crowd(base, k, i + 1))
  {
    CrowdSize(base, k, i);
    Take(cfg, k, NamesUpto(i), Crowd(base, k, i), i);
    CrowdTakes(base, k, i);
  }

  lemma CrowdTakes(base: nat, n: nat, i: nat)
    requires base <= i < base + n
    ensures Crowd(base, n, i + 1) == Crowd(base, n, i)[i := Pushing(Name(i), Note(i), true)]
  {}

  lemma SomeRun(cfg: Config, k: nat, names: set<string>, tasks: map<nat, Task>) returns (steps: seq<Step>)
    requires Reaches(cfg, k, names, tasks)
    ensures AtMost(cfg, steps, k) && Played(cfg, steps).server.names == names
  {
    var h :| Within(cfg, k, h) && h.server.names == names && h.tasks == tasks;
    steps :| AtMost(cfg, steps, k) && Played(cfg, steps) == h;
  }

  /** The bound is exact: some run with at most k adds in flight ends with cap + k - 1 channels. */
  lemma CapOverrunReached(cfg: Config, k: nat) returns (steps: seq<Step>)
    requires cfg.maxChannels >= 1 && k >= 1
    ensures AtMost(cfg, steps, k) && |Played(cfg, steps).server.names| == cfg.maxChannels + k - 1
  {
    var names, tasks := FullReached(cfg, k);
    steps := SomeRun(cfg, k, names, tasks);
  }

  lemma FullReached(cfg: Config, k: nat) returns (names: set<string>, tasks: map<nat, Task>)
    requires cfg.maxChannels >= 1 && k >= 1
    ensures Reaches(cfg, k, names, tasks) && |names| == cfg.maxChannels + k - 1
  {
    var base := cfg.maxChannels - 1;
    AllTake(cfg, k, base, base + k);
    names, tasks := NamesUpto(base + k), Crowd(base, k, base + k);
    NamesAreSoMany(base + k);
  }

  lemma NamesAreSoMany(n: nat)
    ensures |NamesUpto(n)| == n
  {
    NamesUptoSize(n);
  }
}
