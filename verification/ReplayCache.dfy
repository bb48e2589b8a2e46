/**
 The jti replay cache of mcp_auth/jwt_auth.py, called by several threads. The clock is
 read and first compared outside the lock; the cleanup and the check each hold it.
 */
module ReplayCache {

  const CLEANUP_INTERVAL := 60.0

  /** The expired entries are dropped, unless the last cleanup is recent. */
  function CleanedUp(used: map<string, real>, last: real, now: real): (map<string, real>, real) {
    if now - last < CLEANUP_INTERVAL then (used, last)
    else (map jti | jti in used && !(now > used[jti]) :: used[jti], now)
  }

  // ---- one caller -------------------------------------------------------

  class JWTClientAuthenticator {
    var usedJtis: map<string, real>
    var lastCleanup: real

    constructor (now: real)
      ensures usedJtis == map[] && lastCleanup == now
    {
      usedJtis, lastCleanup := map[], now;
    }

    method CleanupExpiredJtis(now: real)
      modifies this
      ensures (usedJtis, lastCleanup) == CleanedUp(old(usedJtis), old(lastCleanup), now)
    {
      if now - lastCleanup < CLEANUP_INTERVAL {
        return;
      }
      var expired := set jti | jti in usedJtis && now > usedJtis[jti];
      DeleteAll(expired);
      lastCleanup := now;
      assert usedJtis == CleanedUp(old(usedJtis), old(lastCleanup), now).0;
    }

    method DeleteAll(expired: set<string>)
      modifies this`usedJtis
      ensures usedJtis.Keys == old(usedJtis).Keys - expired
      ensures forall j :: j in usedJtis ==> usedJtis[j] == old(usedJtis)[j]
    {
      var todo := expired;
      while todo != {}
        invariant todo <= expired
        invariant usedJtis.Keys == old(usedJtis).Keys - (expired - todo)
        invariant forall j :: j in usedJtis ==> usedJtis[j] == old(usedJtis)[j]
        decreases |todo|
      {
        var jti :| jti in todo;
        usedJtis, todo := usedJtis - {jti}, todo - {jti};
      }
    }

    method CheckAndRecordJti(jti: string, exp: real, now: real) returns (isNew: bool)
      modifies this
      ensures var (used, last) := CleanedUp(old(usedJtis), old(lastCleanup), now);
              && (isNew <==> jti !in used)
              && usedJtis == (if isNew then used[jti := exp] else used) && lastCleanup == last
    {
      CleanupExpiredJtis(now);
      if jti in usedJtis {
        return false;
      }
      usedJtis := usedJtis[jti := exp];
      return true;
    }
  }

  // ---- many threads -----------------------------------------------------

  /** A call in progress: waiting to clean up with the time it read, or waiting to check. */
  datatype Thread = WantsCleanup(jti: string, exp: real, seen: real) | WantsCheck(jti: string, exp: real)

  datatype Accept = Accept(jti: string, exp: real, at: real)

  /** A refused jti, and how many acceptances there had been. */
  datatype Refusal = Refusal(jti: string, after: nat)

  datatype Cache = Cache(used: map<string, real>, last: real, clock: real, threads: map<nat, Thread>,
                         accepted: seq<Accept>, refused: seq<Refusal>)

  datatype Step =
    | Begin(thread: nat, jti: string, exp: real, now: real)
    | LockedCleanup(thread: nat, now: real)
    | LockedCheck(thread: nat, now: real)

  /** One stretch of one thread; a step out of turn only lets time pass. */
  function Next(c: Cache, s: Step): Cache {
    var c' := c.(clock := s.now);
    match s
    case Begin(t, jti, exp, now) =>
      if t in c.threads then c'
      else if now - c.last < CLEANUP_INTERVAL then c'.(threads := c.threads[t := WantsCheck(jti, exp)])
      else c'.(threads := c.threads[t := WantsCleanup(jti, exp, now)])
    case LockedCleanup(t, _) =>
      if t !in c.threads || !c.threads[t].WantsCleanup? then c'
      else
        var th := c.threads[t];
        var (used, last) := CleanedUp(c.used, c.last, th.seen);
        c'.(used := used, last := last, threads := c.threads[t := WantsCheck(th.jti, th.exp)])
    case LockedCheck(t, now) =>
      if t !in c.threads || !c.threads[t].WantsCheck? then c'
      else
        var th := c.threads[t];
        var c'' := c'.(threads := c.threads - {t});
        if th.jti in c.used then c''.(refused := c.refused + [Refusal(th.jti, |c.accepted|)])
        else c''.(used := c.used[th.jti := th.exp], accepted := c.accepted + [Accept(th.jti, th.exp, now)])
  }

  function Played(start: real, steps: seq<Step>): Cache {
    if steps == [] then Cache(map[], start, start, map[], [], [])
    else Next(Played(start, steps[..|steps| - 1]), steps[|steps| - 1])
  }

  ghost predicate Forward(start: real, steps: seq<Step>) {
    && (forall i :: 0 <= i < |steps| ==> start <= steps[i].now)
    && (forall i, j :: 0 <= i < j < |steps| ==> steps[i].now <= steps[j].now)
  }

  /** An acceptance is still in the cache, or its expiry has passed. */
  ghost predicate Remembered(c: Cache, a: Accept) {
    (a.jti in c.used && c.used[a.jti] == a.exp) || a.exp < c.clock
  }

  ghost predicate Sound(c: Cache) {
    && (forall i :: 0 <= i < |c.accepted| ==> Remembered(c, c.accepted[i]))
    && (forall i, j :: 0 <= i < j < |c.accepted| && c.accepted[i].jti == c.accepted[j].jti ==>
          c.accepted[j].at > c.accepted[i].exp)
    && (forall jti :: jti in c.used ==> SeenBefore(c.accepted, jti))
    && (forall k :: 0 <= k < |c.refused| ==>
          c.refused[k].after <= |c.accepted| && SeenBefore(c.accepted[..c.refused[k].after], c.refused[k].jti))
    && (forall t :: t in c.threads && c.threads[t].WantsCleanup? ==> c.threads[t].seen <= c.clock)
  }

  ghost predicate SeenBefore(accepted: seq<Accept>, jti: string) {
    exists i :: 0 <= i < |accepted| && accepted[i].jti == jti
  }

  lemma SeenGrows(accepted: seq<Accept>, a: Accept)
    ensures forall jti :: SeenBefore(accepted, jti) ==> SeenBefore(accepted + [a], jti)
    ensures SeenBefore(accepted + [a], a.jti)
  {
    forall jti | SeenBefore(accepted, jti) ensures SeenBefore(accepted + [a], jti) {
      var i :| 0 <= i < |accepted| && accepted[i].jti == jti;
      assert (accepted + [a])[i].jti == jti;
    }
    assert (accepted + [a])[|accepted|].jti == a.jti;
  }

  lemma AcceptSound(c: Cache, c': Cache, a: Accept)
    requires Sound(c) && a.jti !in c.used && c.clock <= a.at && c'.clock == a.at
    requires c'.used == c.used[a.jti := a.exp] && c'.accepted == c.accepted + [a] && c'.refused == c.refused
    requires c'.threads.Keys <= c.threads.Keys && forall t :: t in c'.threads ==> c'.threads[t] == c.threads[t]
    ensures Sound(c')
  {
    forall i | 0 <= i < |c'.accepted| ensures Remembered(c', c'.accepted[i]) {
      if i < |c.accepted| {
        assert Remembered(c, c.accepted[i]);
      }
    }
    forall i | 0 <= i < |c.accepted| && c.accepted[i].jti == a.jti ensures a.at > c.accepted[i].exp {
      assert Remembered(c, c.accepted[i]);
    }
    SeenGrows(c.accepted, a);
    forall k | 0 <= k < |c'.refused| ensures c'.accepted[..c'.refused[k].after] == c.accepted[..c.refused[k].after] {}
  }

  lemma CheckSound(c: Cache, s: Step)
    requires Sound(c) && s.LockedCheck? && c.clock <= s.now
    ensures Sound(Next(c, s))
  {
    var c' := Next(c, s);
    if c'.accepted != c.accepted {
      var th := c.threads[s.thread];
      AcceptSound(c, c', Accept(th.jti, th.exp, s.now));
    } else {
      assert c.accepted[..|c.accepted|] == c.accepted;
      forall i | 0 <= i < |c.accepted| ensures Remembered(c', c'.accepted[i]) {
        assert Remembered(c, c.accepted[i]);
      }
    }
  }

  lemma CleanupSound(c: Cache, s: Step)
    requires Sound(c) && s.LockedCleanup? && c.clock <= s.now
    ensures Sound(Next(c, s))
  {
    var c' := Next(c, s);
    forall i | 0 <= i < |c.accepted| ensures Remembered(c', c'.accepted[i]) {
      assert Remembered(c, c.accepted[i]);
    }
  }

  lemma BeginSound(c: Cache, s: Step)
    requires Sound(c) && s.Begin? && c.clock <= s.now
    ensures Sound(Next(c, s))
  {
    var c' := Next(c, s);
    forall i | 0 <= i < |c.accepted| ensures Remembered(c', c'.accepted[i]) {
      assert Remembered(c, c.accepted[i]);
    }
  }

  lemma StepSound(c: Cache, s: Step)
    requires Sound(c) && c.clock <= s.now
    ensures Sound(Next(c, s))
  {
    match s
    case LockedCheck(_, _) => CheckSound(c, s);
    case LockedCleanup(_, _) => CleanupSound(c, s);
    case Begin(_, _, _, _) => BeginSound(c, s);
  }

  lemma {:induction false} AlwaysSound(start: real, steps: seq<Step>)
    requires Forward(start, steps)
    ensures Sound(Played(start, steps))
    ensures Played(start, steps).clock == if steps == [] then start else steps[|steps| - 1].now
  {
    if steps != [] {
      AlwaysSound(start, steps[..|steps| - 1]);
      StepSound(Played(start, steps[..|steps| - 1]), steps[|steps| - 1]);
    }
  }

  /**
   In every interleaving and with every cleanup schedule, a jti accepted twice was
   accepted the second time only after its first expiry.
   */
  lemma NoReplay(start: real, steps: seq<Step>, i: nat, j: nat)
    requires Forward(start, steps)
    requires i < j < |Played(start, steps).accepted|
    requires Played(start, steps).accepted[i].jti == Played(start, steps).accepted[j].jti
    ensures Played(start, steps).accepted[j].at > Played(start, steps).accepted[i].exp
  {
    AlwaysSound(start, steps);
  }

  /** And nothing is refused that was not accepted before. */
  lemma RefusedOnlyIfSeen(start: real, steps: seq<Step>, k: nat)
    requires Forward(start, steps) && k < |Played(start, steps).refused|
    ensures var c := Played(start, steps);
            && c.refused[k].after <= |c.accepted|
            && SeenBefore(c.accepted[..c.refused[k].after], c.refused[k].jti)
  {
    AlwaysSound(start, steps);
  }

  // ---- when an assertion is accepted again ------------------------------

  /** Step k is a cleanup that runs. */
  ghost predicate SweepsAt(start: real, steps: seq<Step>, k: nat) {
    && k < |steps| && steps[k].LockedCleanup?
    && var c := Played(start, steps[..k]);
       && steps[k].thread in c.threads && c.threads[steps[k].thread].WantsCleanup?
       && c.threads[steps[k].thread].seen - c.last >= CLEANUP_INTERVAL
  }

  /** The time it goes by. */
  ghost function SeenAt(start: real, steps: seq<Step>, k: nat): real
    requires SweepsAt(start, steps, k)
  {
    Played(start, steps[..k]).threads[steps[k].thread].seen
  }

  ghost predicate SweepsPast(start: real, steps: seq<Step>, k: nat, exp: real) {
    SweepsAt(start, steps, k) && SeenAt(start, steps, k) > exp
  }

  /** Step k is a check of this jti that accepts it. */
  ghost predicate AcceptsAt(start: real, steps: seq<Step>, k: nat, jti: string, exp: real) {
    && ChecksAt(start, steps, k, jti, exp) && jti !in Played(start, steps[..k]).used
  }

  ghost predicate ChecksAt(start: real, steps: seq<Step>, k: nat, jti: string, exp: real) {
    && k < |steps| && steps[k].LockedCheck?
    && var c := Played(start, steps[..k]);
       steps[k].thread in c.threads && c.threads[steps[k].thread] == WantsCheck(jti, exp)
  }

  /** Between steps a and n a cleanup went by a time past exp. */
  ghost predicate SweptBetween(start: real, steps: seq<Step>, a: nat, n: nat, exp: real) {
    exists k: nat :: a < k < n && SweepsPast(start, steps, k, exp)
  }

  ghost predicate NoneAcceptedAt(start: real, steps: seq<Step>, k: nat, jti: string) {
    forall e :: !AcceptsAt(start, steps, k, jti, e)
  }

  ghost predicate NotAccepted(start: real, steps: seq<Step>, a: nat, n: nat, jti: string) {
    forall k: nat :: a < k < n ==> NoneAcceptedAt(start, steps, k, jti)
  }

  ghost predicate CachedUnless(swept: bool, used: map<string, real>, jti: string, exp: real) {
    if swept then jti !in used else jti in used && used[jti] == exp
  }

  /** Accepted at step a and not since, the jti is in the cache unless it was swept out. */
  lemma {:induction false} CachedUnlessSwept(start: real, steps: seq<Step>, a: nat, n: nat, jti: string, exp: real)
    requires AcceptsAt(start, steps, a, jti, exp) && a < n <= |steps| && NotAccepted(start, steps, a, n, jti)
    ensures CachedUnless(SweptBetween(start, steps, a, n, exp), Played(start, steps[..n]).used, jti, exp)
    decreases n
  {
    PlayedNext(start, steps, n);
    if n - 1 > a {
      NotAcceptedEarlier(start, steps, a, n, jti);
      CachedUnlessSwept(start, steps, a, n - 1, jti, exp);
      SweptOneMore(start, steps, a, n, exp);
      StepCaches(start, steps, n - 1, Played(start, steps[..n - 1]), jti, exp);
    } else {
      AcceptedIsCached(start, steps, a, jti, exp);
    }
  }

  lemma NotAcceptedEarlier(start: real, steps: seq<Step>, a: nat, n: nat, jti: string)
    requires a < n - 1 && NotAccepted(start, steps, a, n, jti)
    ensures NotAccepted(start, steps, a, n - 1, jti) && NoneAcceptedAt(start, steps, n - 1, jti)
  {}

  lemma PlayedNext(start: real, steps: seq<Step>, n: nat)
    requires 0 < n <= |steps|
    ensures Played(start, steps[..n]) == Next(Played(start, steps[..n - 1]), steps[n - 1])
  {
    assert steps[..n][..n - 1] == steps[..n - 1];
  }

  lemma AcceptedIsCached(start: real, steps: seq<Step>, a: nat, jti: string, exp: real)
    requires AcceptsAt(start, steps, a, jti, exp)
    ensures var used := Next(Played(start, steps[..a]), steps[a]).used; jti in used && used[jti] == exp
    ensures !SweptBetween(start, steps, a, a + 1, exp)
  {}

  lemma SweptOneMore(start: real, steps: seq<Step>, a: nat, n: nat, exp: real)
    requires a < n - 1
    ensures SweptBetween(start, steps, a, n, exp) <==>
            SweptBetween(start, steps, a, n - 1, exp) || SweepsPast(start, steps, n - 1, exp)
  {}

  /** A step takes an entry out exactly by sweeping it, and does not bring it back without accepting it. */
  lemma StepCaches(start: real, steps: seq<Step>, k: nat, c: Cache, jti: string, exp: real)
    requires k < |steps| && c == Played(start, steps[..k])
    requires NoneAcceptedAt(start, steps, k, jti)
    ensures var used := Next(c, steps[k]).used;
            && (jti !in c.used ==> jti !in used)
            && (jti in c.used && c.used[jti] == exp ==>
                  if SweepsPast(start, steps, k, exp) then jti !in used
                  else jti in used && used[jti] == exp)
  {
    var st := steps[k];
    if st.LockedCheck? && st.thread in c.threads && c.threads[st.thread].WantsCheck? {
      var th := c.threads[st.thread];
      assert th.jti == jti && jti !in c.used ==> AcceptsAt(start, steps, k, jti, th.exp);
    }
  }

  /** A check ends its call with one answer: accepted if the cache does not hold the jti, refused if it does. */
  lemma CheckAnswers(start: real, steps: seq<Step>, n: nat, jti: string, exp: real)
    requires ChecksAt(start, steps, n, jti, exp)
    ensures var c, c' := Played(start, steps[..n]), Played(start, steps[..n + 1]);
            && c'.threads == c.threads - {steps[n].thread} && c'.last == c.last
            && c'.accepted == c.accepted + (if jti in c.used then [] else [Accept(jti, exp, steps[n].now)])
            && c'.refused == c.refused + (if jti in c.used then [Refusal(jti, |c.accepted|)] else [])
  {
    PlayedNext(start, steps, n + 1);
  }

  /**
   Replay, exactly: a jti accepted at one step is accepted at its next check that does so
   if and only if a cleanup in between went by a time past its expiry.
   */
  lemma {:induction false} AcceptedAgainExactly(start: real, steps: seq<Step>, a: nat, b: nat, jti: string,
                                                exp: real, exp': real)
    requires AcceptsAt(start, steps, a, jti, exp) && a < b && ChecksAt(start, steps, b, jti, exp')
    requires NotAccepted(start, steps, a, b, jti)
    ensures AcceptsAt(start, steps, b, jti, exp') <==> SweptBetween(start, steps, a, b, exp)
  {
    CachedUnlessSwept(start, steps, a, b, jti, exp);
  }

  /** `jwt.decode` lets an assertion pass for this long after its expiry. */
  const LEEWAY := 60.0

  predicate Decodes(exp: real, now: real) { exp > now - LEEWAY }

  /** From a clean start: an assertion used again after its expiry, when a cleanup is due. */
  predicate ReuseInLeeway(exp: real, start: real, first: real, again: real) {
    && start <= first < start + CLEANUP_INTERVAL <= again
    && exp < again && Decodes(exp, again)
  }

  /** So an assertion can be accepted twice: it still decodes when a cleanup has forgotten it. */
  lemma LeewayReplays(jti: string, exp: real, start: real, first: real, again: real) returns (steps: seq<Step>)
    requires ReuseInLeeway(exp, start, first, again)
    ensures Forward(start, steps)
    ensures forall i :: 0 <= i < |steps| && steps[i].Begin? ==> Decodes(steps[i].exp, steps[i].now)
    ensures Played(start, steps).accepted == [Accept(jti, exp, first), Accept(jti, exp, again)]
  {
    var b1, c1 := Begin(1, jti, exp, first), LockedCheck(1, first);
    var b2, w2, c2 := Begin(2, jti, exp, again), LockedCleanup(2, again), LockedCheck(2, again);
    steps := [b1, c1, b2, w2, c2];
    InOrder(start, b1, c1, b2, w2, c2);
    var c := FirstRound(jti, exp, start, first, again);
    SecondRound(c, jti, exp, start, again);
  }

  lemma InOrder(start: real, a: Step, b: Step, c: Step, d: Step, e: Step)
    ensures Played(start, [a, b, c, d, e]) == Next(Next(Next(Next(Next(Played(start, []), a), b), c), d), e)
  {
    assert [a, b, c, d, e] == [] + [a] + [b] + [c] + [d] + [e];
    OneStep(start, [], a);
    OneStep(start, [] + [a], b);
    OneStep(start, [] + [a] + [b], c);
    OneStep(start, [] + [a] + [b] + [c], d);
    OneStep(start, [] + [a] + [b] + [c] + [d], e);
  }

  lemma FirstRound(jti: string, exp: real, start: real, first: real, again: real) returns (c: Cache)
    requires ReuseInLeeway(exp, start, first, again)
    ensures c == Next(Next(Next(Played(start, []), Begin(1, jti, exp, first)), LockedCheck(1, first)),
                      Begin(2, jti, exp, again))
    ensures c == Cache(map[jti := exp], start, again, map[2 := WantsCleanup(jti, exp, again)],
                       [Accept(jti, exp, first)], [])
  {
    var begun := Next(Played(start, []), Begin(1, jti, exp, first));
    assert begun == Cache(map[], start, first, map[1 := WantsCheck(jti, exp)], [], []);
    var checked := Next(begun, LockedCheck(1, first));
    assert checked == Cache(map[jti := exp], start, first, map[], [Accept(jti, exp, first)], []);
    c := Next(checked, Begin(2, jti, exp, again));
  }

  lemma SecondRound(c: Cache, jti: string, exp: real, start: real, again: real)
    requires c.used == map[jti := exp] && c.last == start && c.threads == map[2 := WantsCleanup(jti, exp, again)]
    requires again - start >= CLEANUP_INTERVAL && exp < again
    ensures Next(Next(c, LockedCleanup(2, again)), LockedCheck(2, again)).accepted ==
            c.accepted + [Accept(jti, exp, again)]
  {
    var swept := Next(c, LockedCleanup(2, again));
    assert CleanedUp(c.used, c.last, again).0 == map[];
    assert swept == c.(used := map[], last := again, clock := again, threads := map[2 := WantsCheck(jti, exp)]);
  }

  lemma OneStep(start: real, steps: seq<Step>, s: Step)
    ensures Played(start, steps + [s]) == Next(Played(start, steps), s)
  {
    assert (steps + [s])[..|steps|] == steps;
  }

  // ---- how often a cleanup runs -----------------------------------------

  /** The latest cleanup before step n went by this time; before any, the start stands for it. */
  ghost predicate LastSweep(start: real, steps: seq<Step>, n: nat, at: real) {
    && (forall k: nat :: k < n && SweepsAt(start, steps, k) ==> SeenAt(start, steps, k) <= at)
    && (at == start || exists k: nat :: k < n && SweepsAt(start, steps, k) && SeenAt(start, steps, k) == at)
  }

  /** That is what the cache goes by. */
  lemma {:induction false} LastIsLastSweep(start: real, steps: seq<Step>, n: nat)
    requires n <= |steps|
    ensures LastSweep(start, steps, n, Played(start, steps[..n]).last)
  {
    if n > 0 {
      var before, at := Played(start, steps[..n - 1]).last, Played(start, steps[..n]).last;
      LastIsLastSweep(start, steps, n - 1);
      SweepMovesLast(start, steps, n);
      LaterSweep(start, steps, n, before, at);
    }
  }

  lemma LaterSweep(start: real, steps: seq<Step>, n: nat, before: real, at: real)
    requires n > 0 && LastSweep(start, steps, n - 1, before)
    requires if SweepsAt(start, steps, n - 1) then at == SeenAt(start, steps, n - 1) >= before else at == before
    ensures LastSweep(start, steps, n, at)
  {
    if !SweepsAt(start, steps, n - 1) && before != start {
      var k: nat :| k < n - 1 && SweepsAt(start, steps, k) && SeenAt(start, steps, k) == before;
      assert k < n && SeenAt(start, steps, k) == at;
    }
  }

  lemma SweepMovesLast(start: real, steps: seq<Step>, n: nat)
    requires 0 < n <= |steps|
    ensures var before := Played(start, steps[..n - 1]).last;
            Played(start, steps[..n]).last ==
            if SweepsAt(start, steps, n - 1) then SeenAt(start, steps, n - 1) else before
    ensures SweepsAt(start, steps, n - 1) ==>
              SeenAt(start, steps, n - 1) - Played(start, steps[..n - 1]).last >= 60.0
  {
    PlayedNext(start, steps, n);
  }

  /** So cleanups that run are at least a minute apart, by the times they go by. */
  lemma CleanupsApart(start: real, steps: seq<Step>, a: nat, b: nat)
    requires a < b && SweepsAt(start, steps, a) && SweepsAt(start, steps, b)
    ensures SeenAt(start, steps, b) - SeenAt(start, steps, a) >= 60.0
  {
    LastIsLastSweep(start, steps, b);
  }

  /** And a call a minute or more after the last one does clean up before it checks. */
  lemma DueIsCleaned(start: real, steps: seq<Step>, n: nat, thread: nat, jti: string, exp: real, now: real)
    requires n < |steps| && steps[n] == Begin(thread, jti, exp, now) && thread !in Played(start, steps[..n]).threads
    ensures var c := Played(start, steps[..n + 1]);
            && thread in c.threads
            && (c.threads[thread].WantsCleanup? <==> now - Played(start, steps[..n]).last >= 60.0)
  {
    PlayedNext(start, steps, n + 1);
  }

  // ---- what a cleanup leaves --------------------------------------------

  /**
   In every run a cleanup that runs leaves no entry whose expiry is before the time it
   goes by, and still every acceptance whose expiry is not before the present.
   */
  lemma {:induction false} CleanupLeavesNoExpired(start: real, steps: seq<Step>)
    requires Forward(start, steps) && steps != [] && SweepsAt(start, steps, |steps| - 1)
    ensures var c := Played(start, steps);
            && (forall jti :: jti in c.used ==> c.used[jti] >= SeenAt(start, steps, |steps| - 1))
            && (forall i :: 0 <= i < |c.accepted| && c.accepted[i].exp >= c.clock ==>
                  c.accepted[i].jti in c.used && c.used[c.accepted[i].jti] == c.accepted[i].exp)
  {
    AlwaysSound(start, steps);
    var c := Played(start, steps);
    forall i | 0 <= i < |c.accepted| && c.accepted[i].exp >= c.clock
      ensures c.accepted[i].jti in c.used && c.used[c.accepted[i].jti] == c.accepted[i].exp
    {
      assert Remembered(c, c.accepted[i]);
    }
  }
}
