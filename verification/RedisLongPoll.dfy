/**
 The long poll on the Redis store, over every interleaving of its tasks: whatever is new
 for a poll has its signal still to come, or one of four causes for missing it.
 */
module RedisLongPoll {
  import opened PyList
  import opened RelayTypes
  import opened History
  import opened Wakeup
  import opened RedisTasks

  // ---- the invariant ----------------------------------------------------

  /** A read would find something for such a poll. */
  ghost predicate News(s: Server, channel: string, since: Since) {
    channel in s.names && NewsIn(ListAt(s, channel), since)
  }

  /** Some add has shown something on the channel and will still signal it. */
  ghost predicate SignalDue(h: Hub, channel: string) {
    exists t :: t in h.tasks && Owes(h.tasks[t], channel)
  }

  /** Whatever is new for a poll has its signal still to come, or there is a cause for missing it. */
  ghost predicate Accounted(h: Hub, channel: string, since: Since, causes: set<Cause>) {
    News(h.server, channel, since) ==> causes != {} || SignalDue(h, channel)
  }

  ghost predicate WatcherSound(h: Hub, w: Task) {
    && (w.Registering? ==> Accounted(h, w.channel, w.since, w.causes))
    && (w.Sleeping? ==> w.event < h.next)
    && (w.Sleeping? && w.event !in h.fired ==>
          && Accounted(h, w.channel, w.since, w.causes)
          && (ChannelDeleted in w.causes || (w.channel in h.events && h.events[w.channel] == w.event)))
  }

  ghost predicate Sound(h: Hub) {
    && (forall c :: c in h.events ==> h.events[c] < h.next)
    && (forall t :: t in h.tasks ==> WatcherSound(h, h.tasks[t]))
  }

  // ---- how a step keeps it ----------------------------------------------

  /** The step shows nothing on the channel and takes no signal due away from it. */
  ghost predicate Quiet(h: Hub, g: Hub, channel: string) {
    && (SignalDue(h, channel) ==> SignalDue(g, channel))
    && (SignalDue(g, channel) || (forall since :: News(g.server, channel, since) ==> News(h.server, channel, since)))
  }

  /** The same poll, perhaps with more causes. */
  ghost predicate SamePoll(w: Task, v: Task) {
    || (w.Registering? && v.Registering? && v.channel == w.channel && v.since == w.since && w.causes <= v.causes)
    || (w.Sleeping? && v.Sleeping? && v.channel == w.channel && v.since == w.since && w.causes <= v.causes &&
        v.event == w.event)
  }

  /** Whatever happens on the channel, this poll has a cause or has been woken. */
  ghost predicate Excused(g: Hub, v: Task) {
    (v.Registering? && v.causes != {}) || (v.Sleeping? && (v.event in g.fired || v.causes != {}))
  }

  ghost predicate PollsKept(h: Hub, g: Hub) {
    forall t :: t in g.tasks && (g.tasks[t].Registering? || g.tasks[t].Sleeping?) ==>
      t in h.tasks && SamePoll(h.tasks[t], g.tasks[t])
  }

  /** Events only fire, and a channel keeps its event unless its sleepers are woken or marked. */
  ghost predicate EventsKept(h: Hub, g: Hub) {
    && h.fired <= g.fired && h.next <= g.next
    && (forall c :: c in g.events ==> g.events[c] < g.next)
    && (forall c :: c in h.events ==>
          (c in g.events && g.events[c] == h.events[c]) || h.events[c] in g.fired || AllDeleted(g, c))
  }

  ghost predicate AllDeleted(g: Hub, channel: string) {
    forall t :: t in g.tasks && g.tasks[t].Sleeping? && g.tasks[t].channel == channel ==>
      ChannelDeleted in g.tasks[t].causes
  }

  lemma PollKept(h: Hub, g: Hub, t: nat)
    requires Sound(h) && PollsKept(h, g) && EventsKept(h, g) && t in g.tasks
    requires (g.tasks[t].Registering? || g.tasks[t].Sleeping?)
    requires Excused(g, g.tasks[t]) || Quiet(h, g, g.tasks[t].channel)
    ensures WatcherSound(g, g.tasks[t])
  {
    var w, v := h.tasks[t], g.tasks[t];
    assert WatcherSound(h, w);
    if !Excused(g, v) {
      StillAccounted(h, g, v.channel, v.since, w.causes, v.causes);
    }
  }

  lemma StillAccounted(h: Hub, g: Hub, channel: string, since: Since, causes: set<Cause>, more: set<Cause>)
    requires Quiet(h, g, channel) && Accounted(h, channel, since, causes) && causes <= more
    ensures Accounted(g, channel, since, more)
  {}

  /** A step that keeps the polls and the events, and excuses those it is not quiet for, keeps the invariant. */
  lemma Kept(h: Hub, g: Hub)
    requires Sound(h) && PollsKept(h, g) && EventsKept(h, g)
    requires forall t :: t in g.tasks && (g.tasks[t].Registering? || g.tasks[t].Sleeping?) ==>
               Excused(g, g.tasks[t]) || Quiet(h, g, g.tasks[t].channel)
    ensures Sound(g)
  {
    forall t | t in g.tasks ensures WatcherSound(g, g.tasks[t]) {
      if g.tasks[t].Registering? || g.tasks[t].Sleeping? {
        PollKept(h, g, t);
      }
    }
  }

  /** A channel whose list and name are not touched, by a task that owes it nothing, stays quiet. */
  lemma QuietElsewhere(h: Hub, g: Hub, t: nat, channel: string)
    requires channel in g.server.names <==> channel in h.server.names
    requires ListAt(g.server, channel) == ListAt(h.server, channel)
    requires forall u :: u != t && u in h.tasks && Owes(h.tasks[u], channel) ==> u in g.tasks && Owes(g.tasks[u], channel)
    requires t in h.tasks && Owes(h.tasks[t], channel) ==> t in g.tasks && Owes(g.tasks[t], channel)
    ensures Quiet(h, g, channel)
  {
    if u :| u in h.tasks && Owes(h.tasks[u], channel) {
      assert u in g.tasks && Owes(g.tasks[u], channel);
    }
  }

  /** So does one that only loses messages or its name. */
  lemma QuietWhenLess(h: Hub, g: Hub, t: nat, channel: string)
    requires channel in g.server.names ==> channel in h.server.names
    requires forall m :: m in ListAt(g.server, channel) ==> m in ListAt(h.server, channel)
    requires forall u :: u != t && u in h.tasks && Owes(h.tasks[u], channel) ==> u in g.tasks && Owes(g.tasks[u], channel)
    requires t in h.tasks && Owes(h.tasks[t], channel) ==> t in g.tasks && Owes(g.tasks[t], channel)
    ensures Quiet(h, g, channel)
  {
    if u :| u in h.tasks && Owes(h.tasks[u], channel) {
      assert u in g.tasks && Owes(g.tasks[u], channel);
    }
    forall since | News(g.server, channel, since) ensures News(h.server, channel, since) {
      LessNews(ListAt(h.server, channel), ListAt(g.server, channel), since);
    }
  }

  lemma LessNews(ms: seq<Message>, less: seq<Message>, since: Since)
    requires NewsIn(less, since) && forall m :: m in less ==> m in ms
    ensures NewsIn(ms, since)
  {
    if since.NoSince? {
      assert less[0] in ms;
    }
  }

  // ---- each kind of step ------------------------------------------------

  /** Moving a task that is no poll from one stage to another leaves every poll as it was. */
  lemma MovedPolls(h: Hub, g: Hub, t: nat)
    requires forall u :: u in g.tasks && u != t ==> u in h.tasks && g.tasks[u] == h.tasks[u]
    requires t in g.tasks ==> !g.tasks[t].Registering? && !g.tasks[t].Sleeping?
    ensures PollsKept(h, g)
  {}

  lemma MarkedPolls(h: Hub, t: nat, channel: string, cause: Cause, g: Hub)
    requires g.tasks == Marked(h.tasks - {t}, channel, cause)
    ensures PollsKept(h, g)
    ensures forall u :: u in g.tasks && Concerns(g.tasks[u], channel, cause) ==> cause in g.tasks[u].causes
    ensures forall u, c :: u != t && u in h.tasks && Owes(h.tasks[u], c) ==> u in g.tasks && Owes(g.tasks[u], c)
  {}

  /** Steps that touch neither the server nor the events, by a task that is no poll and owes nothing yet. */
  lemma PlainStep(h: Hub, g: Hub, t: nat)
    requires Sound(h) && g.server == h.server && g.events == h.events && g.fired == h.fired && g.next == h.next
    requires forall u :: u != t ==> (u in g.tasks <==> u in h.tasks) && (u in g.tasks ==> g.tasks[u] == h.tasks[u])
    requires t in h.tasks ==> !Owes(h.tasks[t], h.tasks[t].channel)
    requires t in g.tasks ==> !g.tasks[t].Registering? && !g.tasks[t].Sleeping?
    ensures Sound(g)
  {
    MovedPolls(h, g, t);
    forall u | u in g.tasks ensures Quiet(h, g, g.tasks[u].channel) {
      QuietElsewhere(h, g, t, g.tasks[u].channel);
    }
    Kept(h, g);
  }

  /** Steps that write one channel's list or name, by a task that is no poll. */
  lemma WriteStep(h: Hub, g: Hub, t: nat, channel: string)
    requires Sound(h) && g.events == h.events && g.fired == h.fired && g.next == h.next
    requires PollsKept(h, g) && t in h.tasks && h.tasks[t].channel == channel
    requires forall u, c :: u != t && u in h.tasks && Owes(h.tasks[u], c) ==> u in g.tasks && Owes(g.tasks[u], c)
    requires forall c :: c != channel ==>
               (c in g.server.names <==> c in h.server.names) && ListAt(g.server, c) == ListAt(h.server, c)
    requires Quiet(h, g, channel) ||
             forall u :: u in g.tasks && Watches(g.tasks[u], channel) ==> Excused(g, g.tasks[u])
    ensures Sound(g)
  {
    forall u | u in g.tasks && Watches(g.tasks[u], g.tasks[u].channel)
      ensures Excused(g, g.tasks[u]) || Quiet(h, g, g.tasks[u].channel)
    {
      if g.tasks[u].channel != channel {
        QuietElsewhere(h, g, t, g.tasks[u].channel);
      }
    }
    Kept(h, g);
  }

  /** A task that now owes the channel a signal makes whatever it shows accounted for. */
  lemma OwingIsQuiet(h: Hub, g: Hub, t: nat, channel: string)
    requires t in g.tasks && Owes(g.tasks[t], channel)
    ensures Quiet(h, g, channel)
  {}

  lemma ClaimSound(h: Hub, t: nat, c: string, m: Message)
    requires Sound(h) && t in h.tasks && h.tasks[t] == Claiming(c, m)
    ensures Sound(At(h.(server := h.server.(names := h.server.names + {c})), t, Pushing(c, m, true)))
  {
    var g := At(h.(server := h.server.(names := h.server.names + {c})), t, Pushing(c, m, true));
    MovedPolls(h, g, t);
    OwingIsQuiet(h, g, t, c);
    WriteStep(h, g, t, c);
  }

  lemma PushSound(h: Hub, t: nat, c: string, m: Message)
    requires Sound(h) && t in h.tasks && h.tasks[t].Pushing? && h.tasks[t].channel == c
    ensures Sound(PushGoes(h, t, c, m))
  {
    var g := PushGoes(h, t, c, m);
    PushPolls(h, t, c, m);
    OwingIsQuiet(h, g, t, c);
    WriteStep(h, g, t, c);
  }

  lemma PushPolls(h: Hub, t: nat, c: string, m: Message)
    requires t in h.tasks && h.tasks[t].Pushing? && h.tasks[t].channel == c
    ensures PollsKept(h, PushGoes(h, t, c, m))
    ensures forall u, d :: u != t && u in h.tasks && Owes(h.tasks[u], d) ==>
              u in PushGoes(h, t, c, m).tasks && Owes(PushGoes(h, t, c, m).tasks[u], d)
  {}

  lemma TrimSound(h: Hub, t: nat, c: string, n: int)
    requires Sound(h) && t in h.tasks && h.tasks[t] == Trimming(c)
    ensures Sound(At(h.(server := Written(h.server, c, LastN(ListAt(h.server, c), n))), t, Signalling(c)))
  {
    var g := At(h.(server := Written(h.server, c, LastN(ListAt(h.server, c), n))), t, Signalling(c));
    MovedPolls(h, g, t);
    OwingIsQuiet(h, g, t, c);
    WriteStep(h, g, t, c);
  }

  lemma SignalSound(h: Hub, t: nat, c: string)
    requires Sound(h) && t in h.tasks && h.tasks[t] == Signalling(c)
    ensures Sound(SignalGoes(h, t, c))
  {
    var g := SignalGoes(h, t, c);
    MarkedPolls(h, t, c, SignalledInGap, g);
    forall u | u in g.tasks && Watches(g.tasks[u], g.tasks[u].channel)
      ensures Excused(g, g.tasks[u]) || Quiet(h, g, g.tasks[u].channel)
    {
      var v := g.tasks[u];
      if v.channel != c {
        QuietElsewhere(h, g, t, v.channel);
      } else if v.Sleeping? {
        assert WatcherSound(h, h.tasks[u]);
      } else {
        assert Concerns(v, c, SignalledInGap);
      }
    }
    Kept(h, g);
  }

  lemma ForgetSound(h: Hub, t: nat, c: string)
    requires Sound(h) && t in h.tasks && h.tasks[t] == Forgetting(c)
    ensures Sound(ForgetGoes(h, t, c))
  {
    var g := ForgetGoes(h, t, c);
    MarkedPolls(h, t, c, ChannelDeleted, g);
    forall u | u in g.tasks && g.tasks[u].Sleeping? && g.tasks[u].channel == c
      ensures ChannelDeleted in g.tasks[u].causes
    {
      assert Concerns(g.tasks[u], c, ChannelDeleted);
    }
    assert AllDeleted(g, c);
    forall u | u in g.tasks && Watches(g.tasks[u], g.tasks[u].channel) ensures Quiet(h, g, g.tasks[u].channel) {
      QuietElsewhere(h, g, t, g.tasks[u].channel);
    }
    Kept(h, g);
  }

  /** Emptying the list or taking the name away. */
  lemma LossSound(h: Hub, g: Hub, t: nat, c: string)
    requires Sound(h) && g.events == h.events && g.fired == h.fired && g.next == h.next
    requires t in h.tasks && h.tasks[t].channel == c && !Owes(h.tasks[t], c)
    requires forall u :: u != t ==> (u in g.tasks <==> u in h.tasks) && (u in g.tasks ==> g.tasks[u] == h.tasks[u])
    requires t in g.tasks ==> !g.tasks[t].Registering? && !g.tasks[t].Sleeping?
    requires g.server == Written(h.server, c, []) || g.server == h.server.(names := h.server.names - {c})
    ensures Sound(g)
  {
    MovedPolls(h, g, t);
    QuietWhenLess(h, g, t, c);
    WriteStep(h, g, t, c);
  }

  lemma RewriteSound(h: Hub, t: nat, w: Task)
    requires Sound(h) && t in h.tasks && h.tasks[t] == w && w.Rewriting?
    ensures Sound(RewriteGoes(h, t, w))
  {
    var g, c := RewriteGoes(h, t, w), w.channel;
    var kept := Live(w.read, {w.id});
    if Restored(h, w) == {} {
      MovedPolls(h, g, t);
      forall m | m in kept ensures m in ListAt(h.server, c) {
        assert m !in Restored(h, w);
      }
      QuietWhenLess(h, g, t, c);
    } else {
      var marked := h.(tasks := Marked(h.tasks - {t}, c, PutBack));
      MarkedPolls(h, t, c, PutBack, marked);
      forall u | u in g.tasks && Watches(g.tasks[u], c) ensures Excused(g, g.tasks[u]) {
        assert g.tasks[u] == marked.tasks[u] && Concerns(marked.tasks[u], c, PutBack);
      }
      NotedPolls(h, marked, g, t, c, Restored(h, w));
    }
    WriteStep(h, g, t, c);
  }

  lemma NotedPolls(h: Hub, marked: Hub, g: Hub, t: nat, c: string, ms: set<Message>)
    requires PollsKept(h, marked) && g.tasks == WithArrivals(marked.tasks, c, ms)
    requires forall u, d :: u != t && u in h.tasks && Owes(h.tasks[u], d) ==>
               u in marked.tasks && Owes(marked.tasks[u], d)
    ensures PollsKept(h, g)
    ensures forall u, d :: u != t && u in h.tasks && Owes(h.tasks[u], d) ==> u in g.tasks && Owes(g.tasks[u], d)
  {}

  lemma LeaveSound(h: Hub, t: nat, w: Task)
    requires Sound(h) && t in h.tasks && h.tasks[t] == w
    ensures Sound(Leaving(h, t, w))
  {
    var g, c := Leaving(h, t, w), w.channel;
    if Owes(w, c) {
      MarkedPolls(h, t, c, AddRaised, g);
      forall u | u in g.tasks && Watches(g.tasks[u], c) ensures Excused(g, g.tasks[u]) {
        assert Concerns(g.tasks[u], c, AddRaised);
      }
      WriteStep(h, g, t, c);
    } else {
      PlainStep(h, g, t);
    }
  }

  // ---- the polls' own steps ---------------------------------------------

  /** A poll that appears or moves on leaves the others alone and must be sound itself. */
  lemma PollStep(h: Hub, g: Hub, t: nat)
    requires Sound(h) && g.server == h.server && g.fired == h.fired && h.next <= g.next && t in g.tasks
    requires t in h.tasks ==> !Owes(h.tasks[t], h.tasks[t].channel)
    requires g.tasks == h.tasks[t := g.tasks[t]] && WatcherSound(g, g.tasks[t])
    requires forall c :: c in h.events ==> c in g.events && g.events[c] == h.events[c]
    requires forall c :: c in g.events ==> g.events[c] < g.next
    ensures Sound(g)
  {
    forall u | u in g.tasks ensures WatcherSound(g, g.tasks[u]) {
      if u != t {
        var v := g.tasks[u];
        assert WatcherSound(h, h.tasks[u]);
        QuietElsewhere(h, g, t, v.channel);
        if v.Registering? || v.Sleeping? {
          assert Accounted(h, v.channel, v.since, v.causes) ==> Accounted(g, v.channel, v.since, v.causes);
        }
      }
    }
  }

  lemma ReadSound(h: Hub, t: nat, c: string, since: Since)
    requires Sound(h) && t in h.tasks && h.tasks[t] == Reading(c, since)
    ensures Sound(ReadGoes(h, t, c, since))
  {
    var g := ReadGoes(h, t, c, since);
    NewsIsSelected(ListAt(h.server, c), since);
    if t in g.tasks {
      PollStep(h, g, t);
    } else {
      PlainStep(h, g, t);
    }
  }

  lemma RegisterSound(h: Hub, t: nat, w: Task)
    requires Sound(h) && t in h.tasks && h.tasks[t] == w && w.Registering?
    ensures Sound(RegisterGoes(h, t, w))
  {
    var g := RegisterGoes(h, t, w);
    assert WatcherSound(h, w);
    QuietElsewhere(h, g, t, w.channel);
    StillAccounted(h, g, w.channel, w.since, w.causes, w.causes);
    PollStep(h, g, t);
  }

  lemma BeginSound(h: Hub, t: nat, r: Request)
    requires Sound(h) && t !in h.tasks
    ensures Sound(Beginning(h, t, r))
  {
    var g := Beginning(h, t, r);
    if r.WaitForNew? && r.channel !in h.server.names {
      PollStep(h, g, t);
    } else {
      PlainStep(h, g, t);
    }
  }

  // ---- every interleaving -----------------------------------------------

  lemma GoSound(cfg: Config, h: Hub, t: nat, w: Task)
    requires Sound(h) && t in h.tasks && h.tasks[t] == w
    ensures Sound(Going(cfg, h, t, w))
  {
    match w
    case Counting(_, _) => PlainStep(h, Going(cfg, h, t, w), t);
    case Claiming(c, m) => ClaimSound(h, t, c, m);
    case Pushing(c, m, _) => PushSound(h, t, c, m);
    case Trimming(c) => TrimSound(h, t, c, cfg.maxPerChannel);
    case Signalling(c) => SignalSound(h, t, c);
    case Clearing(c) => LossSound(h, Going(cfg, h, t, w), t, c);
    case DroppingList(c) => LossSound(h, Going(cfg, h, t, w), t, c);
    case DroppingName(c) => LossSound(h, Going(cfg, h, t, w), t, c);
    case Forgetting(c) => ForgetSound(h, t, c);
    case Listing(_, _, _) => PlainStep(h, Going(cfg, h, t, w), t);
    case Rewriting(_, _, _, _) => RewriteSound(h, t, w);
    case Reading(c, since) => ReadSound(h, t, c, since);
    case Registering(_, _, _) => RegisterSound(h, t, w);
    case Sleeping(_, _, _, _) =>
  }

  lemma StepSound(cfg: Config, h: Hub, s: Step)
    requires Sound(h)
    ensures Sound(Next(cfg, h, s))
  {
    if s.Begin? {
      if s.task !in h.tasks {
        BeginSound(h, s.task, s.request);
      }
    } else if s.task in h.tasks {
      if s.Go? {
        GoSound(cfg, h, s.task, h.tasks[s.task]);
      } else {
        LeaveSound(h, s.task, h.tasks[s.task]);
      }
    }
  }

  lemma {:induction false} AlwaysAccounted(cfg: Config, steps: seq<Step>)
    ensures Sound(Played(cfg, steps))
  {
    if steps != [] {
      AlwaysAccounted(cfg, steps[..|steps| - 1]);
      StepSound(cfg, Played(cfg, steps[..|steps| - 1]), steps[|steps| - 1]);
    }
  }

  /**
   The next signal on its channel wakes a sleeper whose channel was not deleted under it,
   whatever else it has missed.
   */
  lemma {:induction false} NextSignalWakes(cfg: Config, steps: seq<Step>, t: nat, u: nat)
    requires var h := Played(cfg, steps);
             && t in h.tasks && h.tasks[t].Sleeping? && ChannelDeleted !in h.tasks[t].causes
             && u in h.tasks && h.tasks[u] == Signalling(h.tasks[t].channel)
    ensures var h, g := Played(cfg, steps), Next(cfg, Played(cfg, steps), Go(u));
            && t in g.tasks && g.tasks[t] == h.tasks[t] && h.tasks[t].event in g.fired
  {
    AlwaysAccounted(cfg, steps);
    assert WatcherSound(Played(cfg, steps), Played(cfg, steps).tasks[t]);
  }

  // ---- what the causes are ----------------------------------------------

  /** The step is such an event on the channel. */
  ghost predicate Disturbs(h: Hub, s: Step, channel: string, cause: Cause) {
    && (s.Go? || s.Leave?) && s.task in h.tasks && h.tasks[s.task].channel == channel
    && var w := h.tasks[s.task];
       match cause
       case SignalledInGap => s.Go? && w.Signalling?
       case PutBack => s.Go? && w.Rewriting? && Restored(h, w) != {}
       case AddRaised => s.Leave? && Owes(w, channel)
       case ChannelDeleted => s.Go? && w.Forgetting?
  }

  /** Task t watches the channel before step k. */
  ghost predicate WatchesAt(cfg: Config, steps: seq<Step>, k: nat, t: nat, channel: string) {
    && k <= |steps|
    && var h := Played(cfg, steps[..k]);
       t in h.tasks && Watches(h.tasks[t], channel)
  }

  /** It has watched the channel at every moment from step i on, so it is still the same poll. */
  ghost predicate WatchesSince(cfg: Config, steps: seq<Step>, i: nat, t: nat, channel: string) {
    forall k: nat :: i <= k <= |steps| ==> WatchesAt(cfg, steps, k, t, channel)
  }

  /** It happened to this poll: at step i, while it was in the gap or asleep. */
  ghost predicate Happened(cfg: Config, steps: seq<Step>, i: nat, t: nat, channel: string, cause: Cause) {
    && i < |steps| && WatchesSince(cfg, steps, i, t, channel)
    && var h := Played(cfg, steps[..i]);
       t in h.tasks && Concerns(h.tasks[t], channel, cause) && Disturbs(h, steps[i], channel, cause)
  }

  /** What happened to a poll that goes on watching still has. */
  lemma HappenedEarlier(cfg: Config, steps: seq<Step>, n: nat, i: nat, t: nat, channel: string, cause: Cause)
    requires n + 1 == |steps| && Happened(cfg, steps[..n], i, t, channel, cause)
    requires WatchesAt(cfg, steps, n + 1, t, channel)
    ensures Happened(cfg, steps, i, t, channel, cause)
  {
    forall k: nat | i <= k <= n + 1 ensures WatchesAt(cfg, steps, k, t, channel) {
      if k <= n {
        assert WatchesAt(cfg, steps[..n], k, t, channel);
        assert steps[..n][..k] == steps[..k];
      }
    }
    assert steps[..n][..i] == steps[..i];
  }

  lemma HappenedNow(cfg: Config, steps: seq<Step>, n: nat, t: nat, channel: string, cause: Cause)
    requires n + 1 == |steps| && WatchesAt(cfg, steps, n, t, channel) && WatchesAt(cfg, steps, n + 1, t, channel)
    requires var h := Played(cfg, steps[..n]);
             Concerns(h.tasks[t], channel, cause) && Disturbs(h, steps[n], channel, cause)
    ensures Happened(cfg, steps, n, t, channel, cause)
  {}

  /** A cause a poll has was there before the step, or is the step. */
  ghost predicate CauseFrom(h: Hub, s: Step, t: nat, v: Task, cause: Cause)
    requires v.Registering? || v.Sleeping?
  {
    && t in h.tasks && Watches(h.tasks[t], v.channel)
    && (cause in h.tasks[t].causes || (Concerns(h.tasks[t], v.channel, cause) && Disturbs(h, s, v.channel, cause)))
  }

  lemma GoCause(cfg: Config, h: Hub, s: Step, t: nat, cause: Cause)
    requires s.Go? && s.task in h.tasks
    requires var g := Going(cfg, h, s.task, h.tasks[s.task]);
             t in g.tasks && Watches(g.tasks[t], g.tasks[t].channel) && cause in g.tasks[t].causes
    ensures CauseFrom(h, s, t, Going(cfg, h, s.task, h.tasks[s.task]).tasks[t], cause)
  {
    var w := h.tasks[s.task];
    if t != s.task {
      GoChanges(cfg, h, s.task, w, t);
      ChangedCause(h, s, w, t, cause);
    } else {
      OwnCause(cfg, h, t, w);
    }
  }

  lemma ChangedCause(h: Hub, s: Step, w: Task, t: nat, cause: Cause)
    requires s.Go? && s.task in h.tasks && h.tasks[s.task] == w && t in h.tasks
    requires var v := Changed(h, w, h.tasks[t]); Watches(v, v.channel) && cause in v.causes
    ensures CauseFrom(h, s, t, Changed(h, w, h.tasks[t]), cause)
  {}

  /** Only a poll becomes a poll with a cause, by registering with those it has. */
  lemma OwnCause(cfg: Config, h: Hub, t: nat, w: Task)
    requires t in h.tasks && h.tasks[t] == w
    requires t in Going(cfg, h, t, w).tasks && Watches(Going(cfg, h, t, w).tasks[t], Going(cfg, h, t, w).tasks[t].channel)
    ensures var v := Going(cfg, h, t, w).tasks[t];
            v.causes == {} || (Watches(w, v.channel) && v.causes == w.causes)
  {}

  lemma CauseStep(cfg: Config, h: Hub, s: Step, t: nat, cause: Cause)
    requires var g := Next(cfg, h, s);
             t in g.tasks && Watches(g.tasks[t], g.tasks[t].channel) && cause in g.tasks[t].causes
    ensures CauseFrom(h, s, t, Next(cfg, h, s).tasks[t], cause)
  {
    if s.Go? && s.task in h.tasks {
      GoCause(cfg, h, s, t, cause);
    }
  }

  lemma {:induction false} CauseHappened(cfg: Config, steps: seq<Step>, t: nat, cause: Cause)
    requires var h := Played(cfg, steps);
             t in h.tasks && Watches(h.tasks[t], h.tasks[t].channel) && cause in h.tasks[t].causes
    ensures exists i: nat :: Happened(cfg, steps, i, t, Played(cfg, steps).tasks[t].channel, cause)
  {
    if steps != [] {
      var n := |steps| - 1;
      var h, c := Played(cfg, steps[..n]), Played(cfg, steps).tasks[t].channel;
      CauseStep(cfg, h, steps[n], t, cause);
      assert steps[..n + 1] == steps;
      if cause in h.tasks[t].causes {
        CauseHappened(cfg, steps[..n], t, cause);
        var i: nat :| Happened(cfg, steps[..n], i, t, c, cause);
        HappenedEarlier(cfg, steps, n, i, t, c, cause);
      } else {
        HappenedNow(cfg, steps, n, t, c, cause);
      }
    }
  }

  /**
   When a message can be missed: if a poll sleeps on although there is something for it,
   with no signal on its way, then in its gap a signal was sent, or while it was in the
   gap or asleep a deletion put a message back that had left the channel, or an add raised
   between showing and signalling, or the channel was deleted while it slept.
   */
  lemma {:induction false} MissedOnlyForCause(cfg: Config, steps: seq<Step>, t: nat)
    requires t in Played(cfg, steps).tasks && Played(cfg, steps).tasks[t].Sleeping?
    ensures var h := Played(cfg, steps);
            var w := h.tasks[t];
            News(h.server, w.channel, w.since) && w.event !in h.fired && !SignalDue(h, w.channel) ==>
              exists i: nat, cause :: Happened(cfg, steps, i, t, w.channel, cause)
  {
    AlwaysAccounted(cfg, steps);
    var h := Played(cfg, steps);
    var w := h.tasks[t];
    assert WatcherSound(h, w);
    if News(h.server, w.channel, w.since) && w.event !in h.fired && !SignalDue(h, w.channel) {
      var cause :| cause in w.causes;
      CauseHappened(cfg, steps, t, cause);
    }
  }
}
