/**
 What the deletion of one message overwrites on the Redis store, where it reads the list
 and rewrites it in two commands.
 */
module RedisDeletion {
  import opened RelayTypes
  import opened History
  import opened RedisTasks

  // ---- what a deletion overwrites ---------------------------------------

  /** What a deletion under way has not read has arrived since. */
  ghost predicate ReadOrArrived(h: Hub, w: Task) {
    w.Rewriting? ==> forall m :: m in ListAt(h.server, w.channel) ==> m in w.read || m in w.arrived
  }

  ghost predicate Tracks(h: Hub) { forall t :: t in h.tasks ==> ReadOrArrived(h, h.tasks[t]) }

  /** The step brings the message into the channel's list. */
  ghost predicate Brings(cfg: Config, h: Hub, s: Step, channel: string, m: Message) {
    m in ListAt(Next(cfg, h, s).server, channel) && m !in ListAt(h.server, channel)
  }

  /** A deletion under way stays one, and notes whatever a step brings in. */
  ghost predicate Notes(cfg: Config, h: Hub, s: Step, v: Task, v': Task)
    requires v.Rewriting? && v'.Rewriting?
  {
    && v'.channel == v.channel && v'.read == v.read && v'.id == v.id && v.arrived <= v'.arrived
    && forall m :: Brings(cfg, h, s, v.channel, m) ==> m in v'.arrived
  }

  /** Only a push and a rewrite bring something in. */
  lemma GoBrings(cfg: Config, h: Hub, t: nat, w: Task, m: Message)
    requires t in h.tasks && h.tasks[t] == w && Brings(cfg, h, Go(t), w.channel, m)
    ensures (w.Pushing? && m == w.message) || (w.Rewriting? && m in Restored(h, w))
  {}

  lemma GoBringsHere(cfg: Config, h: Hub, t: nat, w: Task, c: string, m: Message)
    requires t in h.tasks && h.tasks[t] == w && Brings(cfg, h, Go(t), c, m)
    ensures c == w.channel
  {}

  lemma DeletionsNote(cfg: Config, h: Hub, s: Step, t: nat)
    requires var g := Next(cfg, h, s); t in g.tasks && g.tasks[t].Rewriting?
    ensures var g := Next(cfg, h, s);
            || g.tasks[t].read == ListAt(g.server, g.tasks[t].channel)
            || (t in h.tasks && h.tasks[t].Rewriting? && Notes(cfg, h, s, h.tasks[t], g.tasks[t]))
  {
    if s.Go? && s.task in h.tasks {
      var w := h.tasks[s.task];
      if t == s.task {
        assert w.Listing?;
      } else {
        GoChanges(cfg, h, s.task, w, t);
        var v := h.tasks[t];
        forall m | Brings(cfg, h, s, v.channel, m) ensures m in Changed(h, w, v).arrived {
          GoBringsHere(cfg, h, s.task, w, v.channel, m);
          GoBrings(cfg, h, s.task, w, m);
        }
      }
    }
  }

  lemma TracksStep(cfg: Config, h: Hub, s: Step)
    requires Tracks(h)
    ensures Tracks(Next(cfg, h, s))
  {
    var g := Next(cfg, h, s);
    forall t | t in g.tasks ensures ReadOrArrived(g, g.tasks[t]) {
      var v := g.tasks[t];
      if v.Rewriting? {
        DeletionsNote(cfg, h, s, t);
        if v.read != ListAt(g.server, v.channel) {
          assert ReadOrArrived(h, h.tasks[t]);
          forall m | m in ListAt(g.server, v.channel) ensures m in v.read || m in v.arrived {
            assert m in ListAt(h.server, v.channel) || Brings(cfg, h, s, v.channel, m);
          }
        }
      }
    }
  }

  lemma {:induction false} AlwaysTracks(cfg: Config, steps: seq<Step>)
    ensures Tracks(Played(cfg, steps))
  {
    if steps != [] {
      AlwaysTracks(cfg, steps[..|steps| - 1]);
      TracksStep(cfg, Played(cfg, steps[..|steps| - 1]), steps[|steps| - 1]);
    }
  }

  /**
   What a deletion of one message loses besides it: exactly the messages in the list that
   arrived since it read the list and that it had not read. It keeps everything else if
   and only if there are none.
   */
  lemma {:induction false} RewriteLosesArrivals(cfg: Config, steps: seq<Step>, t: nat)
    requires t in Played(cfg, steps).tasks && Played(cfg, steps).tasks[t].Rewriting?
    ensures var h := Played(cfg, steps);
            var w := h.tasks[t];
            var before, after := ListAt(h.server, w.channel), ListAt(Next(cfg, h, Go(t)).server, w.channel);
            (forall m :: m in before && m.id != w.id ==> m in after)
            <==> (forall m :: m in before && m.id != w.id && m in w.arrived ==> m in w.read)
  {
    AlwaysTracks(cfg, steps);
    var h := Played(cfg, steps);
    var w := h.tasks[t];
    assert ReadOrArrived(h, w);
    forall m ensures m in Live(w.read, {w.id}) <==> m in w.read && m.id != w.id {
      LiveMember(w.read, {w.id}, m);
    }
  }

  /** From any state: a push between the read and the rewrite is acknowledged and lost. */
  lemma PushIsLost(cfg: Config, h: Hub, i: nat, j: nat, w: Task, c: string, m: Message, claimed: bool)
    requires i in h.tasks && h.tasks[i] == w && w.Rewriting? && w.channel == c && i != j
    requires j in h.tasks && h.tasks[j] == Pushing(c, m, claimed) && m !in w.read
    ensures var g := Next(cfg, Next(cfg, h, Go(j)), Go(i));
            m in ListAt(Next(cfg, h, Go(j)).server, c) && m !in ListAt(g.server, c) && Trimming(c) == g.tasks[j]
  {
    LiveMember(w.read, {w.id}, m);
    var h1 := Next(cfg, h, Go(j));
    assert h1.tasks[i] == w.(arrived := w.arrived + {m}) && h1.tasks[j] == Trimming(c);
  }
}
