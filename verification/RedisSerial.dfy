/**
 The tasks of the Redis store, each run alone from its first command to its last: they do
 what the store's methods are proved to do. So the two models describe one store.
 */
module RedisSerial {
  import opened Basics
  import opened PyList
  import opened RelayTypes
  import opened RelayBoard
  import opened MemoryRelay
  import opened History
  import opened RedisRelay
  import opened RedisTasks

  /** No list without a name. */
  ghost predicate Tidy(s: Server) { forall c: string :: c !in s.names ==> ListAt(s, c) == [] }

  function BoardOf(s: Server): Board { map c | c in s.names :: ListAt(s, c) }

  /** The hub as the relay it stands for. */
  function RelayOf(h: Hub): Relay { Relay(BoardOf(h.server), h.events, h.fired, h.next) }

  ghost predicate Idle(h: Hub) { h.tasks == map[] && Tidy(h.server) }

  function Goes(cfg: Config, h: Hub, t: nat, n: nat): Hub
    decreases n
  {
    if n == 0 then h else Goes(cfg, Next(cfg, h, Go(t)), t, n - 1)
  }

  /** A task from its beginning on, with nobody else; no operation has more than five commands after its first. */
  function Alone(cfg: Config, h: Hub, t: nat, r: Request): Hub { Goes(cfg, Next(cfg, h, Begin(t, r)), t, 5) }

  lemma NothingLeft(cfg: Config, h: Hub, t: nat, n: nat)
    requires t !in h.tasks
    ensures Goes(cfg, h, t, n) == h
  {}

  /** The next command of a lone task. */
  lemma OneGo(cfg: Config, h: Hub, t: nat, n: nat, w: Task, h': Hub)
    requires n > 0 && h.tasks == map[t := w] && h' == Going(cfg, h, t, w)
    ensures Goes(cfg, h, t, n) == Goes(cfg, h', t, n - 1)
  {}

  lemma NoOthers(t: nat, w: Task, v: Task)
    ensures (map[t := w])[t := v] == map[t := v] && map[t := w] - {t} == map[]
  {}

  /** From its push on an add ends in three commands. */
  lemma PushAlone(cfg: Config, h: Hub, t: nat, m: Message, claimed: bool, n: nat, h': Hub)
    requires n >= 3 && h.tasks == map[t := Pushing(m.channel, m, claimed)]
    requires var ms := LastN(ListAt(h.server, m.channel) + [m], cfg.maxPerChannel);
             h' == SignalGoes(h.(server := Written(h.server, m.channel, ms)), t, m.channel)
    ensures Goes(cfg, h, t, n) == h' && h'.tasks == map[]
  {
    var c, pushed := m.channel, ListAt(h.server, m.channel) + [m];
    var h1 := h.(server := Written(h.server, c, pushed), tasks := map[t := Trimming(c)]);
    NoOthers(t, Pushing(c, m, claimed), Trimming(c));
    OneGo(cfg, h, t, n, Pushing(c, m, claimed), h1);
    var h2 := h.(server := Written(h.server, c, LastN(pushed, cfg.maxPerChannel)), tasks := map[t := Signalling(c)]);
    NoOthers(t, Trimming(c), Signalling(c));
    Overwrite(h.server.lists, c, pushed, LastN(pushed, cfg.maxPerChannel));
    OneGo(cfg, h1, t, n - 1, Trimming(c), h2);
    SignalAlone(cfg, h2, h.(server := h2.server), t, c, Pushing(c, m, claimed), h');
    OneGo(cfg, h2, t, n - 2, Signalling(c), h');
    NothingLeft(cfg, h', t, n - 3);
  }

  lemma SignalAlone(cfg: Config, h: Hub, k: Hub, t: nat, c: string, w: Task, h': Hub)
    requires h.tasks == map[t := Signalling(c)] && k.tasks == map[t := w]
    requires h.(tasks := map[]) == k.(tasks := map[]) && h' == SignalGoes(k, t, c)
    ensures h' == Going(cfg, h, t, Signalling(c)) && h'.tasks == map[]
  {
    NoOthers(t, w, w);
    NoOthers(t, Signalling(c), w);
    assert Marked(map[], c, SignalledInGap) == map[];
  }

  /** A new channel takes a count and a claim first. */
  lemma NewAlone(cfg: Config, h: Hub, t: nat, m: Message, h': Hub)
    requires h.tasks == map[t := Counting(m.channel, m)] && |h.server.names| < cfg.maxChannels
    requires var named := h.server.(names := h.server.names + {m.channel});
             h' == h.(server := named, tasks := map[t := Pushing(m.channel, m, true)])
    ensures Goes(cfg, h, t, 5) == Goes(cfg, h', t, 3)
  {
    var h1 := h.(tasks := map[t := Claiming(m.channel, m)]);
    NoOthers(t, Counting(m.channel, m), Claiming(m.channel, m));
    OneGo(cfg, h, t, 5, Counting(m.channel, m), h1);
    NoOthers(t, Claiming(m.channel, m), Pushing(m.channel, m, true));
    OneGo(cfg, h1, t, 4, Claiming(m.channel, m), h');
  }

  lemma WrittenBoard(s: Server, c: string, ms: seq<Message>)
    requires Tidy(s) && c in s.names
    ensures Tidy(Written(s, c, ms)) && BoardOf(Written(s, c, ms)) == BoardOf(s)[c := ms]
  {}

  lemma NamedBoard(s: Server, c: string)
    requires Tidy(s) && c !in s.names
    ensures var s' := s.(names := s.names + {c}); Tidy(s') && BoardOf(s') == BoardOf(s)[c := []] && ListAt(s', c) == []
  {}

  /** An add of a message that fits, run alone, is the store's `add`. */
  lemma AddAlone(cfg: Config, h: Hub, t: nat, m: Message)
    requires Idle(h) && |m.content| <= cfg.maxMessageSize
    ensures var g := Alone(cfg, h, t, Post(m));
            Idle(g) && RelayOf(g) == RedisAdding(cfg, RelayOf(h), m.channel, m.content, m.sender, m.id, m.timestamp).0
  {
    var c := m.channel;
    assert |BoardOf(h.server)| == |h.server.names| by {
      assert BoardOf(h.server).Keys == h.server.names;
    }
    if c in h.server.names {
      var h1 := h.(tasks := map[t := Pushing(c, m, false)]);
      assert h1 == Next(cfg, h, Begin(t, Post(m)));
      PushIsAdd(cfg, h, h1, t, m, false, 5);
    } else {
      var h1 := h.(tasks := map[t := Counting(c, m)]);
      assert h1 == Next(cfg, h, Begin(t, Post(m)));
      if |h.server.names| < cfg.maxChannels {
        var h2 := h.(server := h.server.(names := h.server.names + {c}), tasks := map[t := Pushing(c, m, true)]);
        NewAlone(cfg, h1, t, m, h2);
        NamedBoard(h.server, c);
        PushIsAdd(cfg, h.(server := h2.server), h2, t, m, true, 3);
        Overwrite(BoardOf(h.server), c, [], Push(cfg.maxPerChannel, [], m));
      } else {
        NoOthers(t, Counting(c, m), Counting(c, m));
        OneGo(cfg, h1, t, 5, Counting(c, m), h);
        NothingLeft(cfg, h, t, 4);
      }
    }
  }

  /** The board and the events after the push, the trim and the signal. */
  lemma PushIsAdd(cfg: Config, h: Hub, h1: Hub, t: nat, m: Message, claimed: bool, n: nat)
    requires n >= 3 && Idle(h) && m.channel in h.server.names
    requires h1 == h.(tasks := map[t := Pushing(m.channel, m, claimed)])
    ensures var g := Goes(cfg, h1, t, n);
            var b := BoardOf(h.server)[m.channel := Push(cfg.maxPerChannel, ListAt(h.server, m.channel), m)];
            var r := RelayOf(h).(board := b);
            Idle(g) && RelayOf(g) == if m.channel in r.events then Signal(r, m.channel) else r
  {
    var ms := LastN(ListAt(h.server, m.channel) + [m], cfg.maxPerChannel);
    var h2 := h1.(server := Written(h.server, m.channel, ms));
    PushAlone(cfg, h1, t, m, claimed, n, SignalGoes(h2, t, m.channel));
    WrittenBoard(h.server, m.channel, ms);
  }

  lemma ClearAlone(cfg: Config, h: Hub, t: nat, c: string)
    requires Idle(h)
    ensures var g := Alone(cfg, h, t, Empty(c));
            Idle(g) && RelayOf(g) == RelayOf(h).(board := ClearIn(BoardOf(h.server), c).0)
  {
    if c in h.server.names {
      var h1, h2 := h.(tasks := map[t := Clearing(c)]), h.(server := Written(h.server, c, []));
      assert h1 == Next(cfg, h, Begin(t, Empty(c)));
      NoOthers(t, Clearing(c), Clearing(c));
      OneGo(cfg, h1, t, 5, Clearing(c), h2);
      NothingLeft(cfg, h2, t, 4);
      WrittenBoard(h.server, c, []);
    } else {
      NothingLeft(cfg, h, t, 5);
    }
  }

  lemma DeleteAlone(cfg: Config, h: Hub, t: nat, c: string)
    requires Idle(h)
    ensures var g := Alone(cfg, h, t, Remove(c)); Idle(g) && RelayOf(g) == Deleting(RelayOf(h), c).0
  {
    if c in h.server.names {
      var h1 := h.(tasks := map[t := DroppingList(c)]);
      assert h1 == Next(cfg, h, Begin(t, Remove(c)));
      var h2 := h.(server := Written(h.server, c, []), tasks := map[t := DroppingName(c)]);
      NoOthers(t, DroppingList(c), DroppingName(c));
      OneGo(cfg, h1, t, 5, DroppingList(c), h2);
      var h3 := h2.(server := h2.server.(names := h.server.names - {c}), tasks := map[t := Forgetting(c)]);
      NoOthers(t, DroppingName(c), Forgetting(c));
      OneGo(cfg, h2, t, 4, DroppingName(c), h3);
      ForgetAlone(cfg, h3, t, c);
      assert BoardOf(h3.server) == BoardOf(h.server) - {c};
    } else {
      NothingLeft(cfg, h, t, 5);
    }
  }

  lemma ForgetAlone(cfg: Config, h: Hub, t: nat, c: string)
    requires h.tasks == map[t := Forgetting(c)]
    ensures Goes(cfg, h, t, 3) == h.(events := h.events - {c}, tasks := map[])
  {
    var h' := h.(events := h.events - {c}, tasks := map[]);
    NoOthers(t, Forgetting(c), Forgetting(c));
    assert Marked(map[], c, ChannelDeleted) == map[];
    OneGo(cfg, h, t, 3, Forgetting(c), h');
    NothingLeft(cfg, h', t, 2);
  }

  lemma DeleteMessageAlone(cfg: Config, h: Hub, t: nat, c: string, id: string, sender: Option<string>)
    requires Idle(h)
    ensures var g := Alone(cfg, h, t, Request.RemoveMessage(c, id, sender));
            Idle(g) && RelayOf(g) == RelayOf(h).(board := RedisDeleteMessage(BoardOf(h.server), c, id, sender).0)
  {
    if c in h.server.names {
      var h1, read := h.(tasks := map[t := Listing(c, id, sender)]), ListAt(h.server, c);
      assert h1 == Next(cfg, h, Begin(t, Request.RemoveMessage(c, id, sender)));
      NoOthers(t, Listing(c, id, sender), Rewriting(c, id, read, {}));
      OneGo(cfg, h1, t, 5, Listing(c, id, sender), ListGoes(h1, t, c, id, sender));
      if ListGoes(h1, t, c, id, sender) == h {
        NothingLeft(cfg, h, t, 4);
      } else {
        RewriteAlone(cfg, h, t, c, id, read);
        WrittenBoard(h.server, c, Live(read, {id}));
      }
    } else {
      NothingLeft(cfg, h, t, 5);
    }
  }

  lemma RewriteAlone(cfg: Config, h: Hub, t: nat, c: string, id: string, read: seq<Message>)
    requires h.tasks == map[] && read == ListAt(h.server, c)
    ensures Goes(cfg, h.(tasks := map[t := Rewriting(c, id, read, {})]), t, 4) ==
            h.(server := Written(h.server, c, Live(read, {id})))
  {
    var w := Rewriting(c, id, read, {});
    var h1, h2 := h.(tasks := map[t := w]), h.(server := Written(h.server, c, Live(read, {id})));
    forall m | m in Live(read, {id}) ensures m in read {
      LiveMember(read, {id}, m);
    }
    assert Restored(h1, w) == {};
    NoOthers(t, w, w);
    OneGo(cfg, h1, t, 4, w, h2);
    NothingLeft(cfg, h2, t, 3);
  }

  /** A poll run alone up to its sleep returns, raises or suspends as the store's does. */
  lemma WaitAlone(cfg: Config, h: Hub, t: nat, c: string, since: Since)
    requires Idle(h)
    ensures var g := Alone(cfg, h, t, WaitForNew(c, since));
            var (r, w) := MemoryRelay.Beginning(RelayOf(h), c, since);
            && RelayOf(g) == r && Tidy(g.server)
            && g.tasks == if w.Suspended? then map[t := Sleeping(c, since, {}, w.event)] else map[]
  {
    var gap := h.(tasks := map[t := Registering(c, since, {})]);
    if c in h.server.names {
      assert Next(cfg, h, Begin(t, WaitForNew(c, since))) == h.(tasks := map[t := Reading(c, since)]);
      ReadAlone(cfg, h, t, c, since, gap);
      if FindsNothing(h, c, since) {
        RegisterAlone(cfg, h, t, c, since, 4);
      }
    } else {
      assert gap == Next(cfg, h, Begin(t, WaitForNew(c, since)));
      RegisterAlone(cfg, h, t, c, since, 5);
    }
  }

  predicate FindsNothing(h: Hub, c: string, since: Since) {
    var r := Select(ListAt(h.server, c), Latest(since)); r.Ok? && r.value.messages == []
  }

  lemma ReadAlone(cfg: Config, h: Hub, t: nat, c: string, since: Since, gap: Hub)
    requires h.tasks == map[] && gap == h.(tasks := map[t := Registering(c, since, {})])
    ensures Goes(cfg, h.(tasks := map[t := Reading(c, since)]), t, 5) ==
            if FindsNothing(h, c, since) then Goes(cfg, gap, t, 4) else h
  {
    var h1 := h.(tasks := map[t := Reading(c, since)]);
    NoOthers(t, Reading(c, since), Registering(c, since, {}));
    var next := if FindsNothing(h, c, since) then gap else h;
    OneGo(cfg, h1, t, 5, Reading(c, since), next);
    if !FindsNothing(h, c, since) {
      NothingLeft(cfg, h, t, 4);
    }
  }

  lemma RegisterAlone(cfg: Config, h: Hub, t: nat, c: string, since: Since, n: nat)
    requires n > 0 && h.tasks == map[]
    ensures var r := WithEvent(RelayOf(h), c);
            Goes(cfg, h.(tasks := map[t := Registering(c, since, {})]), t, n) ==
            Hub(h.server, r.events, h.fired, r.next, map[t := Sleeping(c, since, {}, r.events[c])])
  {
    var gap, r := h.(tasks := map[t := Registering(c, since, {})]), WithEvent(RelayOf(h), c);
    var asleep := Hub(h.server, r.events, h.fired, r.next, map[t := Sleeping(c, since, {}, r.events[c])]);
    NoOthers(t, Registering(c, since, {}), Sleeping(c, since, {}, r.events[c]));
    OneGo(cfg, gap, t, n, Registering(c, since, {}), asleep);
    StaysAsleep(cfg, asleep, t, n - 1);
  }

  lemma StaysAsleep(cfg: Config, h: Hub, t: nat, n: nat)
    requires t in h.tasks && h.tasks[t].Sleeping?
    ensures Goes(cfg, h, t, n) == h
  {}
}
