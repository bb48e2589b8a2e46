/**
 Runs of the Redis store's tasks that end with a poll asleep although there is a message
 for it and no signal is on its way.
 */
module RedisMisses {
  import opened Basics
  import opened PyList
  import opened RelayTypes
  import opened RelayBoard
  import opened History
  import opened Wakeup
  import opened RedisTasks
  import opened RedisLongPoll

  // ---- runs in which a message is missed --------------------------------

  ghost predicate Reached(cfg: Config, h: Hub) { exists steps :: Played(cfg, steps) == h }

  lemma Reaches(cfg: Config, h: Hub, s: Step)
    requires Reached(cfg, h)
    ensures Reached(cfg, Next(cfg, h, s))
  {
    var steps :| Played(cfg, steps) == h;
    assert (steps + [s])[..|steps|] == steps;
    assert Played(cfg, steps + [s]) == Next(cfg, h, s);
  }

  lemma Begins(cfg: Config, h: Hub, t: nat, r: Request, h': Hub)
    requires Reached(cfg, h) && t !in h.tasks && h' == Beginning(h, t, r)
    ensures Reached(cfg, h')
  {
    Reaches(cfg, h, Begin(t, r));
  }

  lemma Goes(cfg: Config, h: Hub, t: nat, w: Task, h': Hub)
    requires Reached(cfg, h) && t in h.tasks && h.tasks[t] == w && h' == Going(cfg, h, t, w)
    ensures Reached(cfg, h')
  {
    Reaches(cfg, h, Go(t));
  }

  ghost predicate OnlyPolls(tasks: map<nat, Task>) {
    forall t :: t in tasks ==> tasks[t].Registering? || tasks[t].Sleeping?
  }

  /** An add from its push to its trim, beside polls. */
  lemma ShownBeside(cfg: Config, h: Hub, t: nat, m: Message, claimed: bool, rest: map<nat, Task>, h': Hub)
    requires Reached(cfg, h) && t !in rest && OnlyPolls(rest)
    requires h.tasks == rest[t := Pushing(m.channel, m, claimed)]
    requires h' == h.(server := Written(h.server, m.channel, LastN(ListAt(h.server, m.channel) + [m], cfg.maxPerChannel)),
                      tasks := rest[t := Signalling(m.channel)])
    ensures Reached(cfg, h')
  {
    var c, pushed := m.channel, ListAt(h.server, m.channel) + [m];
    var h1 := h.(server := Written(h.server, c, pushed), tasks := rest[t := Trimming(c)]);
    PushedBeside(cfg, h, t, m, claimed, rest, h1);
    TrimmedBeside(cfg, h1, h.server, t, c, pushed, rest, h');
  }

  lemma PushedBeside(cfg: Config, h: Hub, t: nat, m: Message, claimed: bool, rest: map<nat, Task>, h': Hub)
    requires Reached(cfg, h) && h.tasks == rest[t := Pushing(m.channel, m, claimed)] && t !in rest && OnlyPolls(rest)
    requires h' == h.(server := Written(h.server, m.channel, ListAt(h.server, m.channel) + [m]),
                      tasks := rest[t := Trimming(m.channel)])
    ensures Reached(cfg, h')
  {
    assert WithArrivals(h.tasks, m.channel, {m}) == h.tasks;
    Overwrite(rest, t, h.tasks[t], Trimming(m.channel));
    assert h' == PushGoes(h, t, m.channel, m);
    Goes(cfg, h, t, Pushing(m.channel, m, claimed), h');
  }

  lemma TrimmedBeside(cfg: Config, h: Hub, s: Server, t: nat, c: string, all: seq<Message>,
                      rest: map<nat, Task>, h': Hub)
    requires Reached(cfg, h) && h.server == Written(s, c, all) && h.tasks == rest[t := Trimming(c)]
    requires h' == h.(server := Written(s, c, LastN(all, cfg.maxPerChannel)), tasks := rest[t := Signalling(c)])
    ensures Reached(cfg, h')
  {
    Overwrite(s.lists, c, all, LastN(all, cfg.maxPerChannel));
    Overwrite(rest, t, Trimming(c), Signalling(c));
    assert h' == At(h.(server := Written(h.server, c, LastN(all, cfg.maxPerChannel))), t, Signalling(c));
    Goes(cfg, h, t, Trimming(c), h');
  }

  lemma SignalledBeside(cfg: Config, h: Hub, t: nat, c: string, rest: map<nat, Task>, h': Hub)
    requires Reached(cfg, h) && h.tasks == rest[t := Signalling(c)] && t !in rest && c !in h.events
    requires h' == h.(tasks := Marked(rest, c, SignalledInGap))
    ensures Reached(cfg, h')
  {
    assert h.tasks - {t} == rest;
    assert h' == SignalGoes(h, t, c);
    Goes(cfg, h, t, Signalling(c), h');
  }

  lemma MarkedOne(t: nat, v: Task, c: string, cause: Cause, v': Task)
    requires Concerns(v, c, cause) && v.causes == {} && v' == v.(causes := {cause})
    ensures Marked(map[t := v], c, cause) == map[t := v']
  {
    assert v.causes + {cause} == {cause};
    assert Mark(v, c, cause) == v';
  }

  /** The first add on a channel, up to its trim, beside polls. */
  lemma FirstShown(cfg: Config, h: Hub, t: nat, m: Message, h': Hub)
    requires cfg.Valid() && Reached(cfg, h) && t !in h.tasks && OnlyPolls(h.tasks)
    requires h.server.names == {} && cfg.maxChannels >= 1 && ListAt(h.server, m.channel) == []
    requires h' == h.(server := Server({m.channel}, h.server.lists[m.channel := [m]]),
                      tasks := h.tasks[t := Signalling(m.channel)])
    ensures Reached(cfg, h')
  {
    var c, rest := m.channel, h.tasks;
    var h1 := h.(tasks := rest[t := Counting(c, m)]);
    Begins(cfg, h, t, Post(m), h1);
    var h2 := h.(tasks := rest[t := Claiming(c, m)]);
    Overwrite(rest, t, Counting(c, m), Claiming(c, m));
    Goes(cfg, h1, t, Counting(c, m), h2);
    var h3 := h.(server := h.server.(names := {c}), tasks := rest[t := Pushing(c, m, true)]);
    Overwrite(rest, t, Claiming(c, m), Pushing(c, m, true));
    assert {} + {c} == {c};
    Goes(cfg, h2, t, Claiming(c, m), h3);
    assert [] + [m] == [m];
    ShownBeside(cfg, h3, t, m, true, rest, h');
  }

  /** The whole of it, where nobody has an event on the channel. */
  lemma FirstAdd(cfg: Config, h: Hub, t: nat, m: Message, h': Hub)
    requires cfg.Valid() && Reached(cfg, h) && t !in h.tasks && OnlyPolls(h.tasks) && m.channel !in h.events
    requires h.server.names == {} && cfg.maxChannels >= 1 && ListAt(h.server, m.channel) == []
    requires h' == h.(server := Server({m.channel}, h.server.lists[m.channel := [m]]),
                      tasks := Marked(h.tasks, m.channel, SignalledInGap))
    ensures Reached(cfg, h')
  {
    var shown := h'.(tasks := h.tasks[t := Signalling(m.channel)]);
    FirstShown(cfg, h, t, m, shown);
    SignalledBeside(cfg, shown, t, m.channel, h.tasks, h');
  }

  lemma SecondAdd(cfg: Config, h: Hub, m: Message, h': Hub)
    requires cfg.Valid() && Reached(cfg, h) && h.events == map[] && h.tasks == map[] && m.channel in h.server.names
    requires h' == h.(server := Written(h.server, m.channel, LastN(ListAt(h.server, m.channel) + [m], cfg.maxPerChannel)))
    ensures Reached(cfg, h')
  {
    var h1 := h.(tasks := map[2 := Pushing(m.channel, m, false)]);
    Begins(cfg, h, 2, Post(m), h1);
    assert Marked(map[], m.channel, SignalledInGap) == map[];
    var shown := h'.(tasks := map[2 := Signalling(m.channel)]);
    ShownBeside(cfg, h1, 2, m, false, map[], shown);
    SignalledBeside(cfg, shown, 2, m.channel, map[], h');
  }

  /** A deletion reads the list, and a clear empties it. */
  lemma ReadThenCleared(cfg: Config, h: Hub, c: string, id: string, h': Hub)
    requires Reached(cfg, h) && h.tasks == map[] && c in h.server.names && IndexOf(ListAt(h.server, c), id).Some?
    requires h' == h.(server := Written(h.server, c, []), tasks := map[3 := Rewriting(c, id, ListAt(h.server, c), {})])
    ensures Reached(cfg, h')
  {
    var h1 := h.(tasks := map[3 := Listing(c, id, None)]);
    Begins(cfg, h, 3, Request.RemoveMessage(c, id, None), h1);
    var h2 := h.(tasks := h'.tasks);
    assert h1.tasks[3 := h'.tasks[3]] == h'.tasks;
    assert h2 == ListGoes(h1, 3, c, id, None);
    Goes(cfg, h1, 3, Listing(c, id, None), h2);
    ClearedBeside(cfg, h2, c, h');
  }

  lemma ClearedBeside(cfg: Config, h: Hub, c: string, h': Hub)
    requires Reached(cfg, h) && 4 !in h.tasks && c in h.server.names && h' == h.(server := Written(h.server, c, []))
    ensures Reached(cfg, h')
  {
    var h1 := h.(tasks := h.tasks[4 := Clearing(c)]);
    Begins(cfg, h, 4, Empty(c), h1);
    assert h1.tasks - {4} == h.tasks;
    Goes(cfg, h1, 4, Clearing(c), h');
  }

  /** A poll then finds nothing and sleeps. */
  lemma PollSleeps(cfg: Config, h: Hub, c: string, h': Hub)
    requires Reached(cfg, h) && 7 !in h.tasks && h.events == map[] && c in h.server.names
    requires ListAt(h.server, c) == []
    requires h' == h.(events := map[c := h.next], next := h.next + 1,
                      tasks := h.tasks[7 := Sleeping(c, NoSince, {}, h.next)])
    ensures Reached(cfg, h')
  {
    var h1 := h.(tasks := h.tasks[7 := Reading(c, NoSince)]);
    Begins(cfg, h, 7, WaitForNew(c, NoSince), h1);
    var h2 := h.(tasks := h.tasks[7 := Registering(c, NoSince, {})]);
    EmptyRead(cfg, h, h1, c, h2);
    FirstRegistered(cfg, h, h2, c, h');
  }

  lemma EmptyRead(cfg: Config, h: Hub, h1: Hub, c: string, h2: Hub)
    requires Reached(cfg, h1)
    requires ListAt(h.server, c) == [] && h1 == h.(tasks := h.tasks[7 := Reading(c, NoSince)])
    requires h2 == h.(tasks := h.tasks[7 := Registering(c, NoSince, {})])
    ensures Reached(cfg, h2)
  {
    Overwrite(h.tasks, 7, Reading(c, NoSince), Registering(c, NoSince, {}));
    NewsIsSelected([], NoSince);
    assert h2 == ReadGoes(h1, 7, c, NoSince);
    Goes(cfg, h1, 7, Reading(c, NoSince), h2);
  }

  lemma FirstRegistered(cfg: Config, h: Hub, h2: Hub, c: string, h': Hub)
    requires Reached(cfg, h2)
    requires h.events == map[] && h2 == h.(tasks := h.tasks[7 := Registering(c, NoSince, {})])
    requires h' == h.(events := map[c := h.next], next := h.next + 1,
                      tasks := h.tasks[7 := Sleeping(c, NoSince, {}, h.next)])
    ensures Reached(cfg, h')
  {
    var r := Registering(c, NoSince, {});
    Overwrite(h.tasks, 7, r, Sleeping(c, NoSince, {}, h.next));
    assert h' == RegisterGoes(h2, 7, r);
    Goes(cfg, h2, 7, r, h');
  }

  /** And the deletion puts back what it had read. */
  lemma RewriteUnder(cfg: Config, h: Hub, c: string, w: Task, e: nat, h': Hub)
    requires Reached(cfg, h) && w.Rewriting? && w.channel == c && Live(w.read, {w.id}) != [] && ListAt(h.server, c) == []
    requires h.tasks == map[3 := w, 7 := Sleeping(c, NoSince, {}, e)]
    requires h' == h.(server := Written(h.server, c, Live(w.read, {w.id})),
                      tasks := map[7 := Sleeping(c, NoSince, {PutBack}, e)])
    ensures Reached(cfg, h')
  {
    PutsBack(h, c, w, e, h');
    Goes(cfg, h, 3, w, h');
  }

  lemma PutsBack(h: Hub, c: string, w: Task, e: nat, h': Hub)
    requires w.Rewriting? && w.channel == c && Live(w.read, {w.id}) != [] && ListAt(h.server, c) == []
    requires h.tasks == map[3 := w, 7 := Sleeping(c, NoSince, {}, e)]
    requires h' == h.(server := Written(h.server, c, Live(w.read, {w.id})),
                      tasks := map[7 := Sleeping(c, NoSince, {PutBack}, e)])
    ensures h' == RewriteGoes(h, 3, w)
  {
    assert Live(w.read, {w.id})[0] in Restored(h, w);
    assert h.tasks - {3} == map[7 := Sleeping(c, NoSince, {}, e)];
    MarkedOne(7, Sleeping(c, NoSince, {}, e), c, PutBack, Sleeping(c, NoSince, {PutBack}, e));
    assert WithArrivals(h'.tasks, c, Restored(h, w)) == h'.tasks;
  }

  /**
   A run in which nothing but an overlapping deletion of another message is to blame: the
   poll sleeps on an unset event, no signal is due, and there is a message for it.
   */
  lemma PutBackLosesWakeup(cfg: Config) returns (h: Hub)
    requires cfg.maxPerChannel >= 2 && cfg.maxChannels >= 1
    ensures Reached(cfg, h) && 7 in h.tasks && h.tasks[7] == Sleeping("c", NoSince, {PutBack}, 0)
    ensures News(h.server, "c", NoSince) && 0 !in h.fired && !SignalDue(h, "c")
  {
    var a, b := Message("1", "c", "s", "", 0), Message("2", "c", "s", "", 0);
    var w := Rewriting("c", "1", [a, b], {});
    var h2 := TwoMessages(cfg, a, b);
    var h3 := h2.(server := Written(h2.server, "c", []), tasks := map[3 := w]);
    ReadThenCleared(cfg, h2, "c", "1", h3);
    var slept := h3.(events := map["c" := 0], next := 1, tasks := h3.tasks[7 := Sleeping("c", NoSince, {}, 0)]);
    PollSleeps(cfg, h3, "c", slept);
    assert [a, b][1..] == [b] && Live([b], {"1"}) == [b];
    assert Live([a, b], {"1"}) == [b];
    h := slept.(server := Written(h3.server, "c", [b]), tasks := map[7 := Sleeping("c", NoSince, {PutBack}, 0)]);
    RewriteUnder(cfg, slept, "c", w, 0, h);
  }

  lemma TwoMessages(cfg: Config, a: Message, b: Message) returns (h: Hub)
    requires cfg.maxPerChannel >= 2 && cfg.maxChannels >= 1 && a.channel == b.channel
    ensures Reached(cfg, h) && h == START.(server := Server({a.channel}, map[a.channel := [a, b]]))
  {
    assert Played(cfg, []) == START;
    var h1 := START.(server := Server({a.channel}, map[a.channel := [a]]));
    assert Marked(map[], a.channel, SignalledInGap) == map[];
    FirstAdd(cfg, START, 1, a, h1);
    h := START.(server := Server({a.channel}, map[a.channel := [a, b]]));
    assert [a] + [b] == [a, b];
    SecondAdd(cfg, h1, b, h);
  }

  /** And one with no deletion: a whole add runs between a poll's read and its registration. */
  lemma GapLosesWakeup(cfg: Config) returns (h: Hub)
    requires cfg.Valid() && cfg.maxChannels >= 1
    ensures Reached(cfg, h) && 7 in h.tasks && h.tasks[7] == Sleeping("c", NoSince, {SignalledInGap}, 0)
    ensures News(h.server, "c", NoSince) && 0 !in h.fired && !SignalDue(h, "c")
  {
    var m, rest := Message("1", "c", "s", "", 0), map[7 := Registering("c", NoSince, {})];
    assert Played(cfg, []) == START;
    Begins(cfg, START, 7, WaitForNew("c", NoSince), START.(tasks := rest));
    var marked := Registering("c", NoSince, {SignalledInGap});
    var added := START.(server := Server({"c"}, map["c" := [m]]), tasks := map[7 := marked]);
    MarkedOne(7, rest[7], "c", SignalledInGap, marked);
    FirstAdd(cfg, START.(tasks := rest), 1, m, added);
    h := added.(events := map["c" := 0], next := 1, tasks := map[7 := Sleeping("c", NoSince, {SignalledInGap}, 0)]);
    RegistersLate(cfg, added, marked, h);
  }

  lemma RegistersLate(cfg: Config, h: Hub, r: Task, h': Hub)
    requires Reached(cfg, h) && h.tasks == map[7 := r] && r.Registering? && h.events == map[] && h.next == 0
    requires h' == h.(events := map[r.channel := 0], next := 1,
                      tasks := map[7 := Sleeping(r.channel, r.since, r.causes, 0)])
    ensures Reached(cfg, h')
  {
    assert h'.tasks == h.tasks[7 := h'.tasks[7]];
    assert h' == RegisterGoes(h, 7, r);
    Goes(cfg, h, 7, r, h');
  }

  /** A poll on a channel that does not exist goes to sleep. */
  lemma FirstPollSleeps(cfg: Config, c: string, h: Hub)
    requires h == START.(events := map[c := 0], next := 1, tasks := map[7 := Sleeping(c, NoSince, {}, 0)])
    ensures Reached(cfg, h)
  {
    assert Played(cfg, []) == START;
    var gap := START.(tasks := map[7 := Registering(c, NoSince, {})]);
    Begins(cfg, START, 7, WaitForNew(c, NoSince), gap);
    FirstRegistered(cfg, START, gap, c, h);
  }

  /**
   One in which an add raises at its signal. The events are local to a process, so this is
   also what an add by another process looks like to this one.
   */
  lemma RaiseLosesWakeup(cfg: Config) returns (h: Hub)
    requires cfg.Valid() && cfg.maxChannels >= 1
    ensures Reached(cfg, h) && 7 in h.tasks && h.tasks[7] == Sleeping("c", NoSince, {AddRaised}, 0)
    ensures News(h.server, "c", NoSince) && 0 !in h.fired && !SignalDue(h, "c")
  {
    var m, asleep := Message("1", "c", "s", "", 0), Sleeping("c", NoSince, {}, 0);
    var slept := START.(events := map["c" := 0], next := 1, tasks := map[7 := asleep]);
    FirstPollSleeps(cfg, "c", slept);
    var shown := slept.(server := Server({"c"}, map["c" := [m]]), tasks := slept.tasks[1 := Signalling("c")]);
    FirstShown(cfg, slept, 1, m, shown);
    MarkedOne(7, asleep, "c", AddRaised, Sleeping("c", NoSince, {AddRaised}, 0));
    assert shown.tasks - {1} == map[7 := asleep];
    h := shown.(tasks := map[7 := Sleeping("c", NoSince, {AddRaised}, 0)]);
    Reaches(cfg, shown, Leave(1));
  }

  /** A deletion of the channel beside polls. */
  lemma DeletedBeside(cfg: Config, h: Hub, t: nat, c: string, h': Hub)
    requires Reached(cfg, h) && t !in h.tasks && OnlyPolls(h.tasks) && c in h.server.names
    requires h' == h.(server := Server(h.server.names - {c}, h.server.lists[c := []]), events := h.events - {c},
                      tasks := Marked(h.tasks, c, ChannelDeleted))
    ensures Reached(cfg, h')
  {
    var rest := h.tasks;
    var h1 := h.(tasks := rest[t := DroppingList(c)]);
    Begins(cfg, h, t, Request.Remove(c), h1);
    var h2 := h.(server := Written(h.server, c, []), tasks := rest[t := DroppingName(c)]);
    Overwrite(rest, t, DroppingList(c), DroppingName(c));
    Goes(cfg, h1, t, DroppingList(c), h2);
    var h3 := h.(server := h'.server, tasks := rest[t := Forgetting(c)]);
    Overwrite(rest, t, DroppingName(c), Forgetting(c));
    Goes(cfg, h2, t, DroppingName(c), h3);
    ForgottenBeside(cfg, h3, t, c, rest, h');
  }

  lemma ForgottenBeside(cfg: Config, h: Hub, t: nat, c: string, rest: map<nat, Task>, h': Hub)
    requires Reached(cfg, h) && h.tasks == rest[t := Forgetting(c)] && t !in rest
    requires h' == h.(events := h.events - {c}, tasks := Marked(rest, c, ChannelDeleted))
    ensures Reached(cfg, h')
  {
    assert h.tasks - {t} == rest;
    Goes(cfg, h, t, Forgetting(c), h');
  }

  /** And one in which the channel is deleted under the sleeper and made again. */
  lemma DeletionLosesWakeup(cfg: Config) returns (h: Hub)
    requires cfg.Valid() && cfg.maxChannels >= 1
    ensures Reached(cfg, h) && 7 in h.tasks && h.tasks[7] == Sleeping("c", NoSince, {ChannelDeleted}, 0)
    ensures News(h.server, "c", NoSince) && 0 !in h.fired && !SignalDue(h, "c")
  {
    var m := Message("1", "c", "s", "", 0);
    var slept := SleepsOnEmpty(cfg, m);
    var left := Sleeping("c", NoSince, {ChannelDeleted}, 0);
    var deleted := START.(server := Server({}, map["c" := []]), next := 1, tasks := map[7 := left]);
    MarkedOne(7, slept.tasks[7], "c", ChannelDeleted, left);
    assert slept.server.names - {"c"} == {} && slept.events - {"c"} == map[];
    DeletedBeside(cfg, slept, 3, "c", deleted);
    h := deleted.(server := Server({"c"}, map["c" := [m]]));
    assert Marked(deleted.tasks, "c", SignalledInGap) == deleted.tasks;
    FirstAdd(cfg, deleted, 4, m, h);
  }

  /** A poll sleeps on a channel that was cleared. */
  lemma SleepsOnEmpty(cfg: Config, m: Message) returns (h: Hub)
    requires cfg.Valid() && cfg.maxChannels >= 1
    ensures Reached(cfg, h)
    ensures h == START.(server := Server({m.channel}, map[m.channel := []]), events := map[m.channel := 0], next := 1,
                        tasks := map[7 := Sleeping(m.channel, NoSince, {}, 0)])
  {
    var c := m.channel;
    assert Played(cfg, []) == START;
    assert Marked(map[], c, SignalledInGap) == map[];
    var added := START.(server := Server({c}, map[c := [m]]));
    FirstAdd(cfg, START, 1, m, added);
    var cleared := START.(server := Server({c}, map[c := []]));
    ClearedBeside(cfg, added, c, cleared);
    h := cleared.(events := map[c := 0], next := 1, tasks := map[7 := Sleeping(c, NoSince, {}, 0)]);
    PollSleeps(cfg, cleared, c, h);
  }
}
