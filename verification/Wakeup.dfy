/**
 The long poll on the in-memory store, over every interleaving of tasks. `get` has no
 suspension point there, so a task runs without a switch up to `event.wait()` and again
 once woken; each action below is one such stretch.
 */
module Wakeup {
  import opened Basics
  import opened PyList
  import opened RelayTypes
  import opened RelayBoard
  import opened MemoryRelay

  /**
   A task suspended in `wait_for_new`. `orphaned` records that its channel was deleted
   while its event was still unset.
   */
  datatype Waiter = Waiter(channel: string, since: Since, event: nat, orphaned: bool)

  datatype Desk = Desk(relay: Relay, waiters: map<nat, Waiter>)

  datatype Action =
    | Send(channel: string, content: string, sender: string, id: string, at: Instant)
    | Wipe(channel: string)
    | Remove(channel: string)
    | RemoveMessage(channel: string, id: string, bySender: Option<string>)
    | Wait(task: nat, channel: string, since: Since)
    | Wake(task: nat)
    | GiveUp(task: nat)

  const EMPTY := Desk(Relay(map[], map[], {}, 0), map[])

  /** The waiters after a channel is deleted: its own unwoken ones lose their event. */
  function Orphaned(d: Desk, channel: string): map<nat, Waiter> {
    map t | t in d.waiters ::
      var w := d.waiters[t];
      if w.channel == channel && w.event !in d.relay.fired then w.(orphaned := true) else w
  }

  function Step(cfg: Config, d: Desk, a: Action): Desk {
    match a
    case Send(c, content, sender, id, at) => d.(relay := Adding(cfg, d.relay, c, content, sender, id, at).0)
    case Wipe(c) => d.(relay := d.relay.(board := ClearIn(d.relay.board, c).0))
    case Remove(c) =>
      var (r, found) := Deleting(d.relay, c);
      if found then Desk(r, Orphaned(d, c)) else d
    case RemoveMessage(c, id, s) =>
      d.(relay := d.relay.(board := DeleteMessageFrom(d.relay.board, c, id, s).0))
    case Wait(t, c, since) =>
      if t in d.waiters then d
      else
        var (r, w) := Beginning(d.relay, c, since);
        if w.Suspended? then Desk(r, d.waiters[t := Waiter(c, since, w.event, false)]) else d.(relay := r)
    case Wake(t) =>
      if t in d.waiters && d.waiters[t].event in d.relay.fired then d.(waiters := d.waiters - {t}) else d
    case GiveUp(t) => d.(waiters := d.waiters - {t})
  }

  function After(cfg: Config, actions: seq<Action>): Desk {
    if actions == [] then EMPTY else Step(cfg, After(cfg, actions[..|actions| - 1]), actions[|actions| - 1])
  }

  ghost predicate NewsIn(ms: seq<Message>, since: Since) {
    match since
    case NoSince => ms != []
    case From(t) => exists m :: m in ms && m.timestamp > t
    case _ => false
  }

  /** There is something for a waiter to read. */
  ghost predicate HasNews(b: Board, channel: string, since: Since) {
    channel in b && NewsIn(b[channel], since)
  }

  /** The waiter holds its channel's current, unset event, and there is nothing for it yet. */
  ghost predicate Listening(r: Relay, w: Waiter) {
    && w.channel in r.events && r.events[w.channel] == w.event
    && w.event !in r.fired
    && !HasNews(r.board, w.channel, w.since)
  }

  /** No event the store still knows is set or shared by two channels. */
  ghost predicate EventsSound(r: Relay) {
    && (forall c :: c in r.events ==> r.events[c] < r.next && r.events[c] !in r.fired)
    && (forall c, c' :: c in r.events && c' in r.events && c != c' ==> r.events[c] != r.events[c'])
    && (forall e :: e in r.fired ==> e < r.next)
  }

  /** Woken, listening, or cut off: and cut off exactly when marked as orphaned. */
  ghost predicate WaiterSound(r: Relay, w: Waiter) {
    && w.event < r.next
    && (w.orphaned ==> w.event !in r.fired && forall c :: c in r.events ==> r.events[c] != w.event)
    && (!w.orphaned ==> w.event in r.fired || Listening(r, w))
  }

  ghost predicate Sound(d: Desk) {
    EventsSound(d.relay) && forall t :: t in d.waiters ==> WaiterSound(d.relay, d.waiters[t])
  }

  // ---- each action keeps the invariant ----------------------------------

  lemma NewerNonEmpty(ms: seq<Message>, t: Instant)
    ensures Newer(ms, t) != [] <==> exists m :: m in ms && m.timestamp > t
  {}

  lemma NewsIsSelected(ms: seq<Message>, since: Since)
    ensures NewsIn(ms, since) <==> Select(ms, Latest(since)).Ok? && Select(ms, Latest(since)).value.messages != []
  {
    if since.From? {
      NewerNonEmpty(ms, since.at);
    }
  }

  /** Which is to say that a read with its arguments would return a message. */
  lemma NewsIsRead(b: Board, channel: string, since: Since)
    ensures HasNews(b, channel, since) <==>
            Read(b, channel, Latest(since)).Ok? && Read(b, channel, Latest(since)).value.messages != []
  {
    if channel in b {
      NewsIsSelected(b[channel], since);
    }
  }

  lemma KeptWithin(ms: seq<Message>, id: string, sender: Option<string>)
    ensures forall m :: m in Kept(ms, id, sender) ==> m in ms
  {}

  /** A channel that only loses messages has no news it did not have before. */
  lemma NoNewsFromLess(b: Board, b': Board, channel: string, since: Since)
    requires channel in b && channel in b'
    requires forall m :: m in b'[channel] ==> m in b[channel]
    requires HasNews(b', channel, since)
    ensures HasNews(b, channel, since)
  {
    if since.NoSince? {
      assert b'[channel][0] in b[channel];
    }
  }

  /** Changing only the contents of one channel, by removal, keeps every waiter sound. */
  lemma LessKeeps(d: Desk, b': Board, channel: string)
    requires Sound(d) && channel in d.relay.board && channel in b'
    requires b' == d.relay.board[channel := b'[channel]]
    requires forall m :: m in b'[channel] ==> m in d.relay.board[channel]
    ensures Sound(d.(relay := d.relay.(board := b')))
  {
    forall t | t in d.waiters ensures WaiterSound(d.relay.(board := b'), d.waiters[t]) {
      var w := d.waiters[t];
      if w.channel == channel && HasNews(b', channel, w.since) {
        NoNewsFromLess(d.relay.board, b', channel, w.since);
      }
    }
  }

  lemma SendKeeps(cfg: Config, d: Desk, a: Action)
    requires Sound(d) && a.Send?
    ensures Sound(Step(cfg, d, a))
  {
    var (b, result) := AddTo(cfg, d.relay.board, a.channel, a.content, a.sender, a.id, a.at);
    if result.Ok? {
      var r := d.relay.(board := b);
      SignalSound(WithEvent(r, a.channel), a.channel);
      forall t | t in d.waiters ensures WaiterSound(Signal(WithEvent(r, a.channel), a.channel), d.waiters[t]) {
        SignalKeeps(d.relay, b, a.channel, d.waiters[t]);
      }
    }
  }

  lemma SignalSound(r: Relay, channel: string)
    requires EventsSound(r) && channel in r.events
    ensures EventsSound(Signal(r, channel))
  {}

  /** The channel's waiters are woken, the others still see an unchanged channel. */
  lemma SignalKeeps(r: Relay, b: Board, channel: string, w: Waiter)
    requires EventsSound(r) && WaiterSound(r, w)
    requires channel in b && b == r.board[channel := b[channel]]
    ensures WaiterSound(Signal(WithEvent(r.(board := b), channel), channel), w)
  {}

  lemma RemoveKeeps(cfg: Config, d: Desk, a: Action)
    requires Sound(d) && a.Remove?
    ensures Sound(Step(cfg, d, a))
  {
    var d' := Step(cfg, d, a);
    if a.channel in d.relay.board {
      forall t | t in d'.waiters ensures WaiterSound(d'.relay, d'.waiters[t]) {
        assert WaiterSound(d.relay, d.waiters[t]);
      }
    }
  }

  lemma WaitKeeps(cfg: Config, d: Desk, a: Action)
    requires Sound(d) && a.Wait?
    ensures Sound(Step(cfg, d, a))
  {
    var d' := Step(cfg, d, a);
    if d' != d {
      NewsIsRead(d.relay.board, a.channel, a.since);
      forall t | t in d'.waiters ensures WaiterSound(d'.relay, d'.waiters[t]) {
        if t in d.waiters {
          assert WaiterSound(d.relay, d.waiters[t]);
        }
      }
    }
  }

  lemma StepKeeps(cfg: Config, d: Desk, a: Action)
    requires Sound(d)
    ensures Sound(Step(cfg, d, a))
  {
    match a
    case Send(_, _, _, _, _) => SendKeeps(cfg, d, a);
    case Remove(_) => RemoveKeeps(cfg, d, a);
    case Wait(_, _, _) => WaitKeeps(cfg, d, a);
    case Wipe(c) =>
      if c in d.relay.board {
        LessKeeps(d, ClearIn(d.relay.board, c).0, c);
      }
    case RemoveMessage(c, id, s) =>
      if c in d.relay.board {
        KeptWithin(d.relay.board[c], id, s);
        var b' := DeleteMessageFrom(d.relay.board, c, id, s).0;
        assert b' == d.relay.board[c := b'[c]];
        LessKeeps(d, b', c);
      }
    case Wake(_) =>
    case GiveUp(_) =>
  }

  lemma AfterLater(cfg: Config, before: seq<Action>, later: seq<Action>)
    requires later != []
    ensures After(cfg, before + later) == Step(cfg, After(cfg, before + later[..|later| - 1]), later[|later| - 1])
  {
    assert (before + later)[..|before + later| - 1] == before + later[..|later| - 1];
  }

  // ---- what the tasks do to the store and to each other -----------------

  /** The store's operation an action performs, if it performs one. */
  function Operation(a: Action): Option<Op> {
    match a
    case Send(c, content, sender, id, at) => Some(Op.Add(c, content, sender, id, at))
    case Wipe(c) => Some(Op.Clear(c))
    case Remove(c) => Some(Op.Delete(c))
    case RemoveMessage(c, id, s) => Some(Op.DeleteMessage(c, id, s))
    case _ => None
  }

  function Operations(actions: seq<Action>): seq<Op> {
    if actions == [] then []
    else
      var earlier, op := Operations(actions[..|actions| - 1]), Operation(actions[|actions| - 1]);
      if op.Some? then earlier + [op.value] else earlier
  }

  /** Waiting does not disturb the store: its channels are those of the operations alone, as a run. */
  lemma {:induction false} BoardIsRun(cfg: Config, actions: seq<Action>)
    ensures After(cfg, actions).relay.board == Run(cfg, Operations(actions))
  {
    if actions != [] {
      var n := |actions| - 1;
      BoardIsRun(cfg, actions[..n]);
      var op := Operation(actions[n]);
      if op.Some? {
        OperationsBoard(cfg, After(cfg, actions[..n]), actions[n]);
        OneMoreRun(cfg, Operations(actions[..n]), op.value);
      }
    }
  }

  lemma OneMoreRun(cfg: Config, ops: seq<Op>, op: Op)
    ensures Run(cfg, ops + [op]) == Apply(cfg, Run(cfg, ops), op).0
  {
    assert (ops + [op])[..|ops|] == ops;
  }

  lemma OperationsBoard(cfg: Config, d: Desk, a: Action)
    requires Operation(a).Some?
    ensures Step(cfg, d, a).relay.board == Apply(cfg, d.relay.board, Operation(a).value).0
  {
    match a
    case Send(c, content, sender, id, at) => SendBoard(cfg, d.relay, c, content, sender, id, at);
    case Wipe(_) =>
    case Remove(_) =>
    case RemoveMessage(_, _, _) =>
  }

  lemma SendBoard(cfg: Config, r: Relay, c: string, content: string, sender: string, id: string, at: Instant)
    ensures Adding(cfg, r, c, content, sender, id, at).0.board == AddTo(cfg, r.board, c, content, sender, id, at).0
  {}

  /** A waiter leaves by timing out, or by resuming once its event is set, and by nothing else. */
  lemma LeavesExactly(cfg: Config, d: Desk, a: Action, task: nat)
    requires task in d.waiters
    ensures task !in Step(cfg, d, a).waiters <==>
            a == GiveUp(task) || (a == Wake(task) && d.waiters[task].event in d.relay.fired)
  {}

  // ---- the theorems -----------------------------------------------------

  /** Every reachable state is sound, whatever the tasks do. */
  lemma {:induction false} AlwaysSound(cfg: Config, actions: seq<Action>)
    ensures Sound(After(cfg, actions))
  {
    if actions != [] {
      AlwaysSound(cfg, actions[..|actions| - 1]);
      StepKeeps(cfg, After(cfg, actions[..|actions| - 1]), actions[|actions| - 1]);
    }
  }

  /**
   No lost wakeup: a suspended waiter whose channel was not deleted under it is woken as
   soon as there is something to read, and the next successful send to its channel wakes it.
   */
  lemma NoLostWakeup(cfg: Config, actions: seq<Action>, task: nat, send: Action)
    requires var d := After(cfg, actions); task in d.waiters && !d.waiters[task].orphaned
    requires var w := After(cfg, actions).waiters[task]; send.Send? && send.channel == w.channel
    ensures var d := After(cfg, actions);
            var w := d.waiters[task];
            && (HasNews(d.relay.board, w.channel, w.since) ==> w.event in d.relay.fired)
            && (AddTo(cfg, d.relay.board, send.channel, send.content, send.sender, send.id, send.at).1.Ok? ==>
                  w.event in Step(cfg, d, send).relay.fired)
  {
    AlwaysSound(cfg, actions);
  }

  lemma {:induction false} NewerKeepsLast(ms: seq<Message>, m: Message, t: Instant)
    requires m.timestamp > t
    ensures Newer(ms + [m], t) == Newer(ms, t) + [m]
  {
    if ms == [] {
      assert ms + [m] == [m];
    } else {
      TailOfConcat(ms, [m]);
      NewerKeepsLast(ms[1..], m, t);
      Regroup([ms[0]], Newer(ms[1..], t), [m]);
    }
  }

  ghost predicate EndsIn(r: Result<Page, Error>, m: Message) {
    r.Ok? && r.value.messages != [] && r.value.messages[|r.value.messages| - 1] == m
  }

  /** A read with the waiter's arguments, right after a push, ends in the pushed message. */
  lemma PushedIsRead(n: int, held: seq<Message>, m: Message, since: Since)
    requires n >= 1 && (since.NoSince? || (since.From? && since.at < m.timestamp))
    ensures EndsIn(Select(Push(n, held, m), Latest(since)), m)
  {
    var kept := (held + [m])[Max(0, |held| + 1 - n)..];
    var older := kept[..|kept| - 1];
    assert Push(n, held, m) == kept == older + [m];
    if since.From? {
      NewerKeepsLast(older, m, since.at);
    }
  }

  /**
   From end to end: after a successful send a reachable waiter on that channel can go on,
   and if it does so at once its second read returns the message, provided it is newer
   than its `since`.
   */
  lemma {:induction false} SendIsDelivered(cfg: Config, actions: seq<Action>, task: nat, send: Action)
    requires cfg.Valid()
    requires var d := After(cfg, actions); task in d.waiters && !d.waiters[task].orphaned
    requires var w := After(cfg, actions).waiters[task];
             && send.Send? && send.channel == w.channel
             && (w.since.NoSince? || (w.since.From? && w.since.at < send.at))
    ensures var d := After(cfg, actions);
            var w, d' := d.waiters[task], Step(cfg, d, send);
            var result := Adding(cfg, d.relay, send.channel, send.content, send.sender, send.id, send.at).1;
            result.Ok? ==>
              w.event in d'.relay.fired && EndsIn(Read(d'.relay.board, w.channel, Latest(w.since)), result.value)
  {
    NoLostWakeup(cfg, actions, task, send);
    var d := After(cfg, actions);
    SentIsRead(cfg, d, send, Step(cfg, d, send), d.waiters[task].since);
  }

  lemma SentIsRead(cfg: Config, d: Desk, send: Action, d': Desk, since: Since)
    requires cfg.Valid() && send.Send? && (since.NoSince? || (since.From? && since.at < send.at))
    requires d' == Step(cfg, d, send)
    ensures var result := Adding(cfg, d.relay, send.channel, send.content, send.sender, send.id, send.at).1;
            result.Ok? ==> EndsIn(Read(d'.relay.board, send.channel, Latest(since)), result.value)
  {
    var b := d.relay.board;
    var held := if send.channel in b then b[send.channel] else [];
    var m := Message(send.id, send.channel, send.sender, send.content, send.at);
    PushedIsRead(cfg.maxPerChannel, held, m, since);
    SentIsPushed(cfg, d, send, held, m);
  }

  lemma SentIsPushed(cfg: Config, d: Desk, send: Action, held: seq<Message>, m: Message)
    requires send.Send? && held == if send.channel in d.relay.board then d.relay.board[send.channel] else []
    requires m == Message(send.id, send.channel, send.sender, send.content, send.at)
    ensures var (r, result) := Adding(cfg, d.relay, send.channel, send.content, send.sender, send.id, send.at);
            result.Ok? ==>
              result.value == m && send.channel in r.board &&
              r.board[send.channel] == Push(cfg.maxPerChannel, held, m)
  {}

  // ---- when other tasks run before it does ------------------------------

  /** Neither resumes nor gives up. */
  ghost predicate Spares(a: Action, task: nat) { a != Wake(task) && a != GiveUp(task) }

  lemma StillWoken(cfg: Config, d: Desk, a: Action, task: nat)
    requires task in d.waiters && d.waiters[task].event in d.relay.fired && Spares(a, task)
    ensures var d' := Step(cfg, d, a);
            task in d'.waiters && d'.waiters[task] == d.waiters[task] && d.waiters[task].event in d'.relay.fired
  {}

  /** A woken waiter stays so until it resumes, whatever the other tasks do first. */
  lemma {:induction false} StaysWoken(cfg: Config, before: seq<Action>, later: seq<Action>, task: nat)
    requires var d := After(cfg, before); task in d.waiters && d.waiters[task].event in d.relay.fired
    requires forall i :: 0 <= i < |later| ==> Spares(later[i], task)
    ensures var d, d' := After(cfg, before), After(cfg, before + later);
            task in d'.waiters && d'.waiters[task] == d.waiters[task] && d.waiters[task].event in d'.relay.fired
    decreases |later|
  {
    if later == [] {
      assert before + later == before;
    } else {
      var n := |later| - 1;
      StaysWoken(cfg, before, later[..n], task);
      AfterLater(cfg, before, later);
      StillWoken(cfg, After(cfg, before + later[..n]), later[n], task);
    }
  }

  lemma {:induction false} NewerConcat(a: seq<Message>, b: seq<Message>, t: Instant)
    ensures Newer(a + b, t) == Newer(a, t) + Newer(b, t)
  {
    if a == [] {
      assert a + b == b;
    } else {
      TailOfConcat(a, b);
      NewerConcat(a[1..], b, t);
      Regroup([a[0]], Newer(a[1..], t), Newer(b, t));
    }
  }

  lemma {:induction false} NewerShorter(ms: seq<Message>, t: Instant)
    ensures |Newer(ms, t)| <= |ms|
  {
    if ms != [] {
      NewerShorter(ms[1..], t);
    }
  }

  /** A read returns whatever is new among the last fifty messages of the channel. */
  lemma RecentIsRead(ms: seq<Message>, k: nat, since: Since)
    requires k < |ms| && |ms| - k <= 50 && (since.NoSince? || (since.From? && since.at < ms[k].timestamp))
    ensures var r := Select(ms, Latest(since)); r.Ok? && ms[k] in r.value.messages
  {
    if since.From? {
      var older, tail := Newer(ms[..k], since.at), Newer(ms[k..], since.at);
      assert ms[..k] + ms[k..] == ms;
      NewerConcat(ms[..k], ms[k..], since.at);
      NewerShorter(ms[k..], since.at);
      assert tail[0] == ms[k];
      LastHolds(older, tail);
    } else {
      LastHolds(ms[..k], ms[k..]);
      assert ms[..k] + ms[k..] == ms && ms[k..][0] == ms[k];
    }
  }

  lemma LastHolds(older: seq<Message>, tail: seq<Message>)
    requires 0 < |tail| <= 50
    ensures tail[0] in LastN(older + tail, 50)
  {
    var all := older + tail;
    var from := Max(0, |all| - 50);
    assert all[from..][|older| - from] == tail[0];
  }

  /**
   And if it resumes later, after any steps of other tasks: it is still woken, and its
   second read returns the message as long as that is among the channel's last fifty.
   */
  lemma {:induction false} DeliveredLater(cfg: Config, actions: seq<Action>, task: nat, send: Action,
                                          later: seq<Action>, k: nat)
    requires cfg.Valid() && forall i :: 0 <= i < |later| ==> Spares(later[i], task)
    requires var d := After(cfg, actions); task in d.waiters && !d.waiters[task].orphaned
    requires var w := After(cfg, actions).waiters[task];
             && send.Send? && send.channel == w.channel
             && (w.since.NoSince? || (w.since.From? && w.since.at < send.at))
    requires var d := After(cfg, actions);
             AddTo(cfg, d.relay.board, send.channel, send.content, send.sender, send.id, send.at).1.Ok?
    ensures var w := After(cfg, actions).waiters[task];
            var d := After(cfg, actions + [send] + later);
            && task in d.waiters && d.waiters[task] == w && w.event in d.relay.fired
            && (w.channel in d.relay.board ==>
                  var ms := d.relay.board[w.channel];
                  && k < |ms| && |ms| - k <= 50
                  && ms[k] == Message(send.id, send.channel, send.sender, send.content, send.at) ==>
                    var r := Read(d.relay.board, w.channel, Latest(w.since));
                    r.Ok? && ms[k] in r.value.messages)
  {
    NoLostWakeup(cfg, actions, task, send);
    AfterOneMore(cfg, actions, send);
    StaysWoken(cfg, actions + [send], later, task);
    var w := After(cfg, actions).waiters[task];
    var b := After(cfg, actions + [send] + later).relay.board;
    if w.channel in b {
      var ms: seq<Message> := b[w.channel];
      if k < |ms| && |ms| - k <= 50 && ms[k].timestamp == send.at {
        RecentIsRead(ms, k, w.since);
      }
    }
  }

  /**
   The exception, exactly: a waiter is out of reach of every later send, for as long as it
   is suspended, if and only if its channel was deleted while its event was unset.
   */
  lemma {:induction false} OrphanedExactly(cfg: Config, actions: seq<Action>, task: nat)
    requires task in After(cfg, actions).waiters
    ensures var d := After(cfg, actions);
            var w := d.waiters[task];
            w.orphaned <==>
            w.event !in d.relay.fired && !(w.channel in d.relay.events && d.relay.events[w.channel] == w.event)
  {
    AlwaysSound(cfg, actions);
  }

  /** An orphaned waiter stays orphaned until it times out, whatever is sent. */
  lemma {:induction false} OrphansStay(cfg: Config, before: seq<Action>, later: seq<Action>, task: nat)
    requires var d := After(cfg, before); task in d.waiters && d.waiters[task].orphaned
    requires forall i :: 0 <= i < |later| ==> later[i] != GiveUp(task)
    ensures var d := After(cfg, before + later);
            task in d.waiters && d.waiters[task] == After(cfg, before).waiters[task]
    decreases |later|
  {
    if later == [] {
      assert before + later == before;
    } else {
      var n := |later| - 1;
      OrphansStay(cfg, before, later[..n], task);
      AfterLater(cfg, before, later);
      AlwaysSound(cfg, before + later[..n]);
      OrphanStays(cfg, After(cfg, before + later[..n]), later[n], task);
    }
  }

  lemma OrphanStays(cfg: Config, d: Desk, a: Action, task: nat)
    requires Sound(d) && task in d.waiters && d.waiters[task].orphaned && a != GiveUp(task)
    ensures task in Step(cfg, d, a).waiters && Step(cfg, d, a).waiters[task] == d.waiters[task]
  {
    assert WaiterSound(d.relay, d.waiters[task]);
    LeavesExactly(cfg, d, a, task);
  }

  lemma AfterOneMore(cfg: Config, actions: seq<Action>, a: Action)
    ensures After(cfg, actions + [a]) == Step(cfg, After(cfg, actions), a)
  {}

  /** Such a state is reached: a channel is created, waited on and deleted, then written to again. */
  lemma DeleteLosesWaiter(cfg: Config) returns (actions: seq<Action>)
    requires cfg.maxPerChannel >= 1 && cfg.maxChannels >= 1 && cfg.maxMessageSize >= 0
    ensures var d := After(cfg, actions);
            && d.waiters == map[7 := Waiter("c", From(0), 1, true)]
            && HasNews(d.relay.board, "c", From(0))
  {
    var deleted := WaitedAndDeleted(cfg);
    actions := deleted + [Send("c", "", "a", "2", 1)];
    AfterOneMore(cfg, deleted, Send("c", "", "a", "2", 1));
    NewsAgain(cfg, After(cfg, deleted), Send("c", "", "a", "2", 1));
  }

  lemma WaitedAndDeleted(cfg: Config) returns (actions: seq<Action>)
    requires cfg.maxPerChannel >= 1 && cfg.maxChannels >= 1 && cfg.maxMessageSize >= 0
    ensures var d := After(cfg, actions);
            d.relay.board == map[] && d.waiters == map[7 := Waiter("c", From(0), 1, true)]
  {
    var sent := [Send("c", "", "a", "1", 0)];
    FirstSend(cfg, sent[0]);
    var waited := sent + [Wait(7, "c", From(0))];
    AfterOneMore(cfg, sent, Wait(7, "c", From(0)));
    WaitOnOld(cfg, After(cfg, sent));
    actions := waited + [Remove("c")];
    AfterOneMore(cfg, waited, Remove("c"));
    RemoveUnder(cfg, After(cfg, waited));
  }

  lemma FirstSend(cfg: Config, a: Action)
    requires cfg.maxPerChannel >= 1 && cfg.maxChannels >= 1 && cfg.maxMessageSize >= 0
    requires a == Send("c", "", "a", "1", 0)
    ensures After(cfg, [a]) == Desk(Relay(map["c" := [Message("1", "c", "a", "", 0)]], map["c" := 1], {0}, 2), map[])
  {}

  lemma WaitOnOld(cfg: Config, d: Desk)
    requires d == Desk(Relay(map["c" := [Message("1", "c", "a", "", 0)]], map["c" := 1], {0}, 2), map[])
    ensures Step(cfg, d, Wait(7, "c", From(0))) == d.(waiters := map[7 := Waiter("c", From(0), 1, false)])
  {}

  lemma RemoveUnder(cfg: Config, d: Desk)
    requires d.waiters == map[7 := Waiter("c", From(0), 1, false)] && 1 !in d.relay.fired
    requires d.relay.board.Keys == {"c"} && d.relay.events.Keys == {"c"}
    ensures var d' := Step(cfg, d, Remove("c"));
            && d'.relay.board == map[] && d'.relay.events == map[] && d'.relay.fired == d.relay.fired
            && d'.waiters == map[7 := Waiter("c", From(0), 1, true)]
  {}

  lemma NewsAgain(cfg: Config, d: Desk, a: Action)
    requires cfg.maxPerChannel >= 1 && cfg.maxChannels >= 1 && cfg.maxMessageSize >= 0
    requires a == Send("c", "", "a", "2", 1) && d.relay.board == map[]
    ensures HasNews(Step(cfg, d, a).relay.board, "c", From(0))
    ensures Step(cfg, d, a).waiters == d.waiters
  {
    var m := Message("2", "c", "a", "", 1);
    assert Step(cfg, d, a).relay.board["c"] == [m];
    assert m in [m];
  }
}
