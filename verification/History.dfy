/**
 What a channel holds, told from its whole history: bounded retention over every
 run of relay operations.
 */
module History {
  import opened Basics
  import opened PyList
  import opened RelayTypes
  import opened RelayBoard

  /**
   One channel's past. `log` has every message ever appended, `gone` the ids deleted
   one by one, `floor` the log length at the last clear or channel deletion, and `cut`
   how much of the log has left the channel by eviction, clearing or deletion.
   */
  datatype Trace = Trace(log: seq<Message>, gone: set<string>, floor: nat, cut: nat)

  ghost predicate Coherent(t: Trace) {
    && t.floor <= t.cut <= |t.log|
    && UniqueIds(t.log)
  }

  /** The messages of ms whose ids are not in gone. */
  function Live(ms: seq<Message>, gone: set<string>): seq<Message> {
    if ms == [] then []
    else if ms[0].id in gone then Live(ms[1..], gone)
    else [ms[0]] + Live(ms[1..], gone)
  }

  function Contents(t: Trace): seq<Message>
    requires t.cut <= |t.log|
  {
    Live(t.log[t.cut..], t.gone)
  }

  /** The position just after the first live message, or the end when there is none. */
  function PastFirstLive(ms: seq<Message>, gone: set<string>): (k: nat)
    ensures k <= |ms|
  {
    if ms == [] then 0
    else if ms[0].id !in gone then 1
    else 1 + PastFirstLive(ms[1..], gone)
  }

  /** A channel's past after one more message. */
  function Appended(n: int, t: Trace, m: Message): Trace
    requires t.cut <= |t.log|
  {
    var evicted := if |Contents(t)| >= n then PastFirstLive(t.log[t.cut..], t.gone) else 0;
    t.(log := t.log + [m], cut := t.cut + evicted)
  }

  /** How one answered operation extends a channel's past. */
  function Noted(cfg: Config, t: Trace, channel: string, op: Op, reply: Reply): Trace
    requires t.cut <= |t.log|
  {
    if op.channel != channel then t
    else match op
      case Add(_, _, _, _, _) =>
        if reply.Sent? && reply.sent.Ok? then Appended(cfg.maxPerChannel, t, reply.sent.value) else t
      case Clear(_) => t.(floor := |t.log|, cut := |t.log|)
      case Delete(_) => t.(floor := |t.log|, cut := |t.log|)
      case DeleteMessage(_, id, _) =>
        if reply.Flag? && reply.flag then t.(gone := t.gone + {id}) else t
      case Get(_, _) => t
  }

  function TraceOf(cfg: Config, ops: seq<Op>, channel: string): (t: Trace)
    ensures t.floor <= t.cut <= |t.log|
  {
    if ops == [] then Trace([], {}, 0, 0)
    else
      var earlier := ops[..|ops| - 1];
      var op := ops[|ops| - 1];
      Noted(cfg, TraceOf(cfg, earlier, channel), channel, op, Apply(cfg, Run(cfg, earlier), op).1)
  }

  // ---- filtering lemmas -------------------------------------------------

  lemma {:induction false} LiveConcat(a: seq<Message>, b: seq<Message>, gone: set<string>)
    ensures Live(a + b, gone) == Live(a, gone) + Live(b, gone)
  {
    if a == [] {
      assert a + b == b;
    } else {
      TailOfConcat(a, b);
      LiveConcat(a[1..], b, gone);
      Regroup([a[0]], Live(a[1..], gone), Live(b, gone));
    }
  }

  lemma {:induction false} LiveTwice(ms: seq<Message>, gone: set<string>, more: set<string>)
    ensures Live(Live(ms, gone), more) == Live(ms, gone + more)
  {
    if ms != [] {
      LiveTwice(ms[1..], gone, more);
      if ms[0].id !in gone {
        assert Live(ms, gone)[1..] == Live(ms[1..], gone);
      }
    }
  }

  lemma {:induction false} LiveMember(ms: seq<Message>, gone: set<string>, m: Message)
    ensures m in Live(ms, gone) <==> m in ms && m.id !in gone
  {
    if ms != [] {
      LiveMember(ms[1..], gone, m);
      assert ms == [ms[0]] + ms[1..];
    }
  }

  lemma {:induction false} LiveAll(ms: seq<Message>, gone: set<string>)
    requires forall m :: m in ms ==> m.id !in gone
    ensures Live(ms, gone) == ms
  {
    if ms != [] {
      LiveAll(ms[1..], gone);
    }
  }

  lemma {:induction false} LiveShorter(ms: seq<Message>, gone: set<string>)
    ensures |Live(ms, gone)| <= |ms|
  {
    if ms != [] {
      LiveShorter(ms[1..], gone);
    }
  }

  lemma {:induction false} LiveUnique(ms: seq<Message>, gone: set<string>)
    requires UniqueIds(ms)
    ensures UniqueIds(Live(ms, gone))
  {
    if ms != [] {
      LiveUnique(ms[1..], gone);
      forall m | m in Live(ms[1..], gone) ensures m.id != ms[0].id {
        LiveMember(ms[1..], gone, m);
      }
    }
  }

  /** Dropping up to the first live message drops exactly one live message. */
  lemma {:induction false} DropFirstLive(ms: seq<Message>, gone: set<string>)
    requires Live(ms, gone) != []
    ensures 0 < PastFirstLive(ms, gone)
    ensures Live(ms[PastFirstLive(ms, gone)..], gone) == Live(ms, gone)[1..]
  {
    if ms[0].id in gone {
      DropFirstLive(ms[1..], gone);
      assert ms[PastFirstLive(ms, gone)..] == ms[1..][PastFirstLive(ms[1..], gone)..];
    }
  }

  lemma {:induction false} KeptShorter(ms: seq<Message>, id: string, sender: Option<string>)
    ensures |Kept(ms, id, sender)| <= |ms|
    ensures |Kept(ms, id, sender)| == |ms| ==> Kept(ms, id, sender) == ms
  {
    if ms != [] {
      KeptShorter(ms[1..], id, sender);
    }
  }

  lemma {:induction false} KeptAll(ms: seq<Message>, id: string, sender: Option<string>)
    requires forall m :: m in ms && m.id == id ==> sender.Some? && m.sender != sender.value
    ensures Kept(ms, id, sender) == ms
  {
    if ms != [] {
      assert ms[0] in ms;
      KeptAll(ms[1..], id, sender);
    }
  }

  /** With unique ids, a deletion that removes something removes exactly that id. */
  lemma {:induction false} KeptIsLive(ms: seq<Message>, id: string, sender: Option<string>)
    requires UniqueIds(ms) && |Kept(ms, id, sender)| != |ms|
    ensures Kept(ms, id, sender) == Live(ms, {id})
  {
    if ms[0].id == id {
      LiveAll(ms[1..], {id});
      KeptAll(ms[1..], id, sender);
    } else {
      KeptIsLive(ms[1..], id, sender);
    }
  }

  lemma RemovedWasThere(ms: seq<Message>, id: string, sender: Option<string>)
    requires |Kept(ms, id, sender)| != |ms|
    ensures exists m :: m in ms && m.id == id
  {}

  // ---- the run invariant ------------------------------------------------

  ghost predicate Issued(ops: seq<Op>, id: string) {
    exists i :: 0 <= i < |ops| && ops[i].Add? && ops[i].id == id
  }

  /** The exact relation between a channel's contents and its past. */
  ghost predicate Explains(cfg: Config, b: Board, channel: string, t: Trace) {
    && Coherent(t)
    && t.cut <= Max(t.floor, |t.log| - cfg.maxPerChannel)
    && (channel in b ==> b[channel] == Contents(t) && |b[channel]| <= cfg.maxPerChannel)
    && (channel !in b ==> t.floor == |t.log|)
  }

  /** A deque that is full lets go of its first live message, one that is not of nothing. */
  lemma PushLive(n: int, log: seq<Message>, gone: set<string>, m: Message)
    requires n >= 1 && |Live(log, gone)| <= n && m.id !in gone
    ensures var held := Live(log, gone);
            var past := if |held| >= n then PastFirstLive(log, gone) else 0;
            && Push(n, held, m) == Live(log[past..] + [m], gone)
            && (|held| >= n ==> |log[past..]| >= n - 1)
  {
    var held := Live(log, gone);
    PushShape(n, held, m);
    if |held| >= n {
      var past := PastFirstLive(log, gone);
      DropFirstLive(log, gone);
      LiveConcat(log[past..], [m], gone);
      LiveShorter(log[past..], gone);
    } else {
      LiveConcat(log, [m], gone);
      assert log[0..] == log;
    }
  }

  lemma PushShape(n: int, held: seq<Message>, m: Message)
    requires n >= 1 && |held| <= n
    ensures Push(n, held, m) == (if |held| >= n then held[1..] else held) + [m]
  {}

  lemma AppendedContents(n: int, t: Trace, m: Message)
    requires n >= 1 && Coherent(t) && |Contents(t)| <= n && t.cut <= Max(t.floor, |t.log| - n)
    requires m.id !in t.gone && forall x :: x in t.log ==> x.id != m.id
    ensures var t' := Appended(n, t, m);
            && Coherent(t') && t'.cut <= Max(t'.floor, |t'.log| - n)
            && Push(n, Contents(t), m) == Contents(t')
  {
    var t' := Appended(n, t, m);
    PushLive(n, t.log[t.cut..], t.gone, m);
    assert t'.log[t'.cut..] == t.log[t.cut..][t'.cut - t.cut..] + [m];
  }

  lemma NotedAdd(cfg: Config, b: Board, t: Trace, op: Op)
    requires cfg.Valid() && op.Add? && Explains(cfg, b, op.channel, t)
    requires forall m :: m in t.log ==> m.id != op.id
    requires op.id !in t.gone
    ensures var (b', reply) := Apply(cfg, b, op);
            Explains(cfg, b', op.channel, Noted(cfg, t, op.channel, op, reply))
  {
    var m := Message(op.id, op.channel, op.sender, op.content, op.at);
    AddShape(cfg, b, op, m);
    HeldIsContents(cfg, b, t, op.channel);
    AppendedContents(cfg.maxPerChannel, t, m);
  }

  lemma HeldIsContents(cfg: Config, b: Board, t: Trace, channel: string)
    requires cfg.Valid() && Explains(cfg, b, channel, t)
    ensures Contents(t) == (if channel in b then b[channel] else []) && |Contents(t)| <= cfg.maxPerChannel
  {}

  /** An `add` is refused or pushes its message. */
  lemma AddShape(cfg: Config, b: Board, op: Op, m: Message)
    requires op.Add? && m == Message(op.id, op.channel, op.sender, op.content, op.at)
    ensures var (b', reply) := Apply(cfg, b, op);
            var held := if op.channel in b then b[op.channel] else [];
            || (b' == b && reply.Sent? && reply.sent.Err?)
            || (b' == b[op.channel := Push(cfg.maxPerChannel, held, m)] && reply == Sent(Ok(m)))
  {}

  lemma NotedDelete(cfg: Config, b: Board, t: Trace, op: Op)
    requires op.DeleteMessage? && Explains(cfg, b, op.channel, t)
    ensures var (b', reply) := Apply(cfg, b, op);
            && Explains(cfg, b', op.channel, Noted(cfg, t, op.channel, op, reply))
            && (reply.flag ==> exists m :: m in t.log && m.id == op.id)
  {
    if op.channel in b {
      var held := b[op.channel];
      if |Kept(held, op.id, op.bySender)| != |held| {
        LiveUnique(t.log[t.cut..], t.gone);
        KeptIsLive(held, op.id, op.bySender);
        LiveTwice(t.log[t.cut..], t.gone, {op.id});
        KeptShorter(held, op.id, op.bySender);
        RemovedWasThere(held, op.id, op.bySender);
        var m :| m in held && m.id == op.id;
        LiveMember(t.log[t.cut..], t.gone, m);
        assert m in t.log;
      }
    }
  }

  /** One operation keeps the relation, whatever channel it is about. */
  lemma NotedStep(cfg: Config, b: Board, t: Trace, channel: string, op: Op)
    requires cfg.Valid() && Explains(cfg, b, channel, t)
    requires op.Add? ==> op.id !in t.gone && forall m :: m in t.log ==> m.id != op.id
    ensures var (b', reply) := Apply(cfg, b, op);
            Explains(cfg, b', channel, Noted(cfg, t, channel, op, reply))
  {
    if op.channel == channel {
      match op
      case Add(_, _, _, _, _) => NotedAdd(cfg, b, t, op);
      case DeleteMessage(_, _, _) => NotedDelete(cfg, b, t, op);
      case _ =>
    }
  }

  /** Ids in the log or deleted were handed out earlier in the run. */
  ghost predicate AllIssued(ops: seq<Op>, t: Trace) {
    && (forall m :: m in t.log ==> Issued(ops, m.id))
    && (forall id :: id in t.gone ==> Issued(ops, id))
  }

  lemma IssuedStep(cfg: Config, b: Board, t: Trace, channel: string, earlier: seq<Op>, op: Op)
    requires Explains(cfg, b, channel, t) && AllIssued(earlier, t)
    ensures AllIssued(earlier + [op], Noted(cfg, t, channel, op, Apply(cfg, b, op).1))
  {
    var ops := earlier + [op];
    forall id | Issued(earlier, id) ensures Issued(ops, id) {
      var i :| 0 <= i < |earlier| && earlier[i].Add? && earlier[i].id == id;
      assert ops[i] == earlier[i];
    }
    assert ops[|earlier|] == op;
    if op.channel == channel && op.DeleteMessage? {
      NotedDelete(cfg, b, t, op);
    }
  }

  /** In every run, every channel's contents are exactly what its past prescribes. */
  lemma {:induction false} Retained(cfg: Config, ops: seq<Op>, channel: string)
    requires cfg.Valid() && FreshIds(ops)
    ensures Explains(cfg, Run(cfg, ops), channel, TraceOf(cfg, ops, channel))
    ensures AllIssued(ops, TraceOf(cfg, ops, channel))
  {
    if ops != [] {
      var n := |ops| - 1;
      var earlier, op := ops[..n], ops[n];
      Retained(cfg, earlier, channel);
      var b, t := Run(cfg, earlier), TraceOf(cfg, earlier, channel);
      assert ops == earlier + [op];
      if op.Add? {
        forall id | Issued(earlier, id) ensures op.id != id {
          var i :| 0 <= i < |earlier| && earlier[i].Add? && earlier[i].id == id;
          assert ops[i].Add? && ops[n].Add?;
        }
      }
      NotedStep(cfg, b, t, channel, op);
      IssuedStep(cfg, b, t, channel, earlier, op);
    }
  }

  /** ys are the elements of xs at the given ascending positions. */
  ghost predicate Picks(ys: seq<Message>, xs: seq<Message>, at: seq<nat>) {
    && |at| == |ys|
    && (forall i :: 0 <= i < |at| ==> at[i] < |xs| && ys[i] == xs[at[i]])
    && (forall i, j :: 0 <= i < j < |at| ==> at[i] < at[j])
  }

  /** ys are elements of xs, in the order of xs. */
  ghost predicate Subsequence(ys: seq<Message>, xs: seq<Message>) {
    exists at: seq<nat> :: Picks(ys, xs, at)
  }

  function Shifted(at: seq<nat>, d: nat): seq<nat> { seq(|at|, i requires 0 <= i < |at| => at[i] + d) }

  lemma PicksLater(ys: seq<Message>, xs: seq<Message>, from: nat, at: seq<nat>)
    requires from <= |xs| && Picks(ys, xs[from..], at)
    ensures Picks(ys, xs, Shifted(at, from))
  {}

  lemma PicksFirst(ys: seq<Message>, xs: seq<Message>, at: seq<nat>)
    requires xs != [] && Picks(ys, xs, at) && forall i :: 0 <= i < |at| ==> at[i] > 0
    ensures Picks([xs[0]] + ys, xs, [0] + at)
  {}

  lemma {:induction false} LivePositions(ms: seq<Message>, gone: set<string>) returns (at: seq<nat>)
    ensures Picks(Live(ms, gone), ms, at)
  {
    if ms == [] {
      at := [];
    } else {
      var rest := LivePositions(ms[1..], gone);
      PicksLater(Live(ms[1..], gone), ms, 1, rest);
      at := Shifted(rest, 1);
      if ms[0].id !in gone {
        PicksFirst(Live(ms[1..], gone), ms, at);
        at := [0] + at;
      }
    }
  }

  lemma LiveSubsequence(ms: seq<Message>, from: nat, gone: set<string>)
    requires from <= |ms|
    ensures Subsequence(Live(ms[from..], gone), ms)
  {
    var at := LivePositions(ms[from..], gone);
    PicksLater(Live(ms[from..], gone), ms, from, at);
  }

  lemma LiveHasRecent(ms: seq<Message>, from: nat, gone: set<string>, j: nat)
    requires from <= j < |ms| && ms[j].id !in gone
    ensures ms[j] in Live(ms[from..], gone)
  {
    assert ms[from..][j - from] == ms[j];
    LiveMember(ms[from..], gone, ms[j]);
  }

  /**
   Bounded retention, for a list of at most n messages and the channel's past: held in
   append order, all appended since the last clear or deletion, none deleted, and no
   undeleted message among the last n of those is missing.
   */
  ghost predicate Retains(n: int, held: seq<Message>, t: Trace)
    requires t.floor <= |t.log|
  {
    && |held| <= n
    && Subsequence(held, t.log[t.floor..])
    && (forall m :: m in held ==> m.id !in t.gone)
    && (forall j :: Max(t.floor, |t.log| - n) <= j < |t.log| && t.log[j].id !in t.gone ==> t.log[j] in held)
  }

  lemma ContentsRetain(n: int, t: Trace)
    requires Coherent(t) && t.cut <= Max(t.floor, |t.log| - n)
    requires |Contents(t)| <= n
    ensures Retains(n, Contents(t), t)
  {
    var log, gone, cut, floor := t.log, t.gone, t.cut, t.floor;
    assert log[floor..][cut - floor..] == log[cut..];
    LiveSubsequence(log[floor..], cut - floor, gone);
    forall m | m in Contents(t) ensures m.id !in gone {
      LiveMember(log[cut..], gone, m);
    }
    forall j | Max(floor, |log| - n) <= j < |log| && log[j].id !in gone
      ensures log[j] in Contents(t)
    {
      LiveHasRecent(log, cut, gone, j);
    }
  }

  /** Bounded retention holds for every channel after every run. */
  lemma {:induction false} BoundedRetention(cfg: Config, ops: seq<Op>, channel: string)
    requires cfg.Valid() && FreshIds(ops) && channel in Run(cfg, ops)
    ensures Retains(cfg.maxPerChannel, Run(cfg, ops)[channel], TraceOf(cfg, ops, channel))
  {
    Retained(cfg, ops, channel);
    ContentsRetain(cfg.maxPerChannel, TraceOf(cfg, ops, channel));
  }

  /** The channel cap holds after every run. */
  lemma {:induction false} ChannelCap(cfg: Config, ops: seq<Op>)
    requires cfg.maxChannels >= 0
    ensures |Run(cfg, ops)| <= cfg.maxChannels
  {
    if ops != [] {
      var b, op := Run(cfg, ops[..|ops| - 1]), ops[|ops| - 1];
      ChannelCap(cfg, ops[..|ops| - 1]);
      var b' := Apply(cfg, b, op).0;
      if op.Add? && op.channel !in b && b' != b {
        assert b'.Keys == b.Keys + {op.channel};
      } else {
        assert b'.Keys <= b.Keys;
        SubsetSize(b'.Keys, b.Keys);
      }
      assert |b'| == |b'.Keys| && |b| == |b.Keys|;
    }
  }

  // ---- how a past grows -------------------------------------------------

  /** `later` is a possible continuation of `t`. */
  ghost predicate Extends(t: Trace, later: Trace) {
    && t.log <= later.log
    && t.gone <= later.gone
    && t.cut <= later.cut
  }

  /** A channel's past only ever grows. */
  lemma {:induction false} PastGrows(cfg: Config, ops: seq<Op>, i: nat, channel: string)
    requires i <= |ops|
    ensures Extends(TraceOf(cfg, ops[..i], channel), TraceOf(cfg, ops, channel))
  {
    if i == |ops| {
      assert ops[..i] == ops;
    } else {
      var earlier := ops[..|ops| - 1];
      PastGrows(cfg, earlier, i, channel);
      assert earlier[..i] == ops[..i];
    }
  }
}
