/**
 What the relay's operations mean on a plain map from channel names to message
 lists. Both stores are proved against these functions, and the run-level
 theorems (retention, paging, watching, wakeups) are proved about them.
 */
module RelayBoard {
  import opened Basics
  import opened PyList
  import opened RelayTypes

  type Board = map<string, seq<Message>>

  // ---- reading ----------------------------------------------------------

  /** The messages strictly newer than t, in order. */
  function Newer(ms: seq<Message>, t: Instant): seq<Message> {
    if ms == [] then []
    else if ms[0].timestamp > t then [ms[0]] + Newer(ms[1..], t)
    else Newer(ms[1..], t)
  }

  /** The `since` filter; a malformed time is refused first, a naive one at the first comparison. */
  function Narrow(ms: seq<Message>, since: Since): Result<seq<Message>, Error> {
    match since
    case NoSince => Ok(ms)
    case Malformed => Err(BadSince)
    case Naive => if ms == [] then Ok([]) else Err(NaiveSince)
    case From(t) => Ok(Newer(ms, t))
  }

  /** The first position holding the given id. */
  function IndexOf(ms: seq<Message>, id: string): (r: Option<nat>)
    ensures r.Some? ==> r.value < |ms| && ms[r.value].id == id
                        && forall j :: 0 <= j < r.value ==> ms[j].id != id
    ensures r.None? ==> forall j :: 0 <= j < |ms| ==> ms[j].id != id
  {
    if ms == [] then None
    else if ms[0].id == id then Some(0)
    else match IndexOf(ms[1..], id)
         case None => None
         case Some(i) => Some(i + 1)
  }

  /** `get` on the message list of an existing channel. */
  function Select(ms: seq<Message>, q: Query): Result<Page, Error> {
    if q.sortOrder.Unknown? then Err(BadSortOrder)
    else
      var limit := Min(q.limit, MAX_READ_LIMIT);
      match Narrow(ms, q.since)
      case Err(e) => Err(e)
      case Ok(narrowed) =>
        if q.after != "" then
          match IndexOf(narrowed, q.after)
          case None => Err(CursorNotFound)
          case Some(i) => Ok(Oldest(narrowed[i + 1..], limit))
        else if q.before != "" then
          match IndexOf(narrowed, q.before)
          case None => Err(CursorNotFound)
          case Some(i) => Ok(Newest(narrowed[..i], limit))
        else if q.sortOrder.Asc? then Ok(Oldest(narrowed, limit))
        else Ok(Newest(narrowed, limit))
  }

  function Oldest(ms: seq<Message>, limit: int): Page { Page(Upto(ms, limit), |ms| > limit) }

  function Newest(ms: seq<Message>, limit: int): Page { Page(LastN(ms, limit), |ms| > limit) }

  function Read(b: Board, channel: string, q: Query): Result<Page, Error> {
    if channel !in b then Ok(Page([], false)) else Select(b[channel], q)
  }

  /** The query `wait_for_new` issues: every argument but `since` left at its default. */
  function Latest(since: Since): Query { Query(since, 50, Desc, "", "") }

  function Info(b: Board, channel: string): ChannelInfo
    requires channel in b
  {
    var ms := b[channel];
    ChannelInfo(channel, |ms|, if ms == [] then None else Some(ms[|ms| - 1].timestamp))
  }

  /** Each of the named channels exactly once, in any order. */
  ghost predicate Lists(infos: seq<ChannelInfo>, b: Board, names: set<string>) {
    && names <= b.Keys
    && (forall i :: 0 <= i < |infos| ==> infos[i].name in names && infos[i] == Info(b, infos[i].name))
    && (forall c :: c in names ==> Info(b, c) in infos)
    && (forall i, j :: 0 <= i < j < |infos| ==> infos[i].name != infos[j].name)
  }

  ghost predicate IsListing(infos: seq<ChannelInfo>, b: Board) { Lists(infos, b, b.Keys) }

  lemma ListsOneMore(infos: seq<ChannelInfo>, b: Board, names: set<string>, name: string)
    requires Lists(infos, b, names) && name in b && name !in names
    ensures Lists(infos + [Info(b, name)], b, names + {name})
  {}

  /** Two listings of the same board differ in order only. */
  lemma ListingsAgree(a: seq<ChannelInfo>, c: seq<ChannelInfo>, b: Board)
    requires IsListing(a, b) && IsListing(c, b)
    ensures multiset(a) == multiset(c)
  {
    forall x ensures multiset(a)[x] == multiset(c)[x] {
      OnceEach(a, x);
      OnceEach(c, x);
      assert x in a ==> x == Info(b, x.name);
      assert x in c ==> x == Info(b, x.name);
    }
  }

  lemma {:induction false} OnceEach(infos: seq<ChannelInfo>, x: ChannelInfo)
    requires forall i, j :: 0 <= i < j < |infos| ==> infos[i].name != infos[j].name
    ensures multiset(infos)[x] == if x in infos then 1 else 0
  {
    if infos != [] {
      OnceEach(infos[1..], x);
      assert infos == [infos[0]] + infos[1..];
    }
  }

  // ---- writing ----------------------------------------------------------

  /** Appending to a deque of the given maximal length drops from the front. */
  function Push(n: int, ms: seq<Message>, m: Message): seq<Message> {
    LastN(ms + [m], n)
  }

  function AddTo(cfg: Config, b: Board, channel: string, content: string, sender: string,
                 id: string, at: Instant): (Board, Result<Message, Error>)
  {
    if |content| > cfg.maxMessageSize then (b, Err(TooLarge))
    else if channel !in b && |b| >= cfg.maxChannels then (b, Err(ChannelLimit))
    else
      var m := Message(id, channel, sender, content, at);
      var before := if channel in b then b[channel] else [];
      (b[channel := Push(cfg.maxPerChannel, before, m)], Ok(m))
  }

  function ClearIn(b: Board, channel: string): (Board, bool) {
    if channel in b then (b[channel := []], true) else (b, false)
  }

  function DeleteFrom(b: Board, channel: string): (Board, bool) {
    if channel in b then (b - {channel}, true) else (b, false)
  }

  /** The messages a deletion request leaves: another id, or the right id but the wrong sender. */
  function Kept(ms: seq<Message>, id: string, sender: Option<string>): seq<Message> {
    if ms == [] then []
    else if ms[0].id != id || (sender.Some? && ms[0].sender != sender.value)
    then [ms[0]] + Kept(ms[1..], id, sender)
    else Kept(ms[1..], id, sender)
  }

  function DeleteMessageFrom(b: Board, channel: string, id: string, sender: Option<string>): (Board, bool) {
    if channel !in b then (b, false)
    else
      var kept := Kept(b[channel], id, sender);
      if |kept| == |b[channel]| then (b, false) else (b[channel := kept], true)
  }

  // ---- runs -------------------------------------------------------------

  datatype Op =
    | Add(channel: string, content: string, sender: string, id: string, at: Instant)
    | Get(channel: string, query: Query)
    | Clear(channel: string)
    | Delete(channel: string)
    | DeleteMessage(channel: string, id: string, bySender: Option<string>)

  datatype Reply = Sent(sent: Result<Message, Error>) | Flag(flag: bool) | Got(page: Result<Page, Error>)

  function Apply(cfg: Config, b: Board, op: Op): (Board, Reply) {
    match op
    case Add(c, content, sender, id, at) =>
      var (b', r) := AddTo(cfg, b, c, content, sender, id, at); (b', Sent(r))
    case Get(c, q) => (b, Got(Read(b, c, q)))
    case Clear(c) => var (b', f) := ClearIn(b, c); (b', Flag(f))
    case Delete(c) => var (b', f) := DeleteFrom(b, c); (b', Flag(f))
    case DeleteMessage(c, id, s) => var (b', f) := DeleteMessageFrom(b, c, id, s); (b', Flag(f))
  }

  /** The board after a whole run from an empty store. */
  function Run(cfg: Config, ops: seq<Op>): Board {
    if ops == [] then map[] else Apply(cfg, Run(cfg, ops[..|ops| - 1]), ops[|ops| - 1]).0
  }

  /** Every message id handed out during the run is new (uuid4). */
  ghost predicate FreshIds(ops: seq<Op>) {
    forall i, j :: 0 <= i < j < |ops| && ops[i].Add? && ops[j].Add? ==> ops[i].id != ops[j].id
  }
}
