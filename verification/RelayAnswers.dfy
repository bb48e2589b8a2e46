/**
 What the relay's operations answer, said without the specification's own steps: when an
 `add` succeeds, which messages a read returns, what a deletion takes. Both stores are
 proved against the same specification, so this holds of both.
 */
module RelayAnswers {
  import opened Basics
  import opened PyList
  import opened RelayTypes
  import opened RelayBoard
  import opened MemoryRelay
  import opened History
  import opened Wakeup

  // ---- which messages a read returns ------------------------------------

  /** What the `since` filter lets through. */
  ghost predicate Passes(since: Since, m: Message) { since.From? ==> m.timestamp > since.at }

  /** `after` takes precedence over `before`. */
  function Cursor(q: Query): string { if q.after != "" then q.after else q.before }

  ghost predicate FromFront(q: Query) { q.after != "" || (q.before == "" && q.sortOrder.Asc?) }

  /** Message c is the one the cursor names: the first with that id that passes the filter. */
  ghost predicate Names(ms: seq<Message>, since: Since, id: string, c: nat) {
    && c < |ms| && Passes(since, ms[c]) && ms[c].id == id
    && forall i :: 0 <= i < c && Passes(since, ms[i]) ==> ms[i].id != id
  }

  /** Message i is asked for: it passes the filter and lies on the right side of the cursor. */
  ghost predicate Wanted(ms: seq<Message>, q: Query, i: nat) {
    && i < |ms| && Passes(q.since, ms[i])
    && (Cursor(q) != "" ==>
          exists c: nat :: Names(ms, q.since, Cursor(q), c) && if q.after != "" then c < i else i < c)
  }

  /** The one error a read of an existing channel raises, if any. */
  ghost predicate Refused(ms: seq<Message>, q: Query, e: Error) {
    match e
    case BadSortOrder => q.sortOrder.Unknown?
    case BadSince => !q.sortOrder.Unknown? && q.since.Malformed?
    case NaiveSince => !q.sortOrder.Unknown? && q.since.Naive? && ms != []
    case CursorNotFound =>
      && !q.sortOrder.Unknown? && !q.since.Malformed? && (q.since.Naive? ==> ms == [])
      && Cursor(q) != "" && forall c: nat :: !Names(ms, q.since, Cursor(q), c)
    case _ => false
  }

  /** How many of n messages a slice takes; Python counts a bound that is not positive from the other end. */
  function Count(front: bool, limit: int, n: nat): nat {
    if limit >= 1 then Min(limit, n)
    else if front && limit == 0 then 0
    else Max(0, n + limit)
  }

  /** The page shows the messages at these positions, the outermost of those wanted, and `rest` are the others. */
  ghost predicate ShowsAt(ms: seq<Message>, q: Query, page: Page, at: seq<nat>, rest: set<nat>) {
    && Picks(page.messages, ms, at)
    && (forall i: nat :: i in at || i in rest <==> Wanted(ms, q, i))
    && (forall i, k :: i in rest && 0 <= k < |at| ==> if FromFront(q) then at[k] < i else i < at[k])
    && |at| == Count(FromFront(q), Min(q.limit, 200), |at| + |rest|)
    && (page.hasMore <==> |at| + |rest| > Min(q.limit, 200))
  }

  ghost predicate Ascending(at: seq<nat>) { forall i, j :: 0 <= i < j < |at| ==> at[i] < at[j] }

  /** The messages at these positions. */
  function Pick(ms: seq<Message>, at: seq<nat>): seq<Message>
    requires forall i :: 0 <= i < |at| ==> at[i] < |ms|
  {
    seq(|at|, i requires 0 <= i < |at| => ms[at[i]])
  }

  /** The positions of what the filter lets through. */
  ghost predicate Passing(ms: seq<Message>, since: Since, at: seq<nat>) {
    && Ascending(at) && (forall i :: 0 <= i < |at| ==> at[i] < |ms|)
    && (forall i: nat :: i in at <==> i < |ms| && Passes(since, ms[i]))
  }

  lemma {:induction false} NewerPositions(ms: seq<Message>, t: Instant) returns (at: seq<nat>)
    ensures Passing(ms, From(t), at) && Newer(ms, t) == Pick(ms, at)
  {
    if ms == [] {
      at := [];
    } else {
      var rest := NewerPositions(ms[1..], t);
      at := Shifted(rest, 1);
      ShiftedPasses(ms, From(t), rest, at);
      if ms[0].timestamp > t {
        FirstPasses(ms, From(t), at);
        at := [0] + at;
      }
    }
  }

  lemma ShiftedPasses(ms: seq<Message>, since: Since, rest: seq<nat>, at: seq<nat>)
    requires ms != [] && Passing(ms[1..], since, rest) && at == Shifted(rest, 1)
    ensures Ascending(at) && (forall i :: 0 <= i < |at| ==> 0 < at[i] < |ms|)
    ensures forall i: nat :: i in at <==> 0 < i < |ms| && Passes(since, ms[i])
    ensures Pick(ms, at) == Pick(ms[1..], rest)
  {
    forall i | i in at ensures 0 < i < |ms| && Passes(since, ms[i]) {
      var k :| 0 <= k < |at| && at[k] == i;
      assert rest[k] in rest && ms[1..][i - 1] == ms[i];
    }
    forall i: nat | 0 < i < |ms| && Passes(since, ms[i]) ensures i in at {
      assert ms[1..][i - 1] == ms[i] && i - 1 in rest;
      var k :| 0 <= k < |rest| && rest[k] == i - 1;
      assert at[k] == i;
    }
  }

  lemma FirstPasses(ms: seq<Message>, since: Since, at: seq<nat>)
    requires ms != [] && Passes(since, ms[0])
    requires Ascending(at) && (forall i :: 0 <= i < |at| ==> 0 < at[i] < |ms|)
    requires forall i: nat :: i in at <==> 0 < i < |ms| && Passes(since, ms[i])
    ensures Passing(ms, since, [0] + at) && Pick(ms, [0] + at) == [ms[0]] + Pick(ms, at)
  {}

  lemma NarrowPositions(ms: seq<Message>, since: Since) returns (at: seq<nat>)
    requires !since.Malformed? && (since.Naive? ==> ms == [])
    ensures Passing(ms, since, at) && Narrow(ms, since) == Ok(Pick(ms, at))
  {
    if since.From? {
      at := NewerPositions(ms, since.at);
    } else {
      at := seq(|ms|, i requires 0 <= i < |ms| => i);
      forall i: nat | i < |ms| ensures i in at {
        assert at[i] == i;
      }
      assert Pick(ms, at) == ms;
    }
  }

  /** Where the cursor is among the positions, it is in the list of messages. */
  lemma CursorPosition(ms: seq<Message>, since: Since, at: seq<nat>, id: string)
    requires Passing(ms, since, at)
    ensures var r := IndexOf(Pick(ms, at), id);
            && (r.Some? ==> r.value < |at| && Names(ms, since, id, at[r.value]))
            && (r.None? ==> forall c: nat :: !Names(ms, since, id, c))
  {
    var picked := Pick(ms, at);
    var r := IndexOf(picked, id);
    if r.Some? {
      forall i | 0 <= i < at[r.value] && Passes(since, ms[i]) ensures ms[i].id != id {
        var k :| 0 <= k < |at| && at[k] == i;
        assert k < r.value && picked[k] == ms[i];
      }
      assert picked[r.value] == ms[at[r.value]] && at[r.value] in at;
    } else {
      forall c: nat ensures !Names(ms, since, id, c) {
        if c < |ms| && Passes(since, ms[c]) {
          var k :| 0 <= k < |at| && at[k] == c;
          assert picked[k] == ms[c];
        }
      }
    }
  }

  lemma NamedOnce(ms: seq<Message>, since: Since, id: string, c: nat, d: nat)
    requires Names(ms, since, id, c) && Names(ms, since, id, d)
    ensures c == d
  {}

  /** These are the positions of the messages asked for. */
  ghost predicate Wants(ms: seq<Message>, q: Query, at: seq<nat>) {
    && Ascending(at) && (forall i :: 0 <= i < |at| ==> at[i] < |ms|)
    && (forall i: nat :: i in at <==> Wanted(ms, q, i))
  }

  lemma WantedPositions(ms: seq<Message>, q: Query) returns (at: seq<nat>)
    requires forall e :: !Refused(ms, q, e)
    ensures Wants(ms, q, at)
    ensures var limit := Min(q.limit, MAX_READ_LIMIT);
            Select(ms, q) == Ok(if FromFront(q) then Oldest(Pick(ms, at), limit) else Newest(Pick(ms, at), limit))
  {
    assert !Refused(ms, q, BadSortOrder) && !Refused(ms, q, BadSince) && !Refused(ms, q, NaiveSince);
    var all := NarrowPositions(ms, q.since);
    if Cursor(q) == "" {
      at := all;
    } else {
      assert !Refused(ms, q, CursorNotFound);
      at := CutPositions(ms, q, all);
    }
  }

  lemma CutPositions(ms: seq<Message>, q: Query, all: seq<nat>) returns (at: seq<nat>)
    requires !q.sortOrder.Unknown? && Cursor(q) != "" && exists c: nat :: Names(ms, q.since, Cursor(q), c)
    requires Passing(ms, q.since, all) && Narrow(ms, q.since) == Ok(Pick(ms, all))
    ensures Wants(ms, q, at)
    ensures var limit := Min(q.limit, MAX_READ_LIMIT);
            Select(ms, q) == Ok(if FromFront(q) then Oldest(Pick(ms, at), limit) else Newest(Pick(ms, at), limit))
  {
    CursorPosition(ms, q.since, all, Cursor(q));
    var picked := Pick(ms, all);
    var k := IndexOf(picked, Cursor(q)).value;
    at := if q.after != "" then all[k + 1..] else all[..k];
    Beyond(ms, q, all, k, at);
    SelectsPast(ms, q, picked, k);
    PickParts(ms, all, if q.after != "" then k + 1 else k);
  }

  lemma PickPicks(ms: seq<Message>, at: seq<nat>)
    requires Ascending(at) && forall i :: 0 <= i < |at| ==> at[i] < |ms|
    ensures Picks(Pick(ms, at), ms, at)
  {}

  lemma PickParts(ms: seq<Message>, all: seq<nat>, k: nat)
    requires (forall i :: 0 <= i < |all| ==> all[i] < |ms|) && k <= |all|
    ensures Pick(ms, all[..k]) == Pick(ms, all)[..k] && Pick(ms, all[k..]) == Pick(ms, all)[k..]
  {}

  lemma SelectsPast(ms: seq<Message>, q: Query, narrowed: seq<Message>, k: nat)
    requires !q.sortOrder.Unknown? && Cursor(q) != "" && Narrow(ms, q.since) == Ok(narrowed)
    requires IndexOf(narrowed, Cursor(q)) == Some(k)
    ensures var limit := Min(q.limit, MAX_READ_LIMIT);
            Select(ms, q) ==
            Ok(if q.after != "" then Oldest(narrowed[k + 1..], limit) else Newest(narrowed[..k], limit))
  {}

  lemma Beyond(ms: seq<Message>, q: Query, all: seq<nat>, k: nat, at: seq<nat>)
    requires Passing(ms, q.since, all) && k < |all| && Cursor(q) != "" && Names(ms, q.since, Cursor(q), all[k])
    requires at == if q.after != "" then all[k + 1..] else all[..k]
    ensures Wants(ms, q, at)
  {
    forall i | i in at ensures Wanted(ms, q, i) {
      assert i in all;
    }
    forall i: nat | Wanted(ms, q, i) ensures i in at {
      var c: nat :| Names(ms, q.since, Cursor(q), c) && if q.after != "" then c < i else i < c;
      NamedOnce(ms, q.since, Cursor(q), c, all[k]);
      var n :| 0 <= n < |all| && all[n] == i;
      if q.after != "" {
        assert n > k && at[n - k - 1] == i;
      } else {
        assert n < k && at[n] == i;
      }
    }
  }

  function Positions(at: seq<nat>): set<nat> { set i | i in at }

  lemma {:induction false} AscendingSize(at: seq<nat>)
    requires Ascending(at)
    ensures |Positions(at)| == |at|
  {
    if at != [] {
      AscendingSize(at[1..]);
      assert Positions(at) == Positions(at[1..]) + {at[0]};
    }
  }

  lemma TwoParts(all: seq<nat>, low: seq<nat>, high: seq<nat>)
    requires Ascending(all) && all == low + high
    ensures Ascending(low) && Ascending(high) && forall i :: i in all <==> i in low || i in high
    ensures forall i, j :: i in low && j in high ==> i < j
  {
    assert forall k :: 0 <= k < |low| ==> all[k] == low[k];
    assert forall k :: 0 <= k < |high| ==> all[|low| + k] == high[k];
  }

  /** Some of the positions wanted, the others all after them or all before. */
  lemma SliceShows(ms: seq<Message>, q: Query, all: seq<nat>, page: Page, at: seq<nat>, left: seq<nat>)
    requires Wants(ms, q, all) && all == (if FromFront(q) then at + left else left + at)
    requires Picks(page.messages, ms, at) && |at| == Count(FromFront(q), Min(q.limit, 200), |all|)
    requires page.hasMore <==> |all| > Min(q.limit, 200)
    ensures ShowsAt(ms, q, page, at, Positions(left))
  {
    if FromFront(q) {
      TwoParts(all, at, left);
    } else {
      TwoParts(all, left, at);
    }
    AscendingSize(left);
    assert forall k :: 0 <= k < |at| ==> at[k] in at;
  }

  lemma SliceSizes(ms: seq<Message>, limit: int)
    ensures Oldest(ms, limit) == Page(ms[..Count(true, limit, |ms|)], |ms| > limit)
    ensures Newest(ms, limit) == Page(ms[|ms| - Count(false, limit, |ms|)..], |ms| > limit)
  {}

  /**
   A read of an existing channel, for every combination of filter, cursor, order and limit.
   It is refused for exactly one reason, or shows in their order the first, or the last, of
   the messages asked for, as many as the limit allows.
   */
  lemma ReadAnswers(ms: seq<Message>, q: Query) returns (at: seq<nat>, rest: set<nat>)
    ensures forall e :: Select(ms, q) == Err(e) <==> Refused(ms, q, e)
    ensures Select(ms, q).Ok? ==> ShowsAt(ms, q, Select(ms, q).value, at, rest)
  {
    at, rest := [], {};
    if e :| Refused(ms, q, e) {
      RefusedReads(ms, q, e);
    } else {
      var all := WantedPositions(ms, q);
      at, rest := SomeShown(ms, q, all, Select(ms, q).value);
    }
  }

  lemma SomeShown(ms: seq<Message>, q: Query, all: seq<nat>, page: Page) returns (at: seq<nat>, rest: set<nat>)
    requires Wants(ms, q, all)
    requires var limit := Min(q.limit, MAX_READ_LIMIT);
             page == if FromFront(q) then Oldest(Pick(ms, all), limit) else Newest(Pick(ms, all), limit)
    ensures ShowsAt(ms, q, page, at, rest)
  {
    var limit, picked := Min(q.limit, 200), Pick(ms, all);
    var n := Count(FromFront(q), limit, |all|);
    var k := if FromFront(q) then n else |all| - n;
    SliceSizes(picked, limit);
    PickParts(ms, all, k);
    at := if FromFront(q) then all[..k] else all[k..];
    var left := if FromFront(q) then all[k..] else all[..k];
    PageShows(ms, q, all, page, k, at, left);
    rest := Positions(left);
  }

  lemma PageShows(ms: seq<Message>, q: Query, all: seq<nat>, page: Page, k: nat, at: seq<nat>, left: seq<nat>)
    requires Wants(ms, q, all) && k <= |all| && (forall i :: 0 <= i < |at| ==> at[i] < |ms|)
    requires (at, left) == if FromFront(q) then (all[..k], all[k..]) else (all[k..], all[..k])
    requires |at| == Count(FromFront(q), Min(q.limit, 200), |all|) && page.messages == Pick(ms, at)
    requires page.hasMore <==> |all| > Min(q.limit, 200)
    ensures ShowsAt(ms, q, page, at, Positions(left))
  {
    assert all == all[..k] + all[k..];
    TwoParts(all, all[..k], all[k..]);
    PickPicks(ms, at);
    SliceShows(ms, q, all, page, at, left);
  }

  lemma RefusedReads(ms: seq<Message>, q: Query, e: Error)
    requires Refused(ms, q, e)
    ensures Select(ms, q) == Err(e)
  {
    if e.CursorNotFound? {
      var all := NarrowPositions(ms, q.since);
      CursorPosition(ms, q.since, all, Cursor(q));
    }
  }

  /** With a positive limit: all there are up to the limit and 200, and `has_more` says whether one is left out. */
  lemma PositiveLimit(ms: seq<Message>, q: Query, page: Page, at: seq<nat>, rest: set<nat>)
    requires ShowsAt(ms, q, page, at, rest) && q.limit >= 1
    ensures |page.messages| == Min(Min(q.limit, 200), |at| + |rest|) && (page.hasMore <==> rest != {})
  {}

  /** A channel that does not exist reads as an empty page, whatever is asked. */
  lemma AbsentReads(b: Board, channel: string, q: Query)
    requires channel !in b
    ensures Read(b, channel, q) == Ok(Page([], false))
  {}

  // ---- when a write succeeds, and what it leaves ------------------------

  /** Every channel but this one is as it was. */
  ghost predicate OthersKept(b: Board, b': Board, channel: string) {
    forall c :: c != channel ==> (c in b' <==> c in b) && (c in b ==> b'[c] == b[c])
  }

  /**
   An add succeeds if and only if the message fits and the channel exists or there is room
   for one more; it then ends its channel's list, after as many of the newest messages as
   the bound leaves room for. A refused one changes nothing.
   */
  lemma AddAnswers(cfg: Config, b: Board, channel: string, content: string, sender: string, id: string, at: Instant)
    requires cfg.Valid()
    ensures var (b', r) := AddTo(cfg, b, channel, content, sender, id, at);
            && (r.Ok? <==> |content| <= cfg.maxMessageSize && (channel in b || |b| < cfg.maxChannels))
            && (r.Err? ==> b' == b && r.error == if |content| > cfg.maxMessageSize then TooLarge else ChannelLimit)
            && (r.Ok? ==>
                  && r.value == Message(id, channel, sender, content, at) && OthersKept(b, b', channel)
                  && channel in b' && EndsList(cfg.maxPerChannel, Held(b, channel), b'[channel], r.value))
  {}

  function Held(b: Board, channel: string): seq<Message> { if channel in b then b[channel] else [] }

  /** `after` is m behind the newest of `before` that fit a list of at most n. */
  ghost predicate EndsList(n: int, before: seq<Message>, after: seq<Message>, m: Message) {
    && |after| == Min(n, |before| + 1) && after != [] && after[|after| - 1] == m
    && forall i :: 0 <= i < |after| - 1 ==> after[i] == before[|before| - (|after| - 1) + i]
  }

  /** A clear finds the channel exactly if it exists, and leaves it without messages. */
  lemma ClearAnswers(b: Board, channel: string)
    ensures var (b', found) := ClearIn(b, channel);
            && (found <==> channel in b) && b'.Keys == b.Keys && OthersKept(b, b', channel) && Held(b', channel) == []
  {}

  /** A deletion finds the channel exactly if it exists, and leaves no such channel. */
  lemma DeleteAnswers(b: Board, channel: string)
    ensures var (b', found) := DeleteFrom(b, channel);
            && (found <==> channel in b) && channel !in b' && OthersKept(b, b', channel)
  {}

  /** What the deletion of a message is about: that id, and that sender if one is given. */
  ghost predicate Hit(m: Message, id: string, sender: Option<string>) {
    m.id == id && (sender.Some? ==> m.sender == sender.value)
  }

  /** These are the positions of all other messages. */
  ghost predicate Spared(ms: seq<Message>, id: string, sender: Option<string>, at: seq<nat>) {
    forall i: nat :: i in at <==> i < |ms| && !Hit(ms[i], id, sender)
  }

  lemma {:induction false} KeptPositions(ms: seq<Message>, id: string, sender: Option<string>) returns (at: seq<nat>)
    ensures Picks(Kept(ms, id, sender), ms, at) && Spared(ms, id, sender, at)
  {
    if ms == [] {
      at := [];
    } else {
      var rest := KeptPositions(ms[1..], id, sender);
      PicksLater(Kept(ms[1..], id, sender), ms, 1, rest);
      at := Shifted(rest, 1);
      ShiftedSpares(ms, id, sender, rest, at);
      if !Hit(ms[0], id, sender) {
        PicksFirst(Kept(ms[1..], id, sender), ms, at);
        at := [0] + at;
      }
    }
  }

  lemma ShiftedSpares(ms: seq<Message>, id: string, sender: Option<string>, rest: seq<nat>, at: seq<nat>)
    requires ms != [] && Spared(ms[1..], id, sender, rest) && at == Shifted(rest, 1)
    ensures forall i: nat :: i in at <==> 0 < i < |ms| && !Hit(ms[i], id, sender)
  {
    forall i | i in at ensures 0 < i < |ms| && !Hit(ms[i], id, sender) {
      var k :| 0 <= k < |at| && at[k] == i;
      assert rest[k] in rest && ms[1..][i - 1] == ms[i];
    }
    forall i: nat | 0 < i < |ms| && !Hit(ms[i], id, sender) ensures i in at {
      assert ms[1..][i - 1] == ms[i] && i - 1 in rest;
      var k :| 0 <= k < |rest| && rest[k] == i - 1;
      assert at[k] == i;
    }
  }

  /**
   The deletion of a message succeeds if and only if the channel holds one of that id and
   sender, and leaves all others in their order.
   */
  lemma DeleteMessageAnswers(b: Board, channel: string, id: string, sender: Option<string>) returns (at: seq<nat>)
    ensures var (b', deleted) := DeleteMessageFrom(b, channel, id, sender);
            && (deleted <==> exists m :: m in Held(b, channel) && Hit(m, id, sender))
            && (!deleted ==> b' == b) && b'.Keys == b.Keys && OthersKept(b, b', channel)
            && Picks(Held(b', channel), Held(b, channel), at) && Spared(Held(b, channel), id, sender, at)
  {
    var ms := Held(b, channel);
    at := KeptPositions(ms, id, sender);
    KeptLess(ms, id, sender);
    KeptShorter(ms, id, sender);
  }

  lemma {:induction false} KeptLess(ms: seq<Message>, id: string, sender: Option<string>)
    ensures |Kept(ms, id, sender)| < |ms| <==> exists m :: m in ms && Hit(m, id, sender)
  {
    if ms != [] {
      KeptLess(ms[1..], id, sender);
      KeptShorter(ms[1..], id, sender);
      assert ms[0] in ms;
      if m :| m in ms && Hit(m, id, sender) {
        assert m == ms[0] || m in ms[1..];
      }
    }
  }

  // ---- what a listing tells ---------------------------------------------

  /** A listing names each channel with the number of its messages and the time of the last. */
  ghost predicate Tells(info: ChannelInfo, b: Board) {
    && info.name in b && info.messageCount == |b[info.name]|
    && (info.lastActivity.None? <==> info.messageCount == 0)
    && forall i :: 0 <= i == info.messageCount - 1 ==> info.lastActivity == Some(b[info.name][i].timestamp)
  }

  lemma ListingTells(infos: seq<ChannelInfo>, b: Board)
    requires IsListing(infos, b)
    ensures forall i :: 0 <= i < |infos| ==> Tells(infos[i], b)
    ensures forall c :: c in b ==> exists i :: 0 <= i < |infos| && infos[i].name == c
    ensures forall i, j :: 0 <= i < j < |infos| ==> infos[i].name != infos[j].name
  {
    forall c | c in b ensures exists i :: 0 <= i < |infos| && infos[i].name == c {
      assert Info(b, c) in infos;
    }
  }

  /** So after a successful add its channel is listed as last active then. */
  lemma AddIsListed(cfg: Config, b: Board, channel: string, content: string, sender: string, id: string, at: Instant,
                    infos: seq<ChannelInfo>)
    requires cfg.Valid() && AddTo(cfg, b, channel, content, sender, id, at).1.Ok?
    requires IsListing(infos, AddTo(cfg, b, channel, content, sender, id, at).0)
    ensures ChannelInfo(channel, Min(cfg.maxPerChannel, |Held(b, channel)| + 1), Some(at)) in infos
  {
    AddAnswers(cfg, b, channel, content, sender, id, at);
    assert Info(AddTo(cfg, b, channel, content, sender, id, at).0, channel) in infos;
  }

  // ---- what a poll returns at once --------------------------------------

  /** The messages are the newest fifty of those that pass the filter, or all of them. */
  ghost predicate NewestPassing(messages: seq<Message>, ms: seq<Message>, since: Since, at: seq<nat>, rest: set<nat>) {
    && Picks(messages, ms, at) && |messages| == Min(50, |at| + |rest|)
    && (forall i: nat :: i in at || i in rest <==> i < |ms| && Passes(since, ms[i]))
    && (forall i, k :: i in rest && 0 <= k < |at| ==> i < at[k])
  }

  /**
   `wait_for_new` raises on a time it cannot compare with, returns at once if and only if
   something passes the filter, and otherwise suspends on the channel's event.
   */
  lemma WaitAnswers(r: Relay, channel: string, since: Since) returns (at: seq<nat>, rest: set<nat>)
    ensures var (r', w) := Beginning(r, channel, since);
            var ms := Held(r.board, channel);
            && r'.board == r.board && r'.fired == r.fired
            && (w == Raised(BadSince) <==> since.Malformed? && channel in r.board)
            && (w == Raised(NaiveSince) <==> since.Naive? && ms != [])
            && (w.Raised? ==> w.error == BadSince || w.error == NaiveSince)
            && (w.Ready? <==> (since.NoSince? || since.From?) && exists m :: m in ms && Passes(since, m))
            && (w.Ready? ==> NewestPassing(w.messages, ms, since, at, rest))
            && (w.Suspended? ==> channel in r'.events && r'.events[channel] == w.event)
            && r'.events.Keys == r.events.Keys + (if w.Suspended? then {channel} else {})
            && (forall c :: c in r.events ==> r'.events[c] == r.events[c])
            && (w.Suspended? && channel !in r.events ==> w.event == r.next < r'.next)
  {
    at, rest := [], {};
    if channel in r.board {
      at, rest := LatestAnswers(Held(r.board, channel), since);
    }
  }

  lemma LatestAnswers(ms: seq<Message>, since: Since) returns (at: seq<nat>, rest: set<nat>)
    ensures var r := Select(ms, Latest(since));
            && (r == Err(BadSince) <==> since.Malformed?) && (r == Err(NaiveSince) <==> since.Naive? && ms != [])
            && (r.Err? ==> r.error == BadSince || r.error == NaiveSince)
            && (r.Ok? && r.value.messages != [] <==>
                (since.NoSince? || since.From?) && exists m :: m in ms && Passes(since, m))
            && (r.Ok? ==> NewestPassing(r.value.messages, ms, since, at, rest))
  {
    at, rest := ReadAnswers(ms, Latest(since));
    WantedByLatest(ms, since);
    NewsIsSelected(ms, since);
    assert ms != [] ==> ms[0] in ms;
    LatestRefused(ms, since);
  }

  lemma LatestRefused(ms: seq<Message>, since: Since)
    ensures var r := Select(ms, Latest(since));
            && (r == Err(BadSince) <==> since.Malformed?) && (r == Err(NaiveSince) <==> since.Naive? && ms != [])
            && (r.Err? ==> r.error == BadSince || r.error == NaiveSince)
  {
    var q := Latest(since);
    var at, rest := ReadAnswers(ms, q);
    forall e | Refused(ms, q, e) ensures e == BadSince || e == NaiveSince {}
    assert Refused(ms, q, BadSince) <==> since.Malformed?;
    assert Refused(ms, q, NaiveSince) <==> since.Naive? && ms != [];
  }

  lemma WantedByLatest(ms: seq<Message>, since: Since)
    ensures forall i: nat :: Wanted(ms, Latest(since), i) <==> i < |ms| && Passes(since, ms[i])
  {}
}
