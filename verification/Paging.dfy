/**
 Cursor paging: a client that follows `after` while others append, evict and delete,
 and the two traversals of a channel nobody changes.
 */
module Paging {
  import opened Basics
  import opened PyList
  import opened RelayTypes
  import opened RelayBoard
  import opened History

  /** The next page of a client that has read up to the message with id `cursor` ("" at first). */
  function Onward(limit: int, cursor: string): Query { Query(NoSince, limit, Asc, cursor, "") }

  /** All messages received, the `has_more` of the last page if there was one, and whether a cursor error stopped it. */
  datatype Received = Received(messages: seq<Message>, more: Option<bool>, failed: bool)

  /** What such a client receives from one read per board. */
  function Follow(boards: seq<Board>, channel: string, limit: int, cursor: string): Received {
    if boards == [] then Received([], None, false)
    else match Read(boards[0], channel, Onward(limit, cursor))
      case Err(_) => Received([], None, true)
      case Ok(page) =>
        var rest := Follow(boards[1..], channel, limit, NextCursor(page.messages, cursor));
        Received(page.messages + rest.messages, if rest.more.None? then Some(page.hasMore) else rest.more, rest.failed)
  }

  function NextCursor(messages: seq<Message>, cursor: string): string {
    if messages == [] then cursor else messages[|messages| - 1].id
  }

  // ---- one page ---------------------------------------------------------

  ghost predicate RealIds(ms: seq<Message>) {
    forall m :: m in ms ==> m.id != ""
  }

  /** The position just after the n-th live message. */
  function PastLive(ms: seq<Message>, gone: set<string>, n: nat): (k: nat)
    ensures k <= |ms|
  {
    if n == 0 || ms == [] then 0
    else 1 + PastLive(ms[1..], gone, if ms[0].id in gone then n else n - 1)
  }

  lemma {:induction false} LivePrefix(ms: seq<Message>, gone: set<string>, n: nat)
    requires n <= |Live(ms, gone)|
    ensures var k := PastLive(ms, gone, n);
            && Live(ms[..k], gone) == Live(ms, gone)[..n]
            && Live(ms[k..], gone) == Live(ms, gone)[n..]
            && (n > 0 ==> k > 0 && ms[k - 1] == Live(ms, gone)[n - 1])
  {
    if n == 0 {
      assert ms[0..] == ms;
    } else {
      var n' := if ms[0].id in gone then n else n - 1;
      LivePrefix(ms[1..], gone, n');
      LiveAfterFirst(ms, gone, n, PastLive(ms[1..], gone, n'));
    }
  }

  lemma LiveAfterFirst(ms: seq<Message>, gone: set<string>, n: nat, k: nat)
    requires 0 < n <= |Live(ms, gone)| && k < |ms|
    requires ms[0].id !in gone ==> Live(ms[1..][..k], gone) == Live(ms[1..], gone)[..n - 1]
    requires ms[0].id in gone ==> Live(ms[1..][..k], gone) == Live(ms[1..], gone)[..n]
    ensures Live(ms[..k + 1], gone) == Live(ms, gone)[..n]
    ensures ms[k + 1..] == ms[1..][k..]
  {
    assert ms[..k + 1][1..] == ms[1..][..k] && ms[..k + 1][0] == ms[0];
  }

  lemma {:induction false} IndexSkips(before: seq<Message>, m: Message, rest: seq<Message>)
    requires forall x :: x in before ==> x.id != m.id
    ensures IndexOf(before + [m] + rest, m.id) == Some(|before|)
  {
    var all := before + [m] + rest;
    assert all[|before|] == m;
    forall j | 0 <= j < |before| ensures all[j].id != m.id {
      assert all[j] == before[j];
    }
  }

  /** Reading after the message at log position p fails exactly when that message has left the channel. */
  lemma AfterCursor(t: Trace, p: nat, limit: int)
    requires Coherent(t) && p < |t.log| && t.log[p].id != ""
    ensures Select(Contents(t), Onward(limit, t.log[p].id)) ==
            if p < t.cut || t.log[p].id in t.gone then Err(CursorNotFound)
            else Ok(Oldest(Live(t.log[p + 1..], t.gone), Min(limit, MAX_READ_LIMIT)))
  {
    var log, gone, m := t.log, t.gone, t.log[p];
    if p < t.cut || m.id in gone {
      forall x | x in Contents(t) ensures x.id != m.id {
        LiveMember(log[t.cut..], gone, x);
      }
    } else {
      var before, rest := log[t.cut..p], log[p + 1..];
      assert log[t.cut..] == before + [m] + rest;
      LiveConcat(before + [m], rest, gone);
      LiveConcat(before, [m], gone);
      forall x | x in Live(before, gone) ensures x.id != m.id {
        LiveMember(before, gone, x);
      }
      var a, z := Live(before, gone), Live(rest, gone);
      assert Contents(t) == a + [m] + z;
      IndexSkips(a, m, z);
      assert (a + [m] + z)[|a| + 1..] == z;
    }
  }

  /** The board shows the channel as its past prescribes. */
  ghost predicate Shows(b: Board, channel: string, t: Trace) {
    && Coherent(t) && RealIds(t.log)
    && (if channel in b then b[channel] == Contents(t) else Contents(t) == [])
  }

  /** The cursor of a client that has covered the log up to q, or "" before its first page. */
  function CursorAt(t: Trace, first: bool, q: nat): string
    requires !first ==> 0 < q <= |t.log|
  {
    if first then "" else t.log[q - 1].id
  }

  /** How many of n candidate messages a page takes. */
  function PageSize(n: nat, limit: int): (k: nat)
    requires limit >= 1
    ensures k <= n
  {
    Min(Min(limit, MAX_READ_LIMIT), n)
  }

  /** Where the page after log position q ends. */
  function NextBound(b: Board, channel: string, t: Trace, q: nat, limit: int): (k: nat)
    requires limit >= 1 && q <= |t.log|
    ensures q <= k <= |t.log|
  {
    if channel !in b then q
    else q + PastLive(t.log[q..], t.gone, PageSize(|Live(t.log[q..], t.gone)|, limit))
  }

  /** The message at log position p has left the channel. */
  ghost predicate Lost(t: Trace, p: nat)
    requires p < |t.log|
  {
    p < t.cut || t.log[p].id in t.gone
  }

  /** A page is the next stretch of the log without what was deleted. */
  lemma PageCovers(t: Trace, q: nat, limit: int)
    requires limit >= 1 && q <= |t.log|
    ensures var live := Live(t.log[q..], t.gone);
            var page := Oldest(live, Min(limit, MAX_READ_LIMIT));
            var k := q + PastLive(t.log[q..], t.gone, PageSize(|live|, limit));
            && page.messages == Live(t.log[q..k], t.gone)
            && (page.messages != [] ==> k > q && t.log[k - 1] == page.messages[|page.messages| - 1])
            && (page.messages == [] ==> k == q)
            && (page.hasMore <==> Live(t.log[k..], t.gone) != [])
  {
    var live := Live(t.log[q..], t.gone);
    var n := PageSize(|live|, limit);
    LivePrefix(t.log[q..], t.gone, n);
    SliceOfSlice(t.log, q, q + PastLive(t.log[q..], t.gone, n));
    OldestTakes(live, limit);
  }

  lemma SliceOfSlice(log: seq<Message>, q: nat, k: nat)
    requires q <= k <= |log|
    ensures log[q..][..k - q] == log[q..k] && log[q..][k - q..] == log[k..]
    ensures k > q ==> log[q..][k - q - 1] == log[k - 1]
  {}

  lemma OldestTakes(live: seq<Message>, limit: int)
    requires limit >= 1
    ensures var n, page := PageSize(|live|, limit), Oldest(live, Min(limit, MAX_READ_LIMIT));
            && page.messages == live[..n] && (page.hasMore <==> live[n..] != [])
            && (n == 0 <==> live == []) && (n > 0 ==> page.messages[|page.messages| - 1] == live[n - 1])
  {}

  /** What a client that has covered the log up to q is sent. */
  function Sent(b: Board, channel: string, t: Trace, q: nat, limit: int): Page
    requires q <= |t.log|
  {
    if channel in b then Oldest(Live(t.log[q..], t.gone), Min(limit, MAX_READ_LIMIT)) else Page([], false)
  }

  lemma ReadAt(b: Board, channel: string, t: Trace, first: bool, q: nat, limit: int)
    requires Shows(b, channel, t)
    requires if first then q == t.cut else 0 < q <= |t.log|
    ensures Read(b, channel, Onward(limit, CursorAt(t, first, q))) ==
            if channel in b && !first && Lost(t, q - 1) then Err(CursorNotFound)
            else Ok(Sent(b, channel, t, q, limit))
  {
    if channel in b && !first {
      assert t.log[q - 1] in t.log;
      AfterCursor(t, q - 1, limit);
    }
  }

  /** One read of a client that has covered the log up to q. */
  lemma OnePage(b: Board, channel: string, t: Trace, q: nat, limit: int)
    requires limit >= 1 && q <= |t.log|
    ensures var page := Sent(b, channel, t, q, limit);
            var k := NextBound(b, channel, t, q, limit);
            && page.messages == Live(t.log[q..k], t.gone)
            && (page.messages == [] ==> k == q)
            && (page.messages != [] ==> k > q && t.log[k - 1] == page.messages[|page.messages| - 1])
            && (channel in b ==> (page.hasMore <==> Live(t.log[k..], t.gone) != []))
  {
    if channel in b {
      PageCovers(t, q, limit);
    }
  }

  /** What the channel holds past log position k. */
  function Rest(t: Trace, k: nat): seq<Message>
    requires k <= |t.log| && t.cut <= |t.log|
  {
    Live(t.log[Max(k, t.cut)..], t.gone)
  }

  /** A page from q to k takes as much as its limit allows of what the channel holds past q. */
  ghost predicate Takes(t: Trace, q: nat, k: nat, limit: int)
    requires q <= k <= |t.log| && t.cut <= |t.log|
  {
    |Live(t.log[q..k], t.gone)| == Min(Min(limit, MAX_READ_LIMIT), |Rest(t, q)|)
  }

  /** A channel that holds nothing holds nothing past any position. */
  lemma NothingPast(t: Trace, k: nat)
    requires Coherent(t) && Contents(t) == [] && k <= |t.log|
    ensures Rest(t, k) == []
  {
    var m := Max(k, t.cut);
    assert t.log[t.cut..] == t.log[t.cut..m] + t.log[m..];
    LiveConcat(t.log[t.cut..m], t.log[m..], t.gone);
  }

  /** The size of a served page, and what its flag says about the rest. */
  lemma PageFlag(b: Board, channel: string, t: Trace, first: bool, q: nat, limit: int)
    requires limit >= 1 && Shows(b, channel, t)
    requires if first then q == t.cut else 0 < q <= |t.log|
    requires channel in b && !first ==> !Lost(t, q - 1)
    ensures var k := NextBound(b, channel, t, q, limit);
            Takes(t, q, k, limit) && (Sent(b, channel, t, q, limit).hasMore <==> Rest(t, k) != [])
  {
    OnePage(b, channel, t, q, limit);
    if channel !in b {
      NothingPast(t, q);
      assert t.log[q..q] == [];
    }
  }

  ghost predicate PageTells(t: Trace, q: nat, k: nat, limit: int, page: Page)
    requires q <= k <= |t.log| && t.cut <= |t.log|
  {
    Takes(t, q, k, limit) && (page.hasMore <==> Rest(t, k) != [])
  }

  /** The two together: a refused read, or a page that is the stretch of the log up to its last message. */
  lemma ReadCovers(b: Board, channel: string, t: Trace, first: bool, q: nat, limit: int)
    returns (page: Page, k: nat)
    requires limit >= 1 && Shows(b, channel, t)
    requires first ==> channel in b && Contents(t) != [] && q == t.cut
    requires !first ==> 0 < q <= |t.log|
    ensures var cursor := CursorAt(t, first, q);
            && q <= k <= |t.log|
            && Read(b, channel, Onward(limit, cursor)) ==
               (if channel in b && !first && Lost(t, q - 1) then Err(CursorNotFound) else Ok(page))
            && page.messages == Live(t.log[q..k], t.gone)
            && 0 < k && NextCursor(page.messages, cursor) == t.log[k - 1].id
            && ((channel in b && !first && Lost(t, q - 1)) || PageTells(t, q, k, limit, page))
  {
    page, k := Sent(b, channel, t, q, limit), NextBound(b, channel, t, q, limit);
    if !(channel in b && !first && Lost(t, q - 1)) {
      PageIsTold(b, channel, t, first, q, limit);
    }
    ReadAt(b, channel, t, first, q, limit);
    CoversTo(b, channel, t, first, q, limit);
  }

  lemma PageIsTold(b: Board, channel: string, t: Trace, first: bool, q: nat, limit: int)
    requires limit >= 1 && Shows(b, channel, t)
    requires if first then q == t.cut else 0 < q <= |t.log|
    requires channel in b && !first ==> !Lost(t, q - 1)
    ensures PageTells(t, q, NextBound(b, channel, t, q, limit), limit, Sent(b, channel, t, q, limit))
  {
    PageFlag(b, channel, t, first, q, limit);
  }

  /** Where a page leaves the client. */
  lemma CoversTo(b: Board, channel: string, t: Trace, first: bool, q: nat, limit: int)
    requires limit >= 1 && Shows(b, channel, t)
    requires first ==> channel in b && Contents(t) != [] && q == t.cut
    requires !first ==> 0 < q <= |t.log|
    ensures var page, k := Sent(b, channel, t, q, limit), NextBound(b, channel, t, q, limit);
            && page.messages == Live(t.log[q..k], t.gone)
            && 0 < k && NextCursor(page.messages, CursorAt(t, first, q)) == t.log[k - 1].id
  {
    OnePage(b, channel, t, q, limit);
    if first {
      FirstPageTakes(t, limit);
    }
  }

  lemma FirstPageTakes(t: Trace, limit: int)
    requires limit >= 1 && t.cut <= |t.log| && Contents(t) != []
    ensures Oldest(Live(t.log[t.cut..], t.gone), Min(limit, MAX_READ_LIMIT)).messages != []
  {}

  // ---- a whole session --------------------------------------------------

  /** Boards seen one after the other, with the channel's past at each. */
  ghost predicate Session(boards: seq<Board>, channel: string, ts: seq<Trace>) {
    && |ts| == |boards|
    && (forall i :: 0 <= i < |ts| ==> Shows(boards[i], channel, ts[i]))
    && (forall i, j :: 0 <= i <= j < |ts| ==> Extends(ts[i], ts[j]))
  }

  /** Consecutive stretches of the log, one per served page. */
  ghost predicate Stretches(ts: seq<Trace>, bounds: seq<nat>) {
    && 1 <= |bounds| <= |ts| + 1
    && (forall i, j :: 0 <= i <= j < |bounds| ==> bounds[i] <= bounds[j])
    && (forall i :: 0 < i < |bounds| ==> bounds[i] <= |ts[i - 1].log|)
  }

  /** The undeleted part of each stretch, as of the moment its page was read. */
  ghost function Pieces(ts: seq<Trace>, bounds: seq<nat>): seq<Message>
    requires Stretches(ts, bounds)
    decreases |bounds|
  {
    if |bounds| == 1 then []
    else
      assert bounds[0] <= bounds[1];
      Live(ts[0].log[bounds[0]..bounds[1]], ts[0].gone) + Pieces(ts[1..], bounds[1..])
  }

  /** The session ended as it did for a reason: a cursor error, or no reads left. */
  ghost predicate EndsWell(boards: seq<Board>, channel: string, ts: seq<Trace>, bounds: seq<nat>, failed: bool)
    requires Stretches(ts, bounds) && |boards| == |ts|
  {
    var n := |bounds| - 1;
    && (failed <==> n < |ts|)
    && (failed ==> channel in boards[n] && 0 < bounds[n] <= |ts[n].log| && Lost(ts[n], bounds[n] - 1))
  }

  /** Every page took what it could, so the session went on unless nothing was left. */
  ghost predicate Advances(ts: seq<Trace>, bounds: seq<nat>, limit: int)
    requires Stretches(ts, bounds) && forall i :: 0 <= i < |ts| ==> ts[i].cut <= |ts[i].log|
  {
    forall i :: 0 <= i < |bounds| - 1 ==> AdvancesAt(ts[i], bounds[i], bounds[i + 1], limit)
  }

  ghost predicate AdvancesAt(t: Trace, q: nat, k: nat, limit: int) {
    q <= k <= |t.log| && t.cut <= |t.log| && Takes(t, q, k, limit)
  }

  /** The last page's flag says whether the channel then held more than the pages cover. */
  ghost predicate FlagRight(ts: seq<Trace>, bounds: seq<nat>, more: Option<bool>)
    requires Stretches(ts, bounds)
  {
    var n := |bounds| - 1;
    if n == 0 then more.None?
    else more.Some? && FlagAt(ts[n - 1], bounds[n], more.value)
  }

  ghost predicate FlagAt(t: Trace, k: nat, more: bool) {
    k <= |t.log| && t.cut <= |t.log| && (more <==> Rest(t, k) != [])
  }

  lemma AdvancesCons(ts: seq<Trace>, q: nat, rest: seq<nat>, limit: int)
    requires ts != [] && Stretches(ts[1..], rest) && Stretches(ts, [q] + rest)
    requires forall i :: 0 <= i < |ts| ==> ts[i].cut <= |ts[i].log|
    requires Advances(ts[1..], rest, limit) && AdvancesAt(ts[0], q, rest[0], limit)
    ensures Advances(ts, [q] + rest, limit)
  {
    var bounds := [q] + rest;
    forall i | 0 <= i < |bounds| - 1 ensures AdvancesAt(ts[i], bounds[i], bounds[i + 1], limit) {
      if i > 0 {
        assert AdvancesAt(ts[1..][i - 1], rest[i - 1], rest[i], limit);
      }
    }
  }

  lemma FlagCons(ts: seq<Trace>, q: nat, rest: seq<nat>, more: Option<bool>, first: bool)
    requires ts != [] && Stretches(ts[1..], rest) && Stretches(ts, [q] + rest)
    requires FlagRight(ts[1..], rest, more) && FlagAt(ts[0], rest[0], first)
    ensures FlagRight(ts, [q] + rest, if more.None? then Some(first) else more)
  {
    if |rest| > 1 {
      assert ts[1..][|rest| - 2] == ts[|rest| - 1];
    }
  }

  lemma StretchesCons(ts: seq<Trace>, q: nat, rest: seq<nat>)
    requires ts != [] && Stretches(ts[1..], rest) && q <= rest[0] <= |ts[0].log|
    ensures Stretches(ts, [q] + rest)
    ensures Pieces(ts, [q] + rest) == Live(ts[0].log[q..rest[0]], ts[0].gone) + Pieces(ts[1..], rest)
  {}

  /** What a session from log position q delivered, read off the log. */
  ghost predicate Tiled(boards: seq<Board>, channel: string, ts: seq<Trace>, limit: int, cursor: string,
                        bounds: seq<nat>)
    requires |boards| == |ts|
  {
    var r := Follow(boards, channel, limit, cursor);
    && Stretches(ts, bounds)
    && r.messages == Pieces(ts, bounds)
    && EndsWell(boards, channel, ts, bounds, r.failed)
    && (forall i :: 0 <= i < |ts| ==> ts[i].cut <= |ts[i].log|)
    && Advances(ts, bounds, limit)
    && FlagRight(ts, bounds, r.more)
  }

  lemma TileStops(boards: seq<Board>, channel: string, ts: seq<Trace>, limit: int, q: nat, cursor: string)
    requires |boards| == |ts| && forall i :: 0 <= i < |ts| ==> ts[i].cut <= |ts[i].log|
    requires boards != [] ==> channel in boards[0] && 0 < q <= |ts[0].log| && Lost(ts[0], q - 1)
    requires boards != [] ==> Read(boards[0], channel, Onward(limit, cursor)) == Err(CursorNotFound)
    ensures Tiled(boards, channel, ts, limit, cursor, [q])
  {}

  lemma TileGrows(boards: seq<Board>, channel: string, ts: seq<Trace>, limit: int, q: nat, cursor: string,
                  page: Page, rest: seq<nat>)
    requires boards != [] && |boards| == |ts|
    requires Read(boards[0], channel, Onward(limit, cursor)) == Ok(page)
    requires Tiled(boards[1..], channel, ts[1..], limit, NextCursor(page.messages, cursor), rest)
    requires q <= rest[0] <= |ts[0].log| && page.messages == Live(ts[0].log[q..rest[0]], ts[0].gone)
    requires forall i :: 0 <= i < |ts| ==> ts[i].cut <= |ts[i].log|
    requires PageTells(ts[0], q, rest[0], limit, page)
    ensures Tiled(boards, channel, ts, limit, cursor, [q] + rest)
  {
    StretchesCons(ts, q, rest);
    var r := Follow(boards[1..], channel, limit, NextCursor(page.messages, cursor));
    EndsWellCons(boards, channel, ts, q, rest, r.failed);
    AdvancesCons(ts, q, rest, limit);
    FlagCons(ts, q, rest, r.more, page.hasMore);
  }

  /** The step of the tiling: one page, then whatever the rest of the session delivers. */
  lemma TileOne(boards: seq<Board>, channel: string, ts: seq<Trace>, limit: int, first: bool, q: nat,
                cursor: string)
    returns (k: nat, next: string, stopped: bool)
    requires limit >= 1 && Session(boards, channel, ts) && boards != []
    requires first ==> channel in boards[0] && Contents(ts[0]) != [] && q == ts[0].cut
    requires !first ==> 0 < q <= |ts[0].log|
    requires cursor == CursorAt(ts[0], first, q)
    ensures stopped ==> Tiled(boards, channel, ts, limit, cursor, [q])
    ensures !stopped ==> q <= k && 0 < k <= |ts[0].log| && next == ts[0].log[k - 1].id
    ensures !stopped ==> forall rest: seq<nat> ::
                Tiled(boards[1..], channel, ts[1..], limit, next, rest) && rest[0] == k
                ==> Tiled(boards, channel, ts, limit, cursor, [q] + rest)
  {
    var t, b := ts[0], boards[0];
    var page;
    page, k := ReadCovers(b, channel, t, first, q, limit);
    next := NextCursor(page.messages, cursor);
    stopped := channel in b && !first && Lost(t, q - 1);
    if stopped {
      TileStops(boards, channel, ts, limit, q, cursor);
    } else {
      forall rest: seq<nat> | Tiled(boards[1..], channel, ts[1..], limit, next, rest) && rest[0] == k
        ensures Tiled(boards, channel, ts, limit, cursor, [q] + rest)
      {
        TileGrows(boards, channel, ts, limit, q, cursor, page, rest);
      }
    }
  }

  /**
   The pages of a session tile the log from where it began: no gap, no overlap. It stops
   early exactly when the message under the cursor has left an existing channel.
   */
  lemma {:induction false} PagesTile(boards: seq<Board>, channel: string, ts: seq<Trace>,
                                     limit: int, first: bool, q: nat, cursor: string)
    returns (bounds: seq<nat>)
    requires limit >= 1 && Session(boards, channel, ts)
    requires first ==> boards != [] && channel in boards[0] && Contents(ts[0]) != [] && q == ts[0].cut
    requires !first ==> 0 < q && (ts != [] ==> q <= |ts[0].log|)
    requires ts != [] ==> cursor == CursorAt(ts[0], first, q)
    ensures Tiled(boards, channel, ts, limit, cursor, bounds) && bounds[0] == q
    decreases |boards|
  {
    if boards == [] {
      TileStops(boards, channel, ts, limit, q, cursor);
      return [q];
    }
    var k, next, stopped := TileOne(boards, channel, ts, limit, first, q, cursor);
    if stopped {
      return [q];
    }
    SessionTail(boards, channel, ts);
    var rest := PagesTile(boards[1..], channel, ts[1..], limit, false, k, next);
    bounds := [q] + rest;
  }

  lemma EndsWellCons(boards: seq<Board>, channel: string, ts: seq<Trace>, q: nat, rest: seq<nat>, failed: bool)
    requires ts != [] && |boards| == |ts|
    requires Stretches(ts[1..], rest) && Stretches(ts, [q] + rest)
    requires EndsWell(boards[1..], channel, ts[1..], rest, failed)
    ensures EndsWell(boards, channel, ts, [q] + rest, failed)
  {}

  lemma SessionTail(boards: seq<Board>, channel: string, ts: seq<Trace>)
    requires Session(boards, channel, ts) && boards != []
    ensures Session(boards[1..], channel, ts[1..])
    ensures |ts| > 1 ==> ts[0].log <= ts[1].log
  {}

  // ---- exactly once -----------------------------------------------------

  lemma {:induction false} LiveSame(ms: seq<Message>, gone: set<string>, other: set<string>)
    requires forall m :: m in ms ==> (m.id in gone <==> m.id in other)
    ensures Live(ms, gone) == Live(ms, other)
  {
    if ms != [] {
      assert ms[0] in ms;
      LiveSame(ms[1..], gone, other);
    }
  }

  /** The ids skipped by a session are, stretch by stretch, those deleted before their page. */
  ghost predicate SkipsDeleted(ts: seq<Trace>, bounds: seq<nat>, log: seq<Message>, skipped: set<string>)
    requires Stretches(ts, bounds) && bounds[|bounds| - 1] <= |log|
  {
    forall i, j :: 0 <= i < |bounds| - 1 && bounds[i] <= j < bounds[i + 1] ==>
      (log[j].id in skipped <==> log[j].id in ts[i].gone)
  }

  ghost predicate IdsWithin(log: seq<Message>, from: nat, to: nat, ids: set<string>)
    requires from <= to <= |log|
  {
    forall id :: id in ids ==> exists j :: from <= j < to && log[j].id == id
  }

  /** The pieces are one stretch of the log without the skipped messages. */
  ghost predicate Joined(ts: seq<Trace>, bounds: seq<nat>, log: seq<Message>, skipped: set<string>)
    requires Stretches(ts, bounds) && bounds[|bounds| - 1] <= |log|
  {
    && bounds[0] <= bounds[|bounds| - 1]
    && Pieces(ts, bounds) == Live(log[bounds[0]..bounds[|bounds| - 1]], skipped)
    && SkipsDeleted(ts, bounds, log, skipped)
    && IdsWithin(log, bounds[0], bounds[|bounds| - 1], skipped)
  }

  /** A tiling of a log with unique ids is one filtered stretch of that log. */
  lemma {:induction false} PiecesJoin(ts: seq<Trace>, bounds: seq<nat>, log: seq<Message>)
    returns (skipped: set<string>)
    requires Stretches(ts, bounds) && UniqueIds(log) && bounds[|bounds| - 1] <= |log|
    requires forall i :: 0 <= i < |ts| ==> ts[i].log <= log
    ensures Joined(ts, bounds, log, skipped)
    decreases |bounds|
  {
    skipped := {};
    if |bounds| > 1 {
      StretchesTail(ts, bounds);
      var later := PiecesJoin(ts[1..], bounds[1..], log);
      skipped := JoinCons(ts, bounds, log, later);
    }
  }

  lemma JoinCons(ts: seq<Trace>, bounds: seq<nat>, log: seq<Message>, later: set<string>)
    returns (skipped: set<string>)
    requires Stretches(ts, bounds) && |bounds| > 1 && Stretches(ts[1..], bounds[1..])
    requires UniqueIds(log) && bounds[|bounds| - 1] <= |log| && ts[0].log <= log
    requires Joined(ts[1..], bounds[1..], log, later)
    ensures Joined(ts, bounds, log, skipped)
  {
    var a, m, z := bounds[0], bounds[1], bounds[|bounds| - 1];
    var here := set j | a <= j < m && log[j].id in ts[0].gone :: log[j].id;
    skipped := here + later;
    assert ts[0].log[a..m] == log[a..m];
    JoinStretch(log, a, m, z, ts[0].gone, here, later);
    SkipsCons(ts, bounds, log, here, later);
  }

  /** Unique ids keep what is skipped in the one stretch out of the other. */
  lemma SkippedHere(log: seq<Message>, a: nat, m: nat, z: nat, gone: set<string>, here: set<string>, later: set<string>)
    requires a <= m <= z <= |log| && UniqueIds(log)
    requires here == set j | a <= j < m && log[j].id in gone :: log[j].id
    requires IdsWithin(log, m, z, later)
    ensures forall x :: x in log[a..m] ==> (x.id in gone <==> x.id in here + later)
    ensures forall x :: x in log[m..z] ==> (x.id in later <==> x.id in here + later)
    ensures IdsWithin(log, a, z, here + later)
  {
    forall x | x in log[a..m] ensures x.id in gone <==> x.id in here + later {
      var j :| a <= j < m && log[j] == x;
    }
    forall x | x in log[m..z] ensures x.id !in here {
      var j :| m <= j < z && log[j] == x;
    }
  }

  lemma JoinStretch(log: seq<Message>, a: nat, m: nat, z: nat, gone: set<string>, here: set<string>, later: set<string>)
    requires a <= m <= z <= |log| && UniqueIds(log)
    requires here == set j | a <= j < m && log[j].id in gone :: log[j].id
    requires IdsWithin(log, m, z, later)
    ensures IdsWithin(log, a, z, here + later)
    ensures Live(log[a..m], gone) + Live(log[m..z], later) == Live(log[a..z], here + later)
  {
    SkippedHere(log, a, m, z, gone, here, later);
    LiveSame(log[a..m], gone, here + later);
    LiveSame(log[m..z], later, here + later);
    LiveConcat(log[a..m], log[m..z], here + later);
    assert log[a..z] == log[a..m] + log[m..z];
  }

  lemma SkipsCons(ts: seq<Trace>, bounds: seq<nat>, log: seq<Message>, here: set<string>, later: set<string>)
    requires Stretches(ts, bounds) && |bounds| > 1 && Stretches(ts[1..], bounds[1..])
    requires UniqueIds(log) && bounds[|bounds| - 1] <= |log|
    requires here == set j | bounds[0] <= j < bounds[1] && log[j].id in ts[0].gone :: log[j].id
    requires IdsWithin(log, bounds[1], bounds[|bounds| - 1], later)
    requires SkipsDeleted(ts[1..], bounds[1..], log, later)
    ensures SkipsDeleted(ts, bounds, log, here + later)
  {
    forall i, j | 0 <= i < |bounds| - 1 && bounds[i] <= j < bounds[i + 1]
      ensures log[j].id in here + later <==> log[j].id in ts[i].gone
    {
      if i > 0 {
        var tail := bounds[1..];
        assert tail[i - 1] <= j < tail[i - 1 + 1];
        assert log[j].id in later <==> log[j].id in ts[1..][i - 1].gone;
      }
    }
  }

  lemma StretchesTail(ts: seq<Trace>, bounds: seq<nat>)
    requires Stretches(ts, bounds) && |bounds| > 1
    ensures Stretches(ts[1..], bounds[1..])
  {}

  // ---- the whole statement ----------------------------------------------

  /** What a session that found something at its first read delivered. */
  ghost predicate Delivered(boards: seq<Board>, channel: string, ts: seq<Trace>, limit: int, r: Received,
                            bounds: seq<nat>, skipped: set<string>)
  {
    && |boards| == |ts| > 0 && Stretches(ts, bounds) && bounds[0] == ts[0].cut
    && var log := ts[|ts| - 1].log;
       && bounds[0] <= bounds[|bounds| - 1] <= |log|
       && r.messages == Live(log[bounds[0]..bounds[|bounds| - 1]], skipped)
       && UniqueIds(r.messages)
       && SkipsDeleted(ts, bounds, log, skipped)
       && EndsWell(boards, channel, ts, bounds, r.failed)
       && (forall i :: 0 <= i < |bounds| - 1 ==> AdvancesAt(ts[i], bounds[i], bounds[i + 1], limit))
       && FlagRight(ts, bounds, r.more)
  }

  lemma DeliveredFrom(boards: seq<Board>, channel: string, ts: seq<Trace>, limit: int)
    returns (bounds: seq<nat>, skipped: set<string>)
    requires limit >= 1 && Session(boards, channel, ts) && boards != [] && Contents(ts[0]) != []
    ensures Delivered(boards, channel, ts, limit, Follow(boards, channel, limit, ""), bounds, skipped)
  {
    bounds := PagesTile(boards, channel, ts, limit, true, ts[0].cut, "");
    var log := ts[|ts| - 1].log;
    forall i | 0 <= i < |ts| ensures ts[i].log <= log {
      assert Extends(ts[i], ts[|ts| - 1]);
    }
    assert bounds[|bounds| - 1] <= |log|;
    skipped := PiecesJoin(ts, bounds, log);
    UniqueStretch(log, bounds[0], bounds[|bounds| - 1], skipped);
  }

  /** How many reads come before the first that finds the channel holding something. */
  function EmptyReads(ts: seq<Trace>): (n: nat)
    requires forall i :: 0 <= i < |ts| ==> ts[i].cut <= |ts[i].log|
    ensures n <= |ts| && (n < |ts| ==> Contents(ts[n]) != [])
    ensures forall i :: 0 <= i < n ==> Contents(ts[i]) == []
  {
    if ts == [] || Contents(ts[0]) != [] then 0 else 1 + EmptyReads(ts[1..])
  }

  /** Those reads leave the client where it began. */
  lemma {:induction false} EmptyReadsPass(boards: seq<Board>, channel: string, ts: seq<Trace>, limit: int)
    requires limit >= 1 && Session(boards, channel, ts)
    ensures var n, r := EmptyReads(ts), Follow(boards, channel, limit, "");
            && Session(boards[n..], channel, ts[n..])
            && (n < |ts| ==> r == Follow(boards[n..], channel, limit, ""))
            && (n == |ts| ==> r == Received([], if n == 0 then None else Some(false), false))
  {
    if ts != [] {
      SessionTail(boards, channel, ts);
      if Contents(ts[0]) == [] {
        var n := EmptyReads(ts[1..]);
        EmptyReadsPass(boards[1..], channel, ts[1..], limit);
        assert boards[1..][n..] == boards[n + 1..] && ts[1..][n..] == ts[n + 1..];
        EmptyReadPasses(boards, channel, ts, limit);
      } else {
        assert boards[0..] == boards && ts[0..] == ts;
      }
    }
  }

  /** A read that finds nothing says so and leaves the cursor; a first read is never refused. */
  lemma EmptyReadPasses(boards: seq<Board>, channel: string, ts: seq<Trace>, limit: int)
    requires limit >= 1 && Session(boards, channel, ts) && boards != [] && Contents(ts[0]) == []
    requires Session(boards[1..], channel, ts[1..])
    ensures Follow(boards, channel, limit, "") ==
            if |boards| == 1 then Received([], Some(false), false) else Follow(boards[1..], channel, limit, "")
  {
    assert Read(boards[0], channel, Onward(limit, "")) == Ok(Page([], false));
    FirstFlag(boards[1..], channel, ts[1..], limit);
    var rest := Follow(boards[1..], channel, limit, "");
    assert [] + rest.messages == rest.messages;
  }

  lemma FirstFlag(boards: seq<Board>, channel: string, ts: seq<Trace>, limit: int)
    requires limit >= 1 && Session(boards, channel, ts)
    ensures Follow(boards, channel, limit, "").more.None? <==> boards == []
  {
    if boards != [] {
      assert Read(boards[0], channel, Onward(limit, "")).Ok?;
    }
  }

  /**
   Gap-free paging. A client follows `after` through any number of reads while others
   append, evict, delete and clear. Reads that find nothing leave it where it began; from
   the first that finds something on, what it receives is one stretch of the channel's log,
   in order and each message once, without exactly the messages deleted before the page
   that covers them. It ends early only with the cursor error, and only when the message
   under the cursor has left the channel. Every page takes as much as its limit allows of
   what the channel holds past the last one, and `has_more` of the last page is false
   exactly if the channel then held no more.
   */
  lemma {:induction false} GapFreePaging(boards: seq<Board>, channel: string, ts: seq<Trace>, limit: int)
    returns (bounds: seq<nat>, skipped: set<string>)
    requires limit >= 1 && Session(boards, channel, ts)
    ensures var n, r := EmptyReads(ts), Follow(boards, channel, limit, "");
            if n == |ts| then r == Received([], if n == 0 then None else Some(false), false)
            else Delivered(boards[n..], channel, ts[n..], limit, r, bounds, skipped)
  {
    var n := EmptyReads(ts);
    EmptyReadsPass(boards, channel, ts, limit);
    if n < |ts| {
      bounds, skipped := DeliveredFrom(boards[n..], channel, ts[n..], limit);
    } else {
      bounds, skipped := [0], {};
    }
  }

  lemma UniqueStretch(log: seq<Message>, from: nat, to: nat, skipped: set<string>)
    requires UniqueIds(log) && from <= to <= |log|
    ensures UniqueIds(Live(log[from..to], skipped))
  {
    LiveUnique(log[from..to], skipped);
  }

  /** The boards of a real run, looked at after any nondecreasing numbers of operations, form a session. */
  lemma RunIsSession(cfg: Config, ops: seq<Op>, times: seq<nat>, channel: string)
    requires cfg.Valid() && FreshIds(ops)
    requires forall i :: 0 <= i < |ops| && ops[i].Add? ==> ops[i].id != ""
    requires forall i :: 0 <= i < |times| ==> times[i] <= |ops|
    requires forall i, j :: 0 <= i <= j < |times| ==> times[i] <= times[j]
    ensures Session(seq(|times|, i requires 0 <= i < |times| => Run(cfg, ops[..times[i]])), channel,
                    seq(|times|, i requires 0 <= i < |times| => TraceOf(cfg, ops[..times[i]], channel)))
  {
    var boards := seq(|times|, i requires 0 <= i < |times| => Run(cfg, ops[..times[i]]));
    var ts := seq(|times|, i requires 0 <= i < |times| => TraceOf(cfg, ops[..times[i]], channel));
    forall i | 0 <= i < |times| ensures Shows(boards[i], channel, ts[i]) {
      Retained(cfg, ops[..times[i]], channel);
      IdsAreReal(ops[..times[i]], ts[i]);
    }
    forall i, j | 0 <= i <= j < |times| ensures Extends(ts[i], ts[j]) {
      PastGrows(cfg, ops[..times[j]], times[i], channel);
      assert ops[..times[j]][..times[i]] == ops[..times[i]];
    }
  }

  lemma IdsAreReal(ops: seq<Op>, t: Trace)
    requires AllIssued(ops, t)
    requires forall i :: 0 <= i < |ops| && ops[i].Add? ==> ops[i].id != ""
    ensures RealIds(t.log)
  {}

  // ---- an unchanged channel ---------------------------------------------

  /** The position of a message in a list with unique ids. */
  lemma IndexAt(ms: seq<Message>, k: nat)
    requires UniqueIds(ms) && k < |ms|
    ensures IndexOf(ms, ms[k].id) == Some(k)
  {}

  /** The page after a prefix already received extends it. */
  lemma ForwardPage(ms: seq<Message>, limit: int, all: seq<Message>)
    requires limit >= 1 && UniqueIds(ms) && RealIds(ms) && 0 < |all| < |ms| && all == ms[..|all|]
    ensures var r := Select(ms, Onward(limit, all[|all| - 1].id));
            && r.Ok? && r.value.messages != [] && |all + r.value.messages| <= |ms|
            && all + r.value.messages == ms[..|all + r.value.messages|]
            && (r.value.hasMore <==> |all + r.value.messages| < |ms|)
  {
    var n := |all|;
    assert all[n - 1] == ms[n - 1];
    AfterPrefix(ms, limit, n);
    PrefixGrows(ms, n, limit);
  }

  lemma AfterPrefix(ms: seq<Message>, limit: int, n: nat)
    requires UniqueIds(ms) && RealIds(ms) && 0 < n <= |ms|
    ensures Select(ms, Onward(limit, ms[n - 1].id)) == Ok(Oldest(ms[n..], Min(limit, MAX_READ_LIMIT)))
  {
    assert ms[n - 1] in ms;
    IndexAt(ms, n - 1);
    SelectAfter(ms, ms[n - 1].id, n - 1, limit);
  }

  lemma SelectAfter(ms: seq<Message>, id: string, i: nat, limit: int)
    requires id != "" && IndexOf(ms, id) == Some(i)
    ensures Select(ms, Onward(limit, id)) == Ok(Oldest(ms[i + 1..], Min(limit, MAX_READ_LIMIT)))
  {}

  lemma PrefixGrows(ms: seq<Message>, n: nat, limit: int)
    requires limit >= 1 && n < |ms|
    ensures var size, page := PageSize(|ms| - n, limit), Oldest(ms[n..], Min(limit, MAX_READ_LIMIT));
            && 0 < size == |page.messages| && (page.hasMore <==> n + size < |ms|)
            && ms[..n] + page.messages == ms[..n + size]
  {
    OldestTakes(ms[n..], limit);
    var size := PageSize(|ms| - n, limit);
    assert ms[..n] + ms[n..][..size] == ms[..n + size];
  }

  /** The page before a suffix already received extends it. */
  lemma BackwardPage(ms: seq<Message>, limit: int, all: seq<Message>)
    requires limit >= 1 && UniqueIds(ms) && RealIds(ms) && 0 < |all| < |ms| && all == ms[|ms| - |all|..]
    ensures var r := Select(ms, Query(NoSince, limit, Desc, "", all[0].id));
            && r.Ok? && r.value.messages != [] && |r.value.messages + all| <= |ms|
            && r.value.messages + all == ms[|ms| - |r.value.messages + all|..]
            && (r.value.hasMore <==> |r.value.messages + all| < |ms|)
  {
    var n := |ms| - |all|;
    assert all[0] == ms[n];
    BeforeSuffix(ms, limit, n);
    NewestTakes(ms, n, limit);
  }

  lemma BeforeSuffix(ms: seq<Message>, limit: int, n: nat)
    requires UniqueIds(ms) && RealIds(ms) && n < |ms|
    ensures Select(ms, Query(NoSince, limit, Desc, "", ms[n].id)) == Ok(Newest(ms[..n], Min(limit, MAX_READ_LIMIT)))
  {
    assert ms[n] in ms;
    IndexAt(ms, n);
  }

  lemma NewestTakes(ms: seq<Message>, n: nat, limit: int)
    requires limit >= 1 && 0 < n <= |ms|
    ensures var size, page := PageSize(n, limit), Newest(ms[..n], Min(limit, MAX_READ_LIMIT));
            && 0 < size && page.messages == ms[n - size..n] && (page.hasMore <==> size < n)
            && page.messages + ms[n..] == ms[n - size..]
  {
    var size := PageSize(n, limit);
    assert ms[..n][n - size..] == ms[n - size..n];
  }

  /**
   Following `after` through a channel nobody changes gives the whole list, page by page,
   and `has_more` is false exactly on the page that completes it.
   */
  method ReadForward(ms: seq<Message>, limit: int) returns (all: seq<Message>)
    requires limit >= 1 && UniqueIds(ms) && RealIds(ms)
    ensures all == ms
  {
    var first := Select(ms, Onward(limit, ""));
    var page := first.value;
    all := page.messages;
    while page.hasMore
      invariant |all| <= |ms| && all == ms[..|all|]
      invariant page.hasMore <==> |all| < |ms|
      invariant page.hasMore ==> all != []
      decreases |ms| - |all|
    {
      ForwardPage(ms, limit, all);
      var next := Select(ms, Onward(limit, all[|all| - 1].id));
      page := next.value;
      all := all + page.messages;
    }
  }

  /** The same backwards: the newest page first, then `before` the oldest message received. */
  method ReadBackward(ms: seq<Message>, limit: int) returns (all: seq<Message>)
    requires limit >= 1 && UniqueIds(ms) && RealIds(ms)
    ensures all == ms
  {
    var first := Select(ms, Query(NoSince, limit, Desc, "", ""));
    var page := first.value;
    all := page.messages;
    while page.hasMore
      invariant |all| <= |ms| && all == ms[|ms| - |all|..]
      invariant page.hasMore <==> |all| < |ms|
      invariant page.hasMore ==> all != []
      decreases |ms| - |all|
    {
      BackwardPage(ms, limit, all);
      var next := Select(ms, Query(NoSince, limit, Desc, "", all[0].id));
      page := next.value;
      all := page.messages + all;
    }
  }

  /** The number of messages on a page cut from the front or the back of a list. */
  function PageLength(ms: seq<Message>, limit: int, front: bool): nat {
    var cap := Min(limit, MAX_READ_LIMIT);
    |(if front then Oldest(ms, cap) else Newest(ms, cap)).messages|
  }

  /**
   `limit` is documented as a maximum. Pages keep to it, whatever the channel holds, if
   and only if it is positive, or zero and counted from the front.
   */
  lemma LimitIsMaximum(limit: int, front: bool)
    ensures (forall ms :: PageLength(ms, limit, front) <= limit) <==> limit >= 1 || (limit == 0 && front)
  {
    var m := Message("id", "channel", "sender", "", 0);
    if limit < 0 {
      assert PageLength([], limit, front) > limit;
    } else if limit == 0 && !front {
      assert PageLength([m], limit, front) == 1;
    }
  }
}
