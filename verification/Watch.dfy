/** The polling loop of `relay watch` (mcp_relay/cli.py), on top of the store's `get`. */
module Watch {
  import opened Basics
  import opened PyList
  import opened RelayTypes
  import opened RelayBoard
  import opened History
  import opened Paging

  const POLL_LIMIT := 100

  function Poll(since: Since): Query { Query(since, POLL_LIMIT, Desc, "", "") }

  /** The starting point: the timestamp of the channel's newest message, if it has one. */
  function Start(b: Board, channel: string): Since {
    match Read(b, channel, Query(NoSince, 1, Desc, "", ""))
    case Err(_) => NoSince
    case Ok(page) => After(page.messages, NoSince)
  }

  function After(messages: seq<Message>, since: Since): Since {
    if messages == [] then since else From(messages[|messages| - 1].timestamp)
  }

  /** Everything printed over one poll per board. */
  function Printed(boards: seq<Board>, channel: string, since: Since): seq<Message> {
    if boards == [] then []
    else match Read(boards[0], channel, Poll(since))
      case Err(_) => []
      case Ok(page) => page.messages + Printed(boards[1..], channel, After(page.messages, since))
  }

  /** Prints one page, remembering the timestamp of each message printed. */
  method Echo(messages: seq<Message>, since: Since) returns (lines: seq<Message>, last: Since)
    ensures lines == messages && last == After(messages, since)
  {
    lines, last := [], since;
    for k := 0 to |messages|
      invariant lines == messages[..k] && last == After(messages[..k], since)
    {
      lines, last := lines + [messages[k]], From(messages[k].timestamp);
    }
  }

  /** The loop itself, over any number of polls. */
  method WatchChannel(first: Board, boards: seq<Board>, channel: string) returns (printed: seq<Message>)
    ensures printed == Printed(boards, channel, Start(first, channel))
  {
    printed := [];
    var since := Start(first, channel);
    assert boards[0..] == boards;
    for i := 0 to |boards|
      invariant printed + Printed(boards[i..], channel, since) == Printed(boards, channel, Start(first, channel))
    {
      assert boards[i..][1..] == boards[i + 1..];
      var page := Read(boards[i], channel, Poll(since));
      if page.Err? {
        return;
      }
      Regroup(printed, page.value.messages, Printed(boards[i + 1..], channel, After(page.value.messages, since)));
      var lines;
      lines, since := Echo(page.value.messages, since);
      printed := printed + lines;
    }
  }

  // ---- exactly once -----------------------------------------------------

  ghost predicate Timed(log: seq<Message>) {
    forall i, j :: 0 <= i < j < |log| ==> log[i].timestamp <= log[j].timestamp
  }

  lemma {:induction false} NewerIsSuffix(ms: seq<Message>, t: Instant, k: nat)
    requires k <= |ms|
    requires forall i :: 0 <= i < k ==> ms[i].timestamp <= t
    requires forall i :: k <= i < |ms| ==> ms[i].timestamp > t
    ensures Newer(ms, t) == ms[k..]
  {
    if ms != [] {
      NewerIsSuffix(ms[1..], t, if k == 0 then 0 else k - 1);
    }
  }

  /** How many messages at the front are not newer than t. */
  function Behind(ms: seq<Message>, t: Instant): (k: nat)
    ensures k <= |ms|
  {
    if ms == [] || ms[0].timestamp > t then 0 else 1 + Behind(ms[1..], t)
  }

  lemma {:induction false} BehindSplits(ms: seq<Message>, t: Instant)
    requires Timed(ms)
    ensures forall i :: 0 <= i < |ms| ==> (ms[i].timestamp <= t <==> i < Behind(ms, t))
  {
    if ms != [] && ms[0].timestamp <= t {
      BehindSplits(ms[1..], t);
      forall i | 0 <= i < |ms| ensures ms[i].timestamp <= t <==> i < Behind(ms, t) {
        if i > 0 {
          assert ms[i] == ms[1..][i - 1];
        }
      }
    }
  }

  /** The watcher has dealt with the log up to q, and `since` says so. */
  ghost predicate StandsAt(t: Trace, since: Since, q: nat) {
    match since
    case NoSince => q <= t.cut <= |t.log|
    case From(at) => 0 < q <= |t.log| && t.log[q - 1].timestamp == at
    case _ => false
  }

  /** Where the `since` filter starts: past q, and past whatever has the timestamp it goes by. */
  function Fresh(t: Trace, since: Since, q: nat): nat { if since.From? then Behind(t.log, since.at) else q }

  /** Message q of the log has the timestamp of the one before it. */
  predicate Tied(log: seq<Message>, q: nat) { 0 < q < |log| && log[q].timestamp == log[q - 1].timestamp }

  lemma FreshAt(t: Trace, since: Since, q: nat)
    requires Timed(t.log) && StandsAt(t, since, q) && t.cut <= |t.log|
    ensures q <= Fresh(t, since, q) <= |t.log|
    ensures since.From? ==> 0 < Fresh(t, since, q) && t.log[Fresh(t, since, q) - 1].timestamp == since.at
    ensures Fresh(t, since, q) == q <==> !(since.From? && Tied(t.log, q))
  {
    if since.From? {
      BehindSplits(t.log, since.at);
    }
  }

  lemma NewerFromStand(log: seq<Message>, cut: nat, at: Instant)
    requires Timed(log) && cut <= |log|
    ensures Newer(log[cut..], at) == log[Max(Behind(log, at), cut)..]
  {
    var from := Max(Behind(log, at), cut);
    BehindSplits(log, at);
    FromCut(log, cut, from);
    NewerIsSuffix(log[cut..], at, from - cut);
  }

  lemma FromCut(log: seq<Message>, cut: nat, from: nat)
    requires cut <= from <= |log|
    ensures forall i :: 0 <= i < |log| - cut ==> log[cut..][i] == log[cut + i]
    ensures log[cut..][from - cut..] == log[from..]
  {
  }

  /** What is retained past that point is what the `since` filter lets through. */
  lemma UnreadNewer(t: Trace, since: Since, q: nat)
    requires Coherent(t) && t.gone == {} && Timed(t.log) && StandsAt(t, since, q)
    ensures Fresh(t, since, q) <= |t.log|
    ensures Narrow(Contents(t), since) == Ok(t.log[Max(Fresh(t, since, q), t.cut)..])
  {
    LiveAll(t.log[t.cut..], {});
    if since.From? {
      NewerFromStand(t.log, t.cut, since.at);
    }
  }

  /** Where the page of a poll starts: past what is not fresh, has left, or does not fit. */
  function PageStart(t: Trace, since: Since, q: nat): nat {
    Max(Max(Fresh(t, since, q), t.cut), |t.log| - POLL_LIMIT)
  }

  /** A poll prints the newest hundred of what is retained and fresh. */
  lemma PollPrints(b: Board, channel: string, t: Trace, since: Since, q: nat)
    requires Shows(b, channel, t) && t.gone == {} && Timed(t.log) && StandsAt(t, since, q)
    ensures PageStart(t, since, q) <= |t.log|
    ensures var r := Read(b, channel, Poll(since));
            r.Ok? && r.value.messages == t.log[PageStart(t, since, q)..]
  {
    PollReads(b, channel, t, since, q);
    LastOfTail(t.log, Max(Fresh(t, since, q), t.cut));
  }

  lemma PollReads(b: Board, channel: string, t: Trace, since: Since, q: nat)
    requires Shows(b, channel, t) && t.gone == {} && Timed(t.log) && StandsAt(t, since, q)
    ensures Max(Fresh(t, since, q), t.cut) <= |t.log|
    ensures var r := Read(b, channel, Poll(since));
            r.Ok? && r.value.messages == LastN(t.log[Max(Fresh(t, since, q), t.cut)..], POLL_LIMIT)
  {
    FreshAt(t, since, q);
    if channel in b {
      UnreadNewer(t, since, q);
    } else {
      LiveAll(t.log[t.cut..], {});
      assert t.log[t.cut..] == [];
    }
  }

  lemma LastOfTail(log: seq<Message>, k: nat)
    requires k <= |log|
    ensures LastN(log[k..], POLL_LIMIT) == log[Max(k, |log| - POLL_LIMIT)..]
  {}

  /**
   Every poll comes before anything unprinted is evicted and before a hundred messages pile
   up, and, once something has been read, before a message arrives with the timestamp of
   the last one.
   */
  ghost predicate KeepsUp(ts: seq<Trace>, started: bool, q: nat)
  {
    ts != [] ==>
      && ts[0].cut <= q && |ts[0].log| - q <= POLL_LIMIT && !(started && Tied(ts[0].log, q))
      && KeepsUp(ts[1..], started || q < |ts[0].log|, |ts[0].log|)
  }

  /** The polls of a watcher on a channel from which nothing is deleted. */
  ghost predicate Watching(boards: seq<Board>, channel: string, ts: seq<Trace>, since: Since, q: nat) {
    && Session(boards, channel, ts)
    && (forall i :: 0 <= i < |ts| ==> ts[i].gone == {} && Timed(ts[i].log))
    && (ts != [] ==> StandsAt(ts[0], since, q))
  }

  /** The watcher's first read puts it at the end of the log. */
  lemma StartStands(b: Board, channel: string, t: Trace)
    requires Shows(b, channel, t) && t.gone == {}
    ensures StandsAt(t, Start(b, channel), |t.log|)
  {
    LiveAll(t.log[t.cut..], {});
  }

  /** How far a watcher has got after the poll. */
  function Handled(t: Trace, since: Since, q: nat): nat {
    if PageStart(t, since, q) == |t.log| then Fresh(t, since, q) else |t.log|
  }

  function SinceAfter(t: Trace, since: Since, q: nat): Since
    requires PageStart(t, since, q) <= |t.log|
  {
    After(t.log[PageStart(t, since, q)..], since)
  }

  /** What one poll prints. */
  lemma FirstPrinted(boards: seq<Board>, channel: string, ts: seq<Trace>, since: Since, q: nat)
    requires boards != [] && Watching(boards, channel, ts, since, q)
    ensures PageStart(ts[0], since, q) <= |ts[0].log|
    ensures Printed(boards, channel, since) ==
            ts[0].log[PageStart(ts[0], since, q)..] + Printed(boards[1..], channel, SinceAfter(ts[0], since, q))
  {
    assert Shows(boards[0], channel, ts[0]) && StandsAt(ts[0], since, q);
    PollPrints(boards[0], channel, ts[0], since, q);
  }

  /** And where it leaves the watcher. */
  lemma StillWatching(boards: seq<Board>, channel: string, ts: seq<Trace>, since: Since, q: nat)
    requires boards != [] && Watching(boards, channel, ts, since, q) && PageStart(ts[0], since, q) <= |ts[0].log|
    ensures Watching(boards[1..], channel, ts[1..], SinceAfter(ts[0], since, q), Handled(ts[0], since, q))
  {
    var t := ts[0];
    SessionTail(boards, channel, ts);
    if |ts| > 1 {
      assert Extends(t, ts[1]) && StandsAt(t, since, q) && Timed(t.log);
      StandsOn(t, ts[1], since, q);
    }
    assert forall i :: 0 <= i < |ts[1..]| ==> ts[1..][i] == ts[i + 1];
  }

  /** After a poll the watcher stands at the end of what it handled, and does so on a longer log. */
  lemma StandsOn(t: Trace, t': Trace, since: Since, q: nat)
    requires Coherent(t) && Coherent(t') && Extends(t, t') && Timed(t.log) && StandsAt(t, since, q)
    requires PageStart(t, since, q) <= |t.log|
    ensures StandsAt(t', SinceAfter(t, since, q), Handled(t, since, q))
  {
    FreshAt(t, since, q);
    if PageStart(t, since, q) < |t.log| {
      assert t'.log[|t.log| - 1] == t.log[|t.log| - 1];
    } else if since.From? {
      assert t'.log[Fresh(t, since, q) - 1] == t.log[Fresh(t, since, q) - 1];
    }
  }

  /** No more is printed than is appended past q and past what had already left the channel. */
  lemma {:induction false} PrintsAtMost(boards: seq<Board>, channel: string, ts: seq<Trace>, since: Since, q: nat)
    requires ts != [] && Watching(boards, channel, ts, since, q)
    ensures |Printed(boards, channel, since)| <= |ts[|ts| - 1].log| - Max(q, ts[0].cut)
    decreases |boards|
  {
    assert Coherent(ts[0]) && Timed(ts[0].log);
    FreshAt(ts[0], since, q);
    FirstPrinted(boards, channel, ts, since, q);
    if |ts| > 1 {
      StillWatching(boards, channel, ts, since, q);
      assert Extends(ts[0], ts[1]);
      PrintsAtMost(boards[1..], channel, ts[1..], SinceAfter(ts[0], since, q), Handled(ts[0], since, q));
    }
  }

  /** One poll keeps up if it starts where the watcher stands, and so must the rest. */
  lemma OnePoll(boards: seq<Board>, channel: string, ts: seq<Trace>, since: Since, q: nat, since': Since, q': nat)
    requires ts != [] && Watching(boards, channel, ts, since, q) && q <= |ts[0].log|
    requires PageStart(ts[0], since, q) <= |ts[0].log|
    requires since' == SinceAfter(ts[0], since, q) && q' == Handled(ts[0], since, q)
    ensures Watching(boards[1..], channel, ts[1..], since', q') && (|ts| > 1 ==> q' <= |ts[1].log|)
    ensures ts[0].log <= ts[|ts| - 1].log && (PageStart(ts[0], since, q) == q ==> q' == |ts[0].log|)
    ensures Printed(boards, channel, since) == ts[|ts| - 1].log[q..]
            <==> PageStart(ts[0], since, q) == q &&
                 Printed(boards[1..], channel, since') == ts[|ts| - 1].log[|ts[0].log|..]
  {
    FirstPrinted(boards, channel, ts, since, q);
    StillWatching(boards, channel, ts, since, q);
    FreshInLog(boards, channel, ts, since, q);
    RestFits(boards, channel, ts, since, q);
    SuffixSplit(ts[|ts| - 1].log, ts[0].log, q, PageStart(ts[0], since, q), Printed(boards[1..], channel, since'));
  }

  lemma FreshInLog(boards: seq<Board>, channel: string, ts: seq<Trace>, since: Since, q: nat)
    requires ts != [] && Watching(boards, channel, ts, since, q)
    ensures Coherent(ts[0]) && Timed(ts[0].log) && q <= Fresh(ts[0], since, q) <= |ts[0].log|
    ensures PageStart(ts[0], since, q) <= |ts[0].log|
  {
    assert Shows(boards[0], channel, ts[0]);
    FreshAt(ts[0], since, q);
  }

  /**
   Exactly-once watching: with timestamps that never decrease and nothing deleted, the loop
   prints every message past its starting point once and in order if and only if every
   poll keeps up.
   */
  lemma {:induction false} WatchExactlyOnce(boards: seq<Board>, channel: string, ts: seq<Trace>,
                                            since: Since, q: nat)
    requires ts != [] && Watching(boards, channel, ts, since, q) && q <= |ts[0].log|
    ensures Printed(boards, channel, since) == ts[|ts| - 1].log[q..] <==> KeepsUp(ts, since.From?, q)
    decreases |boards|
  {
    FreshInLog(boards, channel, ts, since, q);
    var since', q' := SinceAfter(ts[0], since, q), Handled(ts[0], since, q);
    OnePoll(boards, channel, ts, since, q, since', q');
    if |ts| > 1 {
      WatchExactlyOnce(boards[1..], channel, ts[1..], since', q');
    }
    KeepingUp(ts, since, q);
  }

  /** What the later polls print fits in what is appended later. */
  lemma RestFits(boards: seq<Board>, channel: string, ts: seq<Trace>, since: Since, q: nat)
    requires ts != [] && boards != [] && Watching(boards, channel, ts, since, q)
    requires Fresh(ts[0], since, q) <= |ts[0].log| && PageStart(ts[0], since, q) <= |ts[0].log|
    requires Watching(boards[1..], channel, ts[1..], SinceAfter(ts[0], since, q), Handled(ts[0], since, q))
    ensures ts[0].log <= ts[|ts| - 1].log
    ensures |Printed(boards[1..], channel, SinceAfter(ts[0], since, q))| <= |ts[|ts| - 1].log| - |ts[0].log|
    ensures |ts| > 1 ==> Handled(ts[0], since, q) <= |ts[1].log|
  {
    assert Extends(ts[0], ts[|ts| - 1]);
    if |ts| > 1 {
      assert Extends(ts[0], ts[1]);
      PrintsAtMost(boards[1..], channel, ts[1..], SinceAfter(ts[0], since, q), Handled(ts[0], since, q));
    }
  }

  /** Keeping up is starting where one stands, and keeping up from the end of the log. */
  lemma KeepingUp(ts: seq<Trace>, since: Since, q: nat)
    requires ts != [] && q <= |ts[0].log| && ts[0].cut <= |ts[0].log| && Timed(ts[0].log) && StandsAt(ts[0], since, q)
    requires PageStart(ts[0], since, q) <= |ts[0].log|
    ensures KeepsUp(ts, since.From?, q) <==>
            PageStart(ts[0], since, q) == q &&
            KeepsUp(ts[1..], SinceAfter(ts[0], since, q).From?, Handled(ts[0], since, q))
  {
    FreshAt(ts[0], since, q);
  }

  /** A suffix of the log printed in two parts has no room for a gap. */
  lemma SuffixSplit(last: seq<Message>, log: seq<Message>, q: nat, from: nat, rest: seq<Message>)
    requires log <= last && q <= from <= |log| && |rest| <= |last| - |log|
    ensures log[from..] + rest == last[q..] <==> from == q && rest == last[|log|..]
  {}

  // ---- never twice ------------------------------------------------------

  lemma {:induction false} NewerMember(ms: seq<Message>, t: Instant)
    ensures forall m :: m in Newer(ms, t) ==> m in ms && m.timestamp > t
  {
    if ms != [] {
      NewerMember(ms[1..], t);
    }
  }

  lemma {:induction false} NewerUnique(ms: seq<Message>, t: Instant)
    requires UniqueIds(ms)
    ensures UniqueIds(Newer(ms, t))
  {
    if ms != [] {
      NewerUnique(ms[1..], t);
      NewerMember(ms[1..], t);
    }
  }

  lemma {:induction false} NewerTimed(ms: seq<Message>, t: Instant)
    requires Timed(ms)
    ensures Timed(Newer(ms, t))
  {
    if ms != [] {
      NewerTimed(ms[1..], t);
      NewerMember(ms[1..], t);
    }
  }

  /** A page is distinct, in time order and newer than `since`. */
  lemma PageIsNewer(ms: seq<Message>, since: Since)
    requires UniqueIds(ms) && Timed(ms) && (since.NoSince? || since.From?)
    ensures var r := Select(ms, Poll(since));
            && r.Ok? && UniqueIds(r.value.messages) && Timed(r.value.messages)
            && (since.From? ==> forall m :: m in r.value.messages ==> m.timestamp > since.at)
  {
    if since.From? {
      NewerMember(ms, since.at);
      NewerUnique(ms, since.at);
      NewerTimed(ms, since.at);
    }
  }

  /** The boards a watcher sees: unique ids, timestamps in nondecreasing order. */
  ghost predicate Ordered(boards: seq<Board>, channel: string) {
    forall i :: 0 <= i < |boards| && channel in boards[i] ==>
      UniqueIds(boards[i][channel]) && Timed(boards[i][channel])
  }

  lemma {:induction false} PrintedIsNewer(boards: seq<Board>, channel: string, since: Since)
    requires Ordered(boards, channel) && since.From?
    ensures forall m :: m in Printed(boards, channel, since) ==> m.timestamp > since.at
    decreases |boards|
  {
    if boards != [] {
      FirstPageIsNewer(boards[0], channel, since);
      var page := FirstPage(boards[0], channel, since);
      var rest := Printed(boards[1..], channel, After(page, since));
      OrderedTail(boards, channel);
      PrintedIsNewer(boards[1..], channel, After(page, since));
      BothNewer(page, rest, since.at);
    }
  }

  lemma BothNewer(page: seq<Message>, rest: seq<Message>, t: Instant)
    requires forall m :: m in page ==> m.timestamp > t
    requires forall m :: m in rest ==> m.timestamp > t || (page != [] && m.timestamp > page[|page| - 1].timestamp)
    ensures forall m :: m in page + rest ==> m.timestamp > t
  {
    assert page != [] ==> page[|page| - 1] in page;
    forall m | m in page + rest ensures m.timestamp > t {
      assert m in page || m in rest;
    }
  }

  lemma OrderedTail(boards: seq<Board>, channel: string)
    requires Ordered(boards, channel) && boards != []
    ensures Ordered(boards[1..], channel)
  {}

  /** What a poll of one board prints. */
  function FirstPage(b: Board, channel: string, since: Since): seq<Message> {
    var r := Read(b, channel, Poll(since));
    if r.Ok? then r.value.messages else []
  }

  lemma FirstPageIsNewer(b: Board, channel: string, since: Since)
    requires (since.NoSince? || since.From?) && (channel in b ==> UniqueIds(b[channel]) && Timed(b[channel]))
    ensures var page := FirstPage(b, channel, since);
            && Read(b, channel, Poll(since)).Ok? && UniqueIds(page) && Timed(page)
            && (since.From? ==> forall m :: m in page ==> m.timestamp > since.at)
  {
    if channel in b {
      PageIsNewer(b[channel], since);
    }
  }

  ghost predicate Distinct(ms: seq<Message>) {
    forall i, j :: 0 <= i < j < |ms| ==> ms[i] != ms[j]
  }

  lemma DistinctConcat(a: seq<Message>, b: seq<Message>)
    requires Distinct(a) && Distinct(b) && forall x :: x in a ==> x !in b
    ensures Distinct(a + b)
  {
    forall i, j | 0 <= i < j < |a + b| ensures (a + b)[i] != (a + b)[j] {
      if i < |a| <= j {
        assert a[i] in a && b[j - |a|] in b;
      }
    }
  }

  lemma OldAndNew(page: seq<Message>, rest: seq<Message>)
    requires page != [] && Timed(page) && forall m :: m in rest ==> m.timestamp > page[|page| - 1].timestamp
    ensures forall x :: x in page ==> x !in rest
  {}

  /** Whatever is deleted, evicted or missed, no message is printed twice. */
  lemma {:induction false} NeverTwice(boards: seq<Board>, channel: string, since: Since)
    requires Ordered(boards, channel) && (since.NoSince? || since.From?)
    ensures Distinct(Printed(boards, channel, since))
    decreases |boards|
  {
    if boards != [] {
      FirstPageIsNewer(boards[0], channel, since);
      var page := FirstPage(boards[0], channel, since);
      var rest := Printed(boards[1..], channel, After(page, since));
      OrderedTail(boards, channel);
      NeverTwice(boards[1..], channel, After(page, since));
      if page != [] {
        PrintedIsNewer(boards[1..], channel, After(page, since));
        OldAndNew(page, rest);
      }
      DistinctConcat(page, rest);
    }
  }

  lemma {:induction false} LiveTimed(ms: seq<Message>, gone: set<string>)
    requires Timed(ms)
    ensures Timed(Live(ms, gone))
  {
    if ms != [] {
      LiveTimed(ms[1..], gone);
      forall m | m in Live(ms[1..], gone) ensures ms[0].timestamp <= m.timestamp {
        LiveMember(ms[1..], gone, m);
      }
    }
  }

  /** The clock of a run never goes back. */
  ghost predicate ClockForward(ops: seq<Op>) {
    forall i, j :: 0 <= i < j < |ops| && ops[i].Add? && ops[j].Add? ==> ops[i].at <= ops[j].at
  }

  /** Every message has its timestamp from an add of the run. */
  ghost predicate TimedByAdds(ops: seq<Op>, log: seq<Message>) {
    forall m :: m in log ==> AddAt(ops, m.timestamp)
  }

  ghost predicate AddAt(ops: seq<Op>, at: Instant) {
    exists i :: 0 <= i < |ops| && ops[i].Add? && ops[i].at == at
  }

  lemma TimedEarlier(ops: seq<Op>, log: seq<Message>)
    requires ops != [] && TimedByAdds(ops[..|ops| - 1], log)
    ensures TimedByAdds(ops, log)
    ensures ops[|ops| - 1].Add? && ClockForward(ops) ==> forall m :: m in log ==> m.timestamp <= ops[|ops| - 1].at
  {
    var n := |ops| - 1;
    forall m | m in log
      ensures AddAt(ops, m.timestamp)
      ensures ops[n].Add? && ClockForward(ops) ==> m.timestamp <= ops[n].at
    {
      assert AddAt(ops[..n], m.timestamp);
      var i :| 0 <= i < n && ops[..n][i].Add? && ops[..n][i].at == m.timestamp;
      assert ops[i] == ops[..n][i];
    }
  }

  /** An operation appends nothing to a log, or the message of an add made by it. */
  lemma LogGrows(cfg: Config, ops: seq<Op>, channel: string)
    requires ops != []
    ensures var n := |ops| - 1;
            var log, log' := TraceOf(cfg, ops[..n], channel).log, TraceOf(cfg, ops, channel).log;
            || log' == log
            || (ops[n].Add? && |log'| == |log| + 1 && log'[..|log|] == log && log'[|log|].timestamp == ops[n].at)
  {}

  /** Under such a clock every log is in time order, and no entry is from after the last add. */
  lemma {:induction false} LogTimed(cfg: Config, ops: seq<Op>, channel: string)
    requires ClockForward(ops)
    ensures Timed(TraceOf(cfg, ops, channel).log) && TimedByAdds(ops, TraceOf(cfg, ops, channel).log)
  {
    if ops != [] {
      var n := |ops| - 1;
      LogTimed(cfg, ops[..n], channel);
      var log := TraceOf(cfg, ops[..n], channel).log;
      TimedEarlier(ops, log);
      LogGrows(cfg, ops, channel);
      TimedGrows(ops, log, TraceOf(cfg, ops, channel).log);
    }
  }

  lemma TimedGrows(ops: seq<Op>, log: seq<Message>, log': seq<Message>)
    requires ops != [] && Timed(log) && TimedByAdds(ops, log)
    requires ops[|ops| - 1].Add? ==> forall m :: m in log ==> m.timestamp <= ops[|ops| - 1].at
    requires log' == log ||
             (ops[|ops| - 1].Add? && |log'| == |log| + 1 && log'[..|log|] == log &&
              log'[|log|].timestamp == ops[|ops| - 1].at)
    ensures Timed(log') && TimedByAdds(ops, log')
  {
    if log' != log {
      assert log' == log + [log'[|log|]];
      assert AddAt(ops, log'[|log|].timestamp);
    }
  }

  /** Every run under a forward clock is one a watcher never prints a message of twice. */
  lemma RunIsOrdered(cfg: Config, ops: seq<Op>, times: seq<nat>, channel: string)
    requires cfg.Valid() && FreshIds(ops) && ClockForward(ops)
    requires forall i :: 0 <= i < |times| ==> times[i] <= |ops|
    ensures Ordered(seq(|times|, i requires 0 <= i < |times| => Run(cfg, ops[..times[i]])), channel)
  {
    forall i | 0 <= i < |times| && channel in Run(cfg, ops[..times[i]])
      ensures var held := Run(cfg, ops[..times[i]])[channel]; UniqueIds(held) && Timed(held)
    {
      var t := TraceOf(cfg, ops[..times[i]], channel);
      Retained(cfg, ops[..times[i]], channel);
      LogTimed(cfg, ops[..times[i]], channel);
      LiveUnique(t.log[t.cut..], t.gone);
      LiveTimed(t.log[t.cut..], t.gone);
    }
  }

  // ---- a whole run, from first read to last poll ------------------------

  ghost predicate NothingDeleted(ops: seq<Op>, channel: string) {
    forall i :: 0 <= i < |ops| && ops[i].DeleteMessage? ==> ops[i].channel != channel
  }

  lemma {:induction false} NothingGone(cfg: Config, ops: seq<Op>, channel: string)
    requires NothingDeleted(ops, channel)
    ensures TraceOf(cfg, ops, channel).gone == {}
  {
    if ops != [] {
      NothingGone(cfg, ops[..|ops| - 1], channel);
    }
  }

  /** The boards, and the channel's pasts, of a run looked at after the given numbers of operations. */
  function Boards(cfg: Config, ops: seq<Op>, times: seq<nat>): seq<Board>
    requires forall i :: 0 <= i < |times| ==> times[i] <= |ops|
  {
    seq(|times|, i requires 0 <= i < |times| => Run(cfg, ops[..times[i]]))
  }

  function Pasts(cfg: Config, ops: seq<Op>, times: seq<nat>, channel: string): seq<Trace>
    requires forall i :: 0 <= i < |times| ==> times[i] <= |ops|
  {
    seq(|times|, i requires 0 <= i < |times| => TraceOf(cfg, ops[..times[i]], channel))
  }

  ghost predicate Moments(ops: seq<Op>, times: seq<nat>) {
    && (forall i :: 0 <= i < |times| ==> times[i] <= |ops|)
    && (forall i, j :: 0 <= i <= j < |times| ==> times[i] <= times[j])
  }

  /** A watcher that has read to the end of the log at one moment stands there at any later one. */
  lemma StandsLater(t: Trace, t': Trace, since: Since)
    requires Coherent(t) && StandsAt(t, since, |t.log|) && Extends(t, t') && Coherent(t')
    ensures StandsAt(t', since, |t.log|)
  {}

  lemma PastsAreTimed(cfg: Config, ops: seq<Op>, times: seq<nat>, channel: string)
    requires Moments(ops, times) && ClockForward(ops) && NothingDeleted(ops, channel)
    ensures forall i :: 0 <= i < |times| ==>
              Pasts(cfg, ops, times, channel)[i].gone == {} && Timed(Pasts(cfg, ops, times, channel)[i].log)
  {
    forall i | 0 <= i < |times|
      ensures Pasts(cfg, ops, times, channel)[i].gone == {} && Timed(Pasts(cfg, ops, times, channel)[i].log)
    {
      LogTimed(cfg, ops[..times[i]], channel);
      NothingGone(cfg, ops[..times[i]], channel);
    }
  }

  /**
   From end to end: over any run under a clock that does not go back and in which no message
   of the channel is deleted, what a watcher prints that starts at one moment and polls at
   the given later ones is exactly what was appended in between, if and only if every poll
   keeps up. This is what `WatchChannel` returns on those boards.
   */
  lemma {:induction false} WatchedRun(cfg: Config, ops: seq<Op>, start: nat, times: seq<nat>, channel: string)
    requires cfg.Valid() && FreshIds(ops) && ClockForward(ops) && NothingDeleted(ops, channel)
    requires forall i :: 0 <= i < |ops| && ops[i].Add? ==> ops[i].id != ""
    requires times != [] && Moments(ops, [start] + times) && Moments(ops, times) && start <= |ops|
    ensures var from := |TraceOf(cfg, ops[..start], channel).log|;
            var ts := Pasts(cfg, ops, times, channel);
            var since := Start(Run(cfg, ops[..start]), channel);
            from <= |ts[|ts| - 1].log| &&
            (Printed(Boards(cfg, ops, times), channel, since) == ts[|ts| - 1].log[from..]
             <==> KeepsUp(ts, since.From?, from))
  {
    var all := [start] + times;
    RunIsSession(cfg, ops, all, channel);
    RunIsSession(cfg, ops, times, channel);
    PastsAreTimed(cfg, ops, all, channel);
    PastsAreTimed(cfg, ops, times, channel);
    var t0, ts := TraceOf(cfg, ops[..start], channel), Pasts(cfg, ops, times, channel);
    var since := Start(Run(cfg, ops[..start]), channel);
    assert all[0] == start && all[1] == times[0];
    assert t0 == Pasts(cfg, ops, all, channel)[0] && ts[0] == Pasts(cfg, ops, all, channel)[1];
    assert Shows(Boards(cfg, ops, all)[0], channel, t0) && Shows(Boards(cfg, ops, all)[1], channel, ts[0]);
    StartStands(Run(cfg, ops[..start]), channel, t0);
    assert Extends(t0, ts[0]) && Extends(ts[0], ts[|ts| - 1]);
    StandsLater(t0, ts[0], since);
    WatchExactlyOnce(Boards(cfg, ops, times), channel, ts, since, |t0.log|);
  }
}
