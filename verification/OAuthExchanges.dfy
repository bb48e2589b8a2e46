/**
 How the exchanges of the authorization flow end: which stored tokens reach their caller.
 With a token database an exchange suspends after each of its two stores and once more to
 count, and any of the three may raise.
 */
module OAuthExchanges {
  import opened OAuthRaces

  // ---- every ending is accounted for ------------------------------------

  /** What a suspended exchange has stored is what it waits past. */
  ghost predicate Halfway(c: Calls, i: nat)
    requires i in c.waiting
  {
    var w := c.waiting[i];
    && i in c.used && (i in c.paired <==> w.Counting?)
    && (i in c.stored <==> w.StoringRefresh? || w.Counting?)
    && (i in c.stored ==> c.stored[i] == w.code)
  }

  /** Every call that stored something is suspended, or ended in exactly one of three ways. */
  ghost predicate Settled(c: Calls) {
    && (forall i :: i in c.waiting ==> Halfway(c, i))
    && c.paired <= c.stored.Keys <= c.used
    && c.stored.Keys == c.sent + c.lost + c.broken + (c.waiting.Keys * c.stored.Keys)
    && c.sent !! c.lost !! c.broken !! c.waiting.Keys
    && c.sent + c.lost <= c.paired
  }

  /** A pair was sent if and only if its call spent the code; a loser's code was spent by another. */
  ghost predicate SpentRight(f: Flow) {
    && (forall i :: i in f.calls.sent ==>
          i in f.calls.stored && f.calls.stored[i] in f.codes.spentBy && f.codes.spentBy[f.calls.stored[i]] == i)
    && (forall i :: i in f.calls.lost ==>
          i in f.calls.stored && f.calls.stored[i] in f.codes.spentBy && f.codes.spentBy[f.calls.stored[i]] != i)
    && (forall k :: k in f.codes.spentBy ==> f.codes.spentBy[k] in f.calls.sent)
  }

  ghost predicate Ends(f: Flow) { Settled(f.calls) && SpentRight(f) }

  /** A new request ends at once or waits having stored nothing. */
  lemma OpenedEnds(f: Flow, g: Flow, i: nat, c: Call)
    requires Ends(f) && i !in f.calls.used && g.codes == f.codes && (c.AwaitingToken? || c.StoringAccess?)
    requires g.calls == Opened(f.calls, i) || g.calls == Waits(Opened(f.calls, i), i, c)
    ensures Ends(g)
  {
    assert i !in f.calls.stored;
    forall j | j in g.calls.waiting ensures Halfway(g.calls, j) {
      if j in f.calls.waiting {
        assert Halfway(f.calls, j);
      }
    }
  }

  /** Without a database it stores, spends and sends in one step. */
  lemma InMemoryEnds(f: Flow, g: Flow, i: nat, code: string)
    requires Ends(f) && CodesBalance(f.codes) && i !in f.calls.used && code in f.codes.live
    requires g.codes == Spent(f.codes, code, i)
    requires g.calls == Ended(Paired(HalfStored(Opened(f.calls, i), i, code), i), i, true)
    ensures Ends(g)
  {
    forall j | j in f.calls.waiting ensures j != i {
      assert Halfway(f.calls, j);
    }
    var counting := Waits(Paired(HalfStored(Opened(f.calls, i), i, code), i), i, Counting(code));
    PairingEnds(f, f.(calls := counting), i, code);
    CountedEnds(f.(calls := counting), g, i, code);
  }

  /** The state it would pass through if it waited for a count. */
  lemma PairingEnds(f: Flow, g: Flow, i: nat, code: string)
    requires Ends(f) && i !in f.calls.used && i !in f.calls.waiting && g.codes == f.codes
    requires g.calls == Waits(Paired(HalfStored(Opened(f.calls, i), i, code), i), i, Counting(code))
    ensures Ends(g)
  {
    forall j | j in g.calls.waiting ensures Halfway(g.calls, j) {
      if j != i {
        assert Halfway(f.calls, j);
      }
    }
  }

  lemma StartingEnds(storage: bool, f: Flow, s: Step)
    requires Ends(f) && CodesBalance(f.codes) && Fits(f, s)
    requires s.Callback? || s.Exchange?
    ensures Ends(Next(storage, f, s))
  {
    var g := Next(storage, f, s);
    if s.Exchange? && s.code in f.codes.live && !storage {
      InMemoryEnds(f, g, s.call, s.code);
    } else if s.Exchange? {
      OpenedEnds(f, g, s.call, StoringAccess(s.code));
    } else if s.state in f.states.mapping {
      OpenedEnds(f, g, s.call, AwaitingToken(s.state, f.states.mapping[s.state], f.clock));
    } else {
      OpenedEnds(f, g, s.call, StoringAccess(""));
    }
  }

  /** The call moves on to its next wait, having stored one thing more. */
  lemma MovingEnds(f: Flow, g: Flow, i: nat, code: string)
    requires Ends(f) && i in f.calls.waiting && g.codes == f.codes
    requires || (f.calls.waiting[i] == StoringAccess(code) &&
                 g.calls == Waits(HalfStored(f.calls, i, code), i, StoringRefresh(code)))
             || (f.calls.waiting[i] == StoringRefresh(code) &&
                 g.calls == Waits(Paired(f.calls, i), i, Counting(code)))
    ensures Ends(g)
  {
    assert Halfway(f.calls, i);
    forall j | j in g.calls.waiting ensures Halfway(g.calls, j) {
      if j != i {
        assert Halfway(f.calls, j);
      }
    }
  }

  lemma CountedEnds(f: Flow, g: Flow, i: nat, code: string)
    requires Ends(f) && CodesBalance(f.codes) && i in f.calls.waiting && f.calls.waiting[i] == Counting(code)
    requires code in f.codes.minted
    requires g.codes == Spent(f.codes, code, i) && g.calls == Ended(f.calls, i, code in f.codes.live)
    ensures Ends(g)
  {
    assert Halfway(f.calls, i);
    CountedSettles(f.calls, g.calls, i, code in f.codes.live);
    CountedSpends(f, g, i, code);
  }

  lemma CountedSettles(c: Calls, d: Calls, i: nat, ok: bool)
    requires Settled(c) && i in c.waiting && i in c.paired && d == Ended(c, i, ok)
    ensures Settled(d)
  {
    forall j | j in d.waiting ensures Halfway(d, j) {
      assert Halfway(c, j);
    }
  }

  lemma CountedSpends(f: Flow, g: Flow, i: nat, code: string)
    requires SpentRight(f) && CodesBalance(f.codes) && code in f.codes.minted
    requires i in f.calls.stored && f.calls.stored[i] == code && i !in f.calls.sent && i !in f.calls.lost
    requires g.codes == Spent(f.codes, code, i) && g.calls == Ended(f.calls, i, code in f.codes.live)
    ensures SpentRight(g)
  {}

  lemma BrokenEnds(f: Flow, g: Flow, i: nat)
    requires Ends(f) && i in f.calls.waiting && g.codes == f.codes && g.calls == Broken(f.calls, i)
    ensures Ends(g)
  {
    assert Halfway(f.calls, i);
    forall j | j in g.calls.waiting ensures Halfway(g.calls, j) {
      assert Halfway(f.calls, j);
    }
  }

  /** The steps of a callback store no tokens. */
  lemma CallbackEnds(f: Flow, g: Flow, i: nat)
    requires Ends(f) && i in f.calls.waiting && !InExchange(f.calls.waiting[i])
    requires g.codes.spentBy == f.codes.spentBy
    requires g.calls == Over(f.calls, i) || exists c :: !InExchange(c) && g.calls == Waits(f.calls, i, c)
    ensures Ends(g)
  {
    assert Halfway(f.calls, i);
    forall j | j in g.calls.waiting ensures Halfway(g.calls, j) {
      if j != i {
        assert Halfway(f.calls, j);
      }
    }
  }

  lemma ResumingEnds(f: Flow, s: Step, i: nat, c: Call)
    requires Ends(f) && Sound(f) && i in f.calls.waiting && f.calls.waiting[i] == c
    requires !s.Authorize? && !s.Callback? && !s.Exchange? && s.call == i
    ensures Ends(Resuming(f, s, c))
  {
    var g := Resuming(f, s, c);
    assert Traced(f, c);
    if s.Raised? {
      BrokenEnds(f, g, i);
    } else if (s.AccessStored? && c.StoringAccess?) || (s.RefreshStored? && c.StoringRefresh?) {
      MovingEnds(f, g, i, c.code);
    } else if s.Counted? && c.Counting? {
      CountedEnds(f, g, i, c.code);
    } else if (s.TokenArrived? && c.AwaitingToken?) || (s.TokenValidated? && c.AwaitingValidation?) {
      if s.TokenArrived? {
        var next := AwaitingValidation(c.state, c.params, c.readAt, s.code);
        assert !InExchange(next) && g.calls == Waits(f.calls, i, next);
      }
      CallbackEnds(f, g, i);
    }
  }

  lemma EndsStep(storage: bool, f: Flow, s: Step)
    requires Ends(f) && Sound(f) && Fits(f, s)
    ensures Ends(Next(storage, f, s))
  {
    if s.Callback? || s.Exchange? {
      StartingEnds(storage, f, s);
    } else if !s.Authorize? && s.call in f.calls.waiting {
      ResumingEnds(f, s, s.call, f.calls.waiting[s.call]);
      SameEnds(Resuming(f, s, f.calls.waiting[s.call]), Next(storage, f, s));
    } else {
      SameEnds(f, Next(storage, f, s));
    }
  }

  lemma SameEnds(f: Flow, g: Flow)
    requires Ends(f) && g.calls == f.calls && g.codes == f.codes
    ensures Ends(g)
  {}

  lemma {:induction false} AlwaysEnds(storage: bool, steps: seq<Step>)
    requires Possible(storage, steps)
    ensures Ends(Played(storage, steps))
  {
    if steps != [] {
      AlwaysEnds(storage, steps[..|steps| - 1]);
      AlwaysSound(storage, steps[..|steps| - 1]);
      EndsStep(storage, Played(storage, steps[..|steps| - 1]), steps[|steps| - 1]);
    }
  }

  /**
   In every interleaving each stored pair belongs to a call that sent it, lost its code,
   broke off, or is still counting; each lone access token to one that broke off or is
   still storing its refresh token.
   */
  lemma {:induction false} PairsBalance(storage: bool, steps: seq<Step>)
    requires Possible(storage, steps)
    ensures var c := Played(storage, steps).calls;
            && c.sent !! c.lost !! c.broken
            && c.paired == c.sent + c.lost + (c.broken * c.paired) + (set i | i in c.waiting && c.waiting[i].Counting?)
            && c.stored.Keys - c.paired ==
               (c.broken - c.paired) + (set i | i in c.waiting && c.waiting[i].StoringRefresh?)
  {
    AlwaysEnds(storage, steps);
    var c := Played(storage, steps).calls;
    forall i | i in c.waiting ensures Halfway(c, i) {}
    forall i ensures i in c.stored.Keys - c.paired <==>
                     i in c.broken - c.paired || (i in c.waiting && c.waiting[i].StoringRefresh?)
    {
      if i in c.waiting {
        assert Halfway(c, i);
      }
    }
  }

  /**
   Which tokens never reach their caller: once a call that stored something has ended,
   they are unsent if and only if something it awaited raised after the first store, or
   another call had spent its code.
   */
  lemma {:induction false} UnsentExactly(storage: bool, steps: seq<Step>, i: nat)
    requires Possible(storage, steps)
    requires var c := Played(storage, steps).calls; i in c.stored && i !in c.waiting
    ensures var f := Played(storage, steps);
            var code := f.calls.stored[i];
            i !in f.calls.sent <==>
            i in f.calls.broken || (code in f.codes.spentBy && f.codes.spentBy[code] != i)
  {
    AlwaysEnds(storage, steps);
  }

  /** Breaking off is a step of the run: the call was suspended past its first store, and raised. */
  ghost predicate BrokeAt(storage: bool, steps: seq<Step>, k: nat, i: nat) {
    && k < |steps| && steps[k] == Raised(i)
    && i in Played(storage, steps[..k]).calls.waiting && i in Played(storage, steps[..k]).calls.stored
  }

  /** That is what `broken` records, and nothing else. */
  lemma {:induction false} BrokenExactly(storage: bool, steps: seq<Step>, i: nat)
    ensures i in Played(storage, steps).calls.broken <==> exists k :: BrokeAt(storage, steps, k, i)
  {
    if steps != [] {
      var n := |steps| - 1;
      var earlier := steps[..n];
      BrokenExactly(storage, earlier, i);
      BrokenGrows(storage, Played(storage, earlier), steps[n], i);
      BrokeOneMore(storage, steps, i);
    }
  }

  lemma BrokeEarlier(storage: bool, steps: seq<Step>, n: nat, k: nat, i: nat)
    requires k < n <= |steps|
    ensures BrokeAt(storage, steps, k, i) <==> BrokeAt(storage, steps[..n], k, i)
  {
    assert steps[..n][..k] == steps[..k];
  }

  lemma BrokeOneMore(storage: bool, steps: seq<Step>, i: nat)
    requires steps != []
    ensures var n := |steps| - 1;
            (exists k :: BrokeAt(storage, steps, k, i))
            <==> (exists k :: BrokeAt(storage, steps[..n], k, i)) || BrokeAt(storage, steps, n, i)
  {
    var n := |steps| - 1;
    if k: nat :| BrokeAt(storage, steps, k, i) && k != n {
      BrokeEarlier(storage, steps, n, k, i);
    }
    if k: nat :| BrokeAt(storage, steps[..n], k, i) {
      BrokeEarlier(storage, steps, n, k, i);
    }
  }

  lemma BrokenGrows(storage: bool, f: Flow, s: Step, i: nat)
    ensures i in Next(storage, f, s).calls.broken <==>
            i in f.calls.broken || (s == Raised(i) && i in f.calls.waiting && i in f.calls.stored)
  {}

  // ---- without a token database -----------------------------------------

  ghost predicate NoExchangeWaits(c: Calls) {
    forall i :: i in c.waiting ==> !InExchange(c.waiting[i])
  }

  /** Without a token database every token stored is sent to its caller. */
  lemma {:induction false} InMemorySendsEveryPair(steps: seq<Step>)
    requires Possible(false, steps)
    ensures var c := Played(false, steps).calls;
            NoExchangeWaits(c) && c.stored.Keys == c.paired == c.sent && c.lost == {} && c.broken == {}
  {
    if steps != [] {
      var f, s := Played(false, steps[..|steps| - 1]), steps[|steps| - 1];
      InMemorySendsEveryPair(steps[..|steps| - 1]);
      AlwaysEnds(false, steps[..|steps| - 1]);
      InMemoryStep(f, s);
    }
  }

  lemma InMemoryStep(f: Flow, s: Step)
    requires Ends(f) && NoExchangeWaits(f.calls)
    requires f.calls.stored.Keys == f.calls.paired == f.calls.sent && f.calls.lost == {} && f.calls.broken == {}
    ensures var c := Next(false, f, s).calls;
            NoExchangeWaits(c) && c.stored.Keys == c.paired == c.sent && c.lost == {} && c.broken == {}
  {
    if !s.Authorize? && !s.Callback? && !s.Exchange? && s.call in f.calls.waiting {
      assert !InExchange(f.calls.waiting[s.call]) && Halfway(f.calls, s.call);
    }
  }

  // ---- exchanges of one code that do not overlap ------------------------

  /** No exchange of a code starts while another one of it is suspended. */
  ghost predicate OneAtATime(storage: bool, steps: seq<Step>) {
    steps == [] ||
    (OneAtATime(storage, steps[..|steps| - 1]) &&
     (steps[|steps| - 1].Exchange? ==>
        Free(Played(storage, steps[..|steps| - 1]).calls, steps[|steps| - 1].code)))
  }

  ghost predicate Free(c: Calls, code: string) {
    forall i :: i in c.waiting && InExchange(c.waiting[i]) ==> c.waiting[i].code != code
  }

  ghost predicate Reserved(f: Flow) {
    var w := f.calls.waiting;
    && (forall i :: i in w && InExchange(w[i]) ==> w[i].code in f.codes.live)
    && (forall i, j :: i in w && j in w && i != j && InExchange(w[i]) && InExchange(w[j]) ==> w[i].code != w[j].code)
  }

  lemma ResumingReserved(f: Flow, s: Step)
    requires Reserved(f) && !s.Authorize? && !s.Callback? && !s.Exchange? && s.call in f.calls.waiting
    ensures var g := Resuming(f, s, f.calls.waiting[s.call]); Reserved(g) && g.calls.lost == f.calls.lost
  {
    assert InExchange(f.calls.waiting[s.call]) ==> f.calls.waiting[s.call].code in f.codes.live;
  }

  lemma ReservedStep(storage: bool, f: Flow, s: Step)
    requires Reserved(f) && (s.Exchange? ==> Free(f.calls, s.code))
    requires s.Callback? || s.Exchange? ==> s.call !in f.calls.waiting
    ensures var g := Next(storage, f, s); Reserved(g) && g.calls.lost == f.calls.lost
  {
    if !s.Authorize? && !s.Callback? && !s.Exchange? && s.call in f.calls.waiting {
      ResumingReserved(f, s);
    }
  }

  lemma {:induction false} OneAtATimeReserves(storage: bool, steps: seq<Step>)
    requires Possible(storage, steps) && OneAtATime(storage, steps)
    ensures Played(storage, steps).calls.lost == {} && Reserved(Played(storage, steps))
  {
    if steps != [] {
      OneAtATimeReserves(storage, steps[..|steps| - 1]);
      AlwaysEnds(storage, steps[..|steps| - 1]);
      var f, s := Played(storage, steps[..|steps| - 1]), steps[|steps| - 1];
      forall i | i in f.calls.waiting ensures i in f.calls.used {
        assert Halfway(f.calls, i);
      }
      ReservedStep(storage, f, s);
    }
  }

  /** Then no code is lost to another call, and what is stored stays unsent only if its call broke off. */
  lemma {:induction false} OneAtATimeLosesNothing(storage: bool, steps: seq<Step>, i: nat)
    requires Possible(storage, steps) && OneAtATime(storage, steps)
    requires var c := Played(storage, steps).calls; i in c.stored && i !in c.waiting
    ensures i in Played(storage, steps).calls.sent <==> forall k :: !BrokeAt(storage, steps, k, i)
  {
    OneAtATimeReserves(storage, steps);
    AlwaysEnds(storage, steps);
    BrokenExactly(storage, steps, i);
  }

  // ---- tokens left behind -----------------------------------------------

  /** An ended exchange that leaves a whole pair unsent lost to an overlap or broke off, and had a database. */
  lemma {:induction false} StrandedPairs(storage: bool, steps: seq<Step>, i: nat)
    requires Possible(storage, steps)
    requires var c := Played(storage, steps).calls; i in c.paired && i !in c.waiting && i !in c.sent
    ensures storage && (OneAtATime(storage, steps) ==> exists k :: BrokeAt(storage, steps, k, i))
  {
    AlwaysEnds(storage, steps);
    if !storage {
      InMemorySendsEveryPair(steps);
    }
    if OneAtATime(storage, steps) {
      OneAtATimeLosesNothing(storage, steps, i);
    }
  }

  /** One step of each of two requests, with a token database. */
  function Both(f: Flow, s: Step, t: Step): Flow { Next(true, Next(true, f, s), t) }

  predicate At(f: Flow, i: nat, j: nat, c: Call) {
    i in f.calls.waiting && j in f.calls.waiting && f.calls.waiting[i] == c && f.calls.waiting[j] == c
  }

  lemma BothStore(f: Flow, i: nat, j: nat, code: string)
    requires i != j && At(f, i, j, StoringAccess(code))
    ensures var g := Both(f, AccessStored(i), AccessStored(j));
            g.codes == f.codes && At(g, i, j, StoringRefresh(code))
  {}

  lemma BothPair(f: Flow, i: nat, j: nat, code: string)
    requires i != j && At(f, i, j, StoringRefresh(code))
    ensures var g := Both(f, RefreshStored(i), RefreshStored(j));
            g.codes == f.codes && At(g, i, j, Counting(code)) && {i, j} <= g.calls.paired
  {}

  lemma BothCount(f: Flow, i: nat, j: nat, code: string)
    requires i != j && At(f, i, j, Counting(code)) && code in f.codes.live
    ensures var g := Both(f, Counted(i), Counted(j));
            && i in g.calls.sent && j in g.calls.lost && g.calls.paired == f.calls.paired
            && g.codes.granted == f.codes.granted + multiset{code}
  {}

  /** From any state, of two overlapping exchanges of a live code the later one loses. */
  lemma OverlapLoses(f: Flow, code: string, i: nat, j: nat)
    requires code in f.codes.live && i != j
    ensures var f1 := Both(f, Exchange(i, code), Exchange(j, code));
            var f2 := Both(f1, AccessStored(i), AccessStored(j));
            var f3 := Both(f2, RefreshStored(i), RefreshStored(j));
            var f4 := Both(f3, Counted(i), Counted(j));
            && i in f4.calls.sent && j in f4.calls.lost && {i, j} <= f4.calls.paired
            && f4.codes.granted == f.codes.granted + multiset{code}
  {
    var f1 := Both(f, Exchange(i, code), Exchange(j, code));
    BothStore(f1, i, j, code);
    var f2 := Both(f1, AccessStored(i), AccessStored(j));
    BothPair(f2, i, j, code);
    BothCount(Both(f2, RefreshStored(i), RefreshStored(j)), i, j, code);
  }

  /** From any state, one whose count raises leaves its pair behind and the code good for another. */
  lemma RaisedCountStrandsPair(f: Flow, code: string, i: nat)
    requires code in f.codes.live
    ensures var f1 := Next(true, Next(true, f, Exchange(i, code)), AccessStored(i));
            var f2 := Next(true, Next(true, f1, RefreshStored(i)), Raised(i));
            && i in f2.calls.paired && i in f2.calls.broken && f2.calls.sent == f.calls.sent
            && i !in f2.calls.waiting && code in f2.codes.live
  {
    var f0 := Next(true, f, Exchange(i, code));
    assert f0.calls.waiting[i] == StoringAccess(code);
    var f1 := Next(true, f0, AccessStored(i));
    assert f1.calls.waiting[i] == StoringRefresh(code) && i in f1.calls.stored;
    var f2 := Next(true, f1, RefreshStored(i));
    assert f2.calls.waiting[i] == Counting(code) && f2.calls.stored == f1.calls.stored;
  }
}
