/**
 The authorization flow of mcp_auth/taskmanager_oauth_provider.py with other requests
 served at every `await`: authorize stores a state, the callback turns the state into a
 code and a redirect, the exchange turns the code into a token pair. A step is what one
 request does between two suspension points.
 */
module OAuthRaces {
  import opened Basics

  /** The parts of a `state_mapping` entry that a code is made from. */
  datatype Params = Params(redirectUri: string, clientId: string, challenge: string, resource: Option<string>)

  datatype Request = Request(state: string, params: Params)

  /**
   The redirect that ends a callback: the entry it read and answers with, the entry its
   `del` used up, and how many steps had been taken before each of the two.
   */
  datatype Answer = Answer(call: nat, state: string, code: string, params: Params, readAt: nat, used: Params, usedAt: nat)

  /** `state_mapping`, and what was ever asked, overwritten and answered. */
  datatype States = States(mapping: map<string, Params>, authorized: multiset<string>, replaced: multiset<string>,
                           redirected: multiset<string>, requests: set<Request>, answers: set<Answer>)

  /** `auth_codes`, every code ever made, those exchanged for tokens, and by which call. */
  datatype Codes = Codes(live: map<string, Params>, minted: map<string, Params>, granted: multiset<string>,
                         spentBy: map<string, nat>)

  /** A suspended request, named by what it waits for. */
  datatype Call =
    | AwaitingToken(state: string, params: Params, readAt: nat)
    | AwaitingValidation(state: string, params: Params, readAt: nat, code: string)
    | StoringAccess(code: string)
    | StoringRefresh(code: string)
    | Counting(code: string)

  predicate InExchange(c: Call) { c.StoringAccess? || c.StoringRefresh? || c.Counting? }

  /**
   The suspended requests; which stored an access token and for which code, which of them
   the refresh token too; and how those ended: the pair was sent, or the code was gone by
   then, or something they awaited raised.
   */
  datatype Calls = Calls(waiting: map<nat, Call>, stored: map<nat, string>, paired: set<nat>,
                         sent: set<nat>, lost: set<nat>, broken: set<nat>, used: set<nat>)

  /** `clock` counts the steps taken. */
  datatype Flow = Flow(states: States, codes: Codes, calls: Calls, clock: nat)

  datatype Step =
    | Authorize(state: string, params: Params)
    | Callback(call: nat, state: string)
    | TokenArrived(call: nat, code: string)
    | TokenValidated(call: nat)
    | Exchange(call: nat, code: string)
    | AccessStored(call: nat)
    | RefreshStored(call: nat)
    | Counted(call: nat)
    | Raised(call: nat)

  const START := Flow(States(map[], multiset{}, multiset{}, multiset{}, {}, {}),
                      Codes(map[], map[], multiset{}, map[]), Calls(map[], map[], {}, {}, {}, {}, {}), 0)

  // ---- the steps --------------------------------------------------------

  function Stored(s: States, state: string, p: Params): States {
    s.(mapping := s.mapping[state := p],
       authorized := s.authorized + multiset{state},
       replaced := if state in s.mapping then s.replaced + multiset{state} else s.replaced,
       requests := s.requests + {Request(state, p)})
  }

  /** `del self.state_mapping[state]` decides whether a redirect is returned. */
  function Redirected(s: States, a: Answer): States {
    if a.state !in s.mapping then s
    else
      s.(mapping := s.mapping - {a.state}, redirected := s.redirected + multiset{a.state}, answers := s.answers + {a})
  }

  function TheAnswer(f: Flow, call: nat, c: Call): Answer
    requires c.AwaitingValidation?
  {
    var used := if c.state in f.states.mapping then f.states.mapping[c.state] else c.params;
    Answer(call, c.state, c.code, c.params, c.readAt, used, f.clock)
  }

  function Minted(c: Codes, code: string, p: Params): Codes {
    c.(live := c.live[code := p], minted := c.minted[code := p])
  }

  /** `del self.auth_codes[code]` decides whether the stored pair is returned. */
  function Spent(c: Codes, code: string, call: nat): Codes {
    if code !in c.live then c
    else c.(live := c.live - {code}, granted := c.granted + multiset{code}, spentBy := c.spentBy[code := call])
  }

  function Waits(c: Calls, call: nat, at: Call): Calls { c.(waiting := c.waiting[call := at]) }

  function Over(c: Calls, call: nat): Calls { c.(waiting := c.waiting - {call}) }

  function HalfStored(c: Calls, call: nat, code: string): Calls { c.(stored := c.stored[call := code]) }

  function Paired(c: Calls, call: nat): Calls { c.(paired := c.paired + {call}) }

  /** Something awaited raised; nothing already stored is undone. */
  function Broken(c: Calls, call: nat): Calls {
    if call in c.stored then Over(c, call).(broken := c.broken + {call}) else Over(c, call)
  }

  function Ended(c: Calls, call: nat, ok: bool): Calls {
    if ok then Over(c, call).(sent := c.sent + {call}) else Over(c, call).(lost := c.lost + {call})
  }

  /** A fresh request; the numbers of requests are never used again. */
  function Opened(c: Calls, call: nat): Calls { c.(used := c.used + {call}) }

  /** With a token database the exchange suspends three times, without one never. */
  function Starting(storage: bool, f: Flow, call: nat, code: string): Flow {
    if code !in f.codes.live then f.(calls := Opened(f.calls, call))
    else if storage then f.(calls := Waits(Opened(f.calls, call), call, StoringAccess(code)))
    else
      f.(codes := Spent(f.codes, code, call),
         calls := Ended(Paired(HalfStored(Opened(f.calls, call), call, code), call), call, true))
  }

  /** What a suspended request does when it goes on; a step that is not its turn does nothing. */
  function Resuming(f: Flow, s: Step, c: Call): Flow
    requires !s.Authorize?
  {
    match (s, c)
    case (TokenArrived(call, code), AwaitingToken(state, p, r)) =>
      // The code is stored before the token it stands for has been validated.
      f.(codes := Minted(f.codes, code, p), calls := Waits(f.calls, call, AwaitingValidation(state, p, r, code)))
    case (TokenValidated(call), AwaitingValidation(state, p, r, code)) =>
      f.(states := Redirected(f.states, TheAnswer(f, call, c)), calls := Over(f.calls, call))
    case (AccessStored(call), StoringAccess(code)) =>
      f.(calls := Waits(HalfStored(f.calls, call, code), call, StoringRefresh(code)))
    case (RefreshStored(call), StoringRefresh(code)) => f.(calls := Waits(Paired(f.calls, call), call, Counting(code)))
    case (Counted(call), Counting(code)) =>
      f.(codes := Spent(f.codes, code, call), calls := Ended(f.calls, call, code in f.codes.live))
    case (Raised(call), _) => f.(calls := Broken(f.calls, call))
    case _ => f
  }

  function Next(storage: bool, f: Flow, s: Step): Flow { Acting(storage, f, s).(clock := f.clock + 1) }

  function Acting(storage: bool, f: Flow, s: Step): Flow {
    match s
    case Authorize(state, p) => f.(states := Stored(f.states, state, p))
    case Callback(call, state) =>
      if state !in f.states.mapping then f.(calls := Opened(f.calls, call))
      else f.(calls := Waits(Opened(f.calls, call), call, AwaitingToken(state, f.states.mapping[state], f.clock)))
    case Exchange(call, code) => Starting(storage, f, call, code)
    case _ => if s.call in f.calls.waiting then Resuming(f, s, f.calls.waiting[s.call]) else f
  }

  /** Requests are distinct, and `secrets.token_hex` never repeats a code. */
  ghost predicate Fits(f: Flow, s: Step) {
    && (s.Callback? || s.Exchange? ==> s.call !in f.calls.used)
    && (s.TokenArrived? ==> s.code !in f.codes.minted)
  }

  function Played(storage: bool, steps: seq<Step>): Flow {
    if steps == [] then START
    else Next(storage, Played(storage, steps[..|steps| - 1]), steps[|steps| - 1])
  }

  ghost predicate Possible(storage: bool, steps: seq<Step>) {
    steps == [] ||
    (Possible(storage, steps[..|steps| - 1]) && Fits(Played(storage, steps[..|steps| - 1]), steps[|steps| - 1]))
  }

  // ---- what every step keeps --------------------------------------------

  /** Every stored state is waiting, was overwritten, or was used for one redirect. */
  ghost predicate StatesBalance(s: States) {
    s.authorized == s.replaced + s.redirected + multiset(s.mapping.Keys)
  }

  /** Every code is waiting or was used for one grant. */
  ghost predicate CodesBalance(c: Codes) {
    && multiset(c.minted.Keys) == c.granted + multiset(c.live.Keys)
    && (forall k :: k in c.live ==> k in c.minted && c.live[k] == c.minted[k])
    && (forall k :: k in c.spentBy <==> k in c.minted && k !in c.live)
  }

  ghost predicate Traced(f: Flow, c: Call) {
    match c
    case AwaitingToken(state, p, _) => Request(state, p) in f.states.requests
    case AwaitingValidation(state, p, _, code) =>
      Request(state, p) in f.states.requests && code in f.codes.minted && f.codes.minted[code] == p
    case _ => c.code in f.codes.minted
  }

  ghost predicate Provenance(f: Flow) {
    && (forall s :: s in f.states.mapping ==> Request(s, f.states.mapping[s]) in f.states.requests)
    && (forall i :: i in f.calls.waiting ==> Traced(f, f.calls.waiting[i]))
    && (forall a :: a in f.states.answers ==> AnswerTraced(f, a))
  }

  ghost predicate AnswerTraced(f: Flow, a: Answer) {
    Request(a.state, a.params) in f.states.requests && a.code in f.codes.minted && f.codes.minted[a.code] == a.params
  }

  ghost predicate Sound(f: Flow) { StatesBalance(f.states) && CodesBalance(f.codes) && Provenance(f) }

  lemma Put<K, V>(m: map<K, V>, k: K, v: V)
    ensures multiset(m[k := v].Keys) == if k in m then multiset(m.Keys) else multiset(m.Keys) + multiset{k}
  {}

  lemma StoredBalance(s: States, state: string, p: Params)
    requires StatesBalance(s)
    ensures StatesBalance(Stored(s, state, p))
  {}

  lemma RedirectedBalance(s: States, a: Answer)
    requires StatesBalance(s)
    ensures StatesBalance(Redirected(s, a))
  {}

  lemma MintedBalance(c: Codes, code: string, p: Params)
    requires CodesBalance(c) && code !in c.minted
    ensures CodesBalance(Minted(c, code, p))
  {
    Put(c.live, code, p);
    Put(c.minted, code, p);
  }

  lemma SpentBalance(c: Codes, code: string, call: nat)
    requires CodesBalance(c)
    ensures CodesBalance(Spent(c, code, call))
  {}

  lemma ResumingBalance(f: Flow, s: Step, c: Call)
    requires StatesBalance(f.states) && CodesBalance(f.codes) && Fits(f, s) && !s.Authorize?
    ensures StatesBalance(Resuming(f, s, c).states) && CodesBalance(Resuming(f, s, c).codes)
  {
    if s.TokenArrived? && c.AwaitingToken? {
      MintedBalance(f.codes, s.code, c.params);
    } else if s.TokenValidated? && c.AwaitingValidation? {
      RedirectedBalance(f.states, TheAnswer(f, s.call, c));
    } else if s.Counted? && c.Counting? {
      SpentBalance(f.codes, c.code, s.call);
    }
  }

  lemma BalanceStep(storage: bool, f: Flow, s: Step)
    requires StatesBalance(f.states) && CodesBalance(f.codes) && Fits(f, s)
    ensures StatesBalance(Next(storage, f, s).states) && CodesBalance(Next(storage, f, s).codes)
  {
    match s
    case Authorize(state, p) => StoredBalance(f.states, state, p);
    case Exchange(call, code) => SpentBalance(f.codes, code, call);
    case Callback(_, _) =>
    case _ =>
      if s.call in f.calls.waiting {
        ResumingBalance(f, s, f.calls.waiting[s.call]);
      }
  }

  /** Requests and minted codes are never forgotten, so a traced call stays traced. */
  lemma StaysTraced(f: Flow, g: Flow, c: Call)
    requires Traced(f, c) && f.states.requests <= g.states.requests
    requires forall k :: k in f.codes.minted ==> k in g.codes.minted && g.codes.minted[k] == f.codes.minted[k]
    ensures Traced(g, c)
  {}

  lemma ResumingTraced(f: Flow, s: Step)
    requires Provenance(f) && CodesBalance(f.codes) && Fits(f, s)
    requires !s.Authorize? && !s.Callback? && !s.Exchange? && s.call in f.calls.waiting
    ensures Provenance(Resuming(f, s, f.calls.waiting[s.call]))
  {
    var c := f.calls.waiting[s.call];
    var g := Resuming(f, s, c);
    assert Traced(f, c);
    ResumingRemembers(f, s, c);
    forall i | i in g.calls.waiting ensures Traced(g, g.calls.waiting[i]) {
      if i != s.call {
        StaysTraced(f, g, f.calls.waiting[i]);
      }
    }
    forall a | a in g.states.answers ensures AnswerTraced(g, a) {
      if a in f.states.answers {
        assert AnswerTraced(f, a);
      } else {
        assert a == TheAnswer(f, s.call, c);
      }
    }
  }

  lemma ResumingRemembers(f: Flow, s: Step, c: Call)
    requires CodesBalance(f.codes) && Fits(f, s) && !s.Authorize?
    ensures var g := Resuming(f, s, c);
            && g.states.requests == f.states.requests && g.states.mapping.Keys <= f.states.mapping.Keys
            && (forall t :: t in g.states.mapping ==> g.states.mapping[t] == f.states.mapping[t])
            && (forall k :: k in f.codes.minted ==> k in g.codes.minted && g.codes.minted[k] == f.codes.minted[k])
            && (g.states.answers == f.states.answers ||
                (s.TokenValidated? && c.AwaitingValidation? &&
                 g.states.answers == f.states.answers + {TheAnswer(f, s.call, c)}))
  {}

  lemma OpeningTraced(storage: bool, f: Flow, s: Step)
    requires Provenance(f) && CodesBalance(f.codes)
    requires s.Authorize? || s.Callback? || s.Exchange?
    ensures Provenance(Next(storage, f, s))
  {
    var g := Next(storage, f, s);
    forall i | i in g.calls.waiting ensures Traced(g, g.calls.waiting[i]) {
      if i in f.calls.waiting && g.calls.waiting[i] == f.calls.waiting[i] {
        StaysTraced(f, g, f.calls.waiting[i]);
      }
    }
    forall a | a in g.states.answers ensures AnswerTraced(g, a) {
      assert AnswerTraced(f, a);
    }
  }

  lemma ProvenanceStep(storage: bool, f: Flow, s: Step)
    requires Provenance(f) && CodesBalance(f.codes) && Fits(f, s)
    ensures Provenance(Next(storage, f, s))
  {
    if s.Authorize? || s.Callback? || s.Exchange? {
      OpeningTraced(storage, f, s);
    } else if s.call in f.calls.waiting {
      ResumingTraced(f, s);
    }
  }

  lemma {:induction false} AlwaysSound(storage: bool, steps: seq<Step>)
    requires Possible(storage, steps)
    ensures Sound(Played(storage, steps))
  {
    if steps != [] {
      var f, s := Played(storage, steps[..|steps| - 1]), steps[|steps| - 1];
      AlwaysSound(storage, steps[..|steps| - 1]);
      BalanceStep(storage, f, s);
      ProvenanceStep(storage, f, s);
    }
  }

  // ---- at most one success ----------------------------------------------

  /**
   In every interleaving the redirects returned for a state are exactly the authorize calls
   that stored it, less those overwritten before use and the one still waiting.
   */
  lemma {:induction false} RedirectsWithinAuthorizes(storage: bool, steps: seq<Step>, state: string)
    requires Possible(storage, steps)
    ensures var s := Played(storage, steps).states;
            && s.redirected[state] <= s.authorized[state]
            && s.authorized[state] == s.redirected[state] + s.replaced[state] + if state in s.mapping then 1 else 0
  {
    AlwaysSound(storage, steps);
  }

  /** In every interleaving one exchange per code returns tokens, and the code is then gone. */
  lemma OneGrantPerCode(storage: bool, steps: seq<Step>, code: string)
    requires Possible(storage, steps)
    ensures var c := Played(storage, steps).codes;
            && c.granted[code] <= 1
            && (c.granted[code] == 1 <==> code in c.minted && code !in c.live)
  {
    AlwaysSound(storage, steps);
    var c := Played(storage, steps).codes;
    assert multiset(c.minted.Keys)[code] == c.granted[code] + multiset(c.live.Keys)[code];
  }

  /** A redirect carries the parameters of a request for its state, and so does its code. */
  lemma AnswersMatchRequests(storage: bool, steps: seq<Step>, a: Answer)
    requires Possible(storage, steps) && a in Played(storage, steps).states.answers
    ensures var f := Played(storage, steps);
            && Request(a.state, a.params) in f.states.requests
            && a.code in f.codes.minted && f.codes.minted[a.code] == a.params
            && (a.code in f.codes.live ==> f.codes.live[a.code] == a.params)
  {
    AlwaysSound(storage, steps);
    assert AnswerTraced(Played(storage, steps), a);
  }

  // ---- the entry a callback uses up -------------------------------------

  /** The parameters of the last authorize call for the state. */
  function LastParams(steps: seq<Step>, state: string): Option<Params> {
    if steps == [] then None
    else
      var s := steps[|steps| - 1];
      if s.Authorize? && s.state == state then Some(s.params) else LastParams(steps[..|steps| - 1], state)
  }

  lemma {:induction false} LastOfTwo(a: seq<Step>, b: seq<Step>, state: string)
    ensures LastParams(a + b, state) == if LastParams(b, state).Some? then LastParams(b, state) else LastParams(a, state)
  {
    if b == [] {
      assert a + b == a;
    } else {
      assert (a + b)[..|a + b| - 1] == a + b[..|b| - 1];
      LastOfTwo(a, b[..|b| - 1], state);
    }
  }

  lemma {:induction false} LastIsOne(steps: seq<Step>, state: string)
    ensures match LastParams(steps, state)
            case None => forall k :: 0 <= k < |steps| && steps[k].Authorize? ==> steps[k].state != state
            case Some(p) => exists k :: 0 <= k < |steps| && steps[k] == Authorize(state, p)
  {
    if steps != [] {
      LastIsOne(steps[..|steps| - 1], state);
    }
  }

  /** The step at r is this call's read of the state, and it found p. */
  ghost predicate ReadRight(steps: seq<Step>, r: nat, call: nat, state: string, p: Params) {
    r < |steps| && steps[r] == Callback(call, state) && LastParams(steps[..r], state) == Some(p)
  }

  ghost predicate CallRight(steps: seq<Step>, call: nat, c: Call) {
    c.AwaitingToken? || c.AwaitingValidation? ==> ReadRight(steps, c.readAt, call, c.state, c.params)
  }

  ghost predicate AnswerRight(steps: seq<Step>, a: Answer) {
    && ReadRight(steps, a.readAt, a.call, a.state, a.params)
    && a.readAt < a.usedAt < |steps| && steps[a.usedAt] == TokenValidated(a.call)
    && LastParams(steps[..a.usedAt], a.state) == Some(a.used)
  }

  ghost predicate ReadsRight(steps: seq<Step>, f: Flow) {
    && f.clock == |steps|
    && (forall s :: s in f.states.mapping ==> LastParams(steps, s) == Some(f.states.mapping[s]))
    && (forall i :: i in f.calls.waiting ==> CallRight(steps, i, f.calls.waiting[i]))
    && (forall a :: a in f.states.answers ==> AnswerRight(steps, a))
  }

  lemma ReadGrows(steps: seq<Step>, s: Step, r: nat, call: nat, state: string, p: Params)
    requires ReadRight(steps, r, call, state, p)
    ensures ReadRight(steps + [s], r, call, state, p)
  {
    assert (steps + [s])[..r] == steps[..r];
  }

  lemma AnswerGrows(steps: seq<Step>, s: Step, a: Answer)
    requires AnswerRight(steps, a)
    ensures AnswerRight(steps + [s], a)
  {
    ReadGrows(steps, s, a.readAt, a.call, a.state, a.params);
    assert (steps + [s])[..a.usedAt] == steps[..a.usedAt];
  }

  /** What was read and used before stays so. */
  lemma ReadsGrow(steps: seq<Step>, s: Step, f: Flow)
    requires ReadsRight(steps, f)
    ensures forall i :: i in f.calls.waiting ==> CallRight(steps + [s], i, f.calls.waiting[i])
    ensures forall a :: a in f.states.answers ==> AnswerRight(steps + [s], a)
    ensures !s.Authorize? ==> forall t :: LastParams(steps + [s], t) == LastParams(steps, t)
  {
    assert (steps + [s])[..|steps|] == steps;
    forall i | i in f.calls.waiting ensures CallRight(steps + [s], i, f.calls.waiting[i]) {
      var c := f.calls.waiting[i];
      assert CallRight(steps, i, c);
      if c.AwaitingToken? || c.AwaitingValidation? {
        ReadGrows(steps, s, c.readAt, i, c.state, c.params);
      }
    }
    forall a | a in f.states.answers ensures AnswerRight(steps + [s], a) {
      AnswerGrows(steps, s, a);
    }
  }

  lemma AuthorizeReads(steps: seq<Step>, f: Flow, state: string, p: Params, g: Flow)
    requires ReadsRight(steps, f) && g == f.(states := Stored(f.states, state, p), clock := f.clock + 1)
    ensures ReadsRight(steps + [Authorize(state, p)], g)
  {
    ReadsGrow(steps, Authorize(state, p), f);
    var more := steps + [Authorize(state, p)];
    assert more[..|steps|] == steps;
  }

  lemma CallbackReads(storage: bool, steps: seq<Step>, f: Flow, call: nat, state: string)
    requires ReadsRight(steps, f)
    ensures ReadsRight(steps + [Callback(call, state)], Next(storage, f, Callback(call, state)))
  {
    ReadsGrow(steps, Callback(call, state), f);
    var more := steps + [Callback(call, state)];
    assert more[..|steps|] == steps;
  }

  /** Steps that leave the states alone and make no call wait for a token. */
  lemma OtherReads(steps: seq<Step>, f: Flow, s: Step, g: Flow)
    requires ReadsRight(steps, f) && !s.Authorize? && g.states == f.states && g.clock == f.clock + 1
    requires forall i :: i in g.calls.waiting && !InExchange(g.calls.waiting[i]) ==>
               && i in f.calls.waiting && !InExchange(f.calls.waiting[i])
               && g.calls.waiting[i].readAt == f.calls.waiting[i].readAt
               && g.calls.waiting[i].state == f.calls.waiting[i].state
               && g.calls.waiting[i].params == f.calls.waiting[i].params
    ensures ReadsRight(steps + [s], g)
  {
    ReadsGrow(steps, s, f);
    forall i | i in g.calls.waiting ensures CallRight(steps + [s], i, g.calls.waiting[i]) {
      if !InExchange(g.calls.waiting[i]) {
        assert CallRight(steps + [s], i, f.calls.waiting[i]);
      }
    }
  }

  lemma ValidatedReads(steps: seq<Step>, f: Flow, call: nat, c: Call, g: Flow)
    requires ReadsRight(steps, f) && call in f.calls.waiting && f.calls.waiting[call] == c && c.AwaitingValidation?
    requires g == Resuming(f, TokenValidated(call), c).(clock := f.clock + 1)
    ensures ReadsRight(steps + [TokenValidated(call)], g)
  {
    var more := steps + [TokenValidated(call)];
    ReadsGrow(steps, TokenValidated(call), f);
    assert CallRight(more, call, c);
    assert more[..|steps|] == steps;
    forall a | a in g.states.answers ensures AnswerRight(more, a) {
      if a !in f.states.answers {
        assert CallRight(steps, call, c);
        assert a == Answer(call, c.state, c.code, c.params, c.readAt, f.states.mapping[c.state], |steps|);
      }
    }
  }

  lemma ReadsStep(storage: bool, steps: seq<Step>, f: Flow, s: Step)
    requires ReadsRight(steps, f)
    ensures ReadsRight(steps + [s], Next(storage, f, s))
  {
    var g := Next(storage, f, s);
    if s.Authorize? {
      AuthorizeReads(steps, f, s.state, s.params, g);
    } else if s.Callback? {
      CallbackReads(storage, steps, f, s.call, s.state);
    } else if s.TokenValidated? && s.call in f.calls.waiting && f.calls.waiting[s.call].AwaitingValidation? {
      ValidatedReads(steps, f, s.call, f.calls.waiting[s.call], g);
    } else {
      OtherReads(steps, f, s, g);
    }
  }

  lemma {:induction false} AlwaysReadsRight(storage: bool, steps: seq<Step>)
    ensures ReadsRight(steps, Played(storage, steps))
  {
    if steps != [] {
      var earlier, s := steps[..|steps| - 1], steps[|steps| - 1];
      AlwaysReadsRight(storage, earlier);
      ReadsStep(storage, earlier, Played(storage, earlier), s);
      assert earlier + [s] == steps;
    }
  }

  /** The authorize calls for a state between two moments of a run leave its parameters alone. */
  ghost predicate LeftAlone(steps: seq<Step>, from: nat, to: nat, state: string, p: Params)
    requires from <= to <= |steps|
  {
    var last := LastParams(steps[from..to], state);
    last.None? || last.value == p
  }

  /**
   A callback uses up the entry it answers with if and only if the last authorize call for
   its state between its read and its `del`, if there was one, brought the same parameters.
   */
  lemma {:induction false} UsesItsOwnEntry(storage: bool, steps: seq<Step>, a: Answer)
    requires a in Played(storage, steps).states.answers
    ensures a.readAt < a.usedAt < |steps|
    ensures steps[a.readAt] == Callback(a.call, a.state) && steps[a.usedAt] == TokenValidated(a.call)
    ensures a.used == a.params <==> LeftAlone(steps, a.readAt, a.usedAt, a.state, a.params)
  {
    AlwaysReadsRight(storage, steps);
    assert AnswerRight(steps, a);
    LastOfTwo(steps[..a.readAt], steps[a.readAt..a.usedAt], a.state);
    assert steps[..a.readAt] + steps[a.readAt..a.usedAt] == steps[..a.usedAt];
  }

  /** So it does whenever no authorize call for its state brought other parameters meanwhile. */
  lemma UndisturbedUsesItsOwn(storage: bool, steps: seq<Step>, a: Answer)
    requires a in Played(storage, steps).states.answers
    requires forall k, p :: a.readAt < k < a.usedAt && k < |steps| && steps[k] == Authorize(a.state, p) ==> p == a.params
    ensures a.used == a.params
  {
    UsesItsOwnEntry(storage, steps, a);
    var between := steps[a.readAt..a.usedAt];
    LastIsOne(between, a.state);
    var last := LastParams(between, a.state);
    if last.Some? {
      var k :| 0 <= k < |between| && between[k] == Authorize(a.state, last.value);
      assert steps[a.readAt + k] == Authorize(a.state, last.value);
    }
  }

  /** The other case from any state: the second entry is used up and the first one answered with. */
  lemma StaleCallbackTakesNewerState(storage: bool, f: Flow, state: string, p: Params, p': Params, i: nat, code: string)
    ensures var f1 := Next(storage, Next(storage, f, Authorize(state, p)), Callback(i, state));
            var f2 := Next(storage, Next(storage, f1, Authorize(state, p')), TokenArrived(i, code));
            var f3 := Next(storage, f2, TokenValidated(i));
            && f2.states.mapping[state] == p' && state !in f3.states.mapping
            && f3.states.answers == f.states.answers + {Answer(i, state, code, p, f.clock + 1, p', f.clock + 4)}
  {
    var f1 := Next(storage, Next(storage, f, Authorize(state, p)), Callback(i, state));
    assert f1.calls.waiting[i] == AwaitingToken(state, p, f.clock + 1);
    var f2 := Next(storage, Next(storage, f1, Authorize(state, p')), TokenArrived(i, code));
    assert f2.calls.waiting[i] == AwaitingValidation(state, p, f.clock + 1, code);
  }
}
