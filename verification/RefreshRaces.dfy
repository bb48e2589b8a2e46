/**
 Refreshing with a token database (mcp_auth/taskmanager_oauth_provider.py and
 handle_refresh_token_exchange in auth_server.py). Unlike the in-memory branch it suspends
 at every statement, and it loads the token twice: once to check it, once for its resource.
 */
module RefreshRaces {
  import opened Basics

  /** What the user granted. */
  datatype Root = Root(scopes: set<string>, resource: Option<string>)

  /** A stored token of either kind; `late` records a resource looked up for a token already gone. */
  datatype Row = Row(grant: nat, scopes: set<string>, resource: Option<string>, late: bool)

  /** A suspended refresh of `token`, named by the statement it has completed. */
  datatype Call =
    | Loaded(token: string, row: Row, wanted: set<string>)
    | LookedUp(token: string, row: Row)
    | AccessStored(token: string, row: Row)
    | RefreshStored(token: string, row: Row)

  /** The grants, the two token tables, every refresh token ever issued, and the suspended calls. */
  datatype Store = Store(grants: seq<Root>, access: map<string, Row>, live: map<string, Row>, births: map<string, nat>,
                         calls: map<nat, Call>)

  datatype Step =
    | NewGrant(root: Root, accessToken: string, token: string)
    | Remove(token: string)
    | RemoveAccess(accessToken: string)
    | Load(call: nat, token: string, wanted: set<string>)
    | LookUpResource(call: nat)
    | StoreAccess(call: nat, accessToken: string)
    | StoreRefresh(call: nat, token: string)
    | DeleteOld(call: nat)
    | Raise(call: nat)

  const EMPTY := Store([], map[], map[], map[], map[])

  // ---- the statements ---------------------------------------------------

  /** The row a refresh will store; no requested scopes means all of them. */
  function Narrowed(s: Store, c: Call): Row
    requires c.Loaded?
  {
    var gone := c.token !in s.live;
    Row(c.row.grant, if c.wanted == {} then c.row.scopes else c.wanted,
        if gone then None else s.live[c.token].resource, c.row.late || gone)
  }

  function Moved(s: Store, call: nat, c: Call): Store { s.(calls := s.calls[call := c]) }

  function Ended(s: Store, call: nat): Store { s.(calls := s.calls - {call}) }

  function Issued(s: Store, token: string, row: Row): Store {
    s.(live := s.live[token := row], births := s.births[token := row.grant])
  }

  /** What a suspended refresh does at its next statement; a step that is not its turn does nothing. */
  function Resumed(s: Store, st: Step, call: nat, c: Call): Store {
    if st.Raise? then Ended(s, call)
    else
      match c
      case Loaded(token, row, wanted) =>
        if !st.LookUpResource? then s
        else if !(wanted <= row.scopes) then Ended(s, call)
        else Moved(s, call, LookedUp(token, Narrowed(s, c)))
      case LookedUp(token, row) =>
        if !st.StoreAccess? then s
        else Moved(s.(access := s.access[st.accessToken := row]), call, AccessStored(token, row))
      case AccessStored(token, row) =>
        if !st.StoreRefresh? then s else Moved(Issued(s, st.token, row), call, RefreshStored(token, row))
      case RefreshStored(token, _) =>
        if !st.DeleteOld? then s else Ended(s.(live := s.live - {token}), call)
  }

  /** A token is removed when it has expired, at a load or in a cleanup. */
  function Next(s: Store, st: Step): Store {
    match st
    case NewGrant(root, a, token) =>
      var row := Row(|s.grants|, root.scopes, root.resource, false);
      Issued(s.(grants := s.grants + [root], access := s.access[a := row]), token, row)
    case Remove(token) => s.(live := s.live - {token})
    case RemoveAccess(a) => s.(access := s.access - {a})
    case Load(call, token, wanted) =>
      if token !in s.live then s else Moved(s, call, Loaded(token, s.live[token], wanted))
    case _ => if st.call in s.calls then Resumed(s, st, st.call, s.calls[st.call]) else s
  }

  /** Generated tokens and calls are new. */
  ghost predicate Fits(s: Store, st: Step) {
    && (st.NewGrant? || st.StoreRefresh? ==> st.token !in s.births)
    && (st.Load? ==> st.call !in s.calls)
  }

  function Played(steps: seq<Step>): Store {
    if steps == [] then EMPTY else Next(Played(steps[..|steps| - 1]), steps[|steps| - 1])
  }

  ghost predicate Possible(steps: seq<Step>) {
    steps == [] || (Possible(steps[..|steps| - 1]) && Fits(Played(steps[..|steps| - 1]), steps[|steps| - 1]))
  }

  // ---- what holds in every interleaving ---------------------------------

  /** Scopes stay within the grant; the resource is the grant's, or none after a late look-up. */
  ghost predicate RowSound(s: Store, row: Row) {
    && row.grant < |s.grants| && row.scopes <= s.grants[row.grant].scopes
    && row.resource == if row.late then None else s.grants[row.grant].resource
  }

  ghost predicate LiveSound(s: Store, t: string)
    requires t in s.live
  {
    RowSound(s, s.live[t]) && t in s.births && s.births[t] == s.live[t].grant
  }

  ghost predicate CallSound(s: Store, c: Call) {
    && RowSound(s, c.row) && c.token in s.births && s.births[c.token] == c.row.grant
    && (c.Loaded? && c.token in s.live ==> s.live[c.token] == c.row)
  }

  ghost predicate Sound(s: Store) {
    && (forall a :: a in s.access ==> RowSound(s, s.access[a]))
    && (forall t :: t in s.live ==> LiveSound(s, t))
    && (forall i :: i in s.calls ==> CallSound(s, s.calls[i]))
  }

  lemma NewGrantSound(s: Store, st: Step)
    requires Sound(s) && st.NewGrant? && Fits(s, st)
    ensures Sound(Next(s, st))
  {
    var s' := Next(s, st);
    forall row | RowSound(s, row) ensures RowSound(s', row) {
      assert s'.grants[row.grant] == s.grants[row.grant];
    }
    forall t | t in s'.live ensures LiveSound(s', t) {
      assert t != st.token ==> LiveSound(s, t);
    }
    forall i | i in s'.calls ensures CallSound(s', s'.calls[i]) {
      assert CallSound(s, s.calls[i]);
    }
  }

  /** The call moves on or ends, perhaps after storing an access token. */
  lemma MovesSound(s: Store, s': Store, call: nat, c: Call)
    requires Sound(s) && CallSound(s, c) && s'.grants == s.grants && s'.live == s.live && s'.births == s.births
    requires forall a :: a in s'.access ==> (a in s.access && s'.access[a] == s.access[a]) || s'.access[a] == c.row
    requires s'.calls == s.calls[call := c] || s'.calls == s.calls - {call}
    ensures Sound(s')
  {
    forall t | t in s'.live ensures LiveSound(s', t) {
      assert LiveSound(s, t);
    }
    forall i | i in s'.calls ensures CallSound(s', s'.calls[i]) {
      assert i != call ==> CallSound(s, s.calls[i]);
    }
  }

  lemma IssuedSound(s: Store, token: string, row: Row)
    requires Sound(s) && RowSound(s, row) && token !in s.births
    ensures Sound(Issued(s, token, row))
  {
    var s' := Issued(s, token, row);
    forall t | t in s'.live ensures LiveSound(s', t) {
      assert t != token ==> LiveSound(s, t);
    }
    forall i | i in s'.calls ensures CallSound(s', s'.calls[i]) {
      assert CallSound(s, s.calls[i]);
    }
  }

  lemma RemovedSound(s: Store, token: string)
    requires Sound(s)
    ensures Sound(s.(live := s.live - {token}))
  {
    var s' := s.(live := s.live - {token});
    forall t | t in s'.live ensures LiveSound(s', t) {
      assert LiveSound(s, t);
    }
    forall i | i in s'.calls ensures CallSound(s', s'.calls[i]) {
      assert CallSound(s, s.calls[i]);
    }
  }

  lemma NarrowedSound(s: Store, c: Call)
    requires Sound(s) && CallSound(s, c) && c.Loaded? && c.wanted <= c.row.scopes
    ensures CallSound(s, LookedUp(c.token, Narrowed(s, c)))
  {}

  lemma ResumedSound(s: Store, st: Step, call: nat, c: Call)
    requires Sound(s) && call in s.calls && s.calls[call] == c && (st.StoreRefresh? ==> st.token !in s.births)
    ensures Sound(Resumed(s, st, call, c))
  {
    var s' := Resumed(s, st, call, c);
    assert CallSound(s, c);
    if st.Raise? {
      MovesSound(s, s', call, c);
    } else if c.Loaded? && st.LookUpResource? {
      if c.wanted <= c.row.scopes {
        NarrowedSound(s, c);
        MovesSound(s, s', call, LookedUp(c.token, Narrowed(s, c)));
      } else {
        MovesSound(s, s', call, c);
      }
    } else if c.LookedUp? && st.StoreAccess? {
      MovesSound(s, s', call, AccessStored(c.token, c.row));
    } else if c.AccessStored? && st.StoreRefresh? {
      IssuedSound(s, st.token, c.row);
      MovesSound(Issued(s, st.token, c.row), s', call, RefreshStored(c.token, c.row));
    } else if c.RefreshStored? && st.DeleteOld? {
      RemovedSound(s, c.token);
      MovesSound(s.(live := s.live - {c.token}), s', call, c);
    }
  }

  lemma LoadSound(s: Store, call: nat, token: string, wanted: set<string>)
    requires Sound(s) && token in s.live
    ensures Sound(Moved(s, call, Loaded(token, s.live[token], wanted)))
  {
    assert LiveSound(s, token);
    MovesSound(s, Moved(s, call, Loaded(token, s.live[token], wanted)), call, Loaded(token, s.live[token], wanted));
  }

  lemma FewerAccess(s: Store, a: string)
    requires Sound(s)
    ensures Sound(s.(access := s.access - {a}))
  {
    var s' := s.(access := s.access - {a});
    forall t | t in s'.live ensures LiveSound(s', t) {
      assert LiveSound(s, t);
    }
    forall i | i in s'.calls ensures CallSound(s', s'.calls[i]) {
      assert CallSound(s, s.calls[i]);
    }
  }

  lemma StepSound(s: Store, st: Step)
    requires Sound(s) && Fits(s, st)
    ensures Sound(Next(s, st))
  {
    match st
    case NewGrant(_, _, _) => NewGrantSound(s, st);
    case Remove(token) => RemovedSound(s, token);
    case RemoveAccess(a) => FewerAccess(s, a);
    case Load(call, token, wanted) =>
      if token in s.live {
        LoadSound(s, call, token, wanted);
      }
    case _ =>
      if st.call in s.calls {
        ResumedSound(s, st, st.call, s.calls[st.call]);
      }
  }

  lemma {:induction false} AlwaysSound(steps: seq<Step>)
    requires Possible(steps)
    ensures Sound(Played(steps))
  {
    if steps != [] {
      AlwaysSound(steps[..|steps| - 1]);
      StepSound(Played(steps[..|steps| - 1]), steps[|steps| - 1]);
    }
  }

  /**
   In every interleaving a stored token of either kind has no scope outside its grant, and
   it has its grant's resource exactly if no refresh it descends from looked the resource
   up after its token was gone, or there was none to lose.
   */
  lemma ScopesHoldResourcesMayNot(steps: seq<Step>, row: Row)
    requires Possible(steps) && row in Played(steps).live.Values + Played(steps).access.Values
    ensures var s := Played(steps);
            && row.grant < |s.grants| && row.scopes <= s.grants[row.grant].scopes
            && (row.resource == s.grants[row.grant].resource <==> !row.late || s.grants[row.grant].resource.None?)
            && (row.late ==> row.resource.None?)
  {
    AlwaysSound(steps);
  }

  // ---- refreshes of a token that take turns -----------------------------

  /** No refresh of a token starts during another one of it. */
  ghost predicate TakeTurns(s: Store, st: Step) {
    st.Load? ==> forall i :: i in s.calls ==> s.calls[i].token != st.token
  }

  ghost predicate InTurn(steps: seq<Step>) {
    steps == [] || (InTurn(steps[..|steps| - 1]) && TakeTurns(Played(steps[..|steps| - 1]), steps[|steps| - 1]))
  }

  ghost predicate Apart(s: Store) {
    forall i, j :: i in s.calls && j in s.calls && i != j ==> s.calls[i].token != s.calls[j].token
  }

  /** A refresh keeps its token, so the tokens of the calls stay apart. */
  lemma ResumedApart(s: Store, st: Step, call: nat, c: Call)
    requires Apart(s) && call in s.calls && s.calls[call] == c
    ensures Apart(Resumed(s, st, call, c))
  {}

  lemma StepApart(s: Store, st: Step)
    requires Apart(s) && TakeTurns(s, st)
    ensures Apart(Next(s, st))
  {
    match st
    case NewGrant(_, _, _) =>
    case Remove(_) =>
    case RemoveAccess(_) =>
    case Load(_, _, _) =>
    case _ =>
      if st.call in s.calls {
        ResumedApart(s, st, st.call, s.calls[st.call]);
      }
  }

  lemma {:induction false} AlwaysApart(steps: seq<Step>)
    requires InTurn(steps)
    ensures Apart(Played(steps))
  {
    if steps != [] {
      AlwaysApart(steps[..|steps| - 1]);
      StepApart(Played(steps[..|steps| - 1]), steps[|steps| - 1]);
    }
  }

  // ---- rotation, when they also delete what they replace ----------------

  /** No refresh breaks off between storing its new token and deleting the old one. */
  ghost predicate DeletesToo(s: Store, st: Step) {
    st.Raise? && st.call in s.calls ==> !s.calls[st.call].RefreshStored?
  }

  ghost predicate CarriedThrough(steps: seq<Step>) {
    steps == [] ||
    (CarriedThrough(steps[..|steps| - 1]) && DeletesToo(Played(steps[..|steps| - 1]), steps[|steps| - 1]))
  }

  /** The token is stored and about to be deleted by the refresh that replaced it. */
  ghost predicate Replaced(s: Store, token: string) {
    exists i :: i in s.calls && s.calls[i].RefreshStored? && s.calls[i].token == token
  }

  ghost predicate InUse(s: Store, token: string) {
    exists i :: i in s.calls && !s.calls[i].RefreshStored? && s.calls[i].token == token
  }

  /** The token stands for its grant: stored and not replaced, or being refreshed. */
  ghost predicate Stands(s: Store, token: string) {
    token in s.births && ((token in s.live && !Replaced(s, token)) || InUse(s, token))
  }

  ghost predicate OnePerGrant(s: Store) {
    forall t, u :: Stands(s, t) && Stands(s, u) && s.births[t] == s.births[u] ==> t == u
  }

  ghost predicate Rotating(s: Store) { Sound(s) && OnePerGrant(s) && Apart(s) }

  /** A state in which fewer tokens stand, for the same grants, still has one per grant. */
  lemma FewerStand(s: Store, s': Store)
    requires OnePerGrant(s)
    requires forall t :: Stands(s', t) ==> Stands(s, t) && s'.births[t] == s.births[t]
    ensures OnePerGrant(s')
  {}

  /** So does one in which a new token stands in the place of another one. */
  lemma Replacing(s: Store, s': Store, prior: string, next: string)
    requires OnePerGrant(s) && Stands(s, prior) && !Stands(s', prior)
    requires next in s'.births && s'.births[next] == s.births[prior]
    requires forall t :: Stands(s', t) && t != next ==> Stands(s, t) && s'.births[t] == s.births[t]
    ensures OnePerGrant(s')
  {}

  lemma NewGrantRotates(s: Store, st: Step)
    requires Rotating(s) && st.NewGrant? && Fits(s, st)
    ensures OnePerGrant(Next(s, st))
  {
    var s' := Next(s, st);
    forall t | Stands(s', t) && t != st.token ensures Stands(s, t) && s'.births[t] == s.births[t] < |s.grants| {
      BornBefore(s, s', t);
    }
  }

  /** With the same calls and one new token, every other standing token stood before. */
  lemma BornBefore(s: Store, s': Store, t: string)
    requires Sound(s) && Stands(s', t) && s'.calls == s.calls && t in s.births
    requires t in s'.live ==> t in s.live
    ensures Stands(s, t) && s.births[t] < |s.grants|
  {}

  lemma LoadRotates(s: Store, st: Step)
    requires Rotating(s) && st.Load? && Fits(s, st) && TakeTurns(s, st) && st.token in s.live
    ensures OnePerGrant(Next(s, st))
  {
    var s' := Next(s, st);
    forall t | Stands(s', t) ensures Stands(s, t) {
      if t == st.token {
        assert !Replaced(s, t);
      } else {
        OthersUnmoved(s, s', st.call, t);
      }
    }
    FewerStand(s, s');
  }

  /** A step of one call, on one token, leaves every other token standing as it was. */
  lemma OthersUnmoved(s: Store, s': Store, call: nat, t: string)
    requires forall i :: i != call ==> (i in s.calls <==> i in s'.calls) && (i in s.calls ==> s'.calls[i] == s.calls[i])
    requires call in s.calls ==> s.calls[call].token != t
    requires call in s'.calls ==> s'.calls[call].token != t
    requires (t in s'.births <==> t in s.births) && (t in s'.live <==> t in s.live)
    ensures Stands(s', t) <==> Stands(s, t)
  {}

  /** s' is s after a step of this call alone, on its own token. */
  ghost predicate OwnStep(s: Store, s': Store, call: nat) {
    && call in s.calls && (call in s'.calls ==> s'.calls[call].token == s.calls[call].token)
    && (forall i :: i != call ==> (i in s.calls <==> i in s'.calls) && (i in s.calls ==> s'.calls[i] == s.calls[i]))
  }

  /** A refresh that has not stored its new token yet moves on or breaks off. */
  lemma EarlyRotates(s: Store, s': Store, call: nat)
    requires Rotating(s) && OwnStep(s, s', call) && !s.calls[call].RefreshStored?
    requires s'.live == s.live && s'.births == s.births
    requires call in s'.calls ==> !s'.calls[call].RefreshStored?
    ensures OnePerGrant(s')
  {
    var token := s.calls[call].token;
    assert CallSound(s, s.calls[call]) && InUse(s, token);
    forall t | Stands(s', t) ensures Stands(s, t) {
      if t != token {
        OthersUnmoved(s, s', call, t);
      }
    }
    FewerStand(s, s');
  }

  lemma StoreRotates(s: Store, s': Store, call: nat, c: Call, next: string)
    requires Rotating(s) && call in s.calls && s.calls[call] == c && c.AccessStored? && next !in s.births
    requires s' == Moved(Issued(s, next, c.row), call, RefreshStored(c.token, c.row))
    ensures OnePerGrant(s')
  {
    assert CallSound(s, c) && InUse(s, c.token);
    assert s'.calls[call] == RefreshStored(c.token, c.row);
    assert Replaced(s', c.token);
    assert !InUse(s', c.token);
    forall t | Stands(s', t) && t != next ensures Stands(s, t) && s'.births[t] == s.births[t] {
      OthersUnmoved(s, s', call, t);
    }
    Replacing(s, s', c.token, next);
  }

  lemma DeleteRotates(s: Store, s': Store, call: nat)
    requires Rotating(s) && OwnStep(s, s', call) && call !in s'.calls
    requires s'.live == s.live - {s.calls[call].token} && s'.births == s.births
    ensures OnePerGrant(s')
  {
    NoLongerInUse(s, s', call);
    forall t | Stands(s', t) ensures Stands(s, t) {
      OthersUnmoved(s, s', call, t);
    }
    FewerStand(s, s');
  }

  lemma NoLongerInUse(s: Store, s': Store, call: nat)
    requires Apart(s) && OwnStep(s, s', call) && call !in s'.calls
    ensures !InUse(s', s.calls[call].token)
  {}

  lemma ResumedRotates(s: Store, st: Step, call: nat, c: Call)
    requires Rotating(s) && call in s.calls && s.calls[call] == c && (st.StoreRefresh? ==> st.token !in s.births)
    requires st.Raise? ==> !c.RefreshStored?
    ensures OnePerGrant(Resumed(s, st, call, c))
  {
    var s' := Resumed(s, st, call, c);
    ResumedOwn(s, st, call, c);
    if c.RefreshStored? && st.DeleteOld? {
      DeleteRotates(s, s', call);
    } else if c.AccessStored? && st.StoreRefresh? {
      StoreRotates(s, s', call, c, st.token);
    } else if !c.RefreshStored? {
      ResumedEarly(s, st, call, c);
      EarlyRotates(s, s', call);
    }
  }

  lemma ResumedEarly(s: Store, st: Step, call: nat, c: Call)
    requires call in s.calls && s.calls[call] == c && !c.RefreshStored? && !(c.AccessStored? && st.StoreRefresh?)
    ensures var s' := Resumed(s, st, call, c);
            && s'.live == s.live && s'.births == s.births
            && (call in s'.calls ==> !s'.calls[call].RefreshStored?)
  {}

  lemma ResumedOwn(s: Store, st: Step, call: nat, c: Call)
    requires call in s.calls && s.calls[call] == c
    ensures OwnStep(s, Resumed(s, st, call, c), call)
  {}

  lemma SameStand(s: Store, s': Store)
    requires OnePerGrant(s) && s'.live == s.live && s'.births == s.births && s'.calls == s.calls
    ensures OnePerGrant(s')
  {
    forall t | Stands(s', t) ensures Stands(s, t) {
      assert Replaced(s, t) <==> Replaced(s', t);
      assert InUse(s, t) <==> InUse(s', t);
    }
    FewerStand(s, s');
  }

  lemma RemoveRotates(s: Store, token: string)
    requires OnePerGrant(s)
    ensures OnePerGrant(s.(live := s.live - {token}))
  {}

  lemma StepRotates(s: Store, st: Step)
    requires Rotating(s) && Fits(s, st) && TakeTurns(s, st) && DeletesToo(s, st)
    ensures Rotating(Next(s, st))
  {
    StepSound(s, st);
    StepApart(s, st);
    match st
    case NewGrant(_, _, _) => NewGrantRotates(s, st);
    case Remove(token) => RemoveRotates(s, token);
    case RemoveAccess(_) => SameStand(s, Next(s, st));
    case Load(_, token, _) =>
      if token in s.live {
        LoadRotates(s, st);
      }
    case _ =>
      if st.call in s.calls {
        ResumedRotates(s, st, st.call, s.calls[st.call]);
      }
  }

  lemma {:induction false} AlwaysRotating(steps: seq<Step>)
    requires Possible(steps) && InTurn(steps) && CarriedThrough(steps)
    ensures Rotating(Played(steps))
  {
    if steps != [] {
      AlwaysRotating(steps[..|steps| - 1]);
      StepRotates(Played(steps[..|steps| - 1]), steps[|steps| - 1]);
    }
  }

  /**
   When the refreshes of each token take turns and none breaks off before its last
   statement, once its new token is stored, a grant never has two refresh tokens but for
   the one that its replacement is about to delete.
   */
  lemma RotationInTurn(steps: seq<Step>, t: string, u: string)
    requires Possible(steps) && InTurn(steps) && CarriedThrough(steps)
    requires var s := Played(steps);
             t in s.live && u in s.live && s.live[t].grant == s.live[u].grant && t != u
    ensures Replaced(Played(steps), t) || Replaced(Played(steps), u)
  {
    AlwaysRotating(steps);
    var s := Played(steps);
    assert s.births[t] == s.births[u];
    assert !(Stands(s, t) && Stands(s, u));
  }

  // ---- resources, when no token goes missing under a refresh -------------

  /** No token is removed between a refresh's two loads of it. */
  ghost predicate KeepsLoaded(s: Store, st: Step) {
    st.Remove? ==> forall i :: i in s.calls && s.calls[i].Loaded? ==> s.calls[i].token != st.token
  }

  ghost predicate Undisturbed(steps: seq<Step>) {
    steps == [] || (Undisturbed(steps[..|steps| - 1]) && KeepsLoaded(Played(steps[..|steps| - 1]), steps[|steps| - 1]))
  }

  ghost predicate OnTime(s: Store) {
    && (forall t :: t in s.live ==> !s.live[t].late)
    && (forall a :: a in s.access ==> !s.access[a].late)
    && (forall i :: i in s.calls ==> !s.calls[i].row.late && (s.calls[i].Loaded? ==> s.calls[i].token in s.live))
  }

  lemma ResumedOnTime(s: Store, st: Step, call: nat, c: Call)
    requires OnTime(s) && Apart(s) && call in s.calls && s.calls[call] == c
    ensures OnTime(Resumed(s, st, call, c))
  {}

  lemma {:induction false} AlwaysOnTime(steps: seq<Step>)
    requires Possible(steps) && InTurn(steps) && Undisturbed(steps)
    ensures OnTime(Played(steps))
  {
    if steps != [] {
      var s, st := Played(steps[..|steps| - 1]), steps[|steps| - 1];
      AlwaysOnTime(steps[..|steps| - 1]);
      AlwaysApart(steps[..|steps| - 1]);
      match st
      case NewGrant(_, _, _) =>
      case Remove(_) =>
      case RemoveAccess(_) =>
      case Load(_, _, _) =>
      case _ =>
        if st.call in s.calls {
          ResumedOnTime(s, st, st.call, s.calls[st.call]);
        }
    }
  }

  /**
   When refreshes take turns and none loses its token between its two loads, every token
   keeps its grant's resource, whatever breaks off where.
   */
  lemma ResourcesInTurn(steps: seq<Step>, row: Row)
    requires Possible(steps) && InTurn(steps) && Undisturbed(steps)
    requires row in Played(steps).live.Values + Played(steps).access.Values
    ensures row.grant < |Played(steps).grants| && row.resource == Played(steps).grants[row.grant].resource
  {
    AlwaysOnTime(steps);
    AlwaysSound(steps);
  }

  // ---- and when they do not ---------------------------------------------

  /** A refresh from its second statement on, up to its last. */
  function Replacement(s: Store, call: nat, access: string, token: string): Store {
    Next(Next(Next(s, LookUpResource(call)), StoreAccess(call, access)), StoreRefresh(call, token))
  }

  function Finished(s: Store, call: nat, access: string, token: string): Store {
    Next(Replacement(s, call, access, token), DeleteOld(call))
  }

  lemma ReplacementAs(s: Store, call: nat, prior: string, row: Row, wanted: set<string>, access: string, token: string)
    requires call in s.calls && s.calls[call] == Loaded(prior, row, wanted) && wanted <= row.scopes
    ensures var looked := Narrowed(s, s.calls[call]);
            Replacement(s, call, access, token) ==
            s.(live := s.live[token := looked], access := s.access[access := looked],
               births := s.births[token := row.grant], calls := s.calls[call := RefreshStored(prior, looked)])
  {
    var looked := Narrowed(s, s.calls[call]);
    var s1 := Next(s, LookUpResource(call));
    assert s1.calls[call] == LookedUp(prior, looked);
    var s2 := Next(s1, StoreAccess(call, access));
    assert s2.calls == s.calls[call := AccessStored(prior, looked)];
  }

  lemma FinishesAs(s: Store, call: nat, prior: string, row: Row, wanted: set<string>, access: string, token: string)
    requires call in s.calls && s.calls[call] == Loaded(prior, row, wanted) && wanted <= row.scopes && token != prior
    ensures Finished(s, call, access, token) ==
            s.(live := s.live[token := Narrowed(s, s.calls[call])] - {prior},
               access := s.access[access := Narrowed(s, s.calls[call])],
               births := s.births[token := row.grant], calls := s.calls - {call})
  {
    ReplacementAs(s, call, prior, row, wanted, access, token);
    var last := RefreshStored(prior, Narrowed(s, s.calls[call]));
    assert s.calls[call := last] - {call} == s.calls - {call};
  }

  /**
   A whole refresh on its own, from any state: it fails if and only if it asks for a scope the
   token does not have, and then stores nothing. Otherwise the new tokens have exactly the
   scopes asked for, or all of them, and the old one's grant and resource; the old one is gone.
   */
  lemma LoneRefresh(s: Store, token: string, wanted: set<string>, i: nat, a: string, access: string)
    requires token in s.live && i !in s.calls && a != token
    ensures var row := s.live[token];
            var s' := Finished(Next(s, Load(i, token, wanted)), i, access, a);
            var got := row.(scopes := if wanted == {} then row.scopes else wanted);
            && s'.calls == s.calls && s'.grants == s.grants
            && (!(wanted <= row.scopes) ==> s' == s)
            && (wanted <= row.scopes ==>
                  && s'.live == s.live[a := got] - {token} && s'.access == s.access[access := got]
                  && s'.births == s.births[a := row.grant])
  {
    var row := s.live[token];
    var loaded := Next(s, Load(i, token, wanted));
    assert loaded.calls == s.calls[i := Loaded(token, row, wanted)];
    if wanted <= row.scopes {
      FinishesAs(loaded, i, token, row, wanted, access, a);
      assert Narrowed(loaded, loaded.calls[i]) == row.(scopes := if wanted == {} then row.scopes else wanted);
    } else {
      assert Next(loaded, LookUpResource(i)).calls == s.calls;
    }
    assert s.calls[i := Loaded(token, row, wanted)] - {i} == s.calls;
  }

  /** So a new grant's refresh token gives way to one with all of the grant, or with what is asked for of it. */
  lemma GrantThenRefresh(s: Store, root: Root, first: string, token: string, wanted: set<string>, i: nat,
                         a: string, access: string)
    requires i !in s.calls && a != token && wanted <= root.scopes
    ensures var s' := Finished(Next(Next(s, NewGrant(root, first, token)), Load(i, token, wanted)), i, access, a);
            && a in s'.live && access in s'.access && token !in s'.live && s'.access[access] == s'.live[a]
            && s'.live[a].grant == |s.grants| < |s'.grants| && s'.grants[|s.grants|] == root
            && s'.live[a].scopes == (if wanted == {} then root.scopes else wanted)
            && s'.live[a].resource == root.resource
  {
    LoneRefresh(Next(s, NewGrant(root, first, token)), token, wanted, i, a, access);
  }

  /** The grant of a token has two refresh tokens now, and what was stored last is bound to no resource. */
  ghost predicate Forked(s: Store, token: string, s': Store, a: string, b: string, later: string) {
    && token in s.live && token !in s'.live && a in s'.live && b in s'.live && later in s'.access
    && s'.live[a].grant == s.live[token].grant == s'.live[b].grant
    && s'.live[a].resource == s.live[token].resource
    && s'.live[b].resource == None && s'.access[later] == s'.live[b]
  }

  /**
   From any state: two refreshes of one token that both load it before either finishes
   leave its grant with two refresh tokens, the second of them bound to no resource.
   */
  lemma OverlapForks(s: Store, token: string, i: nat, j: nat, a: string, b: string, access: string, later: string,
                     loaded: Store)
    requires token in s.live && i != j && a != b && a != token && b != token
    requires loaded == Next(Next(s, Load(i, token, {})), Load(j, token, {}))
    ensures Forked(s, token, Finished(Finished(loaded, i, access, a), j, later, b), a, b, later)
  {
    var row := s.live[token];
    assert loaded.calls[i] == Loaded(token, row, {}) && loaded.calls[j] == Loaded(token, row, {});
    FinishesAs(loaded, i, token, row, {}, access, a);
    var once := Finished(loaded, i, access, a);
    assert once.calls[j] == Loaded(token, row, {}) && token !in once.live;
    FinishesAs(once, j, token, row, {}, later, b);
  }

  /** So does a single refresh whose last statement raises: its old token and the new one both stay. */
  lemma BreakOffForks(s: Store, token: string, i: nat, a: string, access: string)
    requires token in s.live && i !in s.calls && a != token
    ensures var s' := Next(Replacement(Next(s, Load(i, token, {})), i, access, a), Raise(i));
            && s'.live == s.live[a := s.live[token]] && token in s'.live && s'.calls == s.calls
  {
    var row := s.live[token];
    var loaded := Next(s, Load(i, token, {}));
    ReplacementAs(loaded, i, token, row, {}, access, a);
    assert Narrowed(loaded, loaded.calls[i]) == row;
    assert loaded.calls[i := RefreshStored(token, row)] - {i} == s.calls;
  }

  /** A refresh alone loses the resource too, when its token expires between its two loads. */
  lemma ExpiryUnbinds(s: Store, token: string, i: nat, a: string, access: string)
    requires token in s.live && a != token
    ensures var s' := Finished(Next(Next(s, Load(i, token, {})), Remove(token)), i, access, a);
            && a in s'.live && s'.live[a].grant == s.live[token].grant && s'.live[a].resource == None
            && access in s'.access && s'.access[access] == s'.live[a]
  {
    var row := s.live[token];
    var gone := Next(Next(s, Load(i, token, {})), Remove(token));
    assert gone.calls[i] == Loaded(token, row, {}) && token !in gone.live;
    FinishesAs(gone, i, token, row, {}, access, a);
  }
}
