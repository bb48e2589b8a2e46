/**
 What the token calls of the authorization server answer, seen by the client that is sent
 the answer: which calls succeed, what the tokens of a reply are good for and how long, and
 which tokens introspection calls active.
 */
module OAuthAnswers {
  import opened Basics
  import opened OAuthProvider
  import opened OAuthLineage

  /** An expiry time of zero is none, and a token is still good at its expiry time. */
  predicate Good(expiresAt: int, now: real) { expiresAt == 0 || now <= expiresAt as real }

  // ---- loads ------------------------------------------------------------

  /** The two dictionaries of refresh tokens are as they were but for this one. */
  ghost predicate RefreshKept(s: Tokens, s': Tokens, token: string) {
    && (forall t :: t != token ==> (t in s'.refresh <==> t in s.refresh) && (t in s'.resources <==> t in s.resources))
    && (forall t :: t != token && t in s.refresh ==> s'.refresh[t] == s.refresh[t])
    && (forall t :: t != token && t in s.resources ==> s'.resources[t] == s.resources[t])
  }

  ghost predicate AccessKept(s: Tokens, s': Tokens, token: string) {
    && (forall t :: t != token ==> (t in s'.access <==> t in s.access))
    && (forall t :: t != token && t in s.access ==> s'.access[t] == s.access[t])
  }

  /** An access token loads exactly while it is stored and good, and one found expired is dropped. */
  lemma LoadAccessAnswers(s: Tokens, token: string, now: real)
    ensures var (s', r) := LoadingAccess(s, token, now);
            && (r.Some? <==> token in s.access && Good(s.access[token].expiresAt, now))
            && (r.Some? ==> r.value == s.access[token] && s' == s)
            && (r.None? ==> token !in s'.access && AccessKept(s, s', token) && s' == s.(access := s'.access))
  {}

  /** So does a refresh token, for its owner only; anybody else's load changes nothing. */
  lemma LoadRefreshAnswers(s: Tokens, caller: Option<string>, token: string, now: real)
    ensures var (s', r) := LoadingRefresh(s, caller, token, now);
            var owned := token in s.refresh && caller == Some(s.refresh[token].clientId);
            && (r.Some? <==> owned && Good(s.refresh[token].expiresAt, now))
            && (r.Some? ==> r.value == s.refresh[token]) && (r.Some? || !owned ==> s' == s)
            && (r.None? && owned ==> token !in s'.refresh && token !in s'.resources)
            && RefreshKept(s, s', token) && s'.access == s.access && s'.codes == s.codes
  {}

  /** No load changes what any later load answers. */
  lemma LoadsChangeNoAnswer(s: Tokens, caller: Option<string>, token: string, now: real,
                            other: Option<string>, asked: string, later: real)
    requires now <= later
    ensures LoadingAccess(LoadingAccess(s, token, now).0, asked, later).1 == LoadingAccess(s, asked, later).1
    ensures LoadingRefresh(LoadingAccess(s, token, now).0, other, asked, later).1 ==
            LoadingRefresh(s, other, asked, later).1
    ensures LoadingAccess(LoadingRefresh(s, caller, token, now).0, asked, later).1 == LoadingAccess(s, asked, later).1
    ensures LoadingRefresh(LoadingRefresh(s, caller, token, now).0, other, asked, later).1 ==
            LoadingRefresh(s, other, asked, later).1
  {
    LoadAccessAnswers(s, token, now);
    LoadRefreshAnswers(s, caller, token, now);
  }

  // ---- a pair that was sent ---------------------------------------------

  /** Asked at any time, and by anyone, the two tokens load as they should. */
  ghost predicate PairLoads(s: Tokens, r: Issued, clientId: string, resource: Option<string>, f: Fresh,
                            other: Option<string>, later: real)
  {
    var accessExpiry, refreshExpiry := f.accessAt.Floor + 3600, f.refreshAt.Floor + 604800;
    && LoadingAccess(s, r.accessToken, later).1 ==
       (if later <= accessExpiry as real then Some(AccessToken(clientId, r.scopes, accessExpiry, resource)) else None)
    && LoadingRefresh(s, other, r.refreshToken, later).1 ==
       (if other == Some(clientId) && later <= refreshExpiry as real then
          Some(RefreshToken(r.refreshToken, clientId, r.scopes, refreshExpiry)) else None)
    && r.refreshToken in s.resources && s.resources[r.refreshToken] == resource
  }

  /**
   A code is exchanged if and only if it is stored and the client has an id. What is sent
   then are an access token and a refresh token that load as such, with the code's scopes
   and resource, for that client, each up to its expiry and not after it. The code is gone.
   */
  lemma CodeExchangeAnswers(s: Tokens, clientId: Option<string>, ac: AuthCode, f: Fresh,
                            other: Option<string>, later: real)
    requires f.accessAt >= 0.0 && f.refreshAt >= 0.0
    ensures var (s', r) := ExchangingCode(s, clientId, ac, f);
            && (r.Ok? <==> ac.code in s.codes && clientId.Some?)
            && (r.Err? ==> s' == s && r.error == if ac.code in s.codes then NoClientId else InvalidCode)
            && (r.Ok? ==>
                  && r.value.scopes == ac.scopes && PairLoads(s', r.value, clientId.value, ac.resource, f, other, later)
                  && AccessKept(s, s', r.value.accessToken) && RefreshKept(s, s', r.value.refreshToken)
                  && s'.codes == s.codes - {ac.code})
  {}

  /** A device grant's pair is bound to no resource. */
  lemma DeviceGrantAnswers(s: Tokens, clientId: string, scopes: seq<string>, f: Fresh, other: Option<string>, later: real)
    requires f.accessAt >= 0.0 && f.refreshAt >= 0.0
    ensures var s' := WithPair(s, f, clientId, scopes, None);
            && PairLoads(s', Issued(f.access, f.refresh, scopes), clientId, None, f, other, later)
            && AccessKept(s, s', f.access) && RefreshKept(s, s', f.refresh) && s'.codes == s.codes
  {}

  function ResourceOf(s: Tokens, token: string): Option<string> {
    if token in s.resources then s.resources[token] else None
  }

  /**
   A refresh succeeds if and only if the token loads for the client and covers what is
   asked for. What is sent then are two tokens that load, with exactly the scopes asked for,
   or all of them, and the old token's resource; the old token never loads again.
   */
  lemma RefreshAnswers(s: Tokens, clientId: string, token: string, requested: seq<string>, chosen: seq<string>,
                       loadedAt: real, f: Fresh, other: Option<string>, later: real)
    requires f.accessAt >= 0.0 && f.refreshAt >= 0.0 && f.refresh != token && Listing(requested, chosen)
    requires token in s.refresh ==> s.refresh[token].token == token
    ensures var loaded := LoadingRefresh(s, Some(clientId), token, loadedAt).1;
            var (s', r) := Refreshing(s, clientId, token, requested, chosen, loadedAt, f);
            && (r.Ok? <==> loaded.Some? && ScopeSet(requested) <= ScopeSet(loaded.value.scopes))
            && (r.Err? ==> r.error == if loaded.Some? then ScopeExceeded else InvalidGrant)
            && (r.Err? ==> s' == LoadingRefresh(s, Some(clientId), token, loadedAt).0)
            && (r.Ok? ==>
                  && ScopeSet(r.value.scopes) == ScopeSet(if requested == [] then loaded.value.scopes else requested)
                  && PairLoads(s', r.value, clientId, ResourceOf(s, token), f, other, later)
                  && LoadingRefresh(s', other, token, later).1.None?
                  && AccessKept(s, s', r.value.accessToken) && s'.codes == s.codes)
  {
    RefreshVerdict(s, clientId, token, requested, chosen, loadedAt, f);
    if Refreshing(s, clientId, token, requested, chosen, loadedAt, f).1.Ok? {
      var (s', r) := Refreshing(s, clientId, token, requested, chosen, loadedAt, f);
      RefreshOutcome(s, clientId, token, requested, chosen, loadedAt, f);
      ReplacedPairLoads(s, s', clientId, r.value.scopes, ResourceOf(s, token), token, f, other, later);
    }
  }

  /**
   The exchange itself needs a client with an id, then scopes that the token covers; if
   either is missing nothing changes.
   */
  lemma ExchangeVerdict(s: Tokens, clientId: Option<string>, token: RefreshToken, requested: seq<string>,
                        chosen: seq<string>, f: Fresh)
    ensures var (s', r) := Exchanging(s, clientId, token, requested, chosen, f);
            && (r.Ok? <==> clientId.Some? && ScopeSet(requested) <= ScopeSet(token.scopes))
            && (r.Err? ==> s' == s && r.error == if clientId.None? then NoClientId else ScopeExceeded)
  {
    assert requested == [] ==> ScopeSet(requested) == {};
  }

  lemma RefreshVerdict(s: Tokens, clientId: string, token: string, requested: seq<string>, chosen: seq<string>,
                       loadedAt: real, f: Fresh)
    requires Listing(requested, chosen)
    ensures var loaded := LoadingRefresh(s, Some(clientId), token, loadedAt).1;
            var r := Refreshing(s, clientId, token, requested, chosen, loadedAt, f).1;
            && (r.Ok? <==> loaded.Some? && ScopeSet(requested) <= ScopeSet(loaded.value.scopes))
            && (r.Err? ==> r.error == if loaded.Some? then ScopeExceeded else InvalidGrant)
            && (r.Ok? ==>
                  && r.value.accessToken == f.access && r.value.refreshToken == f.refresh
                  && ScopeSet(r.value.scopes) == ScopeSet(if requested == [] then loaded.value.scopes else requested))
  {
    assert requested == [] ==> ScopeSet(requested) == {};
  }

  lemma ReplacedPairLoads(s: Tokens, s': Tokens, clientId: string, scopes: seq<string>, resource: Option<string>,
                          gone: string, f: Fresh, other: Option<string>, later: real)
    requires f.accessAt >= 0.0 && f.refreshAt >= 0.0 && f.refresh != gone
    requires s' == WithoutRefresh(WithPair(s, f, clientId, scopes, resource), gone)
    ensures PairLoads(s', Issued(f.access, f.refresh, scopes), clientId, resource, f, other, later)
    ensures LoadingRefresh(s', other, gone, later).1.None? && AccessKept(s, s', f.access) && s'.codes == s.codes
  {}

  /** Revoking stops that access token and changes the answer to no other load. */
  lemma RevokeAnswers(s: Tokens, token: string, caller: Option<string>, asked: string, now: real)
    ensures LoadingAccess(Revoking(s, token), token, now).1.None?
    ensures asked != token ==> LoadingAccess(Revoking(s, token), asked, now).1 == LoadingAccess(s, asked, now).1
    ensures LoadingRefresh(Revoking(s, token), caller, asked, now).1 == LoadingRefresh(s, caller, asked, now).1
  {}

  // ---- introspection ----------------------------------------------------

  /** A token is active exactly while it is stored as an access token and good, and is reported as stored. */
  lemma IntrospectAnswers(s: Tokens, token: string, now: real)
    ensures var (s', r) := Introspecting(s, token, now);
            && (r.Active? <==> token in s.access && Good(s.access[token].expiresAt, now))
            && (r.Active? ==>
                  var held := s.access[token];
                  r == Active(held.clientId, held.scopes, held.expiresAt, held.resource))
            && s' == LoadingAccess(s, token, now).0
  {}

  /** No string is stored both as an access token and as a refresh token. */
  ghost predicate KindsApart(w: World) { forall t :: t in w.s.refresh ==> t !in w.s.access }

  /** The strings an action may store, under either kind. */
  function NewAccess(a: Action): set<string> {
    match a
    case StoreUpstream(t, _) => {t}
    case DeviceGrant(_, _, f) => {f.access}
    case ExchangeCode(_, _, f) => {f.access}
    case Refresh(_, _, _, _, _, f) => {f.access}
    case _ => {}
  }

  function NewRefresh(a: Action): set<string> {
    match a
    case DeviceGrant(_, _, f) => {f.refresh}
    case ExchangeCode(_, _, f) => {f.refresh}
    case Refresh(_, _, _, _, _, f) => {f.refresh}
    case _ => {}
  }

  lemma KeysGrow(w: World, a: Action)
    ensures Next(w, a).s.access.Keys <= w.s.access.Keys + NewAccess(a)
    ensures Next(w, a).s.refresh.Keys <= w.s.refresh.Keys + NewRefresh(a)
  {}

  lemma NewNames(w: World, a: Action)
    requires Allowed(w, a)
    ensures NewAccess(a) !! w.births.Keys && NewRefresh(a) !! w.births.Keys && NewAccess(a) !! NewRefresh(a)
  {}

  lemma KindsStayApart(w: World, a: Action)
    requires Sound(w) && Allowed(w, a) && KindsApart(w)
    ensures KindsApart(Next(w, a))
  {
    assert forall t :: t in w.s.refresh ==> RefreshSound(w, t);
    assert forall t :: t in w.s.access ==> AccessSound(w, t);
    KeysGrow(w, a);
    NewNames(w, a);
    forall t | t in Next(w, a).s.refresh ensures t !in Next(w, a).s.access {
      assert t in w.s.refresh || t in NewRefresh(a);
    }
  }

  lemma {:induction false} AlwaysApart(actions: seq<Action>)
    requires Run(actions)
    ensures KindsApart(After(actions))
    decreases |actions|
  {
    if actions != [] {
      AlwaysApart(actions[..|actions| - 1]);
      AlwaysSound(actions[..|actions| - 1]);
      KindsStayApart(After(actions[..|actions| - 1]), actions[|actions| - 1]);
    }
  }

  /** Some earlier action was a revocation of this token. */
  ghost predicate Revoked(actions: seq<Action>, token: string) {
    exists n :: 0 <= n < |actions| && actions[n] == Revoke(token) && token in After(actions[..n]).births
  }

  /** It was at some moment stored as a refresh token, rotated away since or not. */
  ghost predicate WasRefresh(actions: seq<Action>, token: string) {
    exists n :: 0 <= n <= |actions| && token in After(actions[..n]).s.refresh
  }

  /** In every reachable state introspection calls unknown, revoked, expired and refresh tokens inactive. */
  lemma {:induction false} NeverActive(actions: seq<Action>, token: string, now: real)
    requires Run(actions)
    requires var w := After(actions);
             || token !in w.births || Revoked(actions, token) || WasRefresh(actions, token)
             || (token in w.s.access && !Good(w.s.access[token].expiresAt, now))
    ensures Introspecting(After(actions).s, token, now).1 == Inactive
  {
    var w := After(actions);
    AlwaysSound(actions);
    IntrospectAnswers(w.s, token, now);
    if token in w.s.access {
      assert AccessSound(w, token);
    }
    if Revoked(actions, token) {
      var n :| 0 <= n < |actions| && actions[n] == Revoke(token) && token in After(actions[..n]).births;
      RevokedNeverLoads(actions, n, token, now);
    } else if WasRefresh(actions, token) {
      RefreshNeverAccess(actions, token);
    }
  }

  lemma RunEarlier(actions: seq<Action>, n: nat)
    requires Run(actions) && n <= |actions|
    ensures Run(actions[..n])
    decreases |actions|
  {
    if n < |actions| {
      var earlier := actions[..|actions| - 1];
      RunEarlier(earlier, n);
      assert earlier[..n] == actions[..n];
    } else {
      assert actions[..n] == actions;
    }
  }

  lemma {:induction false} RefreshNeverAccess(actions: seq<Action>, token: string)
    requires Run(actions) && WasRefresh(actions, token)
    ensures token !in After(actions).s.access
  {
    var n :| 0 <= n <= |actions| && token in After(actions[..n]).s.refresh;
    RunEarlier(actions, n);
    AlwaysApart(actions[..n]);
    AlwaysSound(actions[..n]);
    assert RefreshSound(After(actions[..n]), token);
    GoneStaysGone(actions, n, token);
  }
}
