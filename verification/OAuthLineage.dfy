/**
 Where tokens come from: every token is traced to the grant it descends from, over every
 run of exchanges, refreshes, loads and revocations.
 */
module OAuthLineage {
  import opened Basics
  import opened OAuthProvider

  /** What the user granted. */
  datatype Grant = Grant(clientId: string, resource: Option<string>, scopes: set<string>)

  /** How a token came about: its grant, and the refresh token it was obtained with, if any. */
  datatype Birth =
    Birth(grant: nat, parent: Option<string>, clientId: string, resource: Option<string>, scopes: seq<string>)

  /** The provider with its past: all grants, all tokens ever issued, and those rotated away. */
  datatype World = World(s: Tokens, grants: seq<Grant>, births: map<string, Birth>, rotated: set<string>)

  datatype Action =
    | IssueCode(ac: AuthCode)
    | StoreUpstream(token: string, held: AccessToken)
    | DeviceGrant(clientId: string, scopes: seq<string>, f: Fresh)
    | ExchangeCode(caller: Option<string>, code: string, f: Fresh)
    | Refresh(clientId: string, token: string, requested: seq<string>, chosen: seq<string>, loadedAt: real, f: Fresh)
    | LoadAccess(token: string, now: real)
    | LoadRefresh(caller: Option<string>, token: string, now: real)
    | Revoke(token: string)

  const EMPTY := World(Tokens(map[], map[], map[], map[]), [], map[], {})

  /** A pair is born: the access and the refresh token share grant and parent. */
  function Born(w: World, s: Tokens, f: Fresh, b: Birth): World {
    w.(s := s, births := w.births[f.access := b][f.refresh := b])
  }

  /** A pair born from a new grant. */
  function Rooted(w: World, s: Tokens, f: Fresh, clientId: string, scopes: seq<string>, resource: Option<string>): World {
    Born(w, s, f, Birth(|w.grants|, None, clientId, resource, scopes))
      .(grants := w.grants + [Grant(clientId, resource, ScopeSet(scopes))])
  }

  function Next(w: World, a: Action): World {
    match a
    case IssueCode(ac) => w.(s := w.s.(codes := w.s.codes[ac.code := ac]))
    case StoreUpstream(t, held) =>
      World(w.s.(access := w.s.access[t := held]),
            w.grants + [Grant(held.clientId, held.resource, ScopeSet(held.scopes))],
            w.births[t := Birth(|w.grants|, None, held.clientId, held.resource, held.scopes)], w.rotated)
    case DeviceGrant(c, scopes, f) => Rooted(w, WithPair(w.s, f, c, scopes, None), f, c, scopes, None)
    case ExchangeCode(c, code, f) =>
      if code !in w.s.codes then w
      else
        var ac := w.s.codes[code];
        var (s, r) := ExchangingCode(w.s, c, ac, f);
        if r.Err? then w.(s := s) else Rooted(w, s, f, ac.clientId, ac.scopes, ac.resource)
    case Refresh(c, t, requested, chosen, at, f) =>
      var (s, r) := Refreshing(w.s, c, t, requested, chosen, at, f);
      if r.Err? || t !in w.births then w.(s := s)
      else
        Born(w, s, f, w.births[t].(parent := Some(t), scopes := r.value.scopes)).(rotated := w.rotated + {t})
    case LoadAccess(t, now) => w.(s := LoadingAccess(w.s, t, now).0)
    case LoadRefresh(c, t, now) => w.(s := LoadingRefresh(w.s, c, t, now).0)
    case Revoke(t) => w.(s := Revoking(w.s, t))
  }

  /** The generated strings have never been used for a token before. */
  ghost predicate Unused(w: World, f: Fresh) {
    f.access !in w.births && f.refresh !in w.births && f.access != f.refresh
  }

  /** Generated names are new, a code is exchanged by its own client, and a set is listed in some order. */
  ghost predicate Allowed(w: World, a: Action) {
    match a
    case IssueCode(ac) => ac.code !in w.s.codes
    case StoreUpstream(t, _) => t !in w.births
    case DeviceGrant(_, _, f) => Unused(w, f)
    case ExchangeCode(c, code, f) =>
      Unused(w, f) && (code in w.s.codes && c.Some? ==> c.value == w.s.codes[code].clientId)
    case Refresh(_, _, requested, chosen, _, f) => Unused(w, f) && Listing(requested, chosen)
    case _ => true
  }

  ghost function After(actions: seq<Action>): World {
    if actions == [] then EMPTY else Next(After(actions[..|actions| - 1]), actions[|actions| - 1])
  }

  ghost predicate Run(actions: seq<Action>)
    decreases |actions|
  {
    actions != [] ==>
      Run(actions[..|actions| - 1]) && Allowed(After(actions[..|actions| - 1]), actions[|actions| - 1])
  }

  // ---- the invariant ----------------------------------------------------

  /** A token's birth agrees with its grant, and its scopes shrink from its parent's. */
  ghost predicate BirthSound(w: World, b: Birth) {
    && b.grant < |w.grants|
    && b.clientId == w.grants[b.grant].clientId && b.resource == w.grants[b.grant].resource
    && ScopeSet(b.scopes) <= w.grants[b.grant].scopes
    && (b.parent.Some? ==>
          && b.parent.value in w.births && w.births[b.parent.value].grant == b.grant
          && ScopeSet(b.scopes) <= ScopeSet(w.births[b.parent.value].scopes))
  }

  ghost predicate Lineage(w: World) {
    forall t :: t in w.births ==> BirthSound(w, w.births[t])
  }

  /** A stored access token is what its birth says. */
  ghost predicate AccessSound(w: World, t: string)
    requires t in w.s.access
  {
    && t in w.births
    && w.s.access[t].clientId == w.births[t].clientId && w.s.access[t].resource == w.births[t].resource
    && w.s.access[t].scopes == w.births[t].scopes
  }

  /** A stored refresh token is what its birth says and has not been rotated away. */
  ghost predicate RefreshSound(w: World, t: string)
    requires t in w.s.refresh
  {
    && t in w.births && t !in w.rotated && t in w.s.resources
    && w.s.refresh[t].token == t && w.s.refresh[t].clientId == w.births[t].clientId
    && w.s.refresh[t].scopes == w.births[t].scopes && w.s.resources[t] == w.births[t].resource
  }

  ghost predicate Stored(w: World) {
    && (forall t :: t in w.s.access ==> AccessSound(w, t))
    && (forall t :: t in w.s.refresh ==> RefreshSound(w, t))
    && w.s.refresh.Keys == w.s.resources.Keys
    && (forall c :: c in w.s.codes ==> w.s.codes[c].code == c)
    && w.rotated <= w.births.Keys
  }

  /** One live refresh token per grant. */
  ghost predicate Single(w: World) {
    forall t, u :: (t in w.s.refresh && u in w.s.refresh && t in w.births && u in w.births) ==>
      (w.births[t].grant == w.births[u].grant ==> t == u)
  }

  ghost predicate Sound(w: World) { Lineage(w) && Stored(w) && Single(w) }

  // ---- each action keeps it ---------------------------------------------

  /** Adding births under unused names disturbs no other birth. */
  lemma LineageGrows(w: World, w': World)
    requires Lineage(w) && w.grants <= w'.grants
    requires forall t :: t in w.births ==> t in w'.births && w'.births[t] == w.births[t]
    ensures forall t :: t in w.births ==> BirthSound(w', w.births[t])
  {}

  /** w' is w with a pair of the given birth stored, and some refresh tokens rotated away. */
  ghost predicate Stores(w: World, w': World, f: Fresh, b: Birth, gone: set<string>) {
    && Unused(w, f) && gone <= w.births.Keys
    && w.grants <= w'.grants && b.grant < |w'.grants|
    && w'.births == w.births[f.access := b][f.refresh := b]
    && w'.s.access == w.s.access[f.access := AccessToken(b.clientId, b.scopes, f.accessAt.Floor + ACCESS_TTL, b.resource)]
    && w'.s.refresh ==
       w.s.refresh[f.refresh := RefreshToken(f.refresh, b.clientId, b.scopes, f.refreshAt.Floor + REFRESH_TTL)] - gone
    && w'.s.resources == w.s.resources[f.refresh := b.resource] - gone
    && w'.rotated == w.rotated + gone
    && (forall c :: c in w'.s.codes ==> w'.s.codes[c].code == c)
  }

  lemma StoresLineage(w: World, w': World, f: Fresh, b: Birth, gone: set<string>)
    requires Stores(w, w', f, b, gone) && Lineage(w) && BirthSound(w', b)
    ensures Lineage(w')
  {}

  lemma StoresStored(w: World, w': World, f: Fresh, b: Birth, gone: set<string>)
    requires Stores(w, w', f, b, gone) && Stored(w)
    ensures Stored(w')
  {
    forall t | t in w'.s.access ensures AccessSound(w', t) {
      StoresAccess(w, w', f, b, gone, t);
    }
    forall t | t in w'.s.refresh ensures RefreshSound(w', t) {
      StoresRefresh(w, w', f, b, gone, t);
    }
  }

  lemma StoresAccess(w: World, w': World, f: Fresh, b: Birth, gone: set<string>, t: string)
    requires Stores(w, w', f, b, gone) && Stored(w) && t in w'.s.access
    ensures AccessSound(w', t)
  {
    assert t in w.s.access ==> AccessSound(w, t);
  }

  lemma StoresRefresh(w: World, w': World, f: Fresh, b: Birth, gone: set<string>, t: string)
    requires Stores(w, w', f, b, gone) && Stored(w) && t in w'.s.refresh
    ensures RefreshSound(w', t)
  {
    assert t in w.s.refresh ==> RefreshSound(w, t);
  }

  /** A new grant's pair: nobody else's refresh token has that grant. */
  lemma RootedSound(w: World, w': World, f: Fresh, b: Birth)
    requires Sound(w) && Stores(w, w', f, b, {}) && BirthSound(w', b) && b.grant == |w.grants|
    ensures Sound(w')
  {
    StoresLineage(w, w', f, b, {});
    StoresStored(w, w', f, b, {});
    RootedSingle(w, w', f, b);
  }

  lemma GrantsKnown(w: World)
    requires Lineage(w) && Stored(w)
    ensures forall t :: t in w.s.refresh ==> t in w.births && w.births[t].grant < |w.grants|
  {}

  lemma RootedSingle(w: World, w': World, f: Fresh, b: Birth)
    requires Sound(w) && Stores(w, w', f, b, {}) && b.grant == |w.grants|
    ensures Single(w')
  {
    GrantsKnown(w);
    forall t | t in w'.s.refresh ensures t == f.refresh || (t in w.s.refresh && w'.births[t] == w.births[t]) {}
  }

  ghost predicate Fewer(s: Tokens, s': Tokens) {
    && s'.access.Keys <= s.access.Keys && (forall t :: t in s'.access ==> s'.access[t] == s.access[t])
    && s'.refresh.Keys <= s.refresh.Keys && (forall t :: t in s'.refresh ==> s'.refresh[t] == s.refresh[t])
    && s'.resources.Keys == s'.refresh.Keys && s'.resources.Keys <= s.resources.Keys
    && (forall t :: t in s'.resources ==> s'.resources[t] == s.resources[t])
    && (forall c :: c in s'.codes ==> s'.codes[c].code == c)
  }

  /** Loads and revocations remove tokens and change none. */
  lemma LoadsLeaveFewer(s: Tokens, clientId: Option<string>, token: string, now: real)
    requires Fewer(s, s)
    ensures Fewer(s, LoadingAccess(s, token, now).0)
    ensures Fewer(s, LoadingRefresh(s, clientId, token, now).0)
    ensures Fewer(s, Revoking(s, token))
  {}

  /** Removing stored tokens, and nothing else, keeps the invariant. */
  lemma FewerSound(w: World, s: Tokens)
    requires Sound(w) && Fewer(w.s, s)
    ensures Sound(w.(s := s))
  {
    var w' := w.(s := s);
    forall t | t in w.births ensures BirthSound(w', w.births[t]) {
      assert BirthSound(w, w.births[t]);
    }
    forall t | t in s.access ensures AccessSound(w', t) {
      assert AccessSound(w, t);
    }
    forall t | t in s.refresh ensures RefreshSound(w', t) {
      assert RefreshSound(w, t);
    }
  }

  lemma UpstreamSound(w: World, t: string, held: AccessToken)
    requires Sound(w) && t !in w.births
    ensures Sound(Next(w, StoreUpstream(t, held)))
  {
    var w' := Next(w, StoreUpstream(t, held));
    LineageGrows(w, w');
    forall u | u in w'.s.access ensures AccessSound(w', u) {
      assert u in w.s.access ==> AccessSound(w, u);
    }
    forall u | u in w'.s.refresh ensures RefreshSound(w', u) {
      assert RefreshSound(w, u);
    }
  }

  /** What a successful refresh leaves behind. */
  lemma RefreshOutcome(s: Tokens, clientId: string, token: string, requested: seq<string>, chosen: seq<string>,
                      loadedAt: real, f: Fresh)
    requires Refreshing(s, clientId, token, requested, chosen, loadedAt, f).1.Ok? && Listing(requested, chosen)
    requires token in s.refresh ==> s.refresh[token].token == token
    ensures token in s.refresh && s.refresh[token].clientId == clientId
    ensures var (s', r) := Refreshing(s, clientId, token, requested, chosen, loadedAt, f);
            var resource := if token in s.resources then s.resources[token] else None;
            && ScopeSet(r.value.scopes) <= ScopeSet(s.refresh[token].scopes)
            && s' == WithoutRefresh(WithPair(s, f, clientId, r.value.scopes, resource), token)
  {}

  lemma RefreshSucceeds(w: World, a: Action)
    requires Sound(w) && a.Refresh? && Allowed(w, a)
    requires Refreshing(w.s, a.clientId, a.token, a.requested, a.chosen, a.loadedAt, a.f).1.Ok?
    ensures Sound(Next(w, a))
  {
    var (s, r) := Refreshing(w.s, a.clientId, a.token, a.requested, a.chosen, a.loadedAt, a.f);
    assert a.token in w.s.refresh ==> RefreshSound(w, a.token);
    RefreshOutcome(w.s, a.clientId, a.token, a.requested, a.chosen, a.loadedAt, a.f);
    var b := w.births[a.token].(parent := Some(a.token), scopes := r.value.scopes);
    assert BirthSound(w, w.births[a.token]);
    DescendsSound(w, Next(w, a), a.f, a.token, b);
  }

  /** A pair born from a live refresh token, which it replaces. */
  lemma DescendsSound(w: World, w': World, f: Fresh, token: string, b: Birth)
    requires Sound(w) && token in w.s.refresh && token in w.births && Stores(w, w', f, b, {token})
    requires b == w.births[token].(parent := Some(token), scopes := b.scopes) && w'.grants == w.grants
    requires ScopeSet(b.scopes) <= ScopeSet(w.births[token].scopes)
    ensures Sound(w')
  {
    DescendsBirth(w, w', f, token, b);
    StoresLineage(w, w', f, b, {token});
    StoresStored(w, w', f, b, {token});
    GrantsKnown(w);
    StoresKeys(w, w', f, b, {token});
    DescendsSingle(w, w', f, token);
  }

  lemma DescendsBirth(w: World, w': World, f: Fresh, token: string, b: Birth)
    requires Lineage(w) && token in w.births && Stores(w, w', f, b, {token})
    requires b == w.births[token].(parent := Some(token), scopes := b.scopes) && w'.grants == w.grants
    requires ScopeSet(b.scopes) <= ScopeSet(w.births[token].scopes)
    ensures BirthSound(w', b)
  {
    assert BirthSound(w, w.births[token]);
  }

  lemma StoresKeys(w: World, w': World, f: Fresh, b: Birth, gone: set<string>)
    requires Stores(w, w', f, b, gone)
    ensures w'.s.refresh.Keys == w.s.refresh.Keys + {f.refresh} - gone && f.refresh !in gone
    ensures forall t :: t in w.births ==> t in w'.births && w'.births[t] == w.births[t]
    ensures f.refresh !in w.births && f.refresh in w'.births && w'.births[f.refresh] == b
  {}

  /** The new refresh token takes the place of the old one, so its grant still has one. */
  lemma DescendsSingle(w: World, w': World, f: Fresh, token: string)
    requires Single(w) && token in w.s.refresh && token in w.births
    requires forall t :: t in w.s.refresh ==> t in w.births
    requires w'.s.refresh.Keys == w.s.refresh.Keys - {token} + {f.refresh}
    requires f.refresh !in w.births && f.refresh in w'.births && w'.births[f.refresh].grant == w.births[token].grant
    requires forall t :: t in w.births ==> t in w'.births && w'.births[t] == w.births[t]
    ensures Single(w')
  {}

  lemma DeviceSound(w: World, a: Action)
    requires Sound(w) && a.DeviceGrant? && Allowed(w, a)
    ensures Sound(Next(w, a))
  {
    RootedSound(w, Next(w, a), a.f, Birth(|w.grants|, None, a.clientId, None, a.scopes));
  }

  lemma CodeSound(w: World, a: Action)
    requires Sound(w) && a.ExchangeCode? && Allowed(w, a)
    ensures Sound(Next(w, a))
  {
    if a.code in w.s.codes {
      var ac := w.s.codes[a.code];
      var (s, r) := ExchangingCode(w.s, a.caller, ac, a.f);
      if r.Ok? {
        RootedSound(w, Next(w, a), a.f, Birth(|w.grants|, None, ac.clientId, ac.resource, ac.scopes));
      }
    }
  }

  /** A refused refresh is a load and no more. */
  lemma RefusedIsLoad(w: World, a: Action)
    requires a.Refresh? && Refreshing(w.s, a.clientId, a.token, a.requested, a.chosen, a.loadedAt, a.f).1.Err?
    ensures Next(w, a) == w.(s := LoadingRefresh(w.s, Some(a.clientId), a.token, a.loadedAt).0)
  {}

  lemma RefreshFails(w: World, a: Action)
    requires Sound(w) && a.Refresh?
    requires Refreshing(w.s, a.clientId, a.token, a.requested, a.chosen, a.loadedAt, a.f).1.Err?
    ensures Sound(Next(w, a))
  {
    RefusedIsLoad(w, a);
    LoadsLeaveFewer(w.s, Some(a.clientId), a.token, a.loadedAt);
    FewerSound(w, LoadingRefresh(w.s, Some(a.clientId), a.token, a.loadedAt).0);
  }

  lemma ActionSound(w: World, a: Action)
    requires Sound(w) && Allowed(w, a)
    ensures Sound(Next(w, a))
  {
    match a
    case IssueCode(ac) => FewerSound(w, w.s.(codes := w.s.codes[ac.code := ac]));
    case StoreUpstream(t, held) => UpstreamSound(w, t, held);
    case DeviceGrant(_, _, _) => DeviceSound(w, a);
    case ExchangeCode(_, _, _) => CodeSound(w, a);
    case Refresh(c, t, requested, chosen, at, f) =>
      if Refreshing(w.s, c, t, requested, chosen, at, f).1.Ok? {
        RefreshSucceeds(w, a);
      } else {
        RefreshFails(w, a);
      }
    case LoadAccess(t, now) =>
      LoadsLeaveFewer(w.s, None, t, now);
      FewerSound(w, LoadingAccess(w.s, t, now).0);
    case LoadRefresh(c, t, now) =>
      LoadsLeaveFewer(w.s, c, t, now);
      FewerSound(w, LoadingRefresh(w.s, c, t, now).0);
    case Revoke(t) =>
      LoadsLeaveFewer(w.s, None, t, 0.0);
      FewerSound(w, Revoking(w.s, t));
  }

  lemma {:induction false} AlwaysSound(actions: seq<Action>)
    requires Run(actions)
    ensures Sound(After(actions))
    decreases |actions|
  {
    if actions != [] {
      AlwaysSound(actions[..|actions| - 1]);
      ActionSound(After(actions[..|actions| - 1]), actions[|actions| - 1]);
    }
  }

  // ---- the theorems -----------------------------------------------------

  /**
   Attenuation: after every run, an access token that loads carries the client and the
   resource of the grant it descends from, through any number of refreshes, and no scope
   outside that grant. Introspection reports the same.
   */
  lemma Attenuation(actions: seq<Action>, token: string, now: real)
    requires Run(actions) && LoadingAccess(After(actions).s, token, now).1.Some?
    ensures var w := After(actions);
            var held := LoadingAccess(w.s, token, now).1.value;
            && token in w.births && w.births[token].grant < |w.grants|
            && var g := w.grants[w.births[token].grant];
            && held.clientId == g.clientId && held.resource == g.resource && ScopeSet(held.scopes) <= g.scopes
            && Introspecting(w.s, token, now).1 == Active(g.clientId, held.scopes, held.expiresAt, g.resource)
  {
    AlwaysSound(actions);
    var w := After(actions);
    assert AccessSound(w, token) && BirthSound(w, w.births[token]);
  }

  /** Each step of a lineage stays within its grant and never widens the scopes. */
  lemma ScopesOnlyShrink(actions: seq<Action>, token: string)
    requires Run(actions) && token in After(actions).births && After(actions).births[token].parent.Some?
    ensures var w := After(actions);
            var b := w.births[token];
            && b.parent.value in w.births
            && w.births[b.parent.value].grant == b.grant
            && w.births[b.parent.value].clientId == b.clientId && w.births[b.parent.value].resource == b.resource
            && ScopeSet(b.scopes) <= ScopeSet(w.births[b.parent.value].scopes)
  {
    AlwaysSound(actions);
    var w := After(actions);
    var b := w.births[token];
    assert BirthSound(w, b) && BirthSound(w, w.births[b.parent.value]);
  }

  /**
   Rotation: in every reachable state a grant has at most one live refresh token, a token
   once exchanged never loads again, and the two refresh dictionaries have the same keys.
   */
  lemma {:induction false} Rotation(actions: seq<Action>)
    requires Run(actions)
    ensures var w := After(actions);
            && w.s.refresh.Keys == w.s.resources.Keys
            && (forall t, u :: t in w.s.refresh && u in w.s.refresh && t != u ==>
                  t in w.births && u in w.births && w.births[t].grant != w.births[u].grant)
            && (forall t, c: Option<string>, now: real :: t in w.rotated ==> LoadingRefresh(w.s, c, t, now).1.None?)
  {
    AlwaysSound(actions);
    var w := After(actions);
    forall t | t in w.s.refresh ensures t in w.births && t !in w.rotated {
      assert RefreshSound(w, t);
    }
  }

  lemma {:induction false} RotatedStays(actions: seq<Action>, n: nat, token: string)
    requires n <= |actions| && token in After(actions[..n]).rotated
    ensures token in After(actions).rotated
    decreases |actions|
  {
    if n == |actions| {
      assert actions[..n] == actions;
    } else {
      assert actions[..|actions| - 1][..n] == actions[..n];
      RotatedStays(actions[..|actions| - 1], n, token);
    }
  }

  /** A successful refresh puts its token among those that never load again. */
  lemma RefreshRotates(w: World, a: Action)
    requires Sound(w) && a.Refresh? && Allowed(w, a)
    requires Refreshing(w.s, a.clientId, a.token, a.requested, a.chosen, a.loadedAt, a.f).1.Ok?
    ensures a.token in Next(w, a).rotated
    ensures a.f.refresh in Next(w, a).s.refresh && a.token !in Next(w, a).s.refresh
  {
    assert a.token in w.s.refresh ==> RefreshSound(w, a.token);
    RefreshOutcome(w.s, a.clientId, a.token, a.requested, a.chosen, a.loadedAt, a.f);
  }

  /** The new pair is usable at once and until its expiry, by its own client only. */
  lemma RefreshedPairLoads(s: Tokens, clientId: string, token: string, requested: seq<string>, chosen: seq<string>,
                           loadedAt: real, f: Fresh, other: Option<string>, later: real)
    requires Refreshing(s, clientId, token, requested, chosen, loadedAt, f).1.Ok?
    requires token in s.refresh ==> s.refresh[token].token == token
    requires Listing(requested, chosen) && f.refresh != token && f.accessAt >= 0.0 && f.refreshAt >= 0.0
    ensures var (s', r) := Refreshing(s, clientId, token, requested, chosen, loadedAt, f);
            && (LoadingRefresh(s', other, f.refresh, later).1.Some?
                <==> other == Some(clientId) && later <= (f.refreshAt.Floor + REFRESH_TTL) as real)
            && (LoadingAccess(s', f.access, later).1.Some? <==> later <= (f.accessAt.Floor + ACCESS_TTL) as real)
  {}

  /** A request for scopes outside the original grant is refused and changes nothing. */
  lemma RejectedScopesChangeNothing(s: Tokens, clientId: string, token: string, requested: seq<string>,
                                    chosen: seq<string>, loadedAt: real, f: Fresh)
    requires LoadingRefresh(s, Some(clientId), token, loadedAt).1.Some?
    ensures var (s', r) := Refreshing(s, clientId, token, requested, chosen, loadedAt, f);
            && (r.Err? <==> !(ScopeSet(requested) <= ScopeSet(s.refresh[token].scopes)))
            && (r.Err? ==> s' == s && r.error == ScopeExceeded)
  {}

  /** A string that was once a token and is stored as no access token never is one again. */
  lemma {:induction false} GoneStaysGone(actions: seq<Action>, n: nat, token: string)
    requires n <= |actions| && Run(actions)
    requires token in After(actions[..n]).births && token !in After(actions[..n]).s.access
    ensures token in After(actions).births && token !in After(actions).s.access
    decreases |actions|
  {
    if n == |actions| {
      assert actions[..n] == actions;
    } else {
      var earlier := actions[..|actions| - 1];
      assert earlier[..n] == actions[..n];
      GoneStaysGone(earlier, n, token);
      NoNewAccess(After(earlier), actions[|actions| - 1], token);
    }
  }

  lemma NoNewAccess(w: World, a: Action, token: string)
    requires Allowed(w, a) && token in w.births && token !in w.s.access
    ensures token in Next(w, a).births && token !in Next(w, a).s.access
  {}

  /** A revoked access token never loads again, whatever happens later in the run. */
  lemma {:induction false} RevokedNeverLoads(actions: seq<Action>, n: nat, token: string, now: real)
    requires n < |actions| && Run(actions) && actions[n] == Revoke(token) && token in After(actions[..n]).births
    ensures LoadingAccess(After(actions).s, token, now).1.None?
  {
    assert actions[..n + 1][..n] == actions[..n];
    GoneStaysGone(actions, n + 1, token);
  }

  /**
   `revoke_token` is documented to remove the token. Applied to a refresh token it changes
   no answer about it: the token loads, and refreshes, exactly as it would have.
   */
  lemma RevokeSparesRefresh(s: Tokens, token: string, clientId: string, requested: seq<string>, chosen: seq<string>,
                            loadedAt: real, f: Fresh)
    requires f.access != token && token !in s.access
    ensures LoadingRefresh(Revoking(s, token), Some(clientId), token, loadedAt).1 ==
            LoadingRefresh(s, Some(clientId), token, loadedAt).1
    ensures Refreshing(Revoking(s, token), clientId, token, requested, chosen, loadedAt, f) ==
            Refreshing(s, clientId, token, requested, chosen, loadedAt, f)
  {
    RemovingAbsent(s.access, token);
  }
}
