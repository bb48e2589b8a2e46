/**
 Tokens of the MCP authorization server (mcp_auth/taskmanager_oauth_provider.py), in the
 branch that keeps them in memory. No call below suspends between reading and writing.
 */
module OAuthProvider {
  import opened Basics

  const ACCESS_TTL := 3600
  const REFRESH_TTL := 7 * 24 * 3600

  datatype AuthCode = AuthCode(code: string, clientId: string, scopes: seq<string>, resource: Option<string>)

  datatype AccessToken =
    AccessToken(clientId: string, scopes: seq<string>, expiresAt: int, resource: Option<string>)

  datatype RefreshToken = RefreshToken(token: string, clientId: string, scopes: seq<string>, expiresAt: int)

  /** What the client is sent. */
  datatype Issued = Issued(accessToken: string, refreshToken: string, scopes: seq<string>)

  datatype Error = InvalidCode | NoClientId | InvalidGrant | ScopeExceeded

  datatype Introspection = Inactive | Active(clientId: string, scopes: seq<string>, exp: int, aud: Option<string>)

  /** The provider's dictionaries as a value. */
  datatype Tokens = Tokens(codes: map<string, AuthCode>, access: map<string, AccessToken>,
                           refresh: map<string, RefreshToken>, resources: map<string, Option<string>>)

  /** The pair of tokens generated for a call, and the clock readings their expiry times are made from. */
  datatype Fresh = Fresh(access: string, refresh: string, accessAt: real, refreshAt: real)

  // ---- what each call does ----------------------------------------------

  /** Stores a new pair: `tokens`, `refresh_tokens` and `refresh_token_resources` get an entry each. */
  function WithPair(s: Tokens, f: Fresh, clientId: string, scopes: seq<string>, resource: Option<string>): Tokens {
    s.(access := s.access[f.access := AccessToken(clientId, scopes, f.accessAt.Floor + ACCESS_TTL, resource)],
       refresh := s.refresh[f.refresh := RefreshToken(f.refresh, clientId, scopes, f.refreshAt.Floor + REFRESH_TTL)],
       resources := s.resources[f.refresh := resource])
  }

  function WithoutRefresh(s: Tokens, token: string): Tokens {
    s.(refresh := s.refresh - {token}, resources := s.resources - {token})
  }

  function ExchangingCode(s: Tokens, clientId: Option<string>, ac: AuthCode, f: Fresh): (Tokens, Result<Issued, Error>) {
    if ac.code !in s.codes then (s, Err(InvalidCode))
    else if clientId.None? then (s, Err(NoClientId))
    else
      (WithPair(s, f, clientId.value, ac.scopes, ac.resource).(codes := s.codes - {ac.code}),
       Ok(Issued(f.access, f.refresh, ac.scopes)))
  }

  /** An expiry time of zero counts as none. */
  predicate Past(expiresAt: int, now: real) { expiresAt != 0 && (expiresAt as real) < now }

  function LoadingAccess(s: Tokens, token: string, now: real): (Tokens, Option<AccessToken>) {
    if token !in s.access then (s, None)
    else if Past(s.access[token].expiresAt, now) then (s.(access := s.access - {token}), None)
    else (s, Some(s.access[token]))
  }

  function LoadingRefresh(s: Tokens, clientId: Option<string>, token: string, now: real): (Tokens, Option<RefreshToken>) {
    if token !in s.refresh then (s, None)
    else if Some(s.refresh[token].clientId) != clientId then (s, None)
    else if Past(s.refresh[token].expiresAt, now) then (WithoutRefresh(s, token), None)
    else (s, Some(s.refresh[token]))
  }

  function ScopeSet(scopes: seq<string>): set<string> { set x | x in scopes }

  /** `chosen` is the order in which `list(set(requested))` happens to come out. */
  ghost predicate Listing(requested: seq<string>, chosen: seq<string>) {
    ScopeSet(chosen) == ScopeSet(requested) && forall i, j :: 0 <= i < j < |chosen| ==> chosen[i] != chosen[j]
  }

  function Exchanging(s: Tokens, clientId: Option<string>, token: RefreshToken, requested: seq<string>,
                      chosen: seq<string>, f: Fresh): (Tokens, Result<Issued, Error>)
  {
    if clientId.None? then (s, Err(NoClientId))
    else if requested != [] && !(ScopeSet(requested) <= ScopeSet(token.scopes)) then (s, Err(ScopeExceeded))
    else
      var resource := if token.token in s.resources then s.resources[token.token] else None;
      var scopes := if requested != [] then chosen else token.scopes;
      (WithoutRefresh(WithPair(s, f, clientId.value, scopes, resource), token.token),
       Ok(Issued(f.access, f.refresh, scopes)))
  }

  /** `handle_refresh_token_exchange` once the client is authenticated: load, then exchange. */
  function Refreshing(s: Tokens, clientId: string, token: string, requested: seq<string>, chosen: seq<string>,
                      loadedAt: real, f: Fresh): (Tokens, Result<Issued, Error>)
  {
    var (s', loaded) := LoadingRefresh(s, Some(clientId), token, loadedAt);
    if loaded.None? then (s', Err(InvalidGrant))
    else Exchanging(s', Some(clientId), loaded.value, requested, chosen, f)
  }

  function Revoking(s: Tokens, token: string): Tokens { s.(access := s.access - {token}) }

  function Introspecting(s: Tokens, token: string, now: real): (Tokens, Introspection) {
    var (s', loaded) := LoadingAccess(s, token, now);
    (s', if loaded.None? then Inactive
         else Active(loaded.value.clientId, loaded.value.scopes, loaded.value.expiresAt, loaded.value.resource))
  }

  // ---- the provider -----------------------------------------------------

  lemma RemovingAbsent<K, V>(m: map<K, V>, k: K)
    ensures k !in m ==> m - {k} == m
  {}

  class TaskManagerOAuthProvider {
    var authCodes: map<string, AuthCode>
    var tokens: map<string, AccessToken>
    var refreshTokens: map<string, RefreshToken>
    var refreshTokenResources: map<string, Option<string>>

    ghost function View(): Tokens
      reads this
    {
      Tokens(authCodes, tokens, refreshTokens, refreshTokenResources)
    }

    constructor ()
      ensures View() == Tokens(map[], map[], map[], map[])
    {
      authCodes, tokens, refreshTokens, refreshTokenResources := map[], map[], map[], map[];
    }

    method ExchangeAuthorizationCode(clientId: Option<string>, ac: AuthCode, f: Fresh) returns (r: Result<Issued, Error>)
      modifies this
      ensures (View(), r) == ExchangingCode(old(View()), clientId, ac, f)
    {
      if ac.code !in authCodes {
        return Err(InvalidCode);
      }
      if clientId.None? {
        return Err(NoClientId);
      }
      var refreshExpiresAt := f.refreshAt.Floor + REFRESH_TTL;
      var expiresAt := f.accessAt.Floor + ACCESS_TTL;
      var accessToken := AccessToken(clientId.value, ac.scopes, expiresAt, ac.resource);
      tokens := tokens[f.access := accessToken];
      refreshTokens := refreshTokens[f.refresh := RefreshToken(f.refresh, clientId.value, ac.scopes, refreshExpiresAt)];
      refreshTokenResources := refreshTokenResources[f.refresh := ac.resource];
      authCodes := authCodes - {ac.code};
      return Ok(Issued(f.access, f.refresh, ac.scopes));
    }

    method LoadAccessToken(token: string, now: real) returns (r: Option<AccessToken>)
      modifies this`tokens
      ensures (View(), r) == LoadingAccess(old(View()), token, now)
    {
      if token !in tokens {
        return None;
      }
      var accessToken := tokens[token];
      if accessToken.expiresAt != 0 && (accessToken.expiresAt as real) < now {
        tokens := tokens - {token};
        return None;
      }
      return Some(accessToken);
    }

    method LoadRefreshToken(clientId: Option<string>, token: string, now: real) returns (r: Option<RefreshToken>)
      modifies this
      ensures (View(), r) == LoadingRefresh(old(View()), clientId, token, now)
    {
      if token !in refreshTokens {
        return None;
      }
      var stored := refreshTokens[token];
      if Some(stored.clientId) != clientId {
        return None;
      }
      if stored.expiresAt != 0 && (stored.expiresAt as real) < now {
        RemovingAbsent(refreshTokenResources, token);
        refreshTokens := refreshTokens - {token};
        if token in refreshTokenResources {
          refreshTokenResources := refreshTokenResources - {token};
        }
        return None;
      }
      return Some(stored);
    }

    method ExchangeRefreshToken(clientId: Option<string>, token: RefreshToken, requested: seq<string>,
                                chosen: seq<string>, f: Fresh) returns (r: Result<Issued, Error>)
      modifies this
      ensures (View(), r) == Exchanging(old(View()), clientId, token, requested, chosen, f)
    {
      if clientId.None? {
        return Err(NoClientId);
      }
      var resource := if token.token in refreshTokenResources then refreshTokenResources[token.token] else None;
      var original := ScopeSet(token.scopes);
      var wanted := if requested != [] then ScopeSet(requested) else original;
      if !(wanted <= original) {
        return Err(ScopeExceeded);
      }
      var scopes := if requested != [] then chosen else token.scopes;
      var accessExpiresAt := f.accessAt.Floor + ACCESS_TTL;
      var refreshExpiresAt := f.refreshAt.Floor + REFRESH_TTL;
      tokens := tokens[f.access := AccessToken(clientId.value, scopes, accessExpiresAt, resource)];
      refreshTokens := refreshTokens[f.refresh := RefreshToken(f.refresh, clientId.value, scopes, refreshExpiresAt)];
      refreshTokenResources := refreshTokenResources[f.refresh := resource];
      RemovingAbsent(refreshTokens, token.token);
      RemovingAbsent(refreshTokenResources, token.token);
      if token.token in refreshTokens {
        refreshTokens := refreshTokens - {token.token};
      }
      if token.token in refreshTokenResources {
        refreshTokenResources := refreshTokenResources - {token.token};
      }
      return Ok(Issued(f.access, f.refresh, scopes));
    }

    method HandleRefreshTokenExchange(clientId: string, token: string, requested: seq<string>,
                                      chosen: seq<string>, loadedAt: real, f: Fresh) returns (r: Result<Issued, Error>)
      modifies this
      ensures (View(), r) == Refreshing(old(View()), clientId, token, requested, chosen, loadedAt, f)
    {
      var loaded := LoadRefreshToken(Some(clientId), token, loadedAt);
      if loaded.None? {
        return Err(InvalidGrant);
      }
      r := ExchangeRefreshToken(Some(clientId), loaded.value, requested, chosen, f);
    }

    /** The in-memory half of `_store_mcp_tokens`: a device grant has no resource. */
    method StoreMcpTokens(clientId: string, scopes: seq<string>, f: Fresh)
      modifies this
      ensures View() == WithPair(old(View()), f, clientId, scopes, None)
    {
      tokens := tokens[f.access := AccessToken(clientId, scopes, f.accessAt.Floor + ACCESS_TTL, None)];
      var refreshExpiresAt := f.refreshAt.Floor + REFRESH_TTL;
      refreshTokens := refreshTokens[f.refresh := RefreshToken(f.refresh, clientId, scopes, refreshExpiresAt)];
      refreshTokenResources := refreshTokenResources[f.refresh := None];
    }

    method RevokeToken(token: string)
      modifies this`tokens
      ensures View() == Revoking(old(View()), token)
    {
      if token in tokens {
        tokens := tokens - {token};
      }
    }

    method IntrospectToken(token: string, now: real) returns (r: Introspection)
      modifies this`tokens
      ensures (View(), r) == Introspecting(old(View()), token, now)
    {
      var loaded := LoadAccessToken(token, now);
      if loaded.None? {
        return Inactive;
      }
      var t := loaded.value;
      return Active(t.clientId, t.scopes, t.expiresAt, t.resource);
    }
  }
}
