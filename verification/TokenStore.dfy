/**
 The two token stores of mcp_auth_framework/storage. Access and refresh tokens are kept
 by the same code in two tables; one table is modelled. The clock is real: the memory
 store truncates it to whole seconds, the PostgreSQL store does not.
 */
module TokenStore {
  import opened Basics

  /** What a caller stores. */
  datatype Data = Data(clientId: string, scopes: seq<string>, expiresAt: int, resource: Option<string>)

  /** What a load answers: that, and the second of `created_at`. */
  datatype Row = Row(data: Data, createdAt: int)

  type Rows = map<string, Row>

  datatype Kind = Memory | Postgres

  // ---- scopes as one string ---------------------------------------------

  /** What `str.split()` splits on. */
  predicate IsSpace(c: char) {
    var n := c as int;
    || 9 <= n <= 13 || 28 <= n <= 32 || n == 133 || n == 160 || n == 0x1680 || 0x2000 <= n <= 0x200A
    || n == 0x2028 || n == 0x2029 || n == 0x202F || n == 0x205F || n == 0x3000
  }

  /** `" ".join(scopes)` */
  function Join(scopes: seq<string>): string {
    if scopes == [] then ""
    else if |scopes| == 1 then scopes[0]
    else scopes[0] + " " + Join(scopes[1..])
  }

  /** The length of the word at the front. */
  function WordLength(s: string): (k: nat)
    ensures k <= |s| && forall i :: 0 <= i < k ==> !IsSpace(s[i])
    ensures k < |s| ==> IsSpace(s[k])
  {
    if s == "" || IsSpace(s[0]) then 0 else 1 + WordLength(s[1..])
  }

  /** `s.split()`, which is `[]` for the empty string. */
  function Split(s: string): seq<string>
    decreases |s|
  {
    if s == "" then []
    else if IsSpace(s[0]) then Split(s[1..])
    else
      var k := WordLength(s);
      [s[..k]] + Split(s[k..])
  }

  /** A scope token of section 3.3 of RFC 6749 is not empty and has no whitespace. */
  ghost predicate Word(s: string) {
    s != "" && forall i :: 0 <= i < |s| ==> !IsSpace(s[i])
  }

  ghost predicate Words(scopes: seq<string>) {
    forall i :: 0 <= i < |scopes| ==> Word(scopes[i])
  }

  lemma {:induction false} SplitGivesWords(s: string)
    ensures Words(Split(s))
    decreases |s|
  {
    if s != "" {
      if IsSpace(s[0]) {
        SplitGivesWords(s[1..]);
      } else {
        SplitGivesWords(s[WordLength(s)..]);
      }
    }
  }

  lemma SplitWord(w: string, rest: string)
    requires Word(w) && (rest == "" || IsSpace(rest[0]))
    ensures Split(w + rest) == [w] + Split(rest)
  {
    var s := w + rest;
    var k := WordLength(s);
    assert forall i :: 0 <= i < |w| ==> s[i] == w[i];
    assert rest != "" ==> s[|w|] == rest[0];
    assert k == |w|;
    assert s[..k] == w && s[k..] == rest;
  }

  lemma {:induction false} SplitJoinWords(scopes: seq<string>)
    requires Words(scopes)
    ensures Split(Join(scopes)) == scopes
  {
    if |scopes| == 1 {
      SplitWord(scopes[0], "");
      assert scopes[0] + "" == scopes[0];
    } else if |scopes| > 1 {
      var rest := " " + Join(scopes[1..]);
      assert Words(scopes[1..]);
      SplitJoinWords(scopes[1..]);
      assert rest[1..] == Join(scopes[1..]);
      SplitWord(scopes[0], rest);
      assert Join(scopes) == scopes[0] + rest;
    }
  }

  /** The joined column gives back the list it was made from if and only if every scope is a word. */
  lemma ScopesRoundTrip(scopes: seq<string>)
    ensures Split(Join(scopes)) == scopes <==> Words(scopes)
  {
    SplitGivesWords(Join(scopes));
    if Words(scopes) {
      SplitJoinWords(scopes);
    }
  }

  function WithoutSpaces(s: string): string {
    if s == "" then "" else (if IsSpace(s[0]) then "" else [s[0]]) + WithoutSpaces(s[1..])
  }

  function Glued(words: seq<string>): string { if words == [] then "" else words[0] + Glued(words[1..]) }

  /** Splitting loses white space and nothing else, whatever the text. */
  lemma {:induction false} SplitLosesOnlySpaces(s: string)
    ensures Glued(Split(s)) == WithoutSpaces(s)
    decreases |s|
  {
    if s != "" {
      if IsSpace(s[0]) {
        SplitLosesOnlySpaces(s[1..]);
      } else {
        var k := WordLength(s);
        SplitLosesOnlySpaces(s[k..]);
        WordKept(s, k);
      }
    }
  }

  lemma {:induction false} WordKept(s: string, k: nat)
    requires k <= |s| && forall i :: 0 <= i < k ==> !IsSpace(s[i])
    ensures WithoutSpaces(s) == s[..k] + WithoutSpaces(s[k..])
  {
    if k > 0 {
      WordKept(s[1..], k - 1);
      assert s[..k] == [s[0]] + s[1..][..k - 1] && s[1..][k - 1..] == s[k..];
    } else {
      assert s[0..] == s;
    }
  }

  // ---- the ideal --------------------------------------------------------

  /** Whether a store of this kind calls the expiry time past. */
  predicate Stale(kind: Kind, expiresAt: int, now: real) {
    match kind
    case Memory => expiresAt < now.Floor
    case Postgres => (expiresAt as real) < now
  }

  /** What a store of this kind keeps of what it is given: PostgreSQL joins the scopes and splits them again. */
  function Kept(kind: Kind, d: Data): Data {
    match kind
    case Memory => d
    case Postgres => d.(scopes := Split(Join(d.scopes)))
  }

  /** What a load answers on the rows of a store. */
  function Visible(kind: Kind, rows: Rows, token: string, now: real): Option<Row> {
    if token in rows && !Stale(kind, rows[token].data.expiresAt, now) then Some(rows[token]) else None
  }

  /** What it must answer but for `created_at`, by a map nothing is ever removed from but by deletion. */
  function Promised(kind: Kind, ideal: map<string, Data>, token: string, now: real): Option<Data> {
    if token in ideal && !Stale(kind, ideal[token].expiresAt, now) then Some(Kept(kind, ideal[token])) else None
  }

  datatype Act =
    | Put(token: string, data: Data, now: real)
    | Fetch(token: string, now: real)
    | Drop(token: string, now: real)
    | Sweep(now: real)

  /** The column's default, CURRENT_TIMESTAMP, fills `created_at` at an insertion; the upsert leaves it alone. */
  function CreatedAt(kind: Kind, rows: Rows, token: string, now: real): int {
    if kind.Postgres? && token in rows then rows[token].createdAt else now.Floor
  }

  /** The rows a store keeps: a load deletes what it finds expired, a sweep all of that. */
  function Apply(kind: Kind, rows: Rows, a: Act): Rows {
    match a
    case Put(t, d, now) => rows[t := Row(Kept(kind, d), CreatedAt(kind, rows, t, now))]
    case Fetch(t, now) => if t in rows && Stale(kind, rows[t].data.expiresAt, now) then rows - {t} else rows
    case Drop(t, _) => rows - {t}
    case Sweep(now) => map t | t in rows && !Stale(kind, rows[t].data.expiresAt, now) :: rows[t]
  }

  function From(kind: Kind, rows: Rows, acts: seq<Act>): Rows {
    if acts == [] then rows else Apply(kind, From(kind, rows, acts[..|acts| - 1]), acts[|acts| - 1])
  }

  function RowsAfter(kind: Kind, acts: seq<Act>): Rows { From(kind, map[], acts) }

  /** Exactly what was stored and not deleted. */
  function IdealAfter(acts: seq<Act>): map<string, Data> {
    if acts == [] then map[]
    else
      var rows, a := IdealAfter(acts[..|acts| - 1]), acts[|acts| - 1];
      match a
      case Put(t, d, _) => rows[t := d]
      case Drop(t, _) => rows - {t}
      case _ => rows
  }

  ghost predicate Forward(acts: seq<Act>) {
    forall i, j :: 0 <= i < j < |acts| ==> acts[i].now <= acts[j].now
  }

  /** The rows of the store are rows of the ideal. */
  ghost predicate Reflects(kind: Kind, rows: Rows, ideal: map<string, Data>) {
    forall t :: t in rows ==> t in ideal && rows[t].data == Kept(kind, ideal[t])
  }

  /** And it lacks nothing but what is already past. */
  ghost predicate Mirrors(kind: Kind, rows: Rows, ideal: map<string, Data>, now: real) {
    && Reflects(kind, rows, ideal)
    && (forall t :: t in ideal && t !in rows ==> Stale(kind, ideal[t].expiresAt, now))
  }

  lemma StaleStays(kind: Kind, expiresAt: int, early: real, late: real)
    requires early <= late && Stale(kind, expiresAt, early)
    ensures Stale(kind, expiresAt, late)
  {}

  lemma {:induction false} AlwaysReflects(kind: Kind, acts: seq<Act>)
    ensures Reflects(kind, RowsAfter(kind, acts), IdealAfter(acts))
  {
    if acts != [] {
      AlwaysReflects(kind, acts[..|acts| - 1]);
    }
  }

  lemma {:induction false} AlwaysMirrors(kind: Kind, acts: seq<Act>, now: real)
    requires Forward(acts) && (acts != [] ==> acts[|acts| - 1].now <= now)
    ensures Mirrors(kind, RowsAfter(kind, acts), IdealAfter(acts), now)
  {
    AlwaysReflects(kind, acts);
    if acts != [] {
      var n := |acts| - 1;
      AlwaysMirrors(kind, acts[..n], acts[n].now);
      forall e | Stale(kind, e, acts[n].now) ensures Stale(kind, e, now) {
        StaleStays(kind, e, acts[n].now, now);
      }
    }
  }

  /** Whether two answers agree but for `created_at`. */
  predicate Same(v: Option<Row>, p: Option<Data>) { if v.Some? then p == Some(v.value.data) else p.None? }

  /**
   Lazy deletion and sweeps, whenever they happen, never change what a later load answers
   but for `created_at`.
   */
  lemma {:induction false} Transparent(kind: Kind, acts: seq<Act>, token: string, now: real)
    requires Forward(acts) && (acts != [] ==> acts[|acts| - 1].now <= now)
    ensures Same(Visible(kind, RowsAfter(kind, acts), token, now), Promised(kind, IdealAfter(acts), token, now))
  {
    AlwaysMirrors(kind, acts, now);
  }

  // ---- when a row was created -------------------------------------------

  ghost predicate PutAt(acts: seq<Act>, i: nat, token: string) { i < |acts| && acts[i].Put? && acts[i].token == token }

  /** Call j takes the row of the token away, if there is one: a deletion, or an encounter after its expiry. */
  ghost predicate Removes(acts: seq<Act>, j: nat, token: string)
    requires j < |acts|
  {
    var ideal := IdealAfter(acts[..j]);
    match acts[j]
    case Put(_, _, _) => false
    case Drop(t, _) => t == token
    case Fetch(t, now) => t == token && token in ideal && Stale(Postgres, ideal[token].expiresAt, now)
    case Sweep(now) => token in ideal && Stale(Postgres, ideal[token].expiresAt, now)
  }

  /** No call after i takes the row away. */
  ghost predicate Survives(acts: seq<Act>, i: nat, token: string) {
    forall j :: i < j < |acts| ==> !Removes(acts, j, token)
  }

  /** Call i stored the token, and the row has been there since. */
  ghost predicate Standing(acts: seq<Act>, i: nat, token: string) { PutAt(acts, i, token) && Survives(acts, i, token) }

  /** The first such call. */
  ghost predicate Inserted(acts: seq<Act>, i: nat, token: string) {
    Standing(acts, i, token) && forall k :: 0 <= k < i ==> !Standing(acts, k, token)
  }

  lemma StandingEarlier(acts: seq<Act>, n: nat, i: nat, token: string)
    requires n + 1 == |acts| && i < n
    ensures Standing(acts, i, token) <==> Standing(acts[..n], i, token) && !Removes(acts, n, token)
  {
    forall j | i < j < n ensures Removes(acts[..n], j, token) <==> Removes(acts, j, token) {
      assert acts[..n][..j] == acts[..j];
    }
  }

  lemma StandingAtEnd(acts: seq<Act>, n: nat, token: string)
    requires n + 1 == |acts|
    ensures Standing(acts, n, token) <==> PutAt(acts, n, token)
  {}

  lemma InsertedEarlier(acts: seq<Act>, n: nat, i: nat, token: string)
    requires n + 1 == |acts| && Inserted(acts[..n], i, token) && !Removes(acts, n, token)
    ensures Inserted(acts, i, token)
  {
    forall k: nat | k <= i ensures Standing(acts, k, token) <==> Standing(acts[..n], k, token) {
      StandingEarlier(acts, n, k, token);
    }
  }

  lemma InsertedLast(acts: seq<Act>, n: nat, token: string)
    requires n + 1 == |acts| && PutAt(acts, n, token) && forall i: nat :: i < n ==> !Standing(acts[..n], i, token)
    ensures Inserted(acts, n, token)
  {
    StandingAtEnd(acts, n, token);
    forall k: nat | k < n ensures !Standing(acts, k, token) {
      StandingEarlier(acts, n, k, token);
    }
  }

  lemma NoneStanding(acts: seq<Act>, n: nat, token: string)
    requires n + 1 == |acts| && !PutAt(acts, n, token)
    requires Removes(acts, n, token) || forall i: nat :: i < n ==> !Standing(acts[..n], i, token)
    ensures forall i: nat :: !Standing(acts, i, token)
  {
    forall i: nat ensures !Standing(acts, i, token) {
      if i < n {
        StandingEarlier(acts, n, i, token);
      }
    }
  }

  /** What the last call does to one row of the PostgreSQL store. */
  lemma LastCall(acts: seq<Act>, token: string)
    requires acts != []
    ensures var n := |acts| - 1;
            var rows, rows' := RowsAfter(Postgres, acts[..n]), RowsAfter(Postgres, acts);
            && (token in rows' <==> PutAt(acts, n, token) || (token in rows && !Removes(acts, n, token)))
            && (token in rows' ==>
                  rows'[token].createdAt == if token in rows then rows[token].createdAt else acts[n].now.Floor)
  {
    AlwaysReflects(Postgres, acts[..|acts| - 1]);
  }

  /**
   The PostgreSQL store has a row exactly if some call stored it and none has taken it away
   since, and the row was created by the first such call.
   */
  lemma {:induction false} CreatedByFirstStanding(acts: seq<Act>, token: string)
    ensures var rows := RowsAfter(Postgres, acts);
            if token in rows then
              exists i: nat :: Inserted(acts, i, token) && rows[token].createdAt == acts[i].now.Floor
            else forall i: nat :: !Standing(acts, i, token)
  {
    if acts != [] {
      var n := |acts| - 1;
      var rows, rows' := RowsAfter(Postgres, acts[..n]), RowsAfter(Postgres, acts);
      CreatedByFirstStanding(acts[..n], token);
      LastCall(acts, token);
      if token !in rows' {
        NoneStanding(acts, n, token);
      } else if token in rows {
        var i: nat :| Inserted(acts[..n], i, token) && rows[token].createdAt == acts[..n][i].now.Floor;
        InsertedEarlier(acts, n, i, token);
        assert rows'[token].createdAt == acts[i].now.Floor;
      } else {
        InsertedLast(acts, n, token);
      }
    }
  }

  /** The memory store's row was created by the last call that stored it. */
  lemma {:induction false} CreatedByLast(acts: seq<Act>, token: string)
    requires token in RowsAfter(Memory, acts)
    ensures exists i: nat ::
              LastPut(acts, i, token) && RowsAfter(Memory, acts)[token].createdAt == acts[i].now.Floor
  {
    var n := |acts| - 1;
    if PutAt(acts, n, token) {
      assert LastPut(acts, n, token);
    } else {
      CreatedByLast(acts[..n], token);
      var i: nat :| LastPut(acts[..n], i, token) &&
                    RowsAfter(Memory, acts[..n])[token].createdAt == acts[..n][i].now.Floor;
      assert forall j :: i < j < n && PutAt(acts, j, token) ==> PutAt(acts[..n], j, token);
      assert LastPut(acts, i, token);
    }
  }

  ghost predicate LastPut(acts: seq<Act>, i: nat, token: string) {
    PutAt(acts, i, token) && forall j :: i < j < |acts| ==> !PutAt(acts, j, token)
  }

  // ---- what is removed --------------------------------------------------

  /** A cleanup leaves exactly the rows that were stored, not deleted, and not past by then. */
  lemma {:induction false} SweepExactly(kind: Kind, acts: seq<Act>, token: string, now: real)
    requires Forward(acts) && (acts != [] ==> acts[|acts| - 1].now <= now)
    ensures var ideal := IdealAfter(acts);
            token in Apply(kind, RowsAfter(kind, acts), Sweep(now)) <==>
            token in ideal && !Stale(kind, ideal[token].expiresAt, now)
  {
    AlwaysMirrors(kind, acts, now);
  }

  /** A load leaves its token exactly if it answers with it, and no other token is touched. */
  lemma {:induction false} FetchExactly(kind: Kind, acts: seq<Act>, token: string, now: real)
    requires Forward(acts) && (acts != [] ==> acts[|acts| - 1].now <= now)
    ensures var rows := RowsAfter(kind, acts);
            && (token in Apply(kind, rows, Fetch(token, now)) <==> Visible(kind, rows, token, now).Some?)
            && AllBut(rows, Apply(kind, rows, Fetch(token, now)), token)
    ensures var ideal := IdealAfter(acts);
            Visible(kind, RowsAfter(kind, acts), token, now).Some? <==>
            token in ideal && !Stale(kind, ideal[token].expiresAt, now)
  {
    AlwaysMirrors(kind, acts, now);
  }

  // ---- a load that awaits before it deletes -----------------------------

  /**
   A load deletes what it found expired in a statement of its own. Whatever is called before
   that takes effect, the store ends as if it had been deleted at once, if and only if the
   token is not stored again meanwhile and still there; then the new row is lost.
   */
  lemma LateDeletion(kind: Kind, rows: Rows, acts: seq<Act>, token: string)
    ensures var late, atOnce := From(kind, rows, acts) - {token}, From(kind, rows - {token}, acts);
            && (late == atOnce <==> token !in atOnce) && late == atOnce - {token}
            && (token in atOnce ==> exists i: nat :: PutAt(acts, i, token))
  {
    OthersAlike(kind, rows, acts, token);
    if token in From(kind, rows - {token}, acts) {
      StoredMeanwhile(kind, rows - {token}, acts, token);
    }
  }

  /** Two stores hold the same of every other token. */
  ghost predicate AllBut(rows: Rows, fewer: Rows, token: string) {
    forall t :: t != token ==> (t in rows <==> t in fewer) && (t in rows ==> rows[t] == fewer[t])
  }

  /** What a call does to the other tokens does not depend on this one. */
  lemma StayAlike(kind: Kind, rows: Rows, fewer: Rows, a: Act, token: string)
    requires AllBut(rows, fewer, token)
    ensures AllBut(Apply(kind, rows, a), Apply(kind, fewer, a), token)
  {}

  lemma {:induction false} OthersAlike(kind: Kind, rows: Rows, acts: seq<Act>, token: string)
    ensures AllBut(From(kind, rows, acts), From(kind, rows - {token}, acts), token)
  {
    if acts != [] {
      var earlier := acts[..|acts| - 1];
      OthersAlike(kind, rows, earlier, token);
      StayAlike(kind, From(kind, rows, earlier), From(kind, rows - {token}, earlier), acts[|acts| - 1], token);
    }
  }

  lemma {:induction false} StoredMeanwhile(kind: Kind, rows: Rows, acts: seq<Act>, token: string)
    requires token !in rows && token in From(kind, rows, acts)
    ensures exists i: nat :: PutAt(acts, i, token)
  {
    var n := |acts| - 1;
    if !PutAt(acts, n, token) {
      StoredMeanwhile(kind, rows, acts[..n], token);
      var i: nat :| PutAt(acts[..n], i, token);
      assert PutAt(acts, i, token);
    }
  }

  // ---- the two stores beside each other ---------------------------------

  /** All calls that stored the token while its row was there fell into one second. */
  ghost predicate StoredInOneSecond(acts: seq<Act>, token: string) {
    forall i, j :: 0 <= i < j && Standing(acts, i, token) && PutAt(acts, j, token) ==>
      acts[i].now.Floor == acts[j].now.Floor
  }

  lemma FloorsInOrder(acts: seq<Act>, i: nat, j: nat)
    requires Forward(acts) && i <= j < |acts|
    ensures acts[i].now.Floor <= acts[j].now.Floor
  {}

  /** That is when both stores report the same second of creation. */
  lemma CreatedAlike(acts: seq<Act>, token: string)
    requires Forward(acts) && token in RowsAfter(Memory, acts) && token in RowsAfter(Postgres, acts)
    ensures RowsAfter(Memory, acts)[token].createdAt == RowsAfter(Postgres, acts)[token].createdAt
            <==> StoredInOneSecond(acts, token)
  {
    CreatedByLast(acts, token);
    CreatedByFirstStanding(acts, token);
    var last: nat :| LastPut(acts, last, token) && RowsAfter(Memory, acts)[token].createdAt == acts[last].now.Floor;
    var first: nat :| Inserted(acts, first, token) &&
                      RowsAfter(Postgres, acts)[token].createdAt == acts[first].now.Floor;
    OneSecondMeans(acts, token, first, last);
  }

  lemma OneSecondMeans(acts: seq<Act>, token: string, first: nat, last: nat)
    requires Forward(acts) && Inserted(acts, first, token) && LastPut(acts, last, token)
    ensures StoredInOneSecond(acts, token) <==> acts[first].now.Floor == acts[last].now.Floor
  {
    assert first <= last;
    forall i, j | 0 <= i < j && Standing(acts, i, token) && PutAt(acts, j, token)
      ensures acts[first].now.Floor <= acts[i].now.Floor <= acts[j].now.Floor <= acts[last].now.Floor
    {
      assert first <= i && j <= last;
      FloorsInOrder(acts, first, i);
      FloorsInOrder(acts, i, j);
      FloorsInOrder(acts, j, last);
    }
  }

  /**
   After the same calls the two stores answer a load alike if and only if the clock is not
   strictly inside the second that starts at the token's expiry and, up to then, the
   token's scopes are non-empty words without whitespace and it was not stored again in
   another second while its row was there.
   */
  lemma {:induction false} StoresAgree(acts: seq<Act>, token: string, now: real)
    requires Forward(acts) && (acts != [] ==> acts[|acts| - 1].now <= now)
    ensures var ideal := IdealAfter(acts);
            Visible(Memory, RowsAfter(Memory, acts), token, now) ==
            Visible(Postgres, RowsAfter(Postgres, acts), token, now)
            <==> (token in ideal ==>
                    && !((ideal[token].expiresAt as real) < now < (ideal[token].expiresAt + 1) as real)
                    && (now <= ideal[token].expiresAt as real ==>
                          Words(ideal[token].scopes) && StoredInOneSecond(acts, token)))
  {
    Transparent(Memory, acts, token, now);
    Transparent(Postgres, acts, token, now);
    var ideal := IdealAfter(acts);
    if token in ideal {
      var e := ideal[token].expiresAt;
      assert e < now.Floor <==> (e + 1) as real <= now;
      if now <= e as real {
        ScopesRoundTrip(ideal[token].scopes);
        CreatedAlike(acts, token);
      }
    }
  }

  /**
   So `created_at` shows whether an expired row was removed before the token was stored
   again: the same calls, with a sweep in between and without one.
   */
  lemma SweepShows(token: string, old': Data, new': Data, first: real, swept: real, again: real)
    requires (old'.expiresAt as real) < swept
    ensures var kept := RowsAfter(Postgres, [Put(token, old', first), Put(token, new', again)]);
            token in kept && kept[token].createdAt == first.Floor
    ensures var removed := RowsAfter(Postgres, [Put(token, old', first), Sweep(swept), Put(token, new', again)]);
            token in removed && removed[token].createdAt == again.Floor
  {
    var put, sweep, put' := Put(token, old', first), Sweep(swept), Put(token, new', again);
    assert [put, put'] == [] + [put] + [put'] && [put, sweep, put'] == [] + [put] + [sweep] + [put'];
    OneMore([], put);
    OneMore([] + [put], put');
    OneMore([] + [put], sweep);
    OneMore([] + [put] + [sweep], put');
  }

  lemma OneMore(acts: seq<Act>, a: Act)
    ensures RowsAfter(Postgres, acts + [a]) == Apply(Postgres, RowsAfter(Postgres, acts), a)
  {
    assert (acts + [a])[..|acts|] == acts;
  }

  // ---- the memory store -------------------------------------------------

  lemma SweptExactly(before: Rows, after: Rows, expired: set<string>, now: real)
    requires expired == set t | t in before && before[t].data.expiresAt < now.Floor
    requires after.Keys == before.Keys - expired
    requires forall t :: t in after ==> after[t] == before[t]
    ensures after == Apply(Memory, before, Sweep(now))
    ensures before.Keys - after.Keys == expired
  {}

  datatype Error = NotInitialized

  class MemoryTokenStorage {
    var initialized: bool
    var tokens: Rows

    constructor ()
      ensures !initialized && tokens == map[]
    {
      initialized, tokens := false, map[];
    }

    method Initialize()
      modifies this`initialized
      ensures initialized
    {
      initialized := true;
    }

    method Close()
      modifies this
      ensures !initialized && tokens == map[]
    {
      initialized, tokens := false, map[];
    }

    method StoreToken(token: string, data: Data, now: real) returns (r: Result<(), Error>)
      modifies this`tokens
      ensures r.Ok? <==> initialized
      ensures tokens == if initialized then Apply(Memory, old(tokens), Put(token, data, now)) else old(tokens)
    {
      if !initialized {
        return Err(NotInitialized);
      }
      tokens := tokens[token := Row(data, now.Floor)];
      return Ok(());
    }

    method DeleteToken(token: string, now: real) returns (r: Result<(), Error>)
      modifies this`tokens
      ensures r.Ok? <==> initialized
      ensures tokens == if initialized then Apply(Memory, old(tokens), Drop(token, now)) else old(tokens)
    {
      if !initialized {
        return Err(NotInitialized);
      }
      if token in tokens {
        tokens := tokens - {token};
      }
      return Ok(());
    }

    method LoadToken(token: string, now: real) returns (r: Result<Option<Row>, Error>)
      modifies this`tokens
      ensures r.Ok? <==> initialized
      ensures r.Ok? ==> r.value == Visible(Memory, old(tokens), token, now)
      ensures tokens == if initialized then Apply(Memory, old(tokens), Fetch(token, now)) else old(tokens)
    {
      if !initialized {
        return Err(NotInitialized);
      }
      if token !in tokens {
        return Ok(None);
      }
      var row := tokens[token];
      if row.data.expiresAt < now.Floor {
        var _ := DeleteToken(token, now);
        return Ok(None);
      }
      return Ok(Some(row));
    }

    /** The expired keys are collected first and then deleted one by one. */
    method CleanupExpiredTokens(now: real) returns (r: Result<nat, Error>)
      modifies this`tokens
      ensures r.Ok? <==> initialized
      ensures tokens == if initialized then Apply(Memory, old(tokens), Sweep(now)) else old(tokens)
      ensures r.Ok? ==> r.value == |old(tokens).Keys - tokens.Keys|
    {
      if !initialized {
        return Err(NotInitialized);
      }
      var expired := set t | t in tokens && tokens[t].data.expiresAt < now.Floor;
      DeleteAll(expired);
      SweptExactly(old(tokens), tokens, expired, now);
      return Ok(|expired|);
    }

    /** The deletion loop of the cleanup. */
    method DeleteAll(expired: set<string>)
      modifies this`tokens
      ensures tokens.Keys == old(tokens).Keys - expired
      ensures forall t :: t in tokens ==> tokens[t] == old(tokens)[t]
    {
      var todo := expired;
      while todo != {}
        invariant todo <= expired
        invariant tokens.Keys == old(tokens).Keys - (expired - todo)
        invariant forall t :: t in tokens ==> tokens[t] == old(tokens)[t]
        decreases |todo|
      {
        var token :| token in todo;
        tokens, todo := tokens - {token}, todo - {token};
      }
    }
  }

  // ---- the PostgreSQL store ---------------------------------------------

  datatype Record =
    Record(clientId: string, scopes: string, resource: Option<string>, expiresAt: int, createdAt: real)

  function Shown(row: Record): Row {
    Row(Data(row.clientId, Split(row.scopes), row.expiresAt, row.resource), row.createdAt.Floor)
  }

  function Reported(table: map<string, Record>): Rows { map t | t in table :: Shown(table[t]) }

  lemma SweptView(table: map<string, Record>, expired: set<string>, now: real)
    requires forall t :: t in expired <==> t in table && (table[t].expiresAt as real) < now
    ensures Reported(table - expired) == Apply(Postgres, Reported(table), Sweep(now))
  {}

  class PostgresTokenStorage {
    /** Whether the connection pool is open. */
    var pool: bool
    var table: map<string, Record>

    /** The rows as the store reports them. */
    ghost function View(): Rows
      reads this
    {
      Reported(table)
    }

    constructor ()
      ensures !pool && View() == map[]
    {
      pool, table := false, map[];
    }

    method Initialize()
      modifies this`pool
      ensures pool
    {
      pool := true;
    }

    /** The rows outlive the pool. */
    method Close()
      modifies this`pool
      ensures !pool
    {
      pool := false;
    }

    method StoreToken(token: string, data: Data, now: real) returns (r: Result<(), Error>)
      modifies this`table
      ensures r.Ok? <==> pool
      ensures View() == if pool then Apply(Postgres, old(View()), Put(token, data, now)) else old(View())
      ensures pool && Words(data.scopes) ==> token in View() && View()[token].data == data
    {
      if !pool {
        return Err(NotInitialized);
      }
      ScopesRoundTrip(data.scopes);
      var createdAt := if token in table then table[token].createdAt else now;
      table := table[token := Record(data.clientId, Join(data.scopes), data.resource, data.expiresAt, createdAt)];
      return Ok(());
    }

    method DeleteToken(token: string, now: real) returns (r: Result<(), Error>)
      modifies this`table
      ensures r.Ok? <==> pool
      ensures View() == if pool then Apply(Postgres, old(View()), Drop(token, now)) else old(View())
    {
      if !pool {
        return Err(NotInitialized);
      }
      table := table - {token};
      return Ok(());
    }

    method LoadToken(token: string, now: real) returns (r: Result<Option<Row>, Error>)
      modifies this`table
      ensures r.Ok? <==> pool
      ensures r.Ok? ==> r.value == Visible(Postgres, old(View()), token, now)
      ensures View() == if pool then Apply(Postgres, old(View()), Fetch(token, now)) else old(View())
    {
      if !pool {
        return Err(NotInitialized);
      }
      if token !in table {
        return Ok(None);
      }
      var row := table[token];
      if (row.expiresAt as real) < now {
        var _ := DeleteToken(token, now);
        return Ok(None);
      }
      var scopes := if row.scopes != "" then Split(row.scopes) else [];
      return Ok(Some(Row(Data(row.clientId, scopes, row.expiresAt, row.resource), row.createdAt.Floor)));
    }

    method CleanupExpiredTokens(now: real) returns (r: Result<nat, Error>)
      modifies this`table
      ensures r.Ok? <==> pool
      ensures View() == if pool then Apply(Postgres, old(View()), Sweep(now)) else old(View())
      ensures r.Ok? ==> r.value == |old(table).Keys - table.Keys|
    {
      if !pool {
        return Err(NotInitialized);
      }
      var expired := set t | t in table && (table[t].expiresAt as real) < now;
      SweptView(table, expired, now);
      table := table - expired;
      assert old(table).Keys - table.Keys == expired;
      return Ok(|expired|);
    }
  }
}
