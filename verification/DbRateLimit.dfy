/**
 The PostgreSQL-backed limiter of app/core/rate_limit.py: append-only attempt arrays in a
 shared table with row expiry, upserts and cleanup. Times are reals, in seconds.
 */
module DbRateLimit {
  import opened Like
  import opened WindowLog

  datatype Row = Row(attempts: seq<real>, expires: real)

  /** The `rate_limit` namespace of the shared_state table. */
  type Table = map<string, Row>

  // ---- the statements ---------------------------------------------------

  function DbKey(name: string, key: string): string { name + ":" + key }

  /** The upsert: append to the row there is, expired or not, and move its expiry. */
  function Recorded(t: Table, dbKey: string, at: real, expires: real): Table {
    t[dbKey := Row((if dbKey in t then t[dbKey].attempts else []) + [at], expires)]
  }

  function Cleaned(t: Table, name: string, now: real): Table {
    map k | k in t && !(Matches(k, name + ":%") && t[k].expires <= now) :: t[k]
  }

  /** Whether `check` raises: the row is fetched at `now`, its attempts are filtered at `later`. */
  function Limited(t: Table, dbKey: string, max: int, window: real, now: real, later: real): bool {
    dbKey in t && t[dbKey].expires > now && |Within(t[dbKey].attempts, later, window)| >= max
  }

  /** The shared_state table, changed by atomic statements only. */
  class SharedState {
    var rows: Table

    constructor ()
      ensures rows == map[]
    {
      rows := map[];
    }

    /** SELECT ... WHERE key = dbKey AND expires_at > now. */
    method Fetch(dbKey: string, now: real) returns (found: bool, attempts: seq<real>)
      ensures found <==> dbKey in rows && rows[dbKey].expires > now
      ensures found ==> attempts == rows[dbKey].attempts
    {
      found, attempts := false, [];
      if dbKey in rows && rows[dbKey].expires > now {
        found, attempts := true, rows[dbKey].attempts;
      }
    }

    /** INSERT ... ON CONFLICT DO UPDATE, with the expiry each branch computes. */
    method Upsert(dbKey: string, at: real, insertExpires: real, updateExpires: real)
      modifies this
      ensures rows == Recorded(old(rows), dbKey, at, if dbKey in old(rows) then updateExpires else insertExpires)
    {
      if dbKey in rows {
        rows := rows[dbKey := Row(rows[dbKey].attempts + [at], updateExpires)];
      } else {
        rows := rows[dbKey := Row([] + [at], insertExpires)];
      }
    }

    method DeleteKey(dbKey: string)
      modifies this
      ensures rows == old(rows) - {dbKey}
    {
      rows := rows - {dbKey};
    }

    method DeleteExpired(pattern: string, now: real)
      modifies this
      ensures rows == map k | k in old(rows) && !(Matches(k, pattern) && old(rows)[k].expires <= now) :: old(rows)[k]
    {
      rows := map k | k in rows && !(Matches(k, pattern) && rows[k].expires <= now) :: rows[k];
    }
  }

  datatype Outcome = Passed | RateLimited(retryAfter: int)

  class RateLimiter {
    const maxAttempts: int
    const windowMs: int
    const name: string
    const table: SharedState

    ghost function Window(): real { windowMs as real / 1000.0 }

    constructor (maxAttempts: int, windowMs: int, name: string, table: SharedState)
      ensures this.maxAttempts == maxAttempts && this.windowMs == windowMs
      ensures this.name == name && this.table == table
    {
      this.maxAttempts, this.windowMs, this.name, this.table := maxAttempts, windowMs, name, table;
    }

    method FilterAttempts(attempts: seq<real>, now: real) returns (kept: seq<real>)
      ensures kept == Within(attempts, now, Window())
    {
      var windowStart := now - windowMs as real / 1000.0;
      kept := [];
      for i := 0 to |attempts|
        invariant kept == Within(attempts[..i], now, Window())
      {
        assert attempts[..i + 1] == attempts[..i] + [attempts[i]];
        WithinConcat(attempts[..i], [attempts[i]], now, Window());
        if attempts[i] > windowStart {
          kept := kept + [attempts[i]];
        }
      }
      assert attempts[..|attempts|] == attempts;
    }

    method Check(key: string, now: real, later: real) returns (outcome: Outcome)
      ensures outcome.RateLimited? <==> Limited(table.rows, DbKey(name, key), maxAttempts, Window(), now, later)
      ensures outcome.RateLimited? ==> outcome.retryAfter == (windowMs as real / 1000.0).Floor
    {
      var found, stored := table.Fetch(DbKey(name, key), now);
      if found {
        var attempts := FilterAttempts(stored, later);
        if |attempts| >= maxAttempts {
          return RateLimited((windowMs as real / 1000.0).Floor);
        }
      }
      return Passed;
    }

    /** `now` and the two clock readings of `_expiry()` that follow it. */
    method Record(key: string, now: real, insertClock: real, updateClock: real)
      requires now <= insertClock <= updateClock
      modifies table
      ensures var clock := if DbKey(name, key) in old(table.rows) then updateClock else insertClock;
              && table.rows == Recorded(old(table.rows), DbKey(name, key), now, clock + Window())
              && clock + Window() >= now + Window()
    {
      var window := windowMs as real / 1000.0;
      table.Upsert(DbKey(name, key), now, insertClock + window, updateClock + window);
    }

    method Reset(key: string)
      modifies table
      ensures table.rows == old(table.rows) - {DbKey(name, key)}
    {
      table.DeleteKey(DbKey(name, key));
    }

    method Cleanup(now: real)
      modifies table
      ensures table.rows == Cleaned(old(table.rows), name, now)
    {
      table.DeleteExpired(name + ":%", now);
    }
  }

  // ---- runs of all limiters sharing the table ---------------------------

  datatype Action =
    | Record(name: string, key: string, now: real, expires: real)
    | Reset(name: string, key: string, now: real)
    | Cleanup(name: string, now: real)

  function Apply(t: Table, a: Action): Table {
    match a
    case Record(n, k, now, expires) => Recorded(t, DbKey(n, k), now, expires)
    case Reset(n, k, _) => t - {DbKey(n, k)}
    case Cleanup(n, now) => Cleaned(t, n, now)
  }

  function Run(actions: seq<Action>): Table {
    if actions == [] then map[] else Apply(Run(actions[..|actions| - 1]), actions[|actions| - 1])
  }

  predicate Records(a: Action, name: string, key: string) { a.Record? && a.name == name && a.key == key }

  function Logged(log: seq<real>, a: Action, name: string, key: string): seq<real> {
    if Records(a, name, key) then log + [a.now]
    else if a.Reset? && a.name == name && a.key == key then []
    else log
  }

  /** The reference: every record for the key since its last reset. */
  function Log(actions: seq<Action>, name: string, key: string): seq<real> {
    if actions == [] then []
    else Logged(Log(actions[..|actions| - 1], name, key), actions[|actions| - 1], name, key)
  }

  /**
   Limiter names have no colon, no upsert of this row pulls its expiry back before an
   earlier attempt has left the window, and no cleanup's clock is ahead of `horizon`.
   Writers whose statements take effect in clock order always comply.
   */
  ghost predicate Orderly(actions: seq<Action>, name: string, key: string, window: real, horizon: real) {
    && (forall i :: 0 <= i < |actions| ==> ':' !in actions[i].name)
    && (forall i :: 0 <= i < |actions| && actions[i].Cleanup? ==> actions[i].now <= horizon)
    && (forall i, j :: 0 <= i <= j < |actions| && Records(actions[i], name, key) && Records(actions[j], name, key) ==>
          actions[j].expires >= actions[i].now + window)
  }

  /** Colon-free names keep the limiters' keys apart. */
  lemma {:induction false} DbKeyInjective(a: string, k: string, b: string, l: string)
    requires ':' !in a && ':' !in b && DbKey(a, k) == DbKey(b, l)
    ensures a == b && k == l
  {
    var x, y := DbKey(a, k), DbKey(b, l);
    assert x[|a|] == ':' && y[|b|] == ':';
    assert forall i :: 0 <= i < |a| ==> x[i] == a[i];
    assert forall i :: 0 <= i < |b| ==> y[i] == b[i];
    assert a == x[..|a|] && b == y[..|b|];
    assert k == x[|a| + 1..] && l == y[|b| + 1..];
  }

  /** With a colon in a name two limiters can share a row. */
  lemma ColonCollides()
    ensures DbKey("a", "b:c") == DbKey("a:b", "c")
  {}

  // ---- the invariant ----------------------------------------------------

  /** The row has the log but for its first k records. */
  ghost predicate Holds(t: Table, dbKey: string, log: seq<real>, k: nat) {
    k <= |log| && if dbKey in t then t[dbKey].attempts == log[k..] else k == |log|
  }

  /** The records the row lacks are out of every window from `horizon` on, the others until the row expires. */
  ghost predicate Explained(t: Table, dbKey: string, log: seq<real>, k: nat, window: real, horizon: real) {
    && Holds(t, dbKey, log, k)
    && (forall i :: 0 <= i < k ==> log[i] + window <= horizon)
    && (dbKey in t ==> forall i :: k <= i < |log| ==> log[i] + window <= t[dbKey].expires)
  }

  /** How many records of the log the row lacks after the statement. */
  function Lacking(t: Table, a: Action, name: string, key: string, log: seq<real>, k: nat): nat {
    if a.Reset? && a.name == name && a.key == key then 0
    else if a.Cleanup? && DbKey(name, key) !in Apply(t, a) then |log|
    else k
  }

  /** A statement about another row, by name or by key, leaves this one alone. */
  lemma OtherRow(t: Table, a: Action, name: string, key: string)
    requires ':' !in name && ':' !in a.name && !a.Cleanup? && (a.name != name || a.key != key)
    ensures var row := DbKey(name, key);
            (row in Apply(t, a) <==> row in t) && (row in t ==> Apply(t, a)[row] == t[row])
  {
    if DbKey(a.name, a.key) == DbKey(name, key) {
      DbKeyInjective(a.name, a.key, name, key);
    }
  }

  /** One statement of any limiter keeps the row holding its share of the log. */
  lemma StatementHolds(t: Table, a: Action, name: string, key: string, log: seq<real>, k: nat)
    requires Holds(t, DbKey(name, key), log, k) && ':' !in name && ':' !in a.name
    ensures Holds(Apply(t, a), DbKey(name, key), Logged(log, a, name, key), Lacking(t, a, name, key, log, k))
  {
    if !a.Cleanup? && (a.name != name || a.key != key) {
      OtherRow(t, a, name, key);
    }
  }

  /** And explained, if it does not pull the expiry back. */
  lemma StatementExplains(t: Table, a: Action, name: string, key: string, log: seq<real>, k: nat,
                          window: real, horizon: real)
    requires Explained(t, DbKey(name, key), log, k, window, horizon) && ':' !in name && ':' !in a.name
    requires a.Cleanup? ==> a.now <= horizon
    requires Records(a, name, key) ==> forall i :: 0 <= i < |log| ==> a.expires >= log[i] + window
    requires Records(a, name, key) ==> a.expires >= a.now + window
    ensures Explained(Apply(t, a), DbKey(name, key), Logged(log, a, name, key), Lacking(t, a, name, key, log, k),
                      window, horizon)
  {
    StatementHolds(t, a, name, key, log, k);
    if !a.Cleanup? && (a.name != name || a.key != key) {
      OtherRow(t, a, name, key);
    }
  }

  lemma {:induction false} AlwaysHolds(actions: seq<Action>, name: string, key: string) returns (k: nat)
    requires ':' !in name && forall i :: 0 <= i < |actions| ==> ':' !in actions[i].name
    ensures Holds(Run(actions), DbKey(name, key), Log(actions, name, key), k)
  {
    k := 0;
    if actions != [] {
      var earlier, a := actions[..|actions| - 1], actions[|actions| - 1];
      k := AlwaysHolds(earlier, name, key);
      StatementHolds(Run(earlier), a, name, key, Log(earlier, name, key), k);
      k := Lacking(Run(earlier), a, name, key, Log(earlier, name, key), k);
    }
  }

  /** Every record in the log is one of the run. */
  lemma {:induction false} LogRecords(actions: seq<Action>, name: string, key: string, i: nat) returns (j: nat)
    requires i < |Log(actions, name, key)|
    ensures j < |actions| && Records(actions[j], name, key) && actions[j].now == Log(actions, name, key)[i]
  {
    var n := |actions| - 1;
    if i < |Log(actions[..n], name, key)| {
      j := LogRecords(actions[..n], name, key, i);
    } else {
      j := n;
    }
  }

  lemma {:induction false} AlwaysExplained(actions: seq<Action>, name: string, key: string, window: real, horizon: real)
    returns (k: nat)
    requires Orderly(actions, name, key, window, horizon) && ':' !in name
    ensures Explained(Run(actions), DbKey(name, key), Log(actions, name, key), k, window, horizon)
  {
    k := 0;
    if actions != [] {
      var n := |actions| - 1;
      var earlier, a := actions[..n], actions[n];
      var log := Log(earlier, name, key);
      k := AlwaysExplained(earlier, name, key, window, horizon);
      if Records(a, name, key) {
        forall i | 0 <= i < |log| ensures a.expires >= log[i] + window {
          var j := LogRecords(earlier, name, key, i);
          assert Records(actions[j], name, key) && Records(actions[n], name, key);
        }
      }
      StatementExplains(Run(earlier), a, name, key, log, k, window, horizon);
      k := Lacking(Run(earlier), a, name, key, log, k);
    }
  }

  /** In whatever order the workers' statements take effect, `check` never raises on too few records. */
  lemma NeverTooStrict(actions: seq<Action>, name: string, key: string, max: int, window: real, now: real, later: real)
    requires ':' !in name && forall i :: 0 <= i < |actions| ==> ':' !in actions[i].name
    requires Limited(Run(actions), DbKey(name, key), max, window, now, later)
    ensures |Within(Log(actions, name, key), later, window)| >= max
  {
    var k := AlwaysHolds(actions, name, key);
    var log := Log(actions, name, key);
    assert log[..k] + log[k..] == log;
    WithinConcat(log[..k], log[k..], later, window);
  }

  /**
   Exactness: `check` raises if and only if at least max_attempts records since the last
   reset are inside the window, whatever was upserted, expired or cleaned up in between
   and whatever the other limiters did to the table.
   */
  lemma CheckIsExact(actions: seq<Action>, name: string, key: string, max: int, window: real,
                     now: real, later: real)
    requires Orderly(actions, name, key, window, later) && ':' !in name && max >= 1 && now <= later
    ensures Limited(Run(actions), DbKey(name, key), max, window, now, later)
            <==> |Within(Log(actions, name, key), later, window)| >= max
  {
    var k := AlwaysExplained(actions, name, key, window, later);
    var t, log, dbKey := Run(actions), Log(actions, name, key), DbKey(name, key);
    assert log[..k] + log[k..] == log;
    WithinConcat(log[..k], log[k..], later, window);
    WithinNone(log[..k], later, window);
    if dbKey in t && t[dbKey].expires <= now {
      WithinNone(log[k..], later, window);
    }
  }

  /** Statements in clock order are orderly. */
  lemma ClockOrderIsOrderly(actions: seq<Action>, name: string, key: string, window: real, horizon: real)
    requires forall i :: 0 <= i < |actions| ==> ':' !in actions[i].name && actions[i].now <= horizon
    requires forall i, j :: 0 <= i < j < |actions| ==> actions[i].now <= actions[j].now
    requires forall i :: 0 <= i < |actions| && actions[i].Record? ==> actions[i].expires >= actions[i].now + window
    ensures Orderly(actions, name, key, window, horizon)
  {}

  // ---- writers out of clock order ---------------------------------------

  /**
   `check` goes by the row alone: it must be there, not expired, and hold enough attempts that
   are still in the window.
   */
  lemma LimitedExactly(t: Table, dbKey: string, max: int, window: real, now: real, later: real)
    ensures Limited(t, dbKey, max, window, now, later) <==>
            dbKey in t && now < t[dbKey].expires && |Recent(t[dbKey].attempts, later, window)| >= max
  {
    if dbKey in t {
      WithinCount(t[dbKey].attempts, later, window);
    }
  }

  /** Whether a row answers for its attempts at every later time, for every limit. */
  ghost predicate AnswersAlways(row: Row, window: real) {
    forall now: real, max: int :: max >= 1 ==> AnswersAt(row, window, now, max)
  }

  ghost predicate AnswersAt(row: Row, window: real, now: real, max: int) {
    Limited(map["k" := row], "k", max, window, now, now) <==> |Within(row.attempts, now, window)| >= max
  }

  /** A row does so if and only if it expires no earlier than its latest attempt leaves the window. */
  lemma RowIsExact(row: Row, window: real)
    ensures AnswersAlways(row, window)
            <==> forall i :: 0 <= i < |row.attempts| ==> row.attempts[i] + window <= row.expires
  {
    if forall i :: 0 <= i < |row.attempts| ==> row.attempts[i] + window <= row.expires {
      forall now: real, max: int | max >= 1 ensures AnswersAt(row, window, now, max) {
        if row.expires <= now {
          WithinNone(row.attempts, now, window);
        }
      }
    } else {
      var i :| 0 <= i < |row.attempts| && row.attempts[i] + window > row.expires;
      WithinHas(row.attempts, i, row.expires, window);
      assert !AnswersAt(row, window, row.expires, 1);
    }
  }

  /** A worker that read the clock first but writes second pulls the expiry back. */
  lemma LateWriterHides(window: real)
    requires window > 0.0
    ensures var t := Recorded(Recorded(map[], "login:u", 11.0, 11.0 + window), "login:u", 10.0, 10.0 + window);
            !AnswersAlways(t["login:u"], window)
  {
    var row := Row([11.0] + [10.0], 10.0 + window);
    assert [] + [11.0] == [11.0];
    RowIsExact(row, window);
    assert row.attempts[0] + window > row.expires;
  }

  // ---- cleanup ----------------------------------------------------------

  /**
   The cleanup pattern of a limiter reaches its own rows, and, `_` being a wildcard, those
   of any limiter whose name differs only where this one has an underscore.
   */
  lemma {:induction false} PatternReaches(other: string, name: string, key: string)
    requires '\\' !in name && |other| == |name|
    requires forall i :: 0 <= i < |name| ==> name[i] == '_' || other[i] == name[i]
    ensures Matches(DbKey(other, key), name + ":%")
  {
    var s, p := DbKey(other, key), name + ":%";
    if name == "" {
      assert s == ":" + key && p[1..] == "%" && s[1..] == key;
      PercentMatchesAll(key);
    } else {
      PatternReaches(other[1..], name[1..], key);
      assert s[1..] == DbKey(other[1..], key) && p[1..] == name[1..] + ":%";
      assert s[0] == other[0] && p[0] == name[0];
    }
  }

  /** The key is that of a limiter of this name, up to what an underscore in the name stands for. */
  ghost predicate Reached(name: string, k: string) {
    && |k| > |name| && k[|name|] == ':'
    && forall i :: 0 <= i < |name| ==> name[i] == '_' || k[i] == name[i]
  }

  lemma {:induction false} PatternExactly(name: string, k: string)
    requires '%' !in name && '\\' !in name
    ensures Matches(k, name + ":%") <==> Reached(name, k)
  {
    var p := name + ":%";
    if name == "" {
      assert p[1..] == "%";
      if k != "" {
        PercentMatchesAll(k[1..]);
      }
    } else {
      assert p[1..] == name[1..] + ":%" && p[0] == name[0];
      if k != "" {
        PatternExactly(name[1..], k[1..]);
        ReachedTail(name, k);
      }
    }
  }

  lemma ReachedTail(name: string, k: string)
    requires name != "" && k != ""
    ensures Reached(name, k) <==> (name[0] == '_' || k[0] == name[0]) && Reached(name[1..], k[1..])
  {
    assert forall i :: 0 < i < |name| ==> name[i] == name[1..][i - 1];
    assert forall i :: 0 < i < |k| ==> k[i] == k[1..][i - 1];
    assert forall i :: 0 <= i < |name| - 1 ==> name[1..][i] == name[i + 1];
  }

  /** In every run a cleanup removes exactly the expired rows under such keys. */
  lemma CleanupExactly(actions: seq<Action>, name: string, now: real, k: string)
    requires '%' !in name && '\\' !in name
    ensures var t, t' := Run(actions), Run(actions + [Cleanup(name, now)]);
            && (k in t' <==> k in t && !(t[k].expires <= now && Reached(name, k)))
            && (k in t' ==> t'[k] == t[k])
  {
    assert (actions + [Cleanup(name, now)])[..|actions|] == actions;
    PatternExactly(name, k);
  }

  /** Cleanup removes every expired row of its limiter, and never a row that has not expired. */
  lemma CleanupComplete(t: Table, name: string, now: real)
    requires '\\' !in name
    ensures forall key: string :: DbKey(name, key) in Cleaned(t, name, now) ==>
              Cleaned(t, name, now)[DbKey(name, key)].expires > now
    ensures forall k :: k in t && t[k].expires > now ==> k in Cleaned(t, name, now) && Cleaned(t, name, now)[k] == t[k]
  {
    forall key: string | DbKey(name, key) in Cleaned(t, name, now)
      ensures Cleaned(t, name, now)[DbKey(name, key)].expires > now
    {
      PatternReaches(name, name, key);
    }
  }
}
