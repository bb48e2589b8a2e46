/**
 Registration-code use (app/api/registration_codes.py) under row locks, as concurrent
 transactions that commit or roll back (app/dependencies.py).
 */
module RegistrationCodes {
  import opened Basics

  datatype Row = Row(maxUses: int, currentUses: int, isActive: bool, expiresAt: Option<real>)

  datatype Verdict = Accepted | Invalid | Exhausted

  /** The checks in their order: unknown, inactive, used up, expired. */
  function Judge(row: Option<Row>, now: real): Verdict {
    if row.None? || !row.value.isActive then Invalid
    else if row.value.currentUses >= row.value.maxUses then Exhausted
    else if row.value.expiresAt.Some? && row.value.expiresAt.value < now then Invalid
    else Accepted
  }

  // ---- the locked row ---------------------------------------------------

  class RegistrationCode {
    var maxUses: int
    var currentUses: int
    var isActive: bool
    var expiresAt: Option<real>

    constructor (row: Row)
      ensures View() == row
    {
      maxUses, currentUses, isActive, expiresAt := row.maxUses, row.currentUses, row.isActive, row.expiresAt;
    }

    function View(): Row
      reads this
    {
      Row(maxUses, currentUses, isActive, expiresAt)
    }
  }

  /** What runs between taking the row lock and the end of the request. */
  method ValidateAndUse(code: RegistrationCode?, now: real) returns (verdict: Verdict)
    modifies code
    ensures verdict == Judge(if code == null then None else Some(old(code.View())), now)
    ensures code != null ==>
              code.View() ==
              old(code.View()).(currentUses := old(code.currentUses) + (if verdict.Accepted? then 1 else 0))
  {
    if code == null {
      return Invalid;
    }
    if !code.isActive {
      return Invalid;
    }
    if code.currentUses >= code.maxUses {
      return Exhausted;
    }
    if code.expiresAt.Some? && code.expiresAt.value < now {
      return Invalid;
    }
    code.currentUses := code.currentUses + 1;
    return Accepted;
  }

  // ---- transactions -----------------------------------------------------

  /** A registration waiting for its row, or one that has validated it and will write `uses`. */
  datatype Tx = Waiting(code: string) | Using(code: string, uses: int)

  /** `registered` counts the committed registrations through a code since it was created. */
  datatype Db = Db(rows: map<string, Row>, locks: map<string, nat>, txs: map<nat, Tx>, registered: map<string, nat>)

  datatype Step =
    | Create(code: string, maxUses: int, expiresAt: Option<real>)
    | Deactivate(code: string)
    | DeleteCode(code: string)
    | Enter(tx: nat, code: string)
    | Select(tx: nat, now: real)
    | Commit(tx: nat)
    | Rollback(tx: nat)

  const EMPTY := Db(map[], map[], map[], map[])

  function Lookup(rows: map<string, Row>, code: string): Option<Row> {
    if code in rows then Some(rows[code]) else None
  }

  /** One statement of one transaction; one that must wait for a row lock changes nothing yet. */
  function Next(locking: bool, d: Db, s: Step): Db {
    match s
    case Create(c, maxUses, expiresAt) =>
      if c in d.rows || maxUses < 1 then d
      else d.(rows := d.rows[c := Row(maxUses, 0, true, expiresAt)], registered := d.registered[c := 0])
    case Deactivate(c) =>
      if c !in d.rows || c in d.locks then d else d.(rows := d.rows[c := d.rows[c].(isActive := false)])
    case DeleteCode(c) =>
      if c !in d.rows || c in d.locks then d else d.(rows := d.rows - {c})
    case Enter(t, c) =>
      if t in d.txs then d else d.(txs := d.txs[t := Waiting(c)])
    case Select(t, now) =>
      if t !in d.txs || !d.txs[t].Waiting? || d.txs[t].code in d.locks then d
      else
        var c := d.txs[t].code;
        if !Judge(Lookup(d.rows, c), now).Accepted? then d.(txs := d.txs - {t})
        else d.(txs := d.txs[t := Using(c, d.rows[c].currentUses + 1)],
                locks := if locking then d.locks[c := t] else d.locks)
    case Commit(t) =>
      if t !in d.txs || !d.txs[t].Using? || d.txs[t].code !in d.rows then d
      else
        var c, uses := d.txs[t].code, d.txs[t].uses;
        Db(d.rows[c := d.rows[c].(currentUses := uses)], d.locks - {c}, d.txs - {t},
           d.registered[c := (if c in d.registered then d.registered[c] else 0) + 1])
    case Rollback(t) =>
      if t !in d.txs then d
      else d.(txs := d.txs - {t}, locks := if d.txs[t].Using? then d.locks - {d.txs[t].code} else d.locks)
  }

  function After(locking: bool, steps: seq<Step>): Db {
    if steps == [] then EMPTY else Next(locking, After(locking, steps[..|steps| - 1]), steps[|steps| - 1])
  }

  /** A transaction that has validated a code holds its row and will write one use more. */
  ghost predicate TxSound(d: Db, t: nat)
    requires t in d.txs
  {
    var tx := d.txs[t];
    tx.Using? ==>
      && tx.code in d.rows && tx.code in d.locks && d.locks[tx.code] == t
      && tx.uses == d.rows[tx.code].currentUses + 1 <= d.rows[tx.code].maxUses
  }

  ghost predicate Sound(d: Db) {
    && (forall c :: c in d.rows ==>
          c in d.registered && d.rows[c].currentUses == d.registered[c] && d.rows[c].currentUses <= d.rows[c].maxUses)
    && (forall t :: t in d.txs ==> TxSound(d, t))
    && (forall c :: c in d.locks ==> d.locks[c] in d.txs && d.txs[d.locks[c]].Using? && d.txs[d.locks[c]].code == c)
  }

  lemma CommitSound(d: Db, t: nat)
    requires Sound(d)
    ensures Sound(Next(true, d, Commit(t)))
  {
    var d' := Next(true, d, Commit(t));
    if d' != d {
      var c := d.txs[t].code;
      assert TxSound(d, t);
      forall u | u in d'.txs ensures TxSound(d', u) {
        assert TxSound(d, u);
      }
    }
  }

  lemma SelectSound(d: Db, t: nat, now: real)
    requires Sound(d)
    ensures Sound(Next(true, d, Select(t, now)))
  {
    var d' := Next(true, d, Select(t, now));
    forall u | u in d'.txs ensures TxSound(d', u) {
      if u in d.txs {
        assert TxSound(d, u);
      }
    }
  }

  lemma RollbackSound(d: Db, t: nat)
    requires Sound(d)
    ensures Sound(Next(true, d, Rollback(t)))
  {}

  /** Statements that wait for the lock, or bring in what nobody uses yet. */
  lemma UnusedSound(d: Db, s: Step)
    requires Sound(d) && (s.Create? || s.Deactivate? || s.DeleteCode? || s.Enter?)
    ensures Sound(Next(true, d, s))
  {
    var d' := Next(true, d, s);
    forall u | u in d'.txs ensures TxSound(d', u) {
      if u in d.txs {
        assert TxSound(d, u);
      }
    }
  }

  lemma StepSound(d: Db, s: Step)
    requires Sound(d)
    ensures Sound(Next(true, d, s))
  {
    match s
    case Commit(t) => CommitSound(d, t);
    case Select(t, now) => SelectSound(d, t, now);
    case Rollback(t) => RollbackSound(d, t);
    case _ => UnusedSound(d, s);
  }

  lemma {:induction false} AlwaysSound(steps: seq<Step>)
    ensures Sound(After(true, steps))
  {
    if steps != [] {
      AlwaysSound(steps[..|steps| - 1]);
      StepSound(After(true, steps[..|steps| - 1]), steps[|steps| - 1]);
    }
  }

  /**
   Conservation: in every interleaving of registrations that commit or roll back, a code's
   use count is the number of registrations committed through it and never exceeds its cap.
   */
  lemma UsesConserved(steps: seq<Step>, code: string)
    requires code in After(true, steps).rows
    ensures var d := After(true, steps);
            && code in d.registered
            && d.rows[code].currentUses == d.registered[code] <= d.rows[code].maxUses
  {
    AlwaysSound(steps);
  }

  // ---- which registrations are let in -----------------------------------

  /** The code is there, active, not used up, and not past its expiry. */
  ghost predicate Usable(rows: map<string, Row>, code: string, now: real) {
    && code in rows && rows[code].isActive && rows[code].currentUses < rows[code].maxUses
    && (rows[code].expiresAt.Some? ==> now <= rows[code].expiresAt.value)
  }

  /** Used up is said of active codes only, expired ones too; every other refusal says invalid. */
  lemma VerdictExactly(rows: map<string, Row>, code: string, now: real)
    ensures var verdict := Judge(Lookup(rows, code), now);
            && (verdict.Accepted? <==> Usable(rows, code, now))
            && (verdict.Exhausted? <==>
                code in rows && rows[code].isActive && rows[code].currentUses >= rows[code].maxUses)
  {}

  ghost predicate IsUsing(d: Db, t: nat) { t in d.txs && d.txs[t].Using? }

  /**
   A transaction is let in by its own select of an unlocked row that it finds usable, and by
   nothing else; it then means to write one use more.
   */
  lemma LetInExactly(d: Db, s: Step, t: nat)
    ensures IsUsing(Next(true, d, s), t) && !IsUsing(d, t) <==>
            && s.Select? && s.tx == t && t in d.txs && d.txs[t].Waiting? && d.txs[t].code !in d.locks
            && Usable(d.rows, d.txs[t].code, s.now)
    ensures IsUsing(Next(true, d, s), t) && !IsUsing(d, t) ==>
              var code := d.txs[t].code;
              Next(true, d, s).txs[t] == Using(code, d.rows[code].currentUses + 1)
  {}

  /** A waiting transaction that is refused is over, and nothing else has changed. */
  lemma RefusedChangesNothing(d: Db, t: nat, now: real)
    requires t in d.txs && d.txs[t].Waiting? && d.txs[t].code !in d.locks && !Usable(d.rows, d.txs[t].code, now)
    ensures Next(true, d, Select(t, now)) == d.(txs := d.txs - {t})
  {}

  // ---- what a row says --------------------------------------------------

  /** Step n makes the code; it takes a code that is not there and a positive number of uses. */
  ghost predicate CreatesAt(steps: seq<Step>, n: nat, code: string) {
    && n < |steps| && steps[n].Create? && steps[n].code == code && steps[n].maxUses >= 1
    && code !in After(true, steps[..n]).rows
  }

  /** Step n takes effect on the code's row: a deletion or a deactivation that need not wait. */
  ghost predicate StrikesAt(steps: seq<Step>, n: nat, code: string, s: Step) {
    && n < |steps| && steps[n] == s
    && var d := After(true, steps[..n]); code in d.rows && code !in d.locks
  }

  ghost predicate NoStrike(steps: seq<Step>, from: nat, code: string, s: Step) {
    forall k: nat :: from < k ==> !StrikesAt(steps, k, code, s)
  }

  /** The row stems from step n: not deleted since, with the limits given then, and active unless deactivated since. */
  ghost predicate StemsFrom(steps: seq<Step>, n: nat, code: string, row: Row) {
    && CreatesAt(steps, n, code) && NoStrike(steps, n, code, DeleteCode(code))
    && row.maxUses == steps[n].maxUses && row.expiresAt == steps[n].expiresAt
    && (row.isActive <==> NoStrike(steps, n, code, Deactivate(code)))
  }

  /** The same at the end of a shorter run. */
  lemma StrikesEarlier(steps: seq<Step>, m: nat, code: string, s: Step)
    requires m + 1 == |steps|
    ensures forall k: nat :: k < m ==> (StrikesAt(steps[..m], k, code, s) <==> StrikesAt(steps, k, code, s))
  {
    forall k: nat | k < m ensures StrikesAt(steps[..m], k, code, s) <==> StrikesAt(steps, k, code, s) {
      assert steps[..m][..k] == steps[..k];
    }
  }

  lemma NoStrikeLonger(steps: seq<Step>, m: nat, n: nat, code: string, s: Step)
    requires m + 1 == |steps| && n < m
    ensures NoStrike(steps, n, code, s) <==> NoStrike(steps[..m], n, code, s) && !StrikesAt(steps, m, code, s)
  {
    StrikesEarlier(steps, m, code, s);
  }

  lemma CreatesEarlier(steps: seq<Step>, m: nat, n: nat, code: string)
    requires m + 1 == |steps| && n < m
    ensures CreatesAt(steps[..m], n, code) <==> CreatesAt(steps, n, code)
  {
    assert steps[..m][..n] == steps[..n];
  }

  /** What a step does to one row, but for its uses. */
  lemma RowAfter(d: Db, s: Step, code: string)
    ensures var d' := Next(true, d, s);
            var struck := code in d.rows && code !in d.locks;
            && (code in d'.rows <==> (code in d.rows && !(s == DeleteCode(code) && struck)) ||
                                     (code !in d.rows && s.Create? && s.code == code && s.maxUses >= 1))
            && (code in d'.rows && code in d.rows ==>
                  && d'.rows[code].maxUses == d.rows[code].maxUses && d'.rows[code].expiresAt == d.rows[code].expiresAt
                  && (d'.rows[code].isActive <==> d.rows[code].isActive && !(s == Deactivate(code) && struck)))
            && (code in d'.rows && code !in d.rows ==> d'.rows[code] == Row(s.maxUses, 0, true, s.expiresAt))
  {}

  /** After every run a code is there exactly if it was created and not deleted since, and its row says so. */
  lemma {:induction false} RowsStem(steps: seq<Step>, code: string)
    ensures var rows := After(true, steps).rows;
            if code in rows then exists n: nat :: StemsFrom(steps, n, code, rows[code])
            else forall n: nat :: CreatesAt(steps, n, code) ==> !NoStrike(steps, n, code, DeleteCode(code))
  {
    if steps != [] {
      var m := |steps| - 1;
      var d, d' := After(true, steps[..m]), After(true, steps);
      assert steps[..m] + [steps[m]] == steps;
      RowsStem(steps[..m], code);
      RowAfter(d, steps[m], code);
      if code in d'.rows {
        if code in d.rows {
          var n: nat :| StemsFrom(steps[..m], n, code, d.rows[code]);
          StemsOn(steps, m, n, code);
        } else {
          assert StemsFrom(steps, m, code, d'.rows[code]);
        }
      } else {
        NotThere(steps, m, code);
      }
    }
  }

  lemma StemsOn(steps: seq<Step>, m: nat, n: nat, code: string)
    requires m + 1 == |steps| && n < m
    requires code in After(true, steps[..m]).rows && code in After(true, steps).rows
    requires StemsFrom(steps[..m], n, code, After(true, steps[..m]).rows[code])
    ensures StemsFrom(steps, n, code, After(true, steps).rows[code])
  {
    CreatesEarlier(steps, m, n, code);
    NoStrikeLonger(steps, m, n, code, DeleteCode(code));
    NoStrikeLonger(steps, m, n, code, Deactivate(code));
    LastStep(steps, m, code);
  }

  lemma LastStep(steps: seq<Step>, m: nat, code: string)
    requires m + 1 == |steps|
    requires code in After(true, steps[..m]).rows && code in After(true, steps).rows
    ensures var row, row' := After(true, steps[..m]).rows[code], After(true, steps).rows[code];
            && row'.maxUses == row.maxUses && row'.expiresAt == row.expiresAt
            && (row'.isActive <==> row.isActive && !StrikesAt(steps, m, code, Deactivate(code)))
            && !StrikesAt(steps, m, code, DeleteCode(code))
  {
    RowAfter(After(true, steps[..m]), steps[m], code);
  }

  lemma NotThere(steps: seq<Step>, m: nat, code: string)
    requires m + 1 == |steps| && code !in After(true, steps).rows
    requires var rows := After(true, steps[..m]).rows;
             code !in rows ==>
               forall n: nat :: CreatesAt(steps[..m], n, code) ==> !NoStrike(steps[..m], n, code, DeleteCode(code))
    ensures forall n: nat :: CreatesAt(steps, n, code) ==> !NoStrike(steps, n, code, DeleteCode(code))
  {
    RowAfter(After(true, steps[..m]), steps[m], code);
    forall n: nat | CreatesAt(steps, n, code) ensures !NoStrike(steps, n, code, DeleteCode(code)) {
      if n < m {
        CreatesEarlier(steps, m, n, code);
        NoStrikeLonger(steps, m, n, code, DeleteCode(code));
      }
    }
  }

  /** The code is not active, nobody is using it, and its uses are this many. */
  ghost predicate Retired(d: Db, code: string, uses: int) {
    && (code in d.rows ==> !d.rows[code].isActive && d.rows[code].currentUses == uses)
    && (forall t :: IsUsing(d, t) ==> d.txs[t].code != code)
  }

  lemma RetiredStays(d: Db, s: Step, code: string, uses: int)
    requires Retired(d, code, uses) && (s.Create? ==> s.code != code)
    ensures Retired(Next(true, d, s), code, uses)
  {
    var d' := Next(true, d, s);
    forall t | IsUsing(d', t) ensures d'.txs[t].code != code {
      LetInExactly(d, s, t);
    }
  }

  /** A deactivated code is never used again, unless one of that name is created anew. */
  lemma {:induction false} DeactivatedIsRetired(steps: seq<Step>, n: nat, code: string)
    requires StrikesAt(steps, n, code, Deactivate(code))
    requires forall k :: n < k < |steps| && steps[k].Create? ==> steps[k].code != code
    ensures Retired(After(true, steps), code, After(true, steps[..n]).rows[code].currentUses)
  {
    var m := |steps| - 1;
    var uses := After(true, steps[..n]).rows[code].currentUses;
    if n == m {
      AlwaysSound(steps[..n]);
      var d := After(true, steps[..n]);
      forall t | IsUsing(d, t) ensures d.txs[t].code != code {
        assert TxSound(d, t);
      }
    } else {
      assert steps[..m][..n] == steps[..n];
      DeactivatedIsRetired(steps[..m], n, code);
      RetiredStays(After(true, steps[..m]), steps[m], code, uses);
    }
  }

  // ---- without the lock -------------------------------------------------

  lemma OneMore(locking: bool, steps: seq<Step>, s: Step)
    ensures After(locking, steps + [s]) == Next(locking, After(locking, steps), s)
  {}

  /** Two registrations that validate a one-use code before either commits. */
  lemma BothValidate() returns (steps: seq<Step>)
    ensures var d := After(false, steps);
            && d.rows == map["c" := Row(1, 0, true, None)] && d.registered == map["c" := 0] && d.locks == map[]
            && d.txs == map[1 := Using("c", 1), 2 := Using("c", 1)]
  {
    var create := [Create("c", 1, None)];
    assert [] + create == create;
    OneMore(false, [], Create("c", 1, None));
    var first := create + [Enter(1, "c")];
    OneMore(false, create, Enter(1, "c"));
    var second := first + [Enter(2, "c")];
    OneMore(false, first, Enter(2, "c"));
    var third := second + [Select(1, 0.0)];
    OneMore(false, second, Select(1, 0.0));
    assert After(false, third).txs == map[1 := Using("c", 1), 2 := Waiting("c")];
    steps := third + [Select(2, 0.0)];
    OneMore(false, third, Select(2, 0.0));
  }

  /** Without FOR UPDATE one use is lost: two registrations commit and the count says one. */
  lemma UnlockedLosesUse() returns (steps: seq<Step>)
    ensures var d := After(false, steps);
            && "c" in d.rows && "c" in d.registered
            && d.rows["c"].currentUses == 1 && d.registered["c"] == 2 && d.registered["c"] > d.rows["c"].maxUses
  {
    var both := BothValidate();
    var once := both + [Commit(1)];
    OneMore(false, both, Commit(1));
    assert After(false, once).txs == map[2 := Using("c", 1)];
    steps := once + [Commit(2)];
    OneMore(false, once, Commit(2));
  }
}
