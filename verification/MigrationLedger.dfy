/** Applying the committed migration stream to D1 (tools/database/apply-generated-migrations.ts
    with the ledger checks of tools/database/generated-d1-schema.ts).  Each migration and
    its marker travel as one atomic batch; a response may be lost after the batch took
    effect, and the tool may be started again any number of times. */
module MigrationLedger {
  import opened Sorting

  datatype Migration = Migration(hash: string, when: int, statements: seq<string>)

  datatype Marker = Marker(hash: string, createdAt: int)

  /** `applied`: the migrations whose statements took effect, in order; `ledger`: the
      rows of `__drizzle_migrations` in insertion order. */
  datatype Database = Database(applied: seq<Migration>, ledger: seq<Marker>)

  datatype BatchOutcome = Acknowledged | ResponseLost | NotApplied

  function MarkerOf(m: Migration): Marker { Marker(m.hash, m.when) }

  function Markers(ms: seq<Migration>): (r: seq<Marker>)
    ensures |r| == |ms|
  {
    seq(|ms|, i requires 0 <= i < |ms| => MarkerOf(ms[i]))
  }

  // ------------------------------------------------------------ reading the ledger

  function CreatedAt(m: Marker): int { m.createdAt }

  /** `SELECT ... ORDER BY created_at, id` */
  function ByCreatedAt(ledger: seq<Marker>): seq<Marker> { SortBy(ledger, CreatedAt) }

  /** Journal timestamps strictly increase. */
  ghost predicate Increasing(ms: seq<Migration>) {
    forall i, j :: 0 <= i < j < |ms| ==> ms[i].when < ms[j].when
  }

  /** A ledger of an increasing stream reads back as it was written. */
  lemma IncreasingLedgerReadsBack(ms: seq<Migration>)
    requires Increasing(ms)
    ensures ByCreatedAt(Markers(ms)) == Markers(ms)
  {
    SortedIsFixed(Markers(ms), CreatedAt);
  }

  // ------------------------------------------------------------------- verify

  /** `verifyGeneratedD1Schema`; `objects` is the schema a list of migrations produces. */
  ghost predicate Verified<S(!new)>(committed: seq<Migration>, db: Database, full: bool, objects: seq<Migration> -> S) {
    var observed := ByCreatedAt(db.ledger);
    && observed != []
    && (full ==> |observed| == |committed|)
    && |observed| <= |committed|
    && (forall i :: 0 <= i < |observed| ==> observed[i] == MarkerOf(committed[i]))
    && objects(db.applied) == objects(committed[..|observed|])
  }

  // --------------------------------------------------------------------- plan

  /** The filter of `planGeneratedMigrations`. */
  function LaterThan(ms: seq<Migration>, when: int): seq<Migration> {
    if ms == [] then []
    else if ms[0].when > when then [ms[0]] + LaterThan(ms[1..], when)
    else LaterThan(ms[1..], when)
  }

  function Pending(committed: seq<Migration>, db: Database): seq<Migration> {
    var observed := ByCreatedAt(db.ledger);
    LaterThan(committed, if observed == [] then 0 else observed[|observed| - 1].createdAt)
  }

  lemma {:induction false} LaterThanAll(ms: seq<Migration>, when: int)
    requires forall i :: 0 <= i < |ms| ==> ms[i].when > when
    ensures LaterThan(ms, when) == ms
    decreases |ms|
  {
    if ms != [] { LaterThanAll(ms[1..], when); }
  }

  lemma {:induction false} LaterThanSplit(ms: seq<Migration>, k: nat, when: int)
    requires k <= |ms|
    requires forall i :: 0 <= i < k ==> ms[i].when <= when
    ensures LaterThan(ms, when) == LaterThan(ms[k..], when)
    decreases k
  {
    if k > 0 {
      LaterThanSplit(ms[1..], k - 1, when);
      assert ms[1..][k - 1..] == ms[k..];
    }
  }

  lemma {:induction false} LaterThanSound(ms: seq<Migration>, when: int, i: nat)
    requires i < |LaterThan(ms, when)|
    ensures LaterThan(ms, when)[i].when > when
    decreases |ms|
  {
    if ms[0].when > when {
      if i > 0 { LaterThanSound(ms[1..], when, i - 1); }
    } else {
      LaterThanSound(ms[1..], when, i);
    }
  }

  /** After the first `k` migrations the filter selects exactly the rest. */
  ghost predicate FilterAgrees(committed: seq<Migration>, k: nat)
    requires 0 < k <= |committed|
  {
    LaterThan(committed, committed[k - 1].when) == committed[k..]
  }

  /** The timestamp filter selects the rest of the stream after every ledger prefix
      exactly when the journal timestamps strictly increase. */
  lemma FilterIsSuffixIffIncreasing(committed: seq<Migration>)
    ensures (forall k: nat :: 0 < k <= |committed| ==> FilterAgrees(committed, k)) <==> Increasing(committed)
  {
    if Increasing(committed) {
      forall k: nat | 0 < k <= |committed| ensures FilterAgrees(committed, k) {
        FilterIsSuffix(committed, k);
      }
    }
    if forall k: nat :: 0 < k <= |committed| ==> FilterAgrees(committed, k) {
      forall i: nat, j: nat | i < j < |committed| ensures committed[i].when < committed[j].when {
        AgreementOrdersTheRest(committed, i, j);
      }
    }
  }

  lemma AgreementOrdersTheRest(committed: seq<Migration>, i: nat, j: nat)
    requires i < j < |committed| && FilterAgrees(committed, i + 1)
    ensures committed[i].when < committed[j].when
  {
    assert committed[i + 1..][j - i - 1] == committed[j];
    LaterThanSound(committed, committed[i].when, j - i - 1);
  }

  lemma FilterIsSuffix(committed: seq<Migration>, k: nat)
    requires Increasing(committed) && 0 < k <= |committed|
    ensures FilterAgrees(committed, k)
  {
    var last := committed[k - 1].when;
    LaterThanSplit(committed, k, last);
    LaterThanAll(committed[k..], last);
  }

  // -------------------------------------------------------------------- apply

  /** One atomic batch: the statements and the marker together. */
  function Applied(db: Database, m: Migration): Database {
    Database(db.applied + [m], db.ledger + [MarkerOf(m)])
  }

  /** The batch loop: it stops at the first batch that is not acknowledged. */
  ghost function ApplyAll(db: Database, pending: seq<Migration>, n: nat, outcome: nat -> BatchOutcome): (Database, bool)
    requires n <= |pending|
  {
    if n == 0 then (db, true)
    else
      var (before, going) := ApplyAll(db, pending, n - 1, outcome);
      var m := pending[n - 1];
      if !going || m.statements == [] || outcome(n - 1).NotApplied? then (before, false)
      else (Applied(before, m), outcome(n - 1).Acknowledged?)
  }

  /** `applyGeneratedMigrations`: the database it leaves and whether it returned evidence. */
  ghost function RunOnce<S(!new)>(
    committed: seq<Migration>, db: Database, objects: seq<Migration> -> S, outcome: nat -> BatchOutcome)
    : (Database, bool)
  {
    if !Verified(committed, db, false, objects) then (db, false)
    else
      var pending := Pending(committed, db);
      var (after, done) := ApplyAll(db, pending, |pending|, outcome);
      (after, done && Verified(committed, after, true, objects))
  }

  /** `applyGeneratedPrefix`: the first `count` migrations from the beginning, whatever the ledger says. */
  ghost function PrefixRun(
    committed: seq<Migration>, db: Database, count: int, created: bool, outcome: nat -> BatchOutcome)
    : (Database, bool)
  {
    if count <= 0 || count > |committed| || !created then (db, false)
    else ApplyAll(db, committed[..count], count, outcome)
  }

  class D1 {
    var applied: seq<Migration>
    var ledger: seq<Marker>

    constructor (db: Database)
      ensures State() == db
    {
      applied, ledger := db.applied, db.ledger;
    }

    function State(): Database reads this { Database(applied, ledger) }

    method Batch(m: Migration, outcome: BatchOutcome) returns (acknowledged: bool)
      modifies this
      ensures acknowledged <==> outcome.Acknowledged?
      ensures State() == if outcome.NotApplied? then old(State()) else Applied(old(State()), m)
    {
      acknowledged := outcome.Acknowledged?;
      if !outcome.NotApplied? {
        applied, ledger := applied + [m], ledger + [MarkerOf(m)];
      }
    }

    /** The loop of `applyGeneratedMigrations`. */
    method ApplyPending(pending: seq<Migration>, outcome: nat -> BatchOutcome) returns (done: bool)
      modifies this
      ensures (State(), done) == ApplyAll(old(State()), pending, |pending|, outcome)
    {
      var i := 0;
      while i < |pending|
        invariant 0 <= i <= |pending|
        invariant ApplyAll(old(State()), pending, i, outcome) == (State(), true)
      {
        if pending[i].statements == [] {
          StoppedStaysStopped(old(State()), pending, i + 1, |pending|, outcome);
          return false;
        }
        var acknowledged := Batch(pending[i], outcome(i));
        if !acknowledged {
          StoppedStaysStopped(old(State()), pending, i + 1, |pending|, outcome);
          return false;
        }
        i := i + 1;
      }
      done := true;
    }

    /** `applyGeneratedPrefix`: `created` tells whether the ledger table is there to begin with. */
    method ApplyPrefix(committed: seq<Migration>, count: int, created: bool, outcome: nat -> BatchOutcome)
      returns (done: bool)
      modifies this
      ensures (State(), done) == PrefixRun(committed, old(State()), count, created, outcome)
    {
      if count <= 0 || count > |committed| || !created {
        return false;
      }
      done := ApplyPending(committed[..count], outcome);
    }
  }

  lemma {:induction false} StoppedStaysStopped(
    db: Database, pending: seq<Migration>, i: nat, n: nat, outcome: nat -> BatchOutcome)
    requires i <= n <= |pending| && !ApplyAll(db, pending, i, outcome).1
    ensures ApplyAll(db, pending, n, outcome) == ApplyAll(db, pending, i, outcome)
    decreases n
  {
    if i < n { StoppedStaysStopped(db, pending, i, n - 1, outcome); }
  }

  // -------------------------------------------------------------------- runs

  /** The database is exactly the first `k` committed migrations, each once. */
  ghost function PrefixDb(committed: seq<Migration>, k: nat): Database
    requires k <= |committed|
  {
    Database(committed[..k], Markers(committed[..k]))
  }

  lemma PrefixReadsBack(committed: seq<Migration>, k: nat)
    requires Increasing(committed) && k <= |committed|
    ensures ByCreatedAt(PrefixDb(committed, k).ledger) == Markers(committed[..k])
    ensures k > 0 ==> Pending(committed, PrefixDb(committed, k)) == committed[k..]
  {
    IncreasingLedgerReadsBack(committed[..k]);
    if k > 0 {
      assert Markers(committed[..k])[k - 1] == MarkerOf(committed[k - 1]);
      FilterIsSuffix(committed, k);
    }
  }

  lemma {:induction false} BatchesExtendThePrefix(
    committed: seq<Migration>, k: nat, n: nat, outcome: nat -> BatchOutcome)
    requires k + n <= |committed|
    ensures var (after, done) := ApplyAll(PrefixDb(committed, k), committed[k..], n, outcome);
            exists j :: k <= j <= k + n && after == PrefixDb(committed, j) && (done ==> j == k + n)
    decreases n
  {
    if n > 0 {
      BatchesExtendThePrefix(committed, k, n - 1, outcome);
      var (before, going) := ApplyAll(PrefixDb(committed, k), committed[k..], n - 1, outcome);
      var j :| k <= j <= k + n - 1 && before == PrefixDb(committed, j) && (going ==> j == k + n - 1);
      if going {
        assert committed[k..][n - 1] == committed[j];
        assert committed[..j] + [committed[j]] == committed[..j + 1];
        assert Markers(committed[..j]) + [MarkerOf(committed[j])] == Markers(committed[..j + 1]);
        assert Applied(before, committed[j]) == PrefixDb(committed, j + 1);
      }
    } else {
      assert PrefixDb(committed, k) == ApplyAll(PrefixDb(committed, k), committed[k..], 0, outcome).0;
    }
  }

  /** One start of the tool, whatever happens to its batches: the ledger stays a prefix,
      never shrinks, and evidence is returned only for the full stream. */
  lemma RunExtendsThePrefix<S(!new)>(
    committed: seq<Migration>, k: nat, objects: seq<Migration> -> S, outcome: nat -> BatchOutcome)
    requires Increasing(committed) && k <= |committed|
    ensures var (after, done) := RunOnce(committed, PrefixDb(committed, k), objects, outcome);
            exists j :: k <= j <= |committed| && after == PrefixDb(committed, j) && (done ==> j == |committed|)
  {
    if k == 0 {
      EmptyLedgerIsRefused(committed, objects, outcome);
    } else {
      RunFromPrefix(committed, k, objects, outcome);
      BatchesExtendThePrefix(committed, k, |committed| - k, outcome);
    }
  }

  lemma EmptyLedgerIsRefused<S(!new)>(
    committed: seq<Migration>, objects: seq<Migration> -> S, outcome: nat -> BatchOutcome)
    ensures RunOnce(committed, PrefixDb(committed, 0), objects, outcome) == (PrefixDb(committed, 0), false)
  {
    assert PrefixDb(committed, 0).ledger == [];
  }

  /** From a non-empty prefix the tool runs the batches of the rest of the stream. */
  lemma RunFromPrefix<S(!new)>(
    committed: seq<Migration>, k: nat, objects: seq<Migration> -> S, outcome: nat -> BatchOutcome)
    requires Increasing(committed) && 0 < k <= |committed|
    ensures var (after, done) := ApplyAll(PrefixDb(committed, k), committed[k..], |committed| - k, outcome);
            RunOnce(committed, PrefixDb(committed, k), objects, outcome)
            == (after, done && Verified(committed, after, true, objects))
  {
    var db := PrefixDb(committed, k);
    assert Pending(committed, db) == committed[k..] by { PrefixReadsBack(committed, k); }
    assert Verified(committed, db, false, objects) by { PrefixVerifies(committed, k, objects, false); }
  }

  /** The database after a series of starts. */
  ghost function AfterRuns<S(!new)>(
    committed: seq<Migration>, db: Database, objects: seq<Migration> -> S, runs: seq<nat -> BatchOutcome>): Database
  {
    if runs == [] then db
    else RunOnce(committed, AfterRuns(committed, db, objects, runs[..|runs| - 1]), objects, runs[|runs| - 1]).0
  }

  /** Over any number of starts with failed batches and lost responses, the database is
      exactly a prefix of the committed stream and its ledger, so every migration takes
      effect at most once and in order. */
  lemma {:induction false} LedgerIsAlwaysAPrefix<S(!new)>(
    committed: seq<Migration>, k: nat, objects: seq<Migration> -> S, runs: seq<nat -> BatchOutcome>)
    requires Increasing(committed) && k <= |committed|
    ensures exists j :: k <= j <= |committed|
                        && AfterRuns(committed, PrefixDb(committed, k), objects, runs) == PrefixDb(committed, j)
    decreases |runs|
  {
    if runs == [] {
      assert AfterRuns(committed, PrefixDb(committed, k), objects, runs) == PrefixDb(committed, k);
    } else {
      var front := runs[..|runs| - 1];
      LedgerIsAlwaysAPrefix(committed, k, objects, front);
      var j :| k <= j <= |committed| &&
          AfterRuns(committed, PrefixDb(committed, k), objects, front) == PrefixDb(committed, j);
      RunExtendsThePrefix(committed, j, objects, runs[|runs| - 1]);
    }
  }

  lemma {:induction false} AcknowledgedBatchesFinish(
    committed: seq<Migration>, k: nat, n: nat, outcome: nat -> BatchOutcome)
    requires k + n <= |committed|
    requires forall i :: 0 <= i < |committed| ==> committed[i].statements != []
    requires forall i: nat :: i < n ==> outcome(i).Acknowledged?
    ensures ApplyAll(PrefixDb(committed, k), committed[k..], n, outcome).1
    decreases n
  {
    if n > 0 { AcknowledgedBatchesFinish(committed, k, n - 1, outcome); }
  }

  /** From every non-empty prefix, one start whose batches are all acknowledged applies
      the rest of the stream and returns evidence. */
  lemma AcknowledgedRunCompletes<S(!new)>(
    committed: seq<Migration>, k: nat, objects: seq<Migration> -> S, outcome: nat -> BatchOutcome)
    requires Increasing(committed) && 0 < k <= |committed|
    requires forall i :: 0 <= i < |committed| ==> committed[i].statements != []
    requires forall i: nat :: i < |committed| - k ==> outcome(i).Acknowledged?
    ensures RunOnce(committed, PrefixDb(committed, k), objects, outcome) == (PrefixDb(committed, |committed|), true)
  {
    RunFromPrefix(committed, k, objects, outcome);
    PrefixVerifies(committed, |committed|, objects, true);
    AcknowledgedBatchesReachTheEnd(committed, k, outcome);
  }

  lemma AcknowledgedBatchesReachTheEnd(committed: seq<Migration>, k: nat, outcome: nat -> BatchOutcome)
    requires k <= |committed|
    requires forall i :: 0 <= i < |committed| ==> committed[i].statements != []
    requires forall i: nat :: i < |committed| - k ==> outcome(i).Acknowledged?
    ensures ApplyAll(PrefixDb(committed, k), committed[k..], |committed| - k, outcome)
            == (PrefixDb(committed, |committed|), true)
  {
    BatchesExtendThePrefix(committed, k, |committed| - k, outcome);
    AcknowledgedBatchesFinish(committed, k, |committed| - k, outcome);
  }

  lemma PrefixVerifies<S(!new)>(committed: seq<Migration>, k: nat, objects: seq<Migration> -> S, full: bool)
    requires Increasing(committed) && 0 < k <= |committed| && (full ==> k == |committed|)
    ensures Verified(committed, PrefixDb(committed, k), full, objects)
  {
    PrefixReadsBack(committed, k);
    var observed := Markers(committed[..k]);
    forall i | 0 <= i < |observed| ensures observed[i] == MarkerOf(committed[i]) {
      assert committed[..k][i] == committed[i];
    }
  }

  // ------------------------------------------------------------- rehearsed prefixes

  lemma {:induction false} SliceApplies(
    db: Database, committed: seq<Migration>, count: nat, n: nat, outcome: nat -> BatchOutcome)
    requires n <= count <= |committed|
    ensures ApplyAll(db, committed[..count], n, outcome) == ApplyAll(db, committed, n, outcome)
  {
    if n > 0 { SliceApplies(db, committed, count, n - 1, outcome); }
  }

  /** On an empty database the tool leaves a prefix, the asked one if it returns. */
  lemma FreshPrefixRun(committed: seq<Migration>, count: nat, outcome: nat -> BatchOutcome)
    requires 0 < count <= |committed|
    ensures var (after, done) := PrefixRun(committed, PrefixDb(committed, 0), count, true, outcome);
            exists j :: 0 <= j <= count && after == PrefixDb(committed, j) && (done ==> j == count)
  {
    SliceApplies(PrefixDb(committed, 0), committed, count, count, outcome);
    BatchesExtendThePrefix(committed, 0, count, outcome);
    assert committed[0..] == committed;
  }

  /** The first batch goes through. */
  predicate FirstApplies(committed: seq<Migration>, outcome: nat -> BatchOutcome)
    requires committed != []
  {
    committed[0].statements != [] && !outcome(0).NotApplied?
  }

  /** A run from any database appends to it, and the first thing it appends is the first migration. */
  lemma {:induction false} ReplayAppends(db: Database, committed: seq<Migration>, n: nat, outcome: nat -> BatchOutcome)
    requires 0 < n <= |committed|
    ensures var after := ApplyAll(db, committed, n, outcome).0;
            if FirstApplies(committed, outcome) then db.applied + [committed[0]] <= after.applied else after == db
    decreases n
  {
    assert ApplyAll(db, committed, 0, outcome) == (db, true);
    if n > 1 { ReplayAppends(db, committed, n - 1, outcome); }
    if !FirstApplies(committed, outcome) { StoppedStaysStopped(db, committed, 1, n, outcome); }
  }

  /** The tool has no ledger check: run on a database that already holds a prefix it leaves a prefix if
      and only if that prefix is empty or its first batch does not go through. */
  lemma PrefixRunLeavesAPrefixIff(committed: seq<Migration>, k: nat, count: nat, outcome: nat -> BatchOutcome)
    requires Increasing(committed) && k <= |committed| && 0 < count <= |committed|
    ensures (exists j :: 0 <= j <= |committed|
               && PrefixRun(committed, PrefixDb(committed, k), count, true, outcome).0 == PrefixDb(committed, j)) <==>
            k == 0 || !FirstApplies(committed, outcome)
  {
    var db := PrefixDb(committed, k);
    var after := PrefixRun(committed, db, count, true, outcome).0;
    SliceApplies(db, committed, count, count, outcome);
    ReplayAppends(db, committed, count, outcome);
    if k == 0 {
      FreshPrefixRun(committed, count, outcome);
    } else if FirstApplies(committed, outcome) {
      forall j | 0 <= j <= |committed| ensures after != PrefixDb(committed, j) {
        ReplayedIsNoPrefix(committed, k, j, after);
      }
    }
  }

  lemma ReplayedIsNoPrefix(committed: seq<Migration>, k: nat, j: nat, after: Database)
    requires Increasing(committed) && 0 < k <= |committed| && j <= |committed|
    requires committed[..k] + [committed[0]] <= after.applied
    ensures after != PrefixDb(committed, j)
  {
    if j > k { assert committed[..j][k].when > committed[0].when && after.applied[k] == committed[0]; }
  }
}
