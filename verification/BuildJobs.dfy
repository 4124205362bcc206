/** Reconciling the builder's job table with the desired builds
    (crates/intar-builder/src/jobs.rs over the table of crates/intar-builder/src/db.rs). */
module BuildJobs {
  import opened Wrappers

  datatype Build = Build(buildId: string, scenarioId: string, arch: string, rev: string, contentHash: string,
      bundleRef: string)

  /** `queued`, `failed`, and the phases of a job in progress or done. */
  datatype Phase = InQueue | Failed | Working(name: string)

  datatype PublishState = Unclaimed | Claimed(name: string)

  /** Columns an upsert leaves alone. */
  datatype Progress = Progress(currentVm: Option<string>, startedAtMs: Option<int>, finishedAtMs: Option<int>)

  /** Columns an upsert resets. */
  datatype Publication = Publication(outputs: Option<string>, state: PublishState, attempt: nat,
      nextAttemptAtMs: Option<int>)

  datatype Job = Job(
    build: Build, phase: Phase, attempt: nat, error: Option<string>, nextAttemptAtMs: Option<int>,
    updatedAtMs: int, progress: Progress, publication: Publication)

  const NO_PROGRESS := Progress(None, None, None)
  const NO_PUBLICATION := Publication(None, Unclaimed, 0, None)

  function Queued(build: Build, progress: Progress, now: int): Job {
    Job(build, InQueue, 0, None, None, now, progress, NO_PUBLICATION)
  }

  predicate NeedsRefresh(job: Job, build: Build) {
    (job.phase.InQueue? && job.build != build) || job.phase.Failed?
  }

  /** What one desired build does to the row of its ID. */
  function Stepped(row: Option<Job>, build: Build, now: int): Option<Job> {
    if row.None? then Some(Queued(build, NO_PROGRESS, now))
    else if NeedsRefresh(row.value, build) then Some(Queued(build, row.value.progress, now))
    else row
  }

  /** The row of `id` after the first `n` desired builds. */
  ghost function RowAfter(row: Option<Job>, desired: seq<Build>, n: nat, id: string, now: int): Option<Job>
    requires n <= |desired|
  {
    if n == 0 then row
    else
      var before := RowAfter(row, desired, n - 1, id, now);
      if desired[n - 1].buildId == id then Stepped(before, desired[n - 1], now) else before
  }

  /** The IDs of the first `n` desired builds. */
  ghost function Ids(desired: seq<Build>, n: nat): set<string>
    requires n <= |desired|
  {
    if n == 0 then {} else Ids(desired, n - 1) + {desired[n - 1].buildId}
  }

  lemma {:induction false} IdsAreTheDesiredIds(desired: seq<Build>, n: nat)
    requires n <= |desired|
    ensures Ids(desired, n) == set i | 0 <= i < n :: desired[i].buildId
    decreases n
  {
    if n > 0 { IdsAreTheDesiredIds(desired, n - 1); }
  }

  class BuilderDb {
    /** The `build_jobs` table by its primary key. */
    var jobs: map<string, Job>

    constructor ()
      ensures jobs == map[]
    {
      jobs := map[];
    }

    /** `upsert_build_job(build, "queued", 0, None, now)` */
    method UpsertQueued(build: Build, now: int)
      modifies this
      ensures jobs == old(jobs)[build.buildId :=
                Queued(build,
                       if build.buildId in old(jobs) then old(jobs)[build.buildId].progress else NO_PROGRESS, now)]
    {
      var progress := if build.buildId in jobs then jobs[build.buildId].progress else NO_PROGRESS;
      jobs := jobs[build.buildId := Queued(build, progress, now)];
    }

    /** The first loop: rows without a desired build are deleted. */
    method DropUndesired(desired: seq<Build>)
      modifies this
      ensures jobs == map id | id in old(jobs) && id in Ids(desired, |desired|) :: old(jobs)[id]
    {
      var ids := set i | 0 <= i < |desired| :: desired[i].buildId;
      IdsAreTheDesiredIds(desired, |desired|);
      var snapshot := jobs;
      var remaining := snapshot.Keys;
      while remaining != {}
        invariant remaining <= snapshot.Keys
        invariant jobs == map id | id in snapshot && (id in ids || id in remaining) :: snapshot[id]
        decreases remaining
      {
        var id :| id in remaining;
        if id !in ids {
          jobs := jobs - {id};
        }
        remaining := remaining - {id};
      }
    }

    /** One turn of the second loop. */
    method QueueOne(build: Build, now: int) returns (added: bool)
      modifies this
      ensures added <==> build.buildId !in old(jobs)
      ensures jobs == old(jobs)[build.buildId := Stepped(Lookup(old(jobs), build.buildId), build, now).value]
    {
      added := build.buildId !in jobs;
      if added || NeedsRefresh(jobs[build.buildId], build) {
        UpsertQueued(build, now);
      }
    }

    /** The second loop. */
    method QueueDesired(desired: seq<Build>, now: int) returns (inserted: nat)
      modifies this
      ensures RowsAfter(old(jobs), jobs, desired, |desired|, now)
      ensures inserted == CountNew(desired, |desired|, old(jobs).Keys)
    {
      ghost var start := jobs;
      inserted := 0;
      var i := 0;
      while i < |desired|
        invariant 0 <= i <= |desired|
        invariant RowsAfter(start, jobs, desired, i, now)
        invariant inserted == CountNew(desired, i, start.Keys)
      {
        ghost var before := jobs;
        var added := QueueOne(desired[i], now);
        NextRows(start, before, jobs, desired, i, now);
        inserted := inserted + if added then 1 else 0;
        i := i + 1;
      }
    }

    /** `reconcile_desired_builds` */
    method ReconcileDesiredBuilds(desired: seq<Build>, now: int) returns (inserted: nat)
      modifies this
      ensures inserted == |Ids(desired, |desired|) - old(jobs).Keys|
      ensures Reconciled(old(jobs), jobs, desired, now)
    {
      DropUndesired(desired);
      ghost var kept := jobs;
      inserted := QueueDesired(desired, now);
      CountsDistinctNewIds(desired, |desired|, kept.Keys);
      assert Ids(desired, |desired|) - kept.Keys == Ids(desired, |desired|) - old(jobs).Keys;
      KeptRowsReconcile(old(jobs), kept, jobs, desired, now);
    }
  }

  /** Every row of `after` is what the first `n` desired builds make of the row in `before`. */
  ghost predicate RowsAfter(before: map<string, Job>, after: map<string, Job>, desired: seq<Build>, n: nat, now: int)
    requires n <= |desired|
  {
    forall id :: Lookup(after, id) == RowAfter(Lookup(before, id), desired, n, id, now)
  }

  /** The table after a reconcile: exactly the desired IDs, each row folded over the
      desired builds of its ID. */
  ghost predicate Reconciled(before: map<string, Job>, after: map<string, Job>, desired: seq<Build>, now: int) {
    forall id :: Lookup(after, id) ==
      if id in Ids(desired, |desired|) then RowAfter(Lookup(before, id), desired, |desired|, id, now) else None
  }

  lemma NextRows(
    start: map<string, Job>, before: map<string, Job>, after: map<string, Job>, desired: seq<Build>, i: nat, now: int)
    requires i < |desired| && RowsAfter(start, before, desired, i, now)
    requires after == before[desired[i].buildId := Stepped(Lookup(before, desired[i].buildId), desired[i], now).value]
    ensures RowsAfter(start, after, desired, i + 1, now)
    ensures desired[i].buildId in before <==> desired[i].buildId in start || desired[i].buildId in Ids(desired, i)
  {
    forall id ensures Lookup(after, id) == RowAfter(Lookup(start, id), desired, i + 1, id, now) {
      assert Lookup(before, id) == RowAfter(Lookup(start, id), desired, i, id, now);
    }
    RowsAreDesired(start, desired, i, desired[i].buildId, now);
    assert Lookup(before, desired[i].buildId) ==
        RowAfter(Lookup(start, desired[i].buildId), desired, i, desired[i].buildId, now);
  }

  lemma KeptRowsReconcile(
    before: map<string, Job>, kept: map<string, Job>, after: map<string, Job>, desired: seq<Build>, now: int)
    requires kept == map id | id in before && id in Ids(desired, |desired|) :: before[id]
    requires RowsAfter(kept, after, desired, |desired|, now)
    ensures Reconciled(before, after, desired, now)
  {
    forall id ensures Lookup(after, id) ==
        if id in Ids(desired, |desired|) then RowAfter(Lookup(before, id), desired, |desired|, id, now) else None
    {
      assert Lookup(after, id) == RowAfter(Lookup(kept, id), desired, |desired|, id, now);
      if id !in Ids(desired, |desired|) { UndesiredRowStays(Lookup(kept, id), desired, |desired|, id, now); }
    }
  }

  lemma {:induction false} UndesiredRowStays(row: Option<Job>, desired: seq<Build>, n: nat, id: string, now: int)
    requires n <= |desired| && id !in Ids(desired, n)
    ensures RowAfter(row, desired, n, id, now) == row
    decreases n
  {
    if n > 0 {
      UndesiredRowStays(row, desired, n - 1, id, now);
    }
  }

  /** A row exists exactly when it was there or a desired build named it. */
  lemma {:induction false} RowsAreDesired(jobs: map<string, Job>, desired: seq<Build>, n: nat, id: string, now: int)
    requires n <= |desired|
    ensures RowAfter(Lookup(jobs, id), desired, n, id, now).Some? <==> id in jobs || id in Ids(desired, n)
    decreases n
  {
    if n > 0 {
      RowsAreDesired(jobs, desired, n - 1, id, now);
    }
  }

  /** How many of the first `n` desired builds name an ID not seen before. */
  ghost function CountNew(desired: seq<Build>, n: nat, known: set<string>): nat
    requires n <= |desired|
  {
    if n == 0 then 0
    else
      var id := desired[n - 1].buildId;
      CountNew(desired, n - 1, known) + if id in known || id in Ids(desired, n - 1) then 0 else 1
  }

  lemma {:induction false} CountsDistinctNewIds(desired: seq<Build>, n: nat, known: set<string>)
    requires n <= |desired|
    ensures CountNew(desired, n, known) == |Ids(desired, n) - known|
    decreases n
  {
    if n > 0 {
      CountsDistinctNewIds(desired, n - 1, known);
      var id := desired[n - 1].buildId;
      if id in known || id in Ids(desired, n - 1) {
        assert Ids(desired, n) - known == Ids(desired, n - 1) - known;
      } else {
        assert Ids(desired, n) - known == (Ids(desired, n - 1) - known) + {id};
      }
    }
  }

  // -------------------------------------------------------- what the loop means

  predicate Restartable(row: Option<Job>) { row.None? || row.value.phase.InQueue? || row.value.phase.Failed? }

  /** The last desired build with this ID. */
  ghost function LastOf(desired: seq<Build>, n: nat, id: string): (b: Build)
    requires n <= |desired| && id in Ids(desired, n)
    ensures b.buildId == id && exists i :: 0 <= i < n && desired[i] == b
    decreases n
  {
    if desired[n - 1].buildId == id then desired[n - 1]
    else LastOf(desired, n - 1, id)
  }

  /** Duplicates included: a job in progress (or done) keeps its row; every other job
      ends up queued with the payload of the last desired build of its ID. */
  lemma {:induction false} LastBuildWins(row: Option<Job>, desired: seq<Build>, n: nat, id: string, now: int)
    requires n <= |desired| && id in Ids(desired, n)
    ensures !Restartable(row) ==> RowAfter(row, desired, n, id, now) == row
    ensures Restartable(row) ==>
              var after := RowAfter(row, desired, n, id, now);
              after.Some? && after.value.phase.InQueue? && after.value.build == LastOf(desired, n, id)
    decreases n
  {
    if id in Ids(desired, n - 1) {
      LastBuildWins(row, desired, n - 1, id, now);
    } else {
      UndesiredRowStays(row, desired, n - 1, id, now);
    }
  }

  /** A row that is not failed and, when queued, already has every desired payload of
      its ID is not touched: attempts, errors and retry times survive. */
  lemma {:induction false} ProgressIsPreserved(row: Option<Job>, desired: seq<Build>, n: nat, id: string, now: int)
    requires n <= |desired| && row.Some? && !row.value.phase.Failed?
    requires row.value.phase.InQueue? ==>
               forall i :: 0 <= i < n && desired[i].buildId == id ==> desired[i] == row.value.build
    ensures RowAfter(row, desired, n, id, now) == row
    decreases n
  {
    if n > 0 {
      ProgressIsPreserved(row, desired, n - 1, id, now);
    }
  }

  /** Either nothing was written to the row, or it was just queued afresh. */
  lemma {:induction false} UntouchedOrFresh(row: Option<Job>, desired: seq<Build>, n: nat, id: string, now: int)
    requires n <= |desired|
    ensures var after := RowAfter(row, desired, n, id, now);
            || (after == row
                && (row.Some? ==> !row.value.phase.Failed? || id !in Ids(desired, n))
                && (row.Some? && row.value.phase.InQueue? ==>
                      forall i :: 0 <= i < n && desired[i].buildId == id ==> desired[i] == row.value.build))
            || (after.Some? && after.value == Queued(after.value.build, after.value.progress, now)
                && id in Ids(desired, n) && after.value.build == LastOf(desired, n, id))
    decreases n
  {
    if n > 0 {
      UntouchedOrFresh(row, desired, n - 1, id, now);
    }
  }

  lemma {:induction false} FreshRowIsRewrittenAlike(job: Job, desired: seq<Build>, n: nat, id: string, now: int)
    requires n <= |desired| && id in Ids(desired, n) && job == Queued(job.build, job.progress, now)
    ensures RowAfter(Some(job), desired, n, id, now) == Some(Queued(LastOf(desired, n, id), job.progress, now))
    decreases n
  {
    if id in Ids(desired, n - 1) {
      FreshRowIsRewrittenAlike(job, desired, n - 1, id, now);
    } else {
      UndesiredRowStays(Some(job), desired, n - 1, id, now);
    }
  }

  lemma RowSettles(row: Option<Job>, desired: seq<Build>, id: string, now: int)
    requires id in Ids(desired, |desired|)
    ensures var after := RowAfter(row, desired, |desired|, id, now);
            after.Some? && RowAfter(after, desired, |desired|, id, now) == after
  {
    var n := |desired|;
    var after := RowAfter(row, desired, n, id, now);
    UntouchedOrFresh(row, desired, n, id, now);
    RowsAreDesired(if row.Some? then map[id := row.value] else map[], desired, n, id, now);
    if after.Some? && after.value == Queued(after.value.build, after.value.progress, now)
       && after.value.build == LastOf(desired, n, id) {
      FreshRowIsRewrittenAlike(after.value, desired, n, id, now);
    } else {
      ProgressIsPreserved(row, desired, n, id, now);
    }
  }

  /** After a reconcile the job IDs are the desired IDs, and a second call at the same
      time changes nothing, even with duplicate IDs whose payloads differ (the row is
      rewritten back and forth and ends where it was). */
  lemma ReconcileIsIdempotent(
    before: map<string, Job>, once: map<string, Job>, twice: map<string, Job>, desired: seq<Build>, now: int)
    requires Reconciled(before, once, desired, now) && Reconciled(once, twice, desired, now)
    ensures once.Keys == Ids(desired, |desired|) && twice == once
  {
    forall id
      ensures Lookup(twice, id) == Lookup(once, id)
      ensures id in once <==> id in Ids(desired, |desired|)
    {
      assert Lookup(once, id) == if id in Ids(desired, |desired|)
                                 then RowAfter(Lookup(before, id), desired, |desired|, id, now) else None;
      if id in Ids(desired, |desired|) { RowSettles(Lookup(before, id), desired, id, now); }
    }
    forall id ensures id in once <==> id in twice ensures id in once && id in twice ==> once[id] == twice[id] {
      assert Lookup(twice, id) == Lookup(once, id);
    }
    assert once.Keys == Ids(desired, |desired|);
    assert twice.Keys == once.Keys;
  }
}
