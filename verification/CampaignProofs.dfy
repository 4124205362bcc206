/** Safety of the campaign driver over every run. */
module CampaignProofs {
  import opened Wrappers
  import opened SampleIds
  import opened Campaign

  // ---------------------------------------------------------------- live runs

  /** Runs the driver has learned of and that no cleanup has confirmed gone. */
  ghost function Live(trace: seq<Event>): set<Run> {
    if trace == [] then {} else LiveAfter(Live(trace[..|trace| - 1]), trace[|trace| - 1])
  }

  ghost function LiveAfter(live: set<Run>, e: Event): set<Run> {
    if e.Learned? then live + {e.run} else if e.Torn? then live - {e.run} else live
  }

  /** Whenever a batch starts, every run learned before is confirmed gone. */
  ghost predicate SafeStarts(trace: seq<Event>) {
    forall i :: 0 <= i < |trace| && trace[i].BatchStarts? ==> Live(trace[..i]) == {}
  }

  /** The same, event by event. */
  ghost predicate Safe(trace: seq<Event>) {
    trace != [] ==>
      var front := trace[..|trace| - 1];
      Safe(front) && (trace[|trace| - 1].BatchStarts? ==> Live(front) == {})
  }

  lemma {:induction false} SafeIsSafeStarts(trace: seq<Event>)
    requires Safe(trace)
    ensures SafeStarts(trace)
    decreases |trace|
  {
    if trace != [] {
      var n := |trace| - 1;
      SafeIsSafeStarts(trace[..n]);
      forall i | 0 <= i < |trace| && trace[i].BatchStarts? ensures Live(trace[..i]) == {} {
        if i < n { assert trace[..n][..i] == trace[..i]; }
      }
    }
  }

  lemma OneMore(trace: seq<Event>, e: Event)
    ensures Live(trace + [e]) == LiveAfter(Live(trace), e)
    ensures Safe(trace + [e]) <==> Safe(trace) && (e.BatchStarts? ==> Live(trace) == {})
  {
    assert (trace + [e])[..|trace|] == trace;
  }

  ghost predicate RunOf(env: Env, batch: seq<Sample>, n: nat, run: Run)
    requires n <= |batch|
  {
    exists k :: 0 <= k < n && batch[k].id == run.sample && env.run(batch[k].id) == Some(run.id)
  }

  lemma {:induction false} LaunchingMakesLive(env: Env, batch: seq<Sample>, n: nat, s: State, run: Run)
    requires n <= |batch|
    ensures run in Live(Launched(env, batch, n, s).trace) <==> run in Live(s.trace) || RunOf(env, batch, n, run)
  {
    if n > 0 {
      LaunchingMakesLive(env, batch, n - 1, s, run);
      var before, id := Launched(env, batch, n - 1, s), batch[n - 1].id;
      if env.run(id).Some? { OneMore(before.trace, Learned(Run(id, env.run(id).value))); }
      if RunOf(env, batch, n - 1, run) { assert RunOf(env, batch, n, run); }
    }
  }

  lemma {:induction false} LaunchingIsSafe(env: Env, batch: seq<Sample>, n: nat, s: State)
    requires n <= |batch| && Safe(s.trace)
    ensures Safe(Launched(env, batch, n, s).trace)
  {
    if n > 0 {
      LaunchingIsSafe(env, batch, n - 1, s);
      var before, id := Launched(env, batch, n - 1, s), batch[n - 1].id;
      if env.run(id).Some? { OneMore(before.trace, Learned(Run(id, env.run(id).value))); }
    }
  }

  ghost predicate CleanedRun(env: Env, batch: seq<Sample>, n: nat, run: Run)
    requires n <= |batch|
  {
    env.cleaned(run.sample) && RunOf(env, batch, n, run)
  }

  lemma {:induction false} TearingIsSafe(env: Env, batch: seq<Sample>, n: nat, s: State)
    requires n <= |batch| && Safe(s.trace)
    ensures Safe(TornDown(env, batch, n, s).trace)
  {
    if n > 0 {
      TearingIsSafe(env, batch, n - 1, s);
      var before, id := TornDown(env, batch, n - 1, s), batch[n - 1].id;
      if TeardownOf(env, batch[n - 1]) == Destroyed { OneMore(before.trace, Torn(Run(id, env.run(id).value))); }
    }
  }

  lemma TearOneLive(env: Env, sample: Sample, s: State, run: Run)
    ensures run in Live(TearOne(env, sample, s).trace) <==>
            run in Live(s.trace) &&
                !(env.cleaned(run.sample) && sample.id == run.sample && env.run(sample.id) == Some(run.id))
  {
    if TeardownOf(env, sample) == Destroyed { OneMore(s.trace, Torn(Run(sample.id, env.run(sample.id).value))); }
  }

  lemma {:induction false} TearingRemovesCleaned(env: Env, batch: seq<Sample>, n: nat, s: State, run: Run)
    requires n <= |batch|
    ensures run in Live(TornDown(env, batch, n, s).trace) <==> run in Live(s.trace) && !CleanedRun(env, batch, n, run)
  {
    if n > 0 {
      TearingRemovesCleaned(env, batch, n - 1, s, run);
      TearOneLive(env, batch[n - 1], TornDown(env, batch, n - 1, s), run);
      if CleanedRun(env, batch, n - 1, run) { assert CleanedRun(env, batch, n, run); }
    }
  }

  lemma {:induction false} CleanupFailuresAreFailedTeardowns(env: Env, batch: seq<Sample>, n: nat, s: State)
    requires n <= |batch| && s.cleanupFailures == []
    ensures TornDown(env, batch, n, s).cleanupFailures == [] <==>
            forall k :: 0 <= k < n ==> TeardownOf(env, batch[k]) != Failed
  {
    if n > 0 { CleanupFailuresAreFailedTeardowns(env, batch, n - 1, s); }
  }

  lemma WriteOneKeepsLive(env: Env, sample: Sample, s: State)
    requires Safe(s.trace)
    ensures Safe(WriteOne(env, sample, s).trace) && Live(WriteOne(env, sample, s).trace) == Live(s.trace)
  {
    OneMore(s.trace, Recorded(Record(sample.id, TeardownOf(env, sample))));
  }

  lemma {:induction false} WritingKeepsLive(env: Env, batch: seq<Sample>, n: nat, s: State)
    requires n <= |batch| && Safe(s.trace)
    ensures Safe(Written(env, batch, n, s).trace) && Live(Written(env, batch, n, s).trace) == Live(s.trace)
  {
    if n > 0 {
      WritingKeepsLive(env, batch, n - 1, s);
      WriteOneKeepsLive(env, batch[n - 1], Written(env, batch, n - 1, s));
    }
  }

  /** The driver is ready for another batch: nothing of this campaign is left on the host. */
  ghost predicate Inv(s: State) { Safe(s.trace) && (!Stopped(s) ==> Live(s.trace) == {}) }

  /** The runs a batch leaves behind: all it learned without host time, else the ones whose cleanup
      was not confirmed. */
  ghost predicate LeftBy(env: Env, batch: seq<Sample>, run: Run)
    requires batch != []
  {
    RunOf(env, batch, |batch|, run) && (LacksHostTime(env, batch) || !env.cleaned(run.sample))
  }

  lemma BatchLeaves(env: Env, batch: seq<Sample>, s: State, run: Run)
    requires batch != [] && Inv(s) && !Stopped(s)
    ensures Safe(BatchDone(env, batch, s).trace)
    ensures run in Live(BatchDone(env, batch, s).trace) <==> LeftBy(env, batch, run)
  {
    var n, begun := |batch|, Opened(env, batch, s);
    OneMore(s.trace, Launch(env, batch));
    LaunchingIsSafe(env, batch, n, begun);
    LaunchingMakesLive(env, batch, n, begun, run);
    var launched := Launched(env, batch, n, begun);
    if !LacksHostTime(env, batch) {
      TearingIsSafe(env, batch, n, launched);
      TearingRemovesCleaned(env, batch, n, launched, run);
      WritingKeepsLive(env, batch, n, TornDown(env, batch, n, launched));
    }
  }

  lemma BatchKeepsInv(env: Env, batch: seq<Sample>, s: State)
    requires batch != [] && Inv(s) && !Stopped(s)
    ensures Inv(BatchDone(env, batch, s))
  {
    var n, after := |batch|, BatchDone(env, batch, s);
    BatchLeaves(env, batch, s, Run("", ""));
    if !Stopped(after) {
      var launched := Launched(env, batch, n, Opened(env, batch, s));
      var torn := TornDown(env, batch, n, launched);
      LaunchingKeepsReport(env, batch, n, Opened(env, batch, s));
      CleanupFailuresAreFailedTeardowns(env, batch, n, launched);
      CleanupStays(env, batch, n, torn);
      forall run ensures run !in Live(after.trace) {
        BatchLeaves(env, batch, s, run);
      }
    }
  }

  lemma {:induction false} CleanupStays(env: Env, batch: seq<Sample>, n: nat, s: State)
    requires n <= |batch|
    ensures Written(env, batch, n, s).cleanupFailures == s.cleanupFailures
  {
    if n > 0 { CleanupStays(env, batch, n - 1, s); }
  }

  lemma {:induction false} BatchesKeepInv(env: Env, pending: seq<Sample>, concurrency: nat, s: State)
    requires concurrency >= 1 && Inv(s)
    ensures Inv(Batches(env, pending, concurrency, s))
    decreases |pending|
  {
    if pending != [] && !Stopped(s) {
      var size := BatchSize(pending, concurrency);
      BatchKeepsInv(env, pending[..size], s);
      BatchesKeepInv(env, pending[size..], concurrency, BatchDone(env, pending[..size], s));
    }
  }

  lemma {:induction false} GroupsKeepInv(env: Env, groups: seq<Group>, skippable: set<string>, s: State)
    requires Inv(s) && forall g :: g in groups ==> g.concurrency >= 1
    ensures Inv(Groups(env, groups, skippable, s))
    decreases |groups|
  {
    if groups != [] && s.aborted.None? {
      var pending := Pending(groups[0].samples, skippable);
      BatchesKeepInv(env, pending, groups[0].concurrency, s);
      GroupsKeepInv(env, groups[1..], skippable, AfterGroup(Batches(env, pending, groups[0].concurrency, s)));
    }
  }

  /** In every campaign, whatever the outside answers, a batch starts only when every run learned
      in earlier batches was confirmed gone; without an abort nothing is left at the end. */
  lemma NoBatchStartsOverALiveRun(env: Env, groups: seq<Group>, records: seq<Record>)
    requires forall g :: g in groups ==> g.concurrency >= 1
    ensures SafeStarts(CampaignDone(env, groups, records).trace)
    ensures CampaignDone(env, groups, records).aborted.None? ==> Live(CampaignDone(env, groups, records).trace) == {}
  {
    if MayStart(records) {
      GroupsKeepInv(env, groups, Skippable(records), Fresh(records));
      EndsCleanOrAborted(env, groups, Skippable(records), Fresh(records));
      SafeIsSafeStarts(CampaignDone(env, groups, records).trace);
    }
  }

  lemma {:induction false} EndsCleanOrAborted(env: Env, groups: seq<Group>, skippable: set<string>, s: State)
    requires (forall g :: g in groups ==> g.concurrency >= 1) && (s.cleanupFailures != [] ==> s.aborted.Some?)
    ensures var end := Groups(env, groups, skippable, s); end.cleanupFailures != [] ==> end.aborted.Some?
    decreases |groups|
  {
    if groups != [] && s.aborted.None? {
      var pending := Pending(groups[0].samples, skippable);
      EndsCleanOrAborted(env, groups[1..], skippable, AfterGroup(Batches(env, pending, groups[0].concurrency, s)));
    }
  }

  // ------------------------------------------- what the observations file says

  ghost predicate DistinctSamples(records: seq<Record>) {
    forall i, j :: 0 <= i < j < |records| ==> records[i].sample != records[j].sample
  }

  ghost function RecordsIn(trace: seq<Event>): seq<Record> {
    if trace == [] then []
    else
      var front, last := RecordsIn(trace[..|trace| - 1]), trace[|trace| - 1];
      if last.Recorded? then front + [last.record] else front
  }

  /** The file is what it was at the start and what this campaign recorded, one record a sample. */
  ghost predicate FileInv(start: seq<Record>, s: State) {
    s.records == start + RecordsIn(s.trace) && DistinctSamples(s.records)
  }

  lemma OneMoreRecord(trace: seq<Event>, e: Event)
    ensures RecordsIn(trace + [e]) == RecordsIn(trace) + if e.Recorded? then [e.record] else []
  {
    assert (trace + [e])[..|trace|] == trace;
  }

  lemma {:induction false} LaunchingKeepsFile(env: Env, batch: seq<Sample>, n: nat, start: seq<Record>, s: State)
    requires n <= |batch| && FileInv(start, s)
    ensures FileInv(start, Launched(env, batch, n, s))
  {
    if n > 0 {
      LaunchingKeepsFile(env, batch, n - 1, start, s);
      var before, id := Launched(env, batch, n - 1, s), batch[n - 1].id;
      if env.run(id).Some? { OneMoreRecord(before.trace, Learned(Run(id, env.run(id).value))); }
    }
  }

  lemma {:induction false} TearingKeepsFile(env: Env, batch: seq<Sample>, n: nat, start: seq<Record>, s: State)
    requires n <= |batch| && FileInv(start, s)
    ensures FileInv(start, TornDown(env, batch, n, s))
  {
    if n > 0 {
      TearingKeepsFile(env, batch, n - 1, start, s);
      var before, id := TornDown(env, batch, n - 1, s), batch[n - 1].id;
      if TeardownOf(env, batch[n - 1]) == Destroyed { OneMoreRecord(before.trace, Torn(Run(id, env.run(id).value))); }
    }
  }

  lemma WriteOneKeepsFile(env: Env, sample: Sample, start: seq<Record>, s: State)
    requires FileInv(start, s)
    ensures FileInv(start, WriteOne(env, sample, s))
  {
    OneMoreRecord(s.trace, Recorded(Record(sample.id, TeardownOf(env, sample))));
  }

  lemma {:induction false} WritingKeepsFile(env: Env, batch: seq<Sample>, n: nat, start: seq<Record>, s: State)
    requires n <= |batch| && FileInv(start, s)
    ensures FileInv(start, Written(env, batch, n, s))
  {
    if n > 0 {
      WritingKeepsFile(env, batch, n - 1, start, s);
      WriteOneKeepsFile(env, batch[n - 1], start, Written(env, batch, n - 1, s));
    }
  }

  lemma BatchKeepsFile(env: Env, batch: seq<Sample>, start: seq<Record>, s: State)
    requires batch != [] && FileInv(start, s)
    ensures FileInv(start, BatchDone(env, batch, s))
  {
    var n := |batch|;
    OneMoreRecord(s.trace, Launch(env, batch));
    LaunchingKeepsFile(env, batch, n, start, Opened(env, batch, s));
    var launched := Launched(env, batch, n, Opened(env, batch, s));
    TearingKeepsFile(env, batch, n, start, launched);
    WritingKeepsFile(env, batch, n, start, TornDown(env, batch, n, launched));
  }

  lemma {:induction false} BatchesKeepFile(env: Env, pending: seq<Sample>, concurrency: nat, start: seq<Record>,
      s: State)
    requires concurrency >= 1 && FileInv(start, s)
    ensures FileInv(start, Batches(env, pending, concurrency, s))
    decreases |pending|
  {
    if pending != [] && !Stopped(s) {
      var size := BatchSize(pending, concurrency);
      BatchKeepsFile(env, pending[..size], start, s);
      BatchesKeepFile(env, pending[size..], concurrency, start, BatchDone(env, pending[..size], s));
    }
  }

  lemma {:induction false} GroupsKeepFile(env: Env, groups: seq<Group>, skippable: set<string>, start: seq<Record>,
      s: State)
    requires FileInv(start, s) && forall g :: g in groups ==> g.concurrency >= 1
    ensures FileInv(start, Groups(env, groups, skippable, s))
    decreases |groups|
  {
    if groups != [] && s.aborted.None? {
      var pending := Pending(groups[0].samples, skippable);
      BatchesKeepFile(env, pending, groups[0].concurrency, start, s);
      GroupsKeepFile(env, groups[1..], skippable, start, AfterGroup(Batches(env, pending, groups[0].concurrency, s)));
    }
  }

  // ------------------------------------------- what is launched, what is finished

  ghost predicate OnlyLaunches(trace: seq<Event>, samples: set<string>) {
    forall i :: 0 <= i < |trace| && trace[i].Learned? ==> trace[i].run.sample in samples
  }

  ghost function Ids(batch: seq<Sample>): set<string> { set k | 0 <= k < |batch| :: batch[k].id }

  lemma {:induction false} LaunchedFromBatch(env: Env, batch: seq<Sample>, n: nat, s: State, samples: set<string>)
    requires n <= |batch| && OnlyLaunches(s.trace, samples) && Ids(batch) <= samples
    ensures OnlyLaunches(Launched(env, batch, n, s).trace, samples)
  {
    if n > 0 {
      LaunchedFromBatch(env, batch, n - 1, s, samples);
      assert batch[n - 1].id in Ids(batch);
    }
  }

  lemma {:induction false} TearingLaunchesNothing(env: Env, batch: seq<Sample>, n: nat, s: State, samples: set<string>)
    requires n <= |batch| && OnlyLaunches(s.trace, samples)
    ensures OnlyLaunches(TornDown(env, batch, n, s).trace, samples)
  {
    if n > 0 { TearingLaunchesNothing(env, batch, n - 1, s, samples); }
  }

  lemma {:induction false} WritingLaunchesNothing(env: Env, batch: seq<Sample>, n: nat, s: State, samples: set<string>)
    requires n <= |batch| && OnlyLaunches(s.trace, samples)
    ensures OnlyLaunches(Written(env, batch, n, s).trace, samples)
  {
    if n > 0 { WritingLaunchesNothing(env, batch, n - 1, s, samples); }
  }

  lemma BatchLaunches(env: Env, batch: seq<Sample>, s: State, samples: set<string>)
    requires batch != [] && OnlyLaunches(s.trace, samples) && Ids(batch) <= samples
    ensures OnlyLaunches(BatchDone(env, batch, s).trace, samples)
  {
    var n := |batch|;
    LaunchedFromBatch(env, batch, n, Opened(env, batch, s), samples);
    var launched := Launched(env, batch, n, Opened(env, batch, s));
    TearingLaunchesNothing(env, batch, n, launched, samples);
    WritingLaunchesNothing(env, batch, n, TornDown(env, batch, n, launched), samples);
  }

  lemma {:induction false} BatchesLaunch(env: Env, pending: seq<Sample>, concurrency: nat, s: State,
      samples: set<string>)
    requires concurrency >= 1 && OnlyLaunches(s.trace, samples) && Ids(pending) <= samples
    ensures OnlyLaunches(Batches(env, pending, concurrency, s).trace, samples)
    decreases |pending|
  {
    if pending != [] && !Stopped(s) {
      var size := BatchSize(pending, concurrency);
      var batch, rest := pending[..size], pending[size..];
      forall id | id in Ids(batch) || id in Ids(rest) ensures id in samples { assert id in Ids(pending); }
      BatchLaunches(env, batch, s, samples);
      BatchesLaunch(env, rest, concurrency, BatchDone(env, batch, s), samples);
    }
  }

  lemma {:induction false} PendingIsUnskipped(samples: seq<Sample>, skippable: set<string>, x: Sample)
    ensures x in Pending(samples, skippable) <==> x in samples && x.id !in skippable
    decreases |samples|
  {
    if samples != [] {
      var n := |samples| - 1;
      PendingIsUnskipped(samples[..n], skippable, x);
      assert samples == samples[..n] + [samples[n]];
    }
  }

  ghost function Planned(groups: seq<Group>, skippable: set<string>): set<string> {
    set g, x | g in groups && x in g.samples && x.id !in skippable :: x.id
  }

  lemma {:induction false} GroupsLaunch(env: Env, groups: seq<Group>, skippable: set<string>, s: State,
      samples: set<string>)
    requires OnlyLaunches(s.trace, samples) && Planned(groups, skippable) <= samples
    requires forall g :: g in groups ==> g.concurrency >= 1
    ensures OnlyLaunches(Groups(env, groups, skippable, s).trace, samples)
    decreases |groups|
  {
    if groups != [] && s.aborted.None? {
      var pending := Pending(groups[0].samples, skippable);
      forall id | id in Ids(pending) ensures id in samples {
        var k :| 0 <= k < |pending| && pending[k].id == id;
        PendingIsUnskipped(groups[0].samples, skippable, pending[k]);
        assert id in Planned(groups, skippable);
      }
      BatchesLaunch(env, pending, groups[0].concurrency, s, samples);
      forall id | id in Planned(groups[1..], skippable)
        ensures id in samples
      {
        assert id in Planned(groups, skippable);
      }
      GroupsLaunch(env, groups[1..], skippable, AfterGroup(Batches(env, pending, groups[0].concurrency, s)), samples);
    }
  }

  /** A campaign launches only planned samples that have no record yet. */
  lemma RecordedSamplesAreNotRerun(env: Env, groups: seq<Group>, records: seq<Record>, i: nat)
    requires forall g :: g in groups ==> g.concurrency >= 1
    requires i < |CampaignDone(env, groups, records).trace| && CampaignDone(env, groups, records).trace[i].Learned?
    ensures !IsRecorded(records, CampaignDone(env, groups, records).trace[i].run.sample)
  {
    var skippable := Skippable(records);
    GroupsLaunch(env, groups, skippable, Fresh(records), Planned(groups, skippable));
    var sample := CampaignDone(env, groups, records).trace[i].run.sample;
    assert sample in Planned(groups, skippable);
  }

  lemma {:induction false} WrittenRecords(env: Env, batch: seq<Sample>, n: nat, s: State)
    requires n <= |batch|
    ensures s.records <= Written(env, batch, n, s).records
    ensures Written(env, batch, n, s).aborted.None? ==>
              forall k :: 0 <= k < n ==>
                  Record(batch[k].id, TeardownOf(env, batch[k])) in Written(env, batch, n, s).records
  {
    if n > 0 { WrittenRecords(env, batch, n - 1, s); }
  }

  /** A batch without an abort records every sample with its real teardown outcome. */
  lemma BatchRecords(env: Env, batch: seq<Sample>, s: State)
    requires batch != []
    ensures s.records <= BatchDone(env, batch, s).records
    ensures BatchDone(env, batch, s).aborted.None? ==> !LacksHostTime(env, batch)
    ensures BatchDone(env, batch, s).aborted.None? ==>
              forall k :: 0 <= k < |batch| ==>
                  Record(batch[k].id, TeardownOf(env, batch[k])) in BatchDone(env, batch, s).records
    ensures BatchDone(env, batch, s).aborted == Some(TeardownFailed) ==> s.aborted == Some(TeardownFailed)
  {
    var n := |batch|;
    LaunchingKeepsReport(env, batch, n, Opened(env, batch, s));
    var launched := Launched(env, batch, n, Opened(env, batch, s));
    TearingKeepsReport(env, batch, n, launched);
    WrittenRecords(env, batch, n, TornDown(env, batch, n, launched));
    WritingAborts(env, batch, n, TornDown(env, batch, n, launched));
  }

  lemma {:induction false} WritingAborts(env: Env, batch: seq<Sample>, n: nat, s: State)
    requires n <= |batch|
    ensures Written(env, batch, n, s).aborted == s.aborted
            || (Written(env, batch, n, s).aborted.Some? && Written(env, batch, n, s).aborted.value.NotRecorded?)
  {
    if n > 0 { WritingAborts(env, batch, n - 1, s); }
  }

  /** Unless an abort kept a sample from being recorded, every run left on the host is on record as
      a failed teardown. */
  ghost predicate LeftoversAreKnown(s: State) {
    s.aborted.None? || s.aborted == Some(TeardownFailed) ==>
      forall run :: run in Live(s.trace) ==> Record(run.sample, Failed) in s.records
  }

  lemma BatchKeepsKnown(env: Env, batch: seq<Sample>, s: State)
    requires batch != [] && Inv(s) && !Stopped(s)
    ensures LeftoversAreKnown(BatchDone(env, batch, s))
  {
    var after := BatchDone(env, batch, s);
    BatchRecords(env, batch, s);
    if after.aborted.None? {
      forall run | run in Live(after.trace) ensures Record(run.sample, Failed) in after.records {
        BatchLeaves(env, batch, s, run);
        var k :| 0 <= k < |batch| && batch[k].id == run.sample && env.run(batch[k].id) == Some(run.id);
        assert TeardownOf(env, batch[k]) == Failed;
      }
    }
  }

  lemma {:induction false} BatchesKeepKnown(env: Env, pending: seq<Sample>, concurrency: nat, s: State)
    requires concurrency >= 1 && Inv(s) && LeftoversAreKnown(s)
    ensures LeftoversAreKnown(Batches(env, pending, concurrency, s))
    decreases |pending|
  {
    if pending != [] && !Stopped(s) {
      var size := BatchSize(pending, concurrency);
      BatchKeepsInv(env, pending[..size], s);
      BatchKeepsKnown(env, pending[..size], s);
      BatchesKeepKnown(env, pending[size..], concurrency, BatchDone(env, pending[..size], s));
    }
  }

  lemma {:induction false} GroupsKeepKnown(env: Env, groups: seq<Group>, skippable: set<string>, s: State)
    requires Inv(s) && LeftoversAreKnown(s) && forall g :: g in groups ==> g.concurrency >= 1
    ensures LeftoversAreKnown(Groups(env, groups, skippable, s))
    decreases |groups|
  {
    if groups != [] && s.aborted.None? {
      var pending := Pending(groups[0].samples, skippable);
      BatchesKeepInv(env, pending, groups[0].concurrency, s);
      BatchesKeepKnown(env, pending, groups[0].concurrency, s);
      GroupsKeepKnown(env, groups[1..], skippable, AfterGroup(Batches(env, pending, groups[0].concurrency, s)));
    }
  }

  /** A campaign that leaves a run on the host either blocks every resume or stopped on an abort
      that wrote no record for a sample. */
  lemma LeftoverBlocksResume(env: Env, groups: seq<Group>, records: seq<Record>)
    requires forall g :: g in groups ==> g.concurrency >= 1
    ensures var end := CampaignDone(env, groups, records);
            Live(end.trace) != {} && MayStart(end.records) ==>
              end.aborted.Some? && (end.aborted.value.NoHostTime? || end.aborted.value.NotRecorded?)
  {
    var end := CampaignDone(env, groups, records);
    if MayStart(records) { GroupsKeepKnown(env, groups, Skippable(records), Fresh(records)); }
    if Live(end.trace) != {} && (end.aborted.None? || end.aborted == Some(TeardownFailed)) {
      var run :| run in Live(end.trace);
      assert Record(run.sample, Failed) in end.records;
    }
  }

  // --------------------------------------------------------------- completion

  ghost predicate Finished(records: seq<Record>, x: Sample) {
    exists k :: 0 <= k < |records| && records[k].sample == x.id && records[k].teardown != Failed
  }

  lemma FinishedStays(a: seq<Record>, b: seq<Record>, x: Sample)
    requires a <= b && Finished(a, x)
    ensures Finished(b, x)
  {
    var k :| 0 <= k < |a| && a[k].sample == x.id && a[k].teardown != Failed;
    assert b[k] == a[k];
  }

  lemma BatchFinishes(env: Env, batch: seq<Sample>, s: State, x: Sample)
    requires batch != [] && !Stopped(s) && !Stopped(BatchDone(env, batch, s)) && x in batch
    ensures Finished(BatchDone(env, batch, s).records, x)
  {
    var n, after := |batch|, BatchDone(env, batch, s);
    BatchRecords(env, batch, s);
    LaunchingKeepsReport(env, batch, n, Opened(env, batch, s));
    var launched := Launched(env, batch, n, Opened(env, batch, s));
    CleanupFailuresAreFailedTeardowns(env, batch, n, launched);
    CleanupStays(env, batch, n, TornDown(env, batch, n, launched));
    var k :| 0 <= k < n && batch[k] == x;
    var r := Record(x.id, TeardownOf(env, x));
    assert r in after.records;
    var i :| 0 <= i < |after.records| && after.records[i] == r;
  }

  lemma {:induction false} BatchesFinish(env: Env, pending: seq<Sample>, concurrency: nat, s: State)
    requires concurrency >= 1
    ensures s.records <= Batches(env, pending, concurrency, s).records
    ensures !Stopped(Batches(env, pending, concurrency, s)) ==>
              forall x :: x in pending ==> Finished(Batches(env, pending, concurrency, s).records, x)
    decreases |pending|
  {
    if pending != [] && !Stopped(s) {
      var size := BatchSize(pending, concurrency);
      var batch, rest := pending[..size], pending[size..];
      var after, end := BatchDone(env, batch, s), Batches(env, pending, concurrency, s);
      BatchRecords(env, batch, s);
      BatchesFinish(env, rest, concurrency, after);
      if !Stopped(end) {
        StoppedStays(env, rest, concurrency, after);
        forall x | x in pending ensures Finished(end.records, x) {
          assert pending == batch + rest;
          if x in batch {
            BatchFinishes(env, batch, s, x);
            FinishedStays(after.records, end.records, x);
          }
        }
      }
    }
  }

  lemma StoppedStays(env: Env, pending: seq<Sample>, concurrency: nat, s: State)
    requires concurrency >= 1 && !Stopped(Batches(env, pending, concurrency, s))
    ensures !Stopped(s)
  {
  }

  lemma {:induction false} GroupsFinish(env: Env, groups: seq<Group>, skippable: set<string>, s: State)
    requires (forall g :: g in groups ==> g.concurrency >= 1) && (s.cleanupFailures != [] ==> s.aborted.Some?)
    ensures s.records <= Groups(env, groups, skippable, s).records
    ensures Groups(env, groups, skippable, s).aborted.None? ==>
              forall g, x :: g in groups && x in g.samples && x.id !in skippable ==>
                  Finished(Groups(env, groups, skippable, s).records, x)
    decreases |groups|
  {
    if groups != [] && s.aborted.None? {
      var pending, end := Pending(groups[0].samples, skippable), Groups(env, groups, skippable, s);
      var after := AfterGroup(Batches(env, pending, groups[0].concurrency, s));
      BatchesFinish(env, pending, groups[0].concurrency, s);
      GroupsFinish(env, groups[1..], skippable, after);
      if end.aborted.None? {
        forall g, x | g in groups && x in g.samples && x.id !in skippable ensures Finished(end.records, x) {
          if g == groups[0] {
            PendingIsUnskipped(g.samples, skippable, x);
            FinishedStays(after.records, end.records, x);
          } else {
            assert g in groups[1..];
          }
        }
      }
    }
  }

  ghost predicate AllFinished(groups: seq<Group>, records: seq<Record>) {
    forall g, x :: g in groups && x in g.samples ==> Finished(records, x)
  }

  /** A campaign that does not abort finishes every planned sample. */
  lemma CompletedCampaign(env: Env, groups: seq<Group>, records: seq<Record>)
    requires (forall g :: g in groups ==> g.concurrency >= 1) && MayStart(records)
    requires CampaignDone(env, groups, records).aborted.None?
    ensures AllFinished(groups, CampaignDone(env, groups, records).records)
  {
    var skippable, end := Skippable(records), CampaignDone(env, groups, records);
    GroupsFinish(env, groups, skippable, Fresh(records));
    forall g, x | g in groups && x in g.samples ensures Finished(end.records, x) {
      if x.id in skippable {
        var k :| 0 <= k < |records| && records[k].teardown != Failed && records[k].sample == x.id;
        assert Finished(records, x);
        FinishedStays(records, end.records, x);
      }
    }
  }

  lemma {:induction false} NothingPending(samples: seq<Sample>, skippable: set<string>)
    requires forall x :: x in samples ==> x.id in skippable
    ensures Pending(samples, skippable) == []
    decreases |samples|
  {
    if samples != [] { NothingPending(samples[..|samples| - 1], skippable); }
  }

  lemma {:induction false} NothingToDo(env: Env, groups: seq<Group>, skippable: set<string>, s: State)
    requires (forall g :: g in groups ==> g.concurrency >= 1) && s.cleanupFailures == []
    requires forall g, x :: g in groups && x in g.samples ==> x.id in skippable
    ensures Groups(env, groups, skippable, s) == s
    decreases |groups|
  {
    if groups != [] && s.aborted.None? {
      NothingPending(groups[0].samples, skippable);
      NothingToDo(env, groups[1..], skippable, s);
    }
  }

  /** Starting a finished campaign again has no effect, whatever the outside answers. */
  lemma RerunIsIdle(env: Env, groups: seq<Group>, records: seq<Record>)
    requires (forall g :: g in groups ==> g.concurrency >= 1) && AllFinished(groups, records)
    ensures CampaignDone(env, groups, records) == Fresh(records)
  {
    forall g, x | g in groups && x in g.samples ensures x.id in Skippable(records) {
      assert Finished(records, x);
      var k :| 0 <= k < |records| && records[k].sample == x.id && records[k].teardown != Failed;
    }
    NothingToDo(env, groups, Skippable(records), Fresh(records));
  }
}
