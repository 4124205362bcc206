/** The campaign driver of the boot benchmark (tools/vm-boot-benchmark/campaign.ts): launch groups
    run in batches; each batch is measured, torn down and recorded before the next may start. */
module Campaign {
  import opened Wrappers
  import opened SampleIds

  datatype Sample = Sample(id: string, background: bool)

  datatype Group = Group(samples: seq<Sample>, concurrency: nat)

  datatype Record = Record(sample: string, teardown: Teardown)

  datatype Run = Run(sample: string, id: string)

  /** Effects on the host and the observations file, in order.  `started` are the runs the launch of
      a batch leads to, whether or not the driver hears of them in time. */
  datatype Event = BatchStarts(started: set<Run>) | Learned(run: Run) | Torn(run: Run) | Recorded(record: Record)

  datatype Abort = NoHostTime(sample: string) | NotRecorded(sample: string) | TeardownFailed

  datatype Verdict = Usable | Unusable

  /** What the outside does for each sample: the run its launch leads to, whether that is reported
      before `waitForAccepted` gives up, whether cleanup confirms the run is gone, whether the
      measurement can be recorded (also as a failure) and whether the record command would write
      it; per batch, whether both snapshots have host time. */
  datatype Env = Env(starts: string -> Option<string>, inTime: string -> bool, cleaned: string -> bool,
                     verdict: string -> Verdict, writes: string -> bool, hostTime: string -> bool)
  {
    /** The run ID the driver learns. */
    function run(sample: string): Option<string> { if inTime(sample) then starts(sample) else None }
  }

  datatype State = State(records: seq<Record>, trace: seq<Event>, aborted: Option<Abort>, cleanupFailures: seq<string>)

  predicate Stopped(s: State) { s.aborted.Some? || s.cleanupFailures != [] }

  predicate IsRecorded(records: seq<Record>, sample: string) {
    exists k :: 0 <= k < |records| && records[k].sample == sample
  }

  // --------------------------------------------------------------- one batch

  function LaunchOne(env: Env, sample: Sample, s: State): State {
    match env.run(sample.id)
    case Some(id) => s.(trace := s.trace + [Learned(Run(sample.id, id))])
    case None => s
  }

  /** `executeBatch`, for the first `n` samples of the batch. */
  function Launched(env: Env, batch: seq<Sample>, n: nat, s: State): State
    requires n <= |batch|
  {
    if n == 0 then s else LaunchOne(env, batch[n - 1], Launched(env, batch, n - 1, s))
  }

  function TeardownOf(env: Env, sample: Sample): Teardown {
    if env.run(sample.id).None? then NotNeeded else if env.cleaned(sample.id) then Destroyed else Failed
  }

  /** `teardownRun` */
  function TearOne(env: Env, sample: Sample, s: State): State {
    match TeardownOf(env, sample)
    case NotNeeded => s
    case Destroyed => s.(trace := s.trace + [Torn(Run(sample.id, env.run(sample.id).value))])
    case Failed => s.(cleanupFailures := s.cleanupFailures + [sample.id])
  }

  function TornDown(env: Env, batch: seq<Sample>, n: nat, s: State): State
    requires n <= |batch|
  {
    if n == 0 then s else TearOne(env, batch[n - 1], TornDown(env, batch, n - 1, s))
  }

  /** `writeSampleRecord`: the record command refuses a sample that already has an observation. */
  function WriteOne(env: Env, sample: Sample, s: State): State {
    if env.verdict(sample.id) == Unusable || !env.writes(sample.id) || IsRecorded(s.records, sample.id) then
      s.(aborted := Some(NotRecorded(sample.id)))
    else
      var record := Record(sample.id, TeardownOf(env, sample));
      s.(records := s.records + [record], trace := s.trace + [Recorded(record)])
  }

  function Written(env: Env, batch: seq<Sample>, n: nat, s: State): State
    requires n <= |batch|
  {
    if n == 0 then s
    else
      var before := Written(env, batch, n - 1, s);
      if before.aborted.Some? then before else WriteOne(env, batch[n - 1], before)
  }

  predicate LacksHostTime(env: Env, batch: seq<Sample>)
    requires batch != []
  {
    !env.hostTime(batch[0].id) && exists k :: 0 <= k < |batch| && batch[k].background
  }

  function StartedRuns(env: Env, batch: seq<Sample>): set<Run> {
    set k | 0 <= k < |batch| && env.starts(batch[k].id).Some? :: Run(batch[k].id, env.starts(batch[k].id).value)
  }

  function Launch(env: Env, batch: seq<Sample>): Event { BatchStarts(StartedRuns(env, batch)) }

  function Opened(env: Env, batch: seq<Sample>, s: State): State {
    s.(trace := s.trace + [Launch(env, batch)])
  }

  function BatchDone(env: Env, batch: seq<Sample>, s: State): State
    requires batch != []
  {
    var launched := Launched(env, batch, |batch|, Opened(env, batch, s));
    if LacksHostTime(env, batch) then launched.(aborted := Some(NoHostTime(batch[0].id)))
    else Written(env, batch, |batch|, TornDown(env, batch, |batch|, launched))
  }

  // ------------------------------------------------------- groups and campaign

  function BatchSize(pending: seq<Sample>, concurrency: nat): nat {
    if concurrency < |pending| then concurrency else |pending|
  }

  /** The batch loop over the pending samples of one group. */
  function Batches(env: Env, pending: seq<Sample>, concurrency: nat, s: State): State
    requires concurrency >= 1
    decreases |pending|
  {
    if pending == [] || Stopped(s) then s
    else
      var size := BatchSize(pending, concurrency);
      Batches(env, pending[size..], concurrency, BatchDone(env, pending[..size], s))
  }

  function Pending(samples: seq<Sample>, skippable: set<string>): seq<Sample> {
    if samples == [] then []
    else
      var rest := Pending(samples[..|samples| - 1], skippable);
      var last := samples[|samples| - 1];
      if last.id in skippable then rest else rest + [last]
  }

  function AfterGroup(s: State): State {
    if s.aborted.None? && s.cleanupFailures != [] then s.(aborted := Some(TeardownFailed)) else s
  }

  function Groups(env: Env, groups: seq<Group>, skippable: set<string>, s: State): State
    requires forall g :: g in groups ==> g.concurrency >= 1
  {
    if groups == [] || s.aborted.Some? then s
    else
      var pending := Pending(groups[0].samples, skippable);
      Groups(env, groups[1..], skippable, AfterGroup(Batches(env, pending, groups[0].concurrency, s)))
  }

  /** `recordedObservations`: what a resumed campaign may skip, and whether it may start. */
  function Skippable(records: seq<Record>): set<string> {
    set k | 0 <= k < |records| && records[k].teardown != Failed :: records[k].sample
  }

  predicate MayStart(records: seq<Record>) {
    forall k :: 0 <= k < |records| ==> records[k].teardown != Failed
  }

  function Fresh(records: seq<Record>): State { State(records, [], None, []) }

  function CampaignDone(env: Env, groups: seq<Group>, records: seq<Record>): State
    requires forall g :: g in groups ==> g.concurrency >= 1
  {
    if MayStart(records) then Groups(env, groups, Skippable(records), Fresh(records)) else Fresh(records)
  }

  /** The driver with its report and the observations file. */
  class Driver {
    var records: seq<Record>
    var aborted: Option<Abort>
    var cleanupFailures: seq<string>
    ghost var trace: seq<Event>

    ghost function Value(): State
      reads this
    {
      State(records, trace, aborted, cleanupFailures)
    }

    constructor (file: seq<Record>)
      ensures Value() == Fresh(file)
    {
      records, aborted, cleanupFailures := file, None, [];
      trace := [];
    }

    method ExecuteBatch(env: Env, batch: seq<Sample>)
      modifies this`trace
      ensures Value() == Launched(env, batch, |batch|, Opened(env, batch, old(Value())))
    {
      trace := trace + [Launch(env, batch)];
      var i := 0;
      while i < |batch|
        invariant 0 <= i <= |batch|
        invariant Value() == Launched(env, batch, i, Opened(env, batch, old(Value())))
      {
        var run := env.run(batch[i].id);
        if run.Some? {
          trace := trace + [Learned(Run(batch[i].id, run.value))];
        }
        i := i + 1;
      }
    }

    method TeardownAll(env: Env, batch: seq<Sample>) returns (outcomes: seq<Teardown>)
      modifies this`trace, this`cleanupFailures
      ensures Value() == TornDown(env, batch, |batch|, old(Value()))
      ensures |outcomes| == |batch| && forall k :: 0 <= k < |batch| ==> outcomes[k] == TeardownOf(env, batch[k])
    {
      outcomes := [];
      var i := 0;
      while i < |batch|
        invariant 0 <= i <= |batch| && |outcomes| == i
        invariant forall k :: 0 <= k < i ==> outcomes[k] == TeardownOf(env, batch[k])
        invariant Value() == TornDown(env, batch, i, old(Value()))
      {
        var sample := batch[i];
        var run := env.run(sample.id);
        if run.None? {
          outcomes := outcomes + [NotNeeded];
        } else if env.cleaned(sample.id) {
          trace := trace + [Torn(Run(sample.id, run.value))];
          outcomes := outcomes + [Destroyed];
        } else {
          cleanupFailures := cleanupFailures + [sample.id];
          outcomes := outcomes + [Failed];
        }
        i := i + 1;
      }
    }

    method WriteSampleRecord(env: Env, sample: Sample, teardown: Teardown)
      requires teardown == TeardownOf(env, sample)
      modifies this`trace, this`records, this`aborted
      ensures Value() == WriteOne(env, sample, old(Value()))
    {
      if env.verdict(sample.id) == Unusable || !env.writes(sample.id) || IsRecorded(records, sample.id) {
        aborted := Some(NotRecorded(sample.id));
      } else {
        records := records + [Record(sample.id, teardown)];
        trace := trace + [Recorded(Record(sample.id, teardown))];
      }
    }

    method RunBatch(env: Env, batch: seq<Sample>)
      requires batch != [] && !Stopped(Value())
      modifies this
      ensures Value() == BatchDone(env, batch, old(Value()))
    {
      ExecuteBatch(env, batch);
      if LacksHostTime(env, batch) {
        aborted := Some(NoHostTime(batch[0].id));
        return;
      }
      var outcomes := TeardownAll(env, batch);
      ghost var torn := Value();
      LaunchingKeepsReport(env, batch, |batch|, Opened(env, batch, old(Value())));
      TearingKeepsReport(env, batch, |batch|, Launched(env, batch, |batch|, Opened(env, batch, old(Value()))));
      var i := 0;
      while i < |batch| && aborted.None?
        invariant 0 <= i <= |batch|
        invariant Value() == Written(env, batch, i, torn)
      {
        WriteSampleRecord(env, batch[i], outcomes[i]);
        i := i + 1;
      }
      AbortEndsWriting(env, batch, i, |batch|, torn);
    }

    method RunGroup(env: Env, group: Group, skippable: set<string>)
      requires group.concurrency >= 1 && !Stopped(Value())
      modifies this
      ensures Value() == AfterGroup(Batches(env, Pending(group.samples, skippable), group.concurrency, old(Value())))
    {
      var pending := Pending(group.samples, skippable);
      var index := 0;
      while index < |pending| && aborted.None? && cleanupFailures == []
        invariant 0 <= index <= |pending|
        invariant Batches(env, pending[index..], group.concurrency, Value()) ==
                  Batches(env, pending, group.concurrency, old(Value()))
      {
        var rest := pending[index..];
        var size := BatchSize(rest, group.concurrency);
        assert rest[size..] == pending[index + size..];
        RunBatch(env, rest[..size]);
        index := index + size;
      }
      if aborted.None? && cleanupFailures != [] {
        aborted := Some(TeardownFailed);
      }
    }

    /** The group loop of `runCampaign`, after the checks on the plan and the host. */
    method RunCampaign(env: Env, groups: seq<Group>) returns (started: bool)
      requires Value() == Fresh(records) && forall g :: g in groups ==> g.concurrency >= 1
      modifies this
      ensures started <==> MayStart(old(records))
      ensures Value() == CampaignDone(env, groups, old(records))
    {
      started := MayStart(records);
      if !started {
        return;
      }
      var skippable := Skippable(records);
      var i := 0;
      while i < |groups| && aborted.None?
        invariant 0 <= i <= |groups|
        invariant aborted.None? ==> cleanupFailures == []
        invariant Groups(env, groups[i..], skippable, Value()) == Groups(env, groups, skippable, old(Value()))
      {
        RunGroup(env, groups[i], skippable);
        assert groups[i..][1..] == groups[i + 1..];
        i := i + 1;
      }
    }
  }

  lemma {:induction false} LaunchingKeepsReport(env: Env, batch: seq<Sample>, n: nat, s: State)
    requires n <= |batch|
    ensures Launched(env, batch, n, s) == s.(trace := Launched(env, batch, n, s).trace)
  {
    if n > 0 { LaunchingKeepsReport(env, batch, n - 1, s); }
  }

  lemma {:induction false} TearingKeepsReport(env: Env, batch: seq<Sample>, n: nat, s: State)
    requires n <= |batch|
    ensures TornDown(env, batch, n, s).records == s.records && TornDown(env, batch, n, s).aborted == s.aborted
  {
    if n > 0 { TearingKeepsReport(env, batch, n - 1, s); }
  }

  lemma {:induction false} AbortEndsWriting(env: Env, batch: seq<Sample>, i: nat, n: nat, s: State)
    requires i <= n <= |batch| && (Written(env, batch, i, s).aborted.Some? || i == n)
    ensures Written(env, batch, n, s) == Written(env, batch, i, s)
    decreases n - i
  {
    if i < n { AbortEndsWriting(env, batch, i + 1, n, s); }
  }
}
