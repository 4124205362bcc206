/** Resumed campaigns and crashes: what the observations file and the host look like after any
    sequence of driver starts, each of which may crash after any of its effects. */
module CampaignSessions {
  import opened Wrappers
  import opened SampleIds
  import opened Campaign
  import opened CampaignProofs

  // ------------------------------------------------------------------ sessions

  /** One start of the driver, which may crash after any of its effects. */
  datatype Session = Session(env: Env, groups: seq<Group>, survives: nat)

  ghost predicate Runnable(session: Session) { forall g :: g in session.groups ==> g.concurrency >= 1 }

  ghost predicate AllRunnable(sessions: seq<Session>) {
    forall k :: 0 <= k < |sessions| ==> Runnable(sessions[k])
  }

  ghost function Effects(records: seq<Record>, session: Session): seq<Event>
    requires Runnable(session)
  {
    var trace := CampaignDone(session.env, session.groups, records).trace;
    if session.survives < |trace| then trace[..session.survives] else trace
  }

  ghost function FileAfterSession(records: seq<Record>, session: Session): seq<Record>
    requires Runnable(session)
  {
    records + RecordsIn(Effects(records, session))
  }

  /** The observations file after a sequence of sessions. */
  ghost function FileAfter(records: seq<Record>, sessions: seq<Session>): seq<Record>
    requires AllRunnable(sessions)
    decreases |sessions|
  {
    if sessions == [] then records else FileAfter(FileAfterSession(records, sessions[0]), sessions[1..])
  }

  lemma {:induction false} RecordsOfPrefix(trace: seq<Event>, k: nat)
    requires k <= |trace|
    ensures RecordsIn(trace[..k]) <= RecordsIn(trace)
    decreases |trace|
  {
    if k < |trace| {
      var n := |trace| - 1;
      RecordsOfPrefix(trace[..n], k);
      assert trace[..n][..k] == trace[..k];
    } else {
      assert trace[..k] == trace;
    }
  }

  lemma SessionKeepsDistinct(records: seq<Record>, session: Session)
    requires Runnable(session) && DistinctSamples(records)
    ensures DistinctSamples(FileAfterSession(records, session)) && records <= FileAfterSession(records, session)
  {
    var end := CampaignDone(session.env, session.groups, records);
    assert FileInv(records, Fresh(records));
    if MayStart(records) { GroupsKeepFile(session.env, session.groups, Skippable(records), records, Fresh(records)); }
    if session.survives < |end.trace| { RecordsOfPrefix(end.trace, session.survives); }
    assert FileAfterSession(records, session) <= end.records;
  }

  /** A crash at any point does not make a batch start over a live run. */
  lemma CrashedSessionIsSafe(records: seq<Record>, session: Session)
    requires Runnable(session)
    ensures SafeStarts(Effects(records, session))
  {
    var trace := CampaignDone(session.env, session.groups, records).trace;
    NoBatchStartsOverALiveRun(session.env, session.groups, records);
    if session.survives < |trace| {
      var kept := trace[..session.survives];
      forall i | 0 <= i < |kept| && kept[i].BatchStarts? ensures Live(kept[..i]) == {} {
        assert kept[..i] == trace[..i];
      }
    }
  }

  /** Over any sequence of sessions, each crashing wherever it may, the file only grows and holds
      at most one record per sample. */
  lemma {:induction false} OneRecordPerSample(records: seq<Record>, sessions: seq<Session>)
    requires DistinctSamples(records) && AllRunnable(sessions)
    ensures DistinctSamples(FileAfter(records, sessions)) && records <= FileAfter(records, sessions)
    decreases |sessions|
  {
    if sessions != [] {
      SessionKeepsDistinct(records, sessions[0]);
      OneRecordPerSample(FileAfterSession(records, sessions[0]), sessions[1..]);
    }
  }

  lemma RefusedSession(records: seq<Record>, session: Session)
    requires Runnable(session) && !MayStart(records)
    ensures Effects(records, session) == [] && FileAfterSession(records, session) == records
  {
  }

  /** Once a failed teardown is on record, no later session has any effect. */
  lemma {:induction false} FailedTeardownStopsEverySession(records: seq<Record>, sessions: seq<Session>)
    requires !MayStart(records) && AllRunnable(sessions)
    ensures FileAfter(records, sessions) == records
    ensures forall k :: 0 <= k < |sessions| ==> Effects(records, sessions[k]) == []
    decreases |sessions|
  {
    if sessions != [] {
      RefusedSession(records, sessions[0]);
      FailedTeardownStopsEverySession(records, sessions[1..]);
    }
  }

  // --------------------------------------------------- the effects of one batch

  predicate Refused(env: Env, records: seq<Record>, sample: Sample) {
    env.verdict(sample.id) == Unusable || !env.writes(sample.id) || IsRecorded(records, sample.id)
  }

  /** The first of `n` samples that gets no record, or `n`. */
  function FirstRefused(env: Env, batch: seq<Sample>, records: seq<Record>, n: nat): (k: nat)
    requires n <= |batch|
    ensures k <= n
  {
    if n == 0 then 0
    else
      var k := FirstRefused(env, batch, records, n - 1);
      if k < n - 1 || Refused(env, records, batch[n - 1]) then k else n
  }

  ghost function RecordsOf(env: Env, batch: seq<Sample>, n: nat): seq<Record>
    requires n <= |batch|
  {
    seq(n, k requires 0 <= k < n => Record(batch[k].id, TeardownOf(env, batch[k])))
  }

  ghost predicate DistinctBatch(batch: seq<Sample>) {
    forall i, j :: 0 <= i < j < |batch| ==> batch[i].id != batch[j].id
  }

  lemma OwnRecordsDoNotRefuse(env: Env, batch: seq<Sample>, records: seq<Record>, n: nat)
    requires n < |batch| && DistinctBatch(batch)
    ensures IsRecorded(records + RecordsOf(env, batch, n), batch[n].id) <==> IsRecorded(records, batch[n].id)
  {
    var longer := records + RecordsOf(env, batch, n);
    if IsRecorded(records, batch[n].id) {
      var k :| 0 <= k < |records| && records[k].sample == batch[n].id;
      assert longer[k] == records[k];
    }
    if IsRecorded(longer, batch[n].id) {
      var k :| 0 <= k < |longer| && longer[k].sample == batch[n].id;
      assert k < |records|;
      assert records[k] == longer[k];
    }
  }

  /** The record loop writes the samples before the first refused one, and aborts there. */
  lemma {:induction false} WritesUpToFirstRefused(env: Env, batch: seq<Sample>, n: nat, s: State)
    requires n <= |batch| && DistinctBatch(batch) && s.aborted.None?
    ensures var k := FirstRefused(env, batch, s.records, n);
            && Written(env, batch, n, s).records == s.records + RecordsOf(env, batch, k)
            && (Written(env, batch, n, s).aborted.None? <==> k == n)
  {
    if n > 0 {
      WritesUpToFirstRefused(env, batch, n - 1, s);
      if FirstRefused(env, batch, s.records, n - 1) == n - 1 { OwnRecordsDoNotRefuse(env, batch, s.records, n - 1); }
    }
  }

  lemma BatchFile(env: Env, batch: seq<Sample>, s: State)
    requires batch != [] && DistinctBatch(batch) && !Stopped(s) && MayStart(s.records)
    ensures MayStart(BatchDone(env, batch, s).records) <==>
            LacksHostTime(env, batch)
            || forall k :: 0 <= k < FirstRefused(env, batch, s.records, |batch|) ==> TeardownOf(env, batch[k]) != Failed
  {
    var n := |batch|;
    LaunchingKeepsReport(env, batch, n, Opened(env, batch, s));
    var launched := Launched(env, batch, n, Opened(env, batch, s));
    TearingKeepsReport(env, batch, n, launched);
    if !LacksHostTime(env, batch) {
      var torn, m := TornDown(env, batch, n, launched), FirstRefused(env, batch, s.records, n);
      WritesUpToFirstRefused(env, batch, n, torn);
      var file := s.records + RecordsOf(env, batch, m);
      assert forall k :: 0 <= k < m ==> file[|s.records| + k] == Record(batch[k].id, TeardownOf(env, batch[k]));
    }
  }

  function LearnedEvents(env: Env, batch: seq<Sample>, n: nat): seq<Event>
    requires n <= |batch|
  {
    if n == 0 then []
    else
      var id := batch[n - 1].id;
      LearnedEvents(env, batch, n - 1) + if env.run(id).Some? then [Learned(Run(id, env.run(id).value))] else []
  }

  function TornEvents(env: Env, batch: seq<Sample>, n: nat): seq<Event>
    requires n <= |batch|
  {
    if n == 0 then []
    else
      var x := batch[n - 1];
      TornEvents(env, batch, n - 1) +
      if TeardownOf(env, x) == Destroyed then [Torn(Run(x.id, env.run(x.id).value))] else []
  }

  function RecordedEvents(env: Env, batch: seq<Sample>, n: nat): seq<Event>
    requires n <= |batch|
  {
    if n == 0 then []
    else RecordedEvents(env, batch, n - 1) + [Recorded(Record(batch[n - 1].id, TeardownOf(env, batch[n - 1])))]
  }

  /** What a batch tears down and records: nothing when host time is missing. */
  function BatchTorn(env: Env, batch: seq<Sample>): seq<Event>
    requires batch != []
  {
    if LacksHostTime(env, batch) then [] else TornEvents(env, batch, |batch|)
  }

  function BatchRecorded(env: Env, batch: seq<Sample>, records: seq<Record>): seq<Event>
    requires batch != []
  {
    if LacksHostTime(env, batch) then []
    else RecordedEvents(env, batch, FirstRefused(env, batch, records, |batch|))
  }

  function BatchEffects(env: Env, batch: seq<Sample>, records: seq<Record>): seq<Event>
    requires batch != []
  {
    [Launch(env, batch)] + LearnedEvents(env, batch, |batch|) + BatchTorn(env, batch)
    + BatchRecorded(env, batch, records)
  }

  lemma {:induction false} LaunchedTrace(env: Env, batch: seq<Sample>, n: nat, s: State)
    requires n <= |batch|
    ensures Launched(env, batch, n, s).trace == s.trace + LearnedEvents(env, batch, n)
  {
    if n > 0 { LaunchedTrace(env, batch, n - 1, s); }
  }

  lemma {:induction false} TornTrace(env: Env, batch: seq<Sample>, n: nat, s: State)
    requires n <= |batch|
    ensures TornDown(env, batch, n, s).trace == s.trace + TornEvents(env, batch, n)
  {
    if n > 0 { TornTrace(env, batch, n - 1, s); }
  }

  lemma {:induction false} WrittenTrace(env: Env, batch: seq<Sample>, n: nat, s: State)
    requires n <= |batch| && DistinctBatch(batch) && s.aborted.None?
    ensures Written(env, batch, n, s).trace ==
        s.trace + RecordedEvents(env, batch, FirstRefused(env, batch, s.records, n))
  {
    if n > 0 {
      WrittenTrace(env, batch, n - 1, s);
      WritesUpToFirstRefused(env, batch, n - 1, s);
      var before, x := Written(env, batch, n - 1, s), batch[n - 1];
      if before.aborted.None? {
        OwnRecordsDoNotRefuse(env, batch, s.records, n - 1);
        assert Refused(env, before.records, x) <==> Refused(env, s.records, x);
        WriteOneTrace(env, x, before);
      }
    }
  }

  lemma WriteOneTrace(env: Env, x: Sample, s: State)
    ensures WriteOne(env, x, s).trace ==
            s.trace + if Refused(env, s.records, x) then [] else [Recorded(Record(x.id, TeardownOf(env, x)))]
  {
  }

  /** A batch appends exactly its effects. */
  lemma BatchTrace(env: Env, batch: seq<Sample>, s: State)
    requires batch != [] && DistinctBatch(batch) && !Stopped(s)
    ensures BatchDone(env, batch, s).trace == s.trace + BatchEffects(env, batch, s.records)
  {
    var n := |batch|;
    LaunchedTrace(env, batch, n, Opened(env, batch, s));
    LaunchingKeepsReport(env, batch, n, Opened(env, batch, s));
    var launched := Launched(env, batch, n, Opened(env, batch, s));
    if !LacksHostTime(env, batch) {
      TornTrace(env, batch, n, launched);
      TearingKeepsReport(env, batch, n, launched);
      WrittenTrace(env, batch, n, TornDown(env, batch, n, launched));
    }
  }

  // --------------------------------------------------------------- a cut batch

  function Clamp(x: int, n: nat): (k: nat)
    ensures k <= n
  {
    if x < 0 then 0 else if x > n then n else x
  }

  lemma CutConcat<T>(a: seq<T>, b: seq<T>, c: int)
    ensures (a + b)[..Clamp(c, |a + b|)] == a[..Clamp(c, |a|)] + b[..Clamp(c - |a|, |b|)]
  {
  }

  /** What is left of the three phases of a batch when `kept` of its effects survive. */
  function LearnedSoFar(env: Env, batch: seq<Sample>, kept: nat): seq<Event> {
    var learned := LearnedEvents(env, batch, |batch|);
    learned[..Clamp(kept - 1, |learned|)]
  }

  function TornSoFar(env: Env, batch: seq<Sample>, kept: nat): seq<Event>
    requires batch != []
  {
    var torn := BatchTorn(env, batch);
    torn[..Clamp(kept - 1 - |LearnedEvents(env, batch, |batch|)|, |torn|)]
  }

  function RecordedSoFar(env: Env, batch: seq<Sample>, records: seq<Record>, kept: nat): seq<Event>
    requires batch != []
  {
    var recorded := BatchRecorded(env, batch, records);
    recorded[..Clamp(kept - 1 - |LearnedEvents(env, batch, |batch|)| - |BatchTorn(env, batch)|, |recorded|)]
  }

  lemma CutBatch(env: Env, batch: seq<Sample>, records: seq<Record>, kept: nat)
    requires batch != [] && kept <= |BatchEffects(env, batch, records)|
    ensures BatchEffects(env, batch, records)[..kept] ==
            [Launch(env, batch)][..Clamp(kept, 1)] + LearnedSoFar(env, batch, kept) + TornSoFar(env, batch, kept)
            + RecordedSoFar(env, batch, records, kept)
  {
    var l, d, r := LearnedEvents(env, batch, |batch|), BatchTorn(env, batch), BatchRecorded(env, batch, records);
    CutConcat([Launch(env, batch)] + l + d, r, kept);
    CutConcat([Launch(env, batch)] + l, d, kept);
    CutConcat([Launch(env, batch)], l, kept);
  }

  lemma {:induction false} LearnedAreLearned(env: Env, batch: seq<Sample>, n: nat)
    requires n <= |batch|
    ensures forall e :: e in LearnedEvents(env, batch, n) ==> e.Learned?
    ensures forall e :: e in TornEvents(env, batch, n) ==> e.Torn?
    ensures forall e :: e in RecordedEvents(env, batch, n) ==> e.Recorded?
  {
    if n > 0 { LearnedAreLearned(env, batch, n - 1); }
  }

  lemma PhasesOfBatch(env: Env, batch: seq<Sample>, records: seq<Record>, kept: nat)
    requires batch != []
    ensures forall e :: e in LearnedSoFar(env, batch, kept) ==> e.Learned?
    ensures forall e :: e in TornSoFar(env, batch, kept) ==> e.Torn?
    ensures forall e :: e in RecordedSoFar(env, batch, records, kept) ==> e.Recorded?
  {
    LearnedAreLearned(env, batch, |batch|);
    LearnedAreLearned(env, batch, FirstRefused(env, batch, records, |batch|));
  }

  lemma {:induction false} LearningAdds(past: seq<Event>, part: seq<Event>, run: Run)
    requires forall e :: e in part ==> e.Learned?
    ensures run in Live(past + part) <==> run in Live(past) || Learned(run) in part
    decreases |part|
  {
    if part == [] {
      assert past + part == past;
    } else {
      var n := |part| - 1;
      LearningAdds(past, part[..n], run);
      assert past + part == (past + part[..n]) + [part[n]] && part == part[..n] + [part[n]];
      OneMore(past + part[..n], part[n]);
      assert part[n] == Learned(run) <==> part[n].run == run;
    }
  }

  lemma {:induction false} TearingRemoves(past: seq<Event>, part: seq<Event>, run: Run)
    requires forall e :: e in part ==> e.Torn?
    ensures run in Live(past + part) <==> run in Live(past) && Torn(run) !in part
    decreases |part|
  {
    if part == [] {
      assert past + part == past;
    } else {
      var n := |part| - 1;
      TearingRemoves(past, part[..n], run);
      assert past + part == (past + part[..n]) + [part[n]] && part == part[..n] + [part[n]];
      OneMore(past + part[..n], part[n]);
      assert part[n] == Torn(run) <==> part[n].run == run;
    }
  }

  lemma {:induction false} RecordingKeepsLive(past: seq<Event>, part: seq<Event>)
    requires forall e :: e in part ==> e.Recorded?
    ensures Live(past + part) == Live(past)
    decreases |part|
  {
    if part == [] {
      assert past + part == past;
    } else {
      var n := |part| - 1;
      RecordingKeepsLive(past, part[..n]);
      assert past + part == (past + part[..n]) + [part[n]] && part[n] in part;
      OneMore(past + part[..n], part[n]);
    }
  }

  lemma Regroup<T>(past: seq<T>, b: seq<T>, l: seq<T>, d: seq<T>, r: seq<T>)
    ensures past + (b + l + d + r) == past + b + l + d + r
  {
  }

  lemma CutLive(env: Env, batch: seq<Sample>, records: seq<Record>, kept: nat, past: seq<Event>, run: Run)
    requires batch != [] && kept <= |BatchEffects(env, batch, records)| && Live(past) == {}
    ensures run in Live(past + BatchEffects(env, batch, records)[..kept]) <==>
            Learned(run) in LearnedSoFar(env, batch, kept) && Torn(run) !in TornSoFar(env, batch, kept)
  {
    var b, l := [Launch(env, batch)][..Clamp(kept, 1)], LearnedSoFar(env, batch, kept);
    var d, r := TornSoFar(env, batch, kept), RecordedSoFar(env, batch, records, kept);
    PhasesOfBatch(env, batch, records, kept);
    CutBatch(env, batch, records, kept);
    Regroup(past, b, l, d, r);
    if kept > 0 { OneMore(past, Launch(env, batch)); } else { assert past + b == past; }
    LearningAdds(past + b, l, run);
    TearingRemoves(past + b + l, d, run);
    RecordingKeepsLive(past + b + l + d, r);
  }

  ghost predicate NoFailedRecord(events: seq<Event>) {
    forall e :: e in events && e.Recorded? ==> e.record.teardown != Failed
  }

  lemma {:induction false} FileMayStart(records: seq<Record>, trace: seq<Event>)
    ensures MayStart(records + RecordsIn(trace)) <==> MayStart(records) && NoFailedRecord(trace)
    decreases |trace|
  {
    if trace == [] {
      assert records + RecordsIn(trace) == records;
    } else {
      var n := |trace| - 1;
      var front, last := trace[..n], trace[n];
      FileMayStart(records, front);
      assert trace == front + [last];
      if last.Recorded? {
        assert records + RecordsIn(trace) == (records + RecordsIn(front)) + [last.record];
        MayStartOneMore(records + RecordsIn(front), last.record);
      }
    }
  }

  lemma MayStartOneMore(records: seq<Record>, r: Record)
    ensures MayStart(records + [r]) <==> MayStart(records) && r.teardown != Failed
  {
    var longer := records + [r];
    assert longer[|records|] == r;
    if MayStart(longer) {
      forall k | 0 <= k < |records| ensures records[k].teardown != Failed { assert longer[k] == records[k]; }
    }
  }

  lemma CutRecords(env: Env, batch: seq<Sample>, records: seq<Record>, kept: nat)
    requires batch != [] && kept <= |BatchEffects(env, batch, records)|
    ensures NoFailedRecord(BatchEffects(env, batch, records)[..kept]) <==>
            NoFailedRecord(RecordedSoFar(env, batch, records, kept))
  {
    var b, l := [Launch(env, batch)][..Clamp(kept, 1)], LearnedSoFar(env, batch, kept);
    var d, r := TornSoFar(env, batch, kept), RecordedSoFar(env, batch, records, kept);
    PhasesOfBatch(env, batch, records, kept);
    CutBatch(env, batch, records, kept);
    assert forall e :: e in b + l + d + r <==> e in b || e in l || e in d || e in r;
  }

  /** After `kept` effects of the batch some run is on the host, and no failed teardown is on file. */
  ghost predicate CutHides(env: Env, batch: seq<Sample>, records: seq<Record>, kept: nat)
    requires batch != []
  {
    && (exists run :: Learned(run) in LearnedSoFar(env, batch, kept) && Torn(run) !in TornSoFar(env, batch, kept))
    && NoFailedRecord(RecordedSoFar(env, batch, records, kept))
  }

  // ------------------------------------------------------- where a session ends

  /** The batch in which a session ends: the one its crash interrupts or the one that stops it.
      `Clean` when neither happens. */
  datatype Ending = Clean | During(state: State, batch: seq<Sample>, kept: nat)

  function Least(a: nat, b: nat): nat { if a <= b then a else b }

  ghost function BatchesEnding(env: Env, pending: seq<Sample>, concurrency: nat, s: State, cut: nat)
    : (r: Ending)
    requires concurrency >= 1
    ensures r.During? ==> r.batch != []
    decreases |pending|
  {
    if pending == [] || Stopped(s) then Clean
    else
      var size := BatchSize(pending, concurrency);
      var after := BatchDone(env, pending[..size], s);
      if cut < |after.trace| || Stopped(after) then
        During(s, pending[..size], Clamp(Least(cut, |after.trace|) - |s.trace|, |after.trace|))
      else BatchesEnding(env, pending[size..], concurrency, after, cut)
  }

  ghost function GroupsEnding(env: Env, groups: seq<Group>, skippable: set<string>, s: State, cut: nat)
    : (r: Ending)
    requires forall g :: g in groups ==> g.concurrency >= 1
    ensures r.During? ==> r.batch != []
    decreases |groups|
  {
    if groups == [] || s.aborted.Some? then Clean
    else
      var pending := Pending(groups[0].samples, skippable);
      var ending := BatchesEnding(env, pending, groups[0].concurrency, s, cut);
      if ending.During? then ending
      else GroupsEnding(env, groups[1..], skippable, AfterGroup(Batches(env, pending, groups[0].concurrency, s)), cut)
  }

  ghost function SessionEnding(records: seq<Record>, session: Session): (r: Ending)
    requires Runnable(session)
    ensures r.During? ==> r.batch != []
  {
    if !MayStart(records) then Clean
    else GroupsEnding(session.env, session.groups, Skippable(records), Fresh(records), session.survives)
  }

  ghost function CutTrace(trace: seq<Event>, cut: nat): seq<Event> {
    if cut < |trace| then trace[..cut] else trace
  }

  /** A state between batches of a campaign that started from `start`. */
  ghost predicate Between(start: seq<Record>, s: State, cut: nat) {
    && Inv(s) && FileInv(start, s) && |s.trace| <= cut
    && (!Stopped(s) ==> MayStart(s.records))
  }

  /** The ending describes what is left of the trace. */
  ghost predicate Describes(env: Env, start: seq<Record>, ending: Ending, trace: seq<Event>, cut: nat) {
    ending.During? ==>
      && Between(start, ending.state, cut) && !Stopped(ending.state) && ending.batch != [] &&
          DistinctBatch(ending.batch)
      && ending.kept <= |BatchEffects(env, ending.batch, ending.state.records)|
      && CutTrace(trace, cut) ==
         ending.state.trace + BatchEffects(env, ending.batch, ending.state.records)[..ending.kept]
  }

  lemma BatchKeepsBetween(env: Env, batch: seq<Sample>, start: seq<Record>, s: State, cut: nat)
    requires batch != [] && DistinctBatch(batch) && Between(start, s, cut) && !Stopped(s)
    requires |BatchDone(env, batch, s).trace| <= cut
    ensures Between(start, BatchDone(env, batch, s), cut)
  {
    var n, after := |batch|, BatchDone(env, batch, s);
    BatchKeepsInv(env, batch, s);
    BatchKeepsFile(env, batch, start, s);
    if !Stopped(after) {
      BatchFile(env, batch, s);
      LaunchingKeepsReport(env, batch, n, Opened(env, batch, s));
      var launched := Launched(env, batch, n, Opened(env, batch, s));
      CleanupFailuresAreFailedTeardowns(env, batch, n, launched);
      CleanupStays(env, batch, n, TornDown(env, batch, n, launched));
    }
  }

  lemma EndsInBatch(env: Env, batch: seq<Sample>, start: seq<Record>, s: State, cut: nat)
    requires batch != [] && DistinctBatch(batch) && Between(start, s, cut) && !Stopped(s)
    ensures var after := BatchDone(env, batch, s);
            Describes(env, start, During(s, batch, Clamp(Least(cut, |after.trace|) - |s.trace|, |after.trace|)),
                      after.trace, cut)
  {
    var after, effects := BatchDone(env, batch, s), BatchEffects(env, batch, s.records);
    BatchTrace(env, batch, s);
    var kept := Clamp(Least(cut, |after.trace|) - |s.trace|, |after.trace|);
    assert kept <= |effects|;
    assert CutTrace(after.trace, cut) == s.trace + effects[..kept];
  }

  lemma {:induction false} BatchesGrow(env: Env, pending: seq<Sample>, concurrency: nat, s: State)
    requires concurrency >= 1 && DistinctBatch(pending)
    ensures s.trace <= Batches(env, pending, concurrency, s).trace
    decreases |pending|
  {
    if pending != [] && !Stopped(s) {
      var size := BatchSize(pending, concurrency);
      BatchTrace(env, pending[..size], s);
      BatchesGrow(env, pending[size..], concurrency, BatchDone(env, pending[..size], s));
    }
  }

  lemma {:induction false} BatchesEndAsDescribed(
    env: Env, pending: seq<Sample>, concurrency: nat, start: seq<Record>, s: State, cut: nat)
    requires concurrency >= 1 && DistinctBatch(pending) && Between(start, s, cut)
    ensures var end, ending := Batches(env, pending, concurrency, s), BatchesEnding(env, pending, concurrency, s, cut);
            && Describes(env, start, ending, end.trace, cut)
            && (ending.During? ==> cut < |end.trace| || Stopped(end))
            && (ending.Clean? ==> Between(start, end, cut) && (!Stopped(s) ==> !Stopped(end)))
    decreases |pending|
  {
    if pending != [] && !Stopped(s) {
      var size := BatchSize(pending, concurrency);
      var batch, rest := pending[..size], pending[size..];
      var after := BatchDone(env, batch, s);
      BatchesGrow(env, rest, concurrency, after);
      if cut < |after.trace| || Stopped(after) {
        EndsInBatch(env, batch, start, s, cut);
      } else {
        BatchKeepsBetween(env, batch, start, s, cut);
        BatchesEndAsDescribed(env, rest, concurrency, start, after, cut);
      }
    }
  }

  lemma {:induction false} GroupsGrow(env: Env, groups: seq<Group>, skippable: set<string>, s: State)
    requires forall g :: g in groups ==> g.concurrency >= 1 && DistinctBatch(g.samples)
    ensures s.trace <= Groups(env, groups, skippable, s).trace
    decreases |groups|
  {
    if groups != [] && s.aborted.None? {
      var pending := Pending(groups[0].samples, skippable);
      PendingIsDistinct(groups[0].samples, skippable);
      BatchesGrow(env, pending, groups[0].concurrency, s);
      GroupsGrow(env, groups[1..], skippable, AfterGroup(Batches(env, pending, groups[0].concurrency, s)));
    }
  }

  lemma {:induction false} PendingIsDistinct(samples: seq<Sample>, skippable: set<string>)
    requires DistinctBatch(samples)
    ensures DistinctBatch(Pending(samples, skippable))
    decreases |samples|
  {
    if samples != [] {
      var n := |samples| - 1;
      var front, last := Pending(samples[..n], skippable), samples[n];
      PendingIsDistinct(samples[..n], skippable);
      forall i | 0 <= i < |front| ensures front[i].id != last.id {
        PendingIsUnskipped(samples[..n], skippable, front[i]);
        assert front[i] in samples[..n];
      }
    }
  }

  lemma {:induction false} GroupsEndAsDescribed(
    env: Env, groups: seq<Group>, skippable: set<string>, start: seq<Record>, s: State, cut: nat)
    requires forall g :: g in groups ==> g.concurrency >= 1 && DistinctBatch(g.samples)
    requires Between(start, s, cut) && !Stopped(s)
    ensures var end, ending := Groups(env, groups, skippable, s), GroupsEnding(env, groups, skippable, s, cut);
            && Describes(env, start, ending, end.trace, cut)
            && (ending.Clean? ==> Between(start, end, cut) && !Stopped(end))
    decreases |groups|
  {
    if groups != [] {
      var pending, rest := Pending(groups[0].samples, skippable), groups[1..];
      PendingIsDistinct(groups[0].samples, skippable);
      BatchesEndAsDescribed(env, pending, groups[0].concurrency, start, s, cut);
      var mid := Batches(env, pending, groups[0].concurrency, s);
      GroupsGrow(env, rest, skippable, AfterGroup(mid));
      if BatchesEnding(env, pending, groups[0].concurrency, s, cut).Clean? {
        GroupsEndAsDescribed(env, rest, skippable, start, mid, cut);
      } else {
        var end := Groups(env, groups, skippable, s);
        assert Stopped(mid) ==> end.trace == mid.trace;
        assert CutTrace(end.trace, cut) == CutTrace(mid.trace, cut);
      }
    }
  }

  // ------------------------------------------------------------- hidden runs

  ghost predicate DistinctPlan(session: Session) {
    Runnable(session) && forall g :: g in session.groups ==> DistinctBatch(g.samples)
  }

  /** The session leaves a run on the host that no record reveals: a resume may start. */
  ghost predicate HidesARun(records: seq<Record>, session: Session)
    requires Runnable(session)
  {
    Live(Effects(records, session)) != {} && MayStart(FileAfterSession(records, session))
  }

  lemma EndingDecides(env: Env, start: seq<Record>, ending: Ending, trace: seq<Event>, cut: nat)
    requires ending.During? && Describes(env, start, ending, trace, cut)
    ensures Live(CutTrace(trace, cut)) != {} && MayStart(start + RecordsIn(CutTrace(trace, cut))) <==>
            CutHides(env, ending.batch, ending.state.records, ending.kept)
  {
    var s, batch, kept := ending.state, ending.batch, ending.kept;
    var cutTrace, effects := CutTrace(trace, cut), BatchEffects(env, ending.batch, ending.state.records)[..ending.kept];
    forall run ensures run in Live(cutTrace) <==>
                         Learned(run) in LearnedSoFar(env, batch, kept) && Torn(run) !in TornSoFar(env, batch, kept)
    {
      CutLive(env, batch, s.records, kept, s.trace, run);
    }
    FileMayStart(start, s.trace);
    FileMayStart(start, cutTrace);
    CutRecords(env, batch, s.records, kept);
    assert NoFailedRecord(cutTrace) <==> NoFailedRecord(s.trace) && NoFailedRecord(effects);
    if Live(cutTrace) != {} {
      var run :| run in Live(cutTrace);
      assert Learned(run) in LearnedSoFar(env, batch, kept) && Torn(run) !in TornSoFar(env, batch, kept);
    }
  }

  /** A session hides a run if and only if the batch in which it ends, by a crash or by an abort,
      has learned a run that is not torn down yet and has no failed teardown on file yet. */
  lemma HidesARunIff(records: seq<Record>, session: Session)
    requires DistinctPlan(session) && DistinctSamples(records)
    ensures HidesARun(records, session) <==>
            var ending := SessionEnding(records, session);
            ending.During? && CutHides(session.env, ending.batch, ending.state.records, ending.kept)
  {
    if MayStart(records) {
      var start, cut := Fresh(records), session.survives;
      var end, ending := CampaignDone(session.env, session.groups, records), SessionEnding(records, session);
      assert Between(records, start, cut);
      GroupsEndAsDescribed(session.env, session.groups, Skippable(records), records, start, cut);
      assert Effects(records, session) == CutTrace(end.trace, cut);
      if ending.During? { EndingDecides(session.env, records, ending, end.trace, cut); }
    } else {
      RefusedSession(records, session);
    }
  }

  /** Every launch leads to run "r", which is cleaned up and recorded as soon as the driver gets there. */
  function Answers(inTime: bool, hostTime: bool): Env {
    Env((id: string) => Some("r"), (id: string) => inTime, (id: string) => true, (id: string) => Usable,
        (id: string) => true, (id: string) => hostTime)
  }

  /** A crash right after the run was learned: host time, cleanup and record would all have been fine. */
  lemma CrashHidesARun()
    ensures HidesARun([], Session(Answers(true, true), [Group([Sample("a", false)], 1)], 2))
  {
    OneSampleHides(Answers(true, true), Sample("a", false), 2, "r");
  }

  /** One background sample without host time: the abort leaves its run behind, crash or not. */
  lemma HostTimeAbortHidesARun(survives: nat)
    requires survives >= 2
    ensures HidesARun([], Session(Answers(true, false), [Group([Sample("a", true)], 1)], survives))
  {
    assert LacksHostTime(Answers(true, false), [Sample("a", true)]) by { assert [Sample("a", true)][0].background; }
    OneSampleHides(Answers(true, false), Sample("a", true), survives, "r");
  }

  lemma OneBatchTrace(env: Env, x: Sample)
    ensures CampaignDone(env, [Group([x], 1)], []).trace == BatchEffects(env, [x], [])
  {
    var batch, s := [x], Fresh([]);
    assert Pending(batch, {}) == batch by { assert batch[..0] == []; }
    assert batch[..1] == batch && batch[1..] == [];
    BatchTrace(env, batch, s);
    var groups, done := [Group(batch, 1)], BatchDone(env, batch, s);
    assert Batches(env, batch, 1, s) == done;
    assert groups[1..] == [] && Skippable([]) == {};
    assert Groups(env, groups, {}, s) == Groups(env, [], {}, AfterGroup(done)) == AfterGroup(done);
  }

  lemma OneSampleHides(env: Env, x: Sample, survives: nat, run: string)
    requires env.run(x.id) == Some(run) && survives >= 2 && (survives == 2 || LacksHostTime(env, [x]))
    ensures HidesARun([], Session(env, [Group([x], 1)], survives))
  {
    var session, batch := Session(env, [Group([x], 1)], survives), [x];
    var all := BatchEffects(env, batch, []);
    OneBatchTrace(env, x);
    assert LearnedEvents(env, batch, 1) == [Learned(Run(x.id, run))];
    var kept := Least(survives, |all|);
    assert Effects([], session) == all[..kept];
    assert LearnedSoFar(env, batch, kept) == [Learned(Run(x.id, run))];
    assert TornSoFar(env, batch, kept) == [] && RecordedSoFar(env, batch, [], kept) == [];
    CutLive(env, batch, [], kept, [], Run(x.id, run));
    assert [] + all[..kept] == all[..kept];
    CutRecords(env, batch, [], kept);
    FileMayStart([], all[..kept]);
  }

  // -------------------------------------------------- every session on one host

  /** The effects of all sessions, one after the other. */
  ghost function AllEffects(records: seq<Record>, sessions: seq<Session>): seq<Event>
    requires AllRunnable(sessions)
    decreases |sessions|
  {
    if sessions == [] then []
    else Effects(records, sessions[0]) + AllEffects(FileAfterSession(records, sessions[0]), sessions[1..])
  }

  /** No session on which a later one builds ended hiding a run. */
  ghost predicate NoneHides(records: seq<Record>, sessions: seq<Session>)
    requires AllRunnable(sessions)
    decreases |sessions|
  {
    sessions != [] ==>
      var file := FileAfterSession(records, sessions[0]);
      && (AllEffects(file, sessions[1..]) != [] ==> !HidesARun(records, sessions[0]))
      && NoneHides(file, sessions[1..])
  }

  lemma {:induction false} SafePrefix(trace: seq<Event>, k: nat)
    requires Safe(trace) && k <= |trace|
    ensures Safe(trace[..k])
    decreases |trace|
  {
    if k < |trace| {
      SafePrefix(trace[..|trace| - 1], k);
      assert trace[..|trace| - 1][..k] == trace[..k];
    } else {
      assert trace[..k] == trace;
    }
  }

  lemma {:induction false} SafeStartsIsSafe(trace: seq<Event>)
    requires SafeStarts(trace)
    ensures Safe(trace)
    decreases |trace|
  {
    if trace != [] {
      var front := trace[..|trace| - 1];
      forall i | 0 <= i < |front| && front[i].BatchStarts? ensures Live(front[..i]) == {} {
        assert front[..i] == trace[..i];
      }
      SafeStartsIsSafe(front);
    }
  }

  lemma SafeIffSafeStarts(trace: seq<Event>)
    ensures Safe(trace) <==> SafeStarts(trace)
  {
    if Safe(trace) { SafeIsSafeStarts(trace); }
    if SafeStarts(trace) { SafeStartsIsSafe(trace); }
  }

  /** From a host without live runs a session behaves as from a fresh one. */
  lemma {:induction false} CleanPast(past: seq<Event>, t: seq<Event>)
    requires Safe(past) && Live(past) == {} && Safe(t)
    ensures Safe(past + t) && Live(past + t) == Live(t)
    decreases |t|
  {
    if t == [] {
      assert past + t == past;
    } else {
      var n := |t| - 1;
      CleanPast(past, t[..n]);
      assert past + t == (past + t[..n]) + [t[n]];
      OneMore(past + t[..n], t[n]);
    }
  }

  lemma StartOverLiveRun(past: seq<Event>, t: seq<Event>)
    requires Live(past) != {} && t != [] && t[0].BatchStarts?
    ensures !Safe(past + t)
  {
    if Safe(past + t) {
      SafePrefix(past + t, |past| + 1);
      assert (past + t)[..|past| + 1] == past + [t[0]];
      OneMore(past, t[0]);
    }
  }

  ghost predicate BeginsWithBatch(trace: seq<Event>) { trace != [] ==> trace[0].BatchStarts? }

  lemma {:induction false} BatchesBegin(env: Env, pending: seq<Sample>, concurrency: nat, s: State)
    requires concurrency >= 1 && DistinctBatch(pending) && BeginsWithBatch(s.trace)
    ensures BeginsWithBatch(Batches(env, pending, concurrency, s).trace)
    decreases |pending|
  {
    if pending != [] && !Stopped(s) {
      var size := BatchSize(pending, concurrency);
      BatchTrace(env, pending[..size], s);
      BatchesBegin(env, pending[size..], concurrency, BatchDone(env, pending[..size], s));
    }
  }

  lemma {:induction false} GroupsBegin(env: Env, groups: seq<Group>, skippable: set<string>, s: State)
    requires forall g :: g in groups ==> g.concurrency >= 1 && DistinctBatch(g.samples)
    requires BeginsWithBatch(s.trace)
    ensures BeginsWithBatch(Groups(env, groups, skippable, s).trace)
    decreases |groups|
  {
    if groups != [] && s.aborted.None? {
      var pending := Pending(groups[0].samples, skippable);
      PendingIsDistinct(groups[0].samples, skippable);
      BatchesBegin(env, pending, groups[0].concurrency, s);
      GroupsBegin(env, groups[1..], skippable, AfterGroup(Batches(env, pending, groups[0].concurrency, s)));
    }
  }

  lemma SessionBegins(records: seq<Record>, session: Session)
    requires DistinctPlan(session)
    ensures BeginsWithBatch(Effects(records, session)) && Safe(Effects(records, session))
  {
    CrashedSessionIsSafe(records, session);
    SafeStartsIsSafe(Effects(records, session));
    if MayStart(records) { GroupsBegin(session.env, session.groups, Skippable(records), Fresh(records)); }
  }

  ghost predicate DistinctPlans(sessions: seq<Session>) {
    forall k :: 0 <= k < |sessions| ==> DistinctPlan(sessions[k])
  }

  lemma {:induction false} AllBegin(records: seq<Record>, sessions: seq<Session>)
    requires DistinctPlans(sessions)
    ensures BeginsWithBatch(AllEffects(records, sessions))
    ensures AllEffects(records, sessions) != [] ==> MayStart(records)
    ensures AllEffects(records, sessions) == [] ==> NoneHides(records, sessions)
    decreases |sessions|
  {
    if sessions != [] {
      var file := FileAfterSession(records, sessions[0]);
      SessionBegins(records, sessions[0]);
      AllBegin(file, sessions[1..]);
      if !MayStart(records) { RefusedSession(records, sessions[0]); }
    }
  }

  /** One session before the later ones: it matters only when it leaves a live run and they start. */
  lemma LeftoverDecides(past: seq<Event>, effects: seq<Event>, later: seq<Event>, mayStart: bool, laterFine: bool)
    requires Safe(past) && Live(past) == {} && Safe(effects) && BeginsWithBatch(later)
    requires later != [] ==> mayStart
    requires later == [] ==> laterFine
    requires Live(effects) == {} ==> (Safe(past + effects + later) <==> laterFine)
    ensures Safe(past + effects + later) <==>
            (later != [] ==> !(Live(effects) != {} && mayStart)) && laterFine
  {
    if Live(effects) != {} {
      CleanPast(past, effects);
      if later != [] {
        StartOverLiveRun(past + effects, later);
      } else {
        assert past + effects + later == past + effects;
      }
    }
  }

  lemma Associative<T>(a: seq<T>, b: seq<T>, c: seq<T>)
    ensures a + (b + c) == a + b + c
  {
  }

  lemma {:induction false} SessionsSafeFrom(past: seq<Event>, records: seq<Record>, sessions: seq<Session>)
    requires DistinctPlans(sessions) && AllRunnable(sessions) && Safe(past) && Live(past) == {}
    ensures Safe(past + AllEffects(records, sessions)) <==> NoneHides(records, sessions)
    decreases |sessions|
  {
    if sessions == [] {
      assert past + AllEffects(records, sessions) == past;
    } else {
      var first, rest := sessions[0], sessions[1..];
      var effects, file := Effects(records, first), FileAfterSession(records, first);
      var later := AllEffects(file, rest);
      SessionBegins(records, first);
      AllBegin(file, rest);
      Associative(past, effects, later);
      if Live(effects) == {} {
        CleanPast(past, effects);
        SessionsSafeFrom(past + effects, file, rest);
      }
      LeftoverDecides(past, effects, later, MayStart(file), NoneHides(file, rest));
    }
  }

  /** Over any sequence of sessions on one host, each crashing anywhere: every batch starts with all
      earlier runs, of any session, confirmed gone if and only if no session on which a later one
      builds ended hiding a run. */
  lemma SessionsSafeIffNoneHides(records: seq<Record>, sessions: seq<Session>)
    requires DistinctPlans(sessions)
    ensures SafeStarts(AllEffects(records, sessions)) <==> NoneHides(records, sessions)
  {
    var all := AllEffects(records, sessions);
    assert [] + all == all;
    SessionsSafeFrom([], records, sessions);
    SafeIffSafeStarts(all);
  }
}
