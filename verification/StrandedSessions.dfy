/** Sessions that stay in the table of the builder although nobody is left to take them
    (crates/intar-builder/src/build_worker.rs). */
module StrandedSessions {
  import opened Wrappers
  import opened Histories
  import opened AdmissionSessions

  // -------------------------------------------------------- sessions left alone

  ghost predicate JobOf(task: Task, build: string) { task == JobRunning(build) || task == JobEnding(build) }

  /** No job of the build is still to look at its session. */
  ghost predicate NoJob(s: State, build: string) { forall t: nat :: !JobOf(TaskOf(s, t), build) }

  predicate WorksOn(task: Task, build: string) { !task.Idle? && task.build == build }

  /** No worker has anything left to do for the build: none will take its session, and none will
      settle its row. */
  ghost predicate NoWorker(s: State, build: string) { forall t: nat :: !WorksOn(TaskOf(s, t), build) }

  /** The row is queued for a build, or its output for a first publication or a retry. */
  predicate IsPending(s: State, build: string) {
    build in s.rows && (s.rows[build].phase == InQueue || IsPublishable(s.rows[build]))
  }

  /** The session of the build is in the table, and nobody is left to take it out. */
  ghost predicate Stranded(s: State, build: string) {
    build in s.table && NoWorker(s, build) && !IsPending(s, build)
  }

  /** The last job of the build ends, sees a running publication and leaves the session to it. */
  ghost predicate Defers(s: State, e: Event, build: string) {
    && e.EndJob? && e.readable && TaskOf(s, e.task) == JobRunning(build)
    && IsRunning(s, build) && build in s.table
    && forall t: nat :: t != e.task ==> !JobOf(TaskOf(s, t), build)
  }

  /** A job of the build starts, or a publication takes its session. */
  ghost predicate Rescues(s: State, e: Event, build: string) {
    || (e.ClaimJob? && e.build == build && !NoJob(Step(s, e), build))
    || (e.TakeForPublish? && TaskOf(s, e.task) == PublishClaimed(build))
  }

  ghost function DefersAt(events: seq<Event>, build: string): nat -> bool {
    (k: nat) => k < |events| && Defers(After(events[..k]), events[k], build)
  }

  ghost function RescuesAt(events: seq<Event>, build: string): nat -> bool {
    (k: nat) => k < |events| && Rescues(After(events[..k]), events[k], build)
  }

  /** The last job of the build left the session to a running publication, and since then no job of
      the build started and no publication took the session. */
  ghost predicate Deferred(events: seq<Event>, build: string) {
    Since(|events|, DefersAt(events, build), RescuesAt(events, build))
  }

  /** The session is left alone: in the table, with no job of its build. */
  ghost predicate LeftAlone(s: State, build: string) { build in s.table && NoJob(s, build) }

  lemma LeftAloneStays(s: State, e: Event, build: string)
    requires LeftAlone(s, build)
    ensures LeftAlone(Step(s, e), build) <==> !Rescues(s, e, build)
  {
    forall t: nat ensures JobOf(TaskOf(Step(s, e), t), build) ==> e.ClaimJob? && e.build == build {
      assert !JobOf(TaskOf(s, t), build);
    }
    TakenOnlyByEndOrPublish(s, e, build);
    if e.TakeAtEnd? { assert !JobOf(TaskOf(s, e.task), build); }
  }

  /** How a job stops being one that will look at the session: it defers or it takes. */
  lemma JobStops(s: State, e: Event, t: nat, build: string)
    requires JobOf(TaskOf(s, t), build) && !JobOf(TaskOf(Step(s, e), t), build) && build in Step(s, e).table
    ensures e.EndJob? && e.readable && e.task == t && TaskOf(s, t) == JobRunning(build) && IsRunning(s, build)
    ensures forall q: nat :: q != t ==> TaskOf(Step(s, e), q) == TaskOf(s, q)
  {
    if e.Desire? || e.Drop? || e.task != t { OtherTasksStay(s, e, t); }
    forall q: nat | q != t ensures TaskOf(Step(s, e), q) == TaskOf(s, q) { OtherTasksStay(s, e, q); }
  }

  lemma OnlyJobsOpen(s: State, e: Event, build: string)
    requires build !in s.table && build in Step(s, e).table
    ensures e.Probe? && JobOf(TaskOf(Step(s, e), e.task), build)
  {
  }

  lemma BecomesLeftAlone(s: State, e: Event, build: string)
    requires !LeftAlone(s, build)
    ensures LeftAlone(Step(s, e), build) <==> Defers(s, e, build)
  {
    var s' := Step(s, e);
    if Defers(s, e, build) {
      forall t: nat ensures !JobOf(TaskOf(s', t), build) { assert t != e.task ==> TaskOf(s', t) == TaskOf(s, t); }
    }
    if LeftAlone(s', build) {
      if build !in s.table { OnlyJobsOpen(s, e, build); }
      var t: nat :| JobOf(TaskOf(s, t), build);
      JobStops(s, e, t, build);
      forall q: nat | q != t ensures !JobOf(TaskOf(s, q), build) { assert TaskOf(s', q) == TaskOf(s, q); }
    }
  }

  lemma DeferredOneMore(events: seq<Event>, n: nat, build: string)
    requires n == |events| - 1
    ensures Deferred(events, build) <==>
            || Defers(After(events[..n]), events[n], build)
            || (!Rescues(After(events[..n]), events[n], build) && Deferred(events[..n], build))
  {
    var front := events[..n];
    forall k: nat | k < n ensures front[..k] == events[..k] {
    }
    SinceOneMore(n, |events|, DefersAt(events, build), RescuesAt(events, build),
                 DefersAt(front, build), RescuesAt(front, build));
  }

  lemma LeftAloneStep(s: State, e: Event, build: string)
    ensures LeftAlone(Step(s, e), build) <==>
            Defers(s, e, build) || (!Rescues(s, e, build) && LeftAlone(s, build))
  {
    if LeftAlone(s, build) {
      LeftAloneStays(s, e, build);
      assert !Defers(s, e, build) by { if Defers(s, e, build) { assert JobOf(TaskOf(s, e.task), build); } }
    } else {
      BecomesLeftAlone(s, e, build);
    }
  }

  lemma {:induction false} LeftAloneIffDeferred(events: seq<Event>, build: string)
    ensures LeftAlone(After(events), build) <==> Deferred(events, build)
    decreases |events|
  {
    if events != [] {
      var n := |events| - 1;
      LeftAloneIffDeferred(events[..n], build);
      DeferredOneMore(events, n, build);
      LeftAloneStep(After(events[..n]), events[n], build);
    }
  }

  // ----------------------------------------------------------- stranded sessions

  /** The desired state inserts the row of the build or queues it again. */
  predicate Requeues(s: State, e: Event, build: string) {
    && e.Desire? && e.build == build
    && (build in s.rows ==> s.rows[build].phase == Failed || s.rows[build].phase == InQueue)
  }

  lemma WorkersStay(s: State, e: Event, build: string)
    requires Stranded(s, build)
    ensures NoWorker(Step(s, e), build)
  {
    forall t: nat ensures !WorksOn(TaskOf(Step(s, e), t), build) {
      assert !WorksOn(TaskOf(s, t), build);
      if e.Desire? || e.Drop? || e.task != t { OtherTasksStay(s, e, t); }
    }
  }

  /** A stranded session stays where it is until the desired state asks for its build again. */
  lemma StrandedPersists(s: State, e: Event, build: string)
    requires Stranded(s, build)
    ensures Stranded(Step(s, e), build) <==> !Requeues(s, e, build)
    ensures build in Step(s, e).table && Step(s, e).table[build] == s.table[build]
  {
    WorkersStay(s, e, build);
    if !e.Desire? && !e.Drop? { assert !WorksOn(TaskOf(s, e.task), build); }
    TakenOnlyByEndOrPublish(s, e, build);
  }

  /** The fate with which this event ends a publication. */
  function PublishFate(s: State, e: Event): Fate
    requires e.FailEarly? || e.SettlePublish?
  {
    if e.fate == Fine && (e.FailEarly? || (TaskOf(s, e.task).PublishClosed? && !TaskOf(s, e.task).succeeded))
    then Stops else e.fate
  }

  /** Settling a publication like this puts no new work on the row. */
  predicate PublishEnds(s: State, fate: Fate, build: string) {
    match fate
    case Fine => true
    case GiveUp => true
    case Rebuild => build !in s.rows
    case RetryLater => !IsPending(s, build) && (build in s.rows ==> s.rows[build].publication == NoOutput)
    case Stops => !IsPending(s, build)
  }

  predicate JobEnds(s: State, fate: Fate, build: string) {
    match fate
    case GiveUp => true
    case RetryLater => build !in s.rows
    case _ => !IsPending(s, build)
  }

  ghost predicate OnlyWorker(s: State, t: nat, build: string) {
    forall q: nat :: q != t ==> !WorksOn(TaskOf(s, q), build)
  }

  /** The event ends all work on the build: its last worker settles the row and puts no new work on
      it, or the row is dropped while nobody works on it. */
  ghost predicate EndsWork(s: State, e: Event, build: string) {
    match e
    case SettleJob(t, fate) => TaskOf(s, t) == JobDone(build) && OnlyWorker(s, t, build) && JobEnds(s, fate, build)
    case FailEarly(t, _) =>
      TaskOf(s, t) == PublishClaimed(build) && OnlyWorker(s, t, build) && PublishEnds(s, PublishFate(s, e), build)
    case SettlePublish(t, _) =>
      && TaskOf(s, t).PublishClosed? && TaskOf(s, t).build == build
      && OnlyWorker(s, t, build) && PublishEnds(s, PublishFate(s, e), build)
    case Drop(b) => b == build && NoWorker(s, build)
    case _ => false
  }

  lemma EndedWorkStrands(s: State, e: Event, build: string)
    requires LeftAlone(s, build) && EndsWork(s, e, build)
    ensures Stranded(Step(s, e), build)
  {
    forall t: nat ensures !WorksOn(TaskOf(Step(s, e), t), build) {
      if e.Drop? || e.task != t { OtherTasksStay(s, e, t); }
    }
    TakenOnlyByEndOrPublish(s, e, build);
  }

  lemma WorkerStops(s: State, e: Event, t: nat, build: string)
    requires WorksOn(TaskOf(s, t), build) && NoWorker(Step(s, e), build)
    ensures (e.SettleJob? && TaskOf(s, t).JobDone?) || (e.FailEarly? && TaskOf(s, t).PublishClaimed?)
            || (e.SettlePublish? && TaskOf(s, t).PublishClosed?)
    ensures e.task == t && OnlyWorker(s, t, build)
  {
    assert !WorksOn(TaskOf(Step(s, e), t), build);
    if e.Desire? || e.Drop? || e.task != t { OtherTasksStay(s, e, t); }
    forall q: nat | q != t ensures !WorksOn(TaskOf(s, q), build) {
      OtherTasksStay(s, e, q);
      assert !WorksOn(TaskOf(Step(s, e), q), build);
    }
  }

  lemma NobodyStarted(s: State, e: Event, build: string)
    requires NoWorker(s, build) && NoWorker(Step(s, e), build) && !IsPending(Step(s, e), build) && build in s.table
    ensures Stranded(s, build) || e == Drop(build)
  {
    if e.ClaimJob? || e.ClaimPublish? { assert !WorksOn(TaskOf(Step(s, e), e.task), build); }
    if !e.Desire? && !e.Drop? { assert !WorksOn(TaskOf(s, e.task), build); }
  }

  lemma DeferralKeepsAWorker(s: State, e: Event, build: string)
    requires Defers(s, e, build)
    ensures !NoWorker(Step(s, e), build)
  {
    assert WorksOn(TaskOf(Step(s, e), e.task), build);
  }

  /** One step: how a session becomes stranded, and how it stays so. */
  lemma StrandedStep(s: State, e: Event, build: string)
    ensures Stranded(Step(s, e), build) <==>
            || (LeftAlone(s, build) && EndsWork(s, e, build))
            || (Stranded(s, build) && !Requeues(s, e, build))
  {
    if Stranded(s, build) { StrandedPersists(s, e, build); }
    if LeftAlone(s, build) && EndsWork(s, e, build) { EndedWorkStrands(s, e, build); }
    if Stranded(Step(s, e), build) {
      NoWorkerNoJob(Step(s, e), build);
      LeftAloneStep(s, e, build);
      if Defers(s, e, build) { DeferralKeepsAWorker(s, e, build); }
      if t: nat :| WorksOn(TaskOf(s, t), build) {
        WorkerStops(s, e, t, build);
      } else {
        NobodyStarted(s, e, build);
      }
    }
  }

  lemma NoWorkerNoJob(s: State, build: string)
    requires NoWorker(s, build)
    ensures NoJob(s, build)
  {
    forall t: nat ensures !JobOf(TaskOf(s, t), build) { assert !WorksOn(TaskOf(s, t), build); }
  }

  ghost function EndsWorkAt(events: seq<Event>, build: string): nat -> bool {
    (k: nat) => k < |events| && Deferred(events[..k], build) && EndsWork(After(events[..k]), events[k], build)
  }

  ghost function RequeuesAt(events: seq<Event>, build: string): nat -> bool {
    (k: nat) => k < |events| && Requeues(After(events[..k]), events[k], build)
  }

  /** All work on the build ended while its session was deferred, and the desired state has not asked
      for the build since. */
  ghost predicate Abandons(events: seq<Event>, build: string) {
    Since(|events|, EndsWorkAt(events, build), RequeuesAt(events, build))
  }

  lemma AbandonsOneMore(events: seq<Event>, n: nat, build: string)
    requires n == |events| - 1
    ensures Abandons(events, build) <==>
            || (Deferred(events[..n], build) && EndsWork(After(events[..n]), events[n], build))
            || (!Requeues(After(events[..n]), events[n], build) && Abandons(events[..n], build))
  {
    var front := events[..n];
    forall k: nat | k < n ensures front[..k] == events[..k] {
    }
    SinceOneMore(n, |events|, EndsWorkAt(events, build), RequeuesAt(events, build),
                 EndsWorkAt(front, build), RequeuesAt(front, build));
  }

  /** In every run a session is stranded if and only if the last job of its build left it to a running
      publication and no job or publication came for it, then all work on the build ended without
      anything being queued again, and the desired state has not asked for the build since. */
  lemma {:induction false} StrandedIff(events: seq<Event>, build: string)
    ensures Stranded(After(events), build) <==> Abandons(events, build)
    decreases |events|
  {
    if events != [] {
      var n := |events| - 1;
      StrandedIff(events[..n], build);
      LeftAloneIffDeferred(events[..n], build);
      StrandedStep(After(events[..n]), events[n], build);
      AbandonsOneMore(events, n, build);
    }
  }

  /** One event after the other, with the state each leads to. */
  lemma AfterIs(events: seq<Event>, s: State, e: Event)
    requires After(events) == s
    ensures After(events + [e]) == Step(s, e)
  {
    assert (events + [e])[..|events|] == events;
  }

  ghost function UntilClaimed(b: string): seq<Event> {
    [Desire(b)] + [ClaimJob(0, b)] + [Probe(0, true)] + [SaveOutputs(0)] + [ClaimPublish(1, b)]
  }

  lemma PublicationRuns(b: string)
    ensures After(UntilClaimed(b)) ==
            State(map[b := 0], 1, map[0 := JobRunning(b), 1 := PublishClaimed(b)], [],
                  map[b := Row(Publishing, Running)])
  {
    var e1, e2, e3 := [Desire(b)], [Desire(b)] + [ClaimJob(0, b)], [Desire(b)] + [ClaimJob(0, b)] + [Probe(0, true)];
    assert [] + [Desire(b)] == e1;
    AfterIs([], START, Desire(b));
    AfterIs(e1, State(map[], 0, map[], [], map[b := Row(InQueue, NoOutput)]), ClaimJob(0, b));
    AfterIs(e2, State(map[], 0, map[0 := JobRunning(b)], [], map[b := Row(Working, NoOutput)]), Probe(0, true));
    AfterIs(e3, State(map[b := 0], 1, map[0 := JobRunning(b)], [], map[b := Row(Working, NoOutput)]), SaveOutputs(0));
    AfterIs(e3 + [SaveOutputs(0)],
            State(map[b := 0], 1, map[0 := JobRunning(b)], [], map[b := Row(Working, Waiting)]), ClaimPublish(1, b));
  }

  /** The run that strands a session: the job leaves it to the publication, which gives up before
      it takes it, and the job settles. */
  lemma EarlyPublishFailureStrandsSession(b: string)
    ensures Defers(After(UntilClaimed(b)), EndJob(0, true), b)
    ensures Stranded(After(UntilClaimed(b) + [EndJob(0, true)] + [FailEarly(1, GiveUp)] + [SettleJob(0, Fine)]), b)
  {
    var e1, s := UntilClaimed(b), After(UntilClaimed(b));
    var e2, s2 := e1 + [EndJob(0, true)], Step(s, EndJob(0, true));
    var e3, s3 := e2 + [FailEarly(1, GiveUp)], Step(s2, FailEarly(1, GiveUp));
    PublicationRuns(b);
    AfterIs(e1, s, EndJob(0, true));
    AfterIs(e2, s2, FailEarly(1, GiveUp));
    AfterIs(e3, s3, SettleJob(0, Fine));
    assert s3.tasks == map[0 := JobDone(b), 1 := Idle] && s3.rows == map[b := Row(Failed, NoOutput)];
  }
}
