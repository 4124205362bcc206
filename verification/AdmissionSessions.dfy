/** Upload admission sessions shared by build and publish workers
    (crates/intar-builder/src/build_worker.rs), with the job rows their decisions depend on
    (db.rs).  A probe opens the session of its build in a process-wide table; a publication
    takes it out and completes it; a job that ends while no publication of its build is running
    takes it out and abandons it.  Each table access is one mutex-guarded step and each row
    update one statement; everything else interleaves. */
module AdmissionSessions {
  import opened Wrappers

  datatype Outcome = Published | Abandoned

  datatype Phase = InQueue | Working | Publishing | Failed | Succeeded

  /** `publish_state`; completed outputs are stored exactly when it is not `NoOutput`. */
  datatype Publication = NoOutput | Waiting | Running | Ready

  datatype Row = Row(phase: Phase, publication: Publication)

  /** Where a worker stands. */
  datatype Task =
    | Idle
    | JobRunning(build: string)
    | JobEnding(build: string)                              // no publication seen, session not taken yet
    | JobTook(build: string, session: Option<nat>)
    | JobDone(build: string)
    | PublishClaimed(build: string)                         // session not taken yet
    | PublishTook(build: string, session: Option<nat>)
    | PublishDone(build: string, session: Option<nat>, succeeded: bool)
    | PublishClosed(build: string, succeeded: bool)

  /** A call of `session.complete`. */
  datatype Completion = Completion(session: nat, outcome: Outcome)

  datatype State = State(
    table: map<string, nat>, next: nat, tasks: map<nat, Task>, log: seq<Completion>, rows: map<string, Row>)

  /** How an attempt ends in the database: `Stops` is an error that leaves the row as it is. */
  datatype Fate = Fine | Rebuild | RetryLater | GiveUp | Stops

  datatype Event =
    | Desire(build: string)                        // the desired state inserts the row or requeues it
    | Drop(build: string)                          // the desired state no longer has it
    | ClaimJob(task: nat, build: string)
    | MarkWorking(task: nat)
    | Probe(task: nat, opens: bool)                // `opens`: the registry grants a new session
    | SaveOutputs(task: nat)
    | EndJob(task: nat, readable: bool)            // `readable`: the row could be read
    | TakeAtEnd(task: nat)
    | Abandon(task: nat)
    | SettleJob(task: nat, fate: Fate)
    | ClaimPublish(task: nat, build: string)
    | FailEarly(task: nat, fate: Fate)             // damaged output, not desired, no token, unreadable files
    | TakeForPublish(task: nat)
    | PublishReturns(task: nat, succeeded: bool)
    | CompletePublish(task: nat)
    | SettlePublish(task: nat, fate: Fate)

  const START := State(map[], 0, map[], [], map[])

  function TaskOf(s: State, t: nat): Task { if t in s.tasks then s.tasks[t] else Idle }

  function With(s: State, t: nat, task: Task): State { s.(tasks := s.tasks[t := task]) }

  /** The session a worker holds in its hand. */
  function Held(task: Task): Option<nat> {
    match task
    case JobTook(_, session) => session
    case PublishTook(_, session) => session
    case PublishDone(_, session, _) => session
    case _ => None
  }

  function Completed(s: State, session: Option<nat>, outcome: Outcome): State {
    if session.None? then s else s.(log := s.log + [Completion(session.value, outcome)])
  }

  function SetRow(s: State, build: string, row: Row): State {
    if build in s.rows then s.(rows := s.rows[build := row]) else s
  }

  /** A publication of the build is running, as `publication_is_running` reads it. */
  predicate IsRunning(s: State, build: string) { build in s.rows && s.rows[build].publication == Running }

  predicate IsPublishable(row: Row) {
    (row.phase == Publishing && row.publication == Ready) || (row.phase == Working && row.publication == Waiting)
  }

  /** What the end of a publication attempt writes. */
  function Settled(s: State, build: string, fate: Fate): State {
    match fate
    case Fine => SetRow(s, build, Row(Succeeded, NoOutput))
    case Rebuild => SetRow(s, build, Row(InQueue, NoOutput))
    case RetryLater =>
      if build in s.rows && s.rows[build].publication != NoOutput then SetRow(s, build, Row(Publishing, Ready)) else s
    case GiveUp => SetRow(s, build, Row(Failed, NoOutput))
    case Stops => s
  }

  /** What the end of a build attempt writes; giving up changes only the phase. */
  function JobSettled(s: State, build: string, fate: Fate): State {
    match fate
    case RetryLater => SetRow(s, build, Row(InQueue, NoOutput))
    case GiveUp => if build in s.rows then SetRow(s, build, s.rows[build].(phase := Failed)) else s
    case _ => s
  }

  function JobStep(s: State, e: Event): State
    requires e.MarkWorking? || e.Probe? || e.SaveOutputs? || e.EndJob? || e.TakeAtEnd? || e.Abandon? || e.SettleJob?
  {
    var task := TaskOf(s, e.task);
    match e
    case MarkWorking(t) =>
      if task.JobRunning? && task.build in s.rows
      then SetRow(s, task.build, s.rows[task.build].(phase := Working)) else s
    case Probe(t, opens) =>
      if !task.JobRunning? || task.build in s.table || !opens then s
      else s.(table := s.table[task.build := s.next], next := s.next + 1)
    case SaveOutputs(t) =>
      if task.JobRunning? && task.build in s.rows && s.rows[task.build].phase == Working
      then SetRow(s, task.build, Row(Working, Waiting)) else s
    case EndJob(t, readable) =>
      if !task.JobRunning? then s
      else With(s, t, if readable && IsRunning(s, task.build) then JobDone(task.build) else JobEnding(task.build))
    case TakeAtEnd(t) =>
      if !task.JobEnding? then s
      else With(s, t, JobTook(task.build, Lookup(s.table, task.build))).(table := s.table - {task.build})
    case Abandon(t) =>
      if !task.JobTook? then s else Completed(With(s, t, JobDone(task.build)), task.session, Abandoned)
    case SettleJob(t, fate) =>
      if !task.JobDone? then s else JobSettled(With(s, t, Idle), task.build, fate)
  }

  function PublishStep(s: State, e: Event): State
    requires e.FailEarly? || e.TakeForPublish? || e.PublishReturns? || e.CompletePublish? || e.SettlePublish?
  {
    var task := TaskOf(s, e.task);
    match e
    case FailEarly(t, fate) =>
      if !task.PublishClaimed? then s else Settled(With(s, t, Idle), task.build, if fate == Fine then Stops else fate)
    case TakeForPublish(t) =>
      if !task.PublishClaimed? then s
      else With(s, t, PublishTook(task.build, Lookup(s.table, task.build))).(table := s.table - {task.build})
    case PublishReturns(t, succeeded) =>
      if !task.PublishTook? then s else With(s, t, PublishDone(task.build, task.session, succeeded))
    case CompletePublish(t) =>
      if !task.PublishDone? then s
      else
        Completed(With(s, t, PublishClosed(task.build, task.succeeded)), task.session,
                  if task.succeeded then Published else Abandoned)
    case SettlePublish(t, fate) =>
      if !task.PublishClosed? then s
      else Settled(With(s, t, Idle), task.build, if fate == Fine && !task.succeeded then Stops else fate)
  }

  function Step(s: State, e: Event): State {
    match e
    case Desire(build) =>
      if build !in s.rows || s.rows[build].phase == Failed || s.rows[build].phase == InQueue
      then s.(rows := s.rows[build := Row(InQueue, NoOutput)]) else s
    case Drop(build) => s.(rows := s.rows - {build})
    case ClaimJob(t, build) =>
      if TaskOf(s, t).Idle? && build in s.rows && s.rows[build].phase == InQueue
      then SetRow(With(s, t, JobRunning(build)), build, s.rows[build].(phase := Working)) else s
    case ClaimPublish(t, build) =>
      if TaskOf(s, t).Idle? && build in s.rows && IsPublishable(s.rows[build])
      then SetRow(With(s, t, PublishClaimed(build)), build, Row(Publishing, Running)) else s
    case FailEarly(_, _) => PublishStep(s, e)
    case TakeForPublish(_) => PublishStep(s, e)
    case PublishReturns(_, _) => PublishStep(s, e)
    case CompletePublish(_) => PublishStep(s, e)
    case SettlePublish(_, _) => PublishStep(s, e)
    case _ => JobStep(s, e)
  }

  /** The table behind the mutex. */
  class SessionTable {
    var table: map<string, nat>
    var next: nat

    /** No two builds share a session, and every session was opened here. */
    ghost predicate Valid() reads this {
      && (forall b :: b in table ==> table[b] < next)
      && forall b, c :: b in table && c in table && table[b] == table[c] ==> b == c
    }

    constructor ()
      ensures Valid() && table == map[]
    {
      table, next := map[], 0;
    }

    /** `build_admission_session`: the session of this build, opened on first use. */
    method BuildAdmissionSession(build: string, opens: bool) returns (r: Option<nat>)
      requires Valid()
      modifies this
      ensures Valid() && r == Lookup(table, build)
      ensures r.None? <==> build !in old(table) && !opens
      ensures forall b :: b != build ==> Lookup(table, b) == old(Lookup(table, b))
      ensures build in old(table) ==> r == Some(old(table)[build])
      ensures r.Some? && build !in old(table) ==> forall b :: b in old(table) ==> old(table)[b] != r.value
    {
      if build in table {
        return Some(table[build]);
      }
      if !opens {
        return None;
      }
      r := Some(next);
      table, next := table[build := next], next + 1;
    }

    /** `take_admission_session`: afterwards the session is under no build, so nobody else gets it. */
    method Take(build: string) returns (r: Option<nat>)
      requires Valid()
      modifies this
      ensures Valid() && build !in table
      ensures forall b :: b != build ==> Lookup(table, b) == old(Lookup(table, b))
      ensures r.Some? <==> build in old(table)
      ensures r.Some? ==> r.value == old(table)[build] && forall b :: b in table ==> table[b] != r.value
    {
      r := Lookup(table, build);
      table := table - {build};
    }
  }

  // --------------------------------------------------------------- one place each

  datatype Place = InTable(build: string) | InHand(task: nat) | InLog(index: nat)

  /** Session `x` is at `place`. */
  ghost predicate IsAt(s: State, x: nat, place: Place) {
    match place
    case InTable(build) => build in s.table && s.table[build] == x
    case InHand(t) => Held(TaskOf(s, t)) == Some(x)
    case InLog(i) => i < |s.log| && s.log[i].session == x
  }

  ghost predicate Somewhere(s: State, x: nat) { exists p :: IsAt(s, x, p) }

  /** Every session that was ever opened is in exactly one place. */
  ghost predicate OnePlaceEach(s: State) {
    && (forall x: nat, p :: IsAt(s, x, p) ==> x < s.next)
    && (forall x: nat, p, q :: IsAt(s, x, p) && IsAt(s, x, q) ==> p == q)
    && (forall x: nat :: x < s.next ==> Somewhere(s, x))
  }

  /** The one place that changes in a step, and what moves there. */
  lemma MoveKeepsPlaces(s: State, s': State, moved: nat, from: Place, to: Place)
    requires OnePlaceEach(s) && s'.next == s.next
    requires IsAt(s, moved, from) && IsAt(s', moved, to) && !IsAt(s, moved, to)
    requires forall x: nat, p :: IsAt(s', x, p) <==> (x != moved && IsAt(s, x, p)) || (x == moved && p == to)
    ensures OnePlaceEach(s')
  {
    forall x: nat | x < s'.next ensures Somewhere(s', x) {
      if x != moved {
        assert Somewhere(s, x);
        var p :| IsAt(s, x, p);
        assert IsAt(s', x, p);
      }
    }
  }

  lemma SamePlaces(s: State, s': State)
    requires OnePlaceEach(s) && s'.next == s.next
    requires forall x: nat, p :: IsAt(s', x, p) <==> IsAt(s, x, p)
    ensures OnePlaceEach(s')
  {
    forall x: nat | x < s'.next ensures Somewhere(s', x) {
      assert Somewhere(s, x);
      var p :| IsAt(s, x, p);
      assert IsAt(s', x, p);
    }
  }

  lemma OpenKeepsPlaces(s: State, build: string)
    requires OnePlaceEach(s) && build !in s.table
    ensures OnePlaceEach(s.(table := s.table[build := s.next], next := s.next + 1))
  {
    var s' := s.(table := s.table[build := s.next], next := s.next + 1);
    forall x: nat, p ensures IsAt(s', x, p) <==> IsAt(s, x, p) || (x == s.next && p == InTable(build)) {
    }
    forall x: nat | x < s'.next ensures Somewhere(s', x) {
      if x == s.next {
        assert IsAt(s', x, InTable(build));
      } else {
        assert Somewhere(s, x);
        var p :| IsAt(s, x, p);
        assert IsAt(s', x, p);
      }
    }
  }

  /** Taking a session moves it from the table to one hand. */
  lemma TakeKeepsPlaces(s: State, t: nat, build: string, task: Task)
    requires OnePlaceEach(s) && Held(TaskOf(s, t)).None? && Held(task) == Lookup(s.table, build)
    ensures OnePlaceEach(With(s, t, task).(table := s.table - {build}))
  {
    var s' := With(s, t, task).(table := s.table - {build});
    if build in s.table {
      var moved := s.table[build];
      assert IsAt(s, moved, InTable(build));
      forall x: nat, p ensures IsAt(s', x, p) <==> (x != moved && IsAt(s, x, p)) || (x == moved && p == InHand(t)) {
        if x == moved && IsAt(s, x, p) { assert p == InTable(build); }
      }
      MoveKeepsPlaces(s, s', moved, InTable(build), InHand(t));
    } else {
      forall x: nat, p ensures IsAt(s', x, p) <==> IsAt(s, x, p) {
      }
      SamePlaces(s, s');
    }
  }

  /** Completing a session moves it from the hand to the log. */
  lemma CompleteKeepsPlaces(s: State, t: nat, after: Task, outcome: Outcome)
    requires OnePlaceEach(s) && Held(after).None?
    ensures OnePlaceEach(Completed(With(s, t, after), Held(TaskOf(s, t)), outcome))
  {
    var held := Held(TaskOf(s, t));
    var s' := Completed(With(s, t, after), held, outcome);
    if held.Some? {
      var moved, to := held.value, InLog(|s.log|);
      assert IsAt(s, moved, InHand(t));
      forall x: nat, p ensures IsAt(s', x, p) <==> (x != moved && IsAt(s, x, p)) || (x == moved && p == to) {
        if x == moved && IsAt(s, x, p) { assert p == InHand(t); }
      }
      MoveKeepsPlaces(s, s', moved, InHand(t), to);
    } else {
      forall x: nat, p ensures IsAt(s', x, p) <==> IsAt(s, x, p) {
      }
      SamePlaces(s, s');
    }
  }

  lemma RelabelKeepsPlaces(s: State, t: nat, task: Task)
    requires OnePlaceEach(s) && Held(TaskOf(s, t)) == Held(task)
    ensures OnePlaceEach(With(s, t, task))
  {
    forall x: nat, p ensures IsAt(With(s, t, task), x, p) <==> IsAt(s, x, p) {
    }
    SamePlaces(s, With(s, t, task));
  }

  /** A step that leaves table, hands and log alone. */
  lemma UntouchedKeepsPlaces(s: State, s': State)
    requires OnePlaceEach(s) && s'.table == s.table && s'.next == s.next && s'.log == s.log
    requires forall t: nat :: Held(TaskOf(s', t)) == Held(TaskOf(s, t))
    ensures OnePlaceEach(s')
  {
    forall x: nat, p ensures IsAt(s', x, p) <==> IsAt(s, x, p) {
    }
    SamePlaces(s, s');
  }

  lemma JobStepKeepsPlaces(s: State, e: Event)
    requires e.MarkWorking? || e.Probe? || e.SaveOutputs? || e.EndJob? || e.TakeAtEnd? || e.Abandon? || e.SettleJob?
    requires OnePlaceEach(s)
    ensures OnePlaceEach(JobStep(s, e))
  {
    var t, task := e.task, TaskOf(s, e.task);
    if e.Probe? && task.JobRunning? && task.build !in s.table && e.opens {
      OpenKeepsPlaces(s, task.build);
    } else if e.TakeAtEnd? && task.JobEnding? {
      TakeKeepsPlaces(s, t, task.build, JobTook(task.build, Lookup(s.table, task.build)));
    } else if e.Abandon? && task.JobTook? {
      CompleteKeepsPlaces(s, t, JobDone(task.build), Abandoned);
    } else {
      UntouchedKeepsPlaces(s, JobStep(s, e));
    }
  }

  lemma PublishStepKeepsPlaces(s: State, e: Event)
    requires e.FailEarly? || e.TakeForPublish? || e.PublishReturns? || e.CompletePublish? || e.SettlePublish?
    requires OnePlaceEach(s)
    ensures OnePlaceEach(PublishStep(s, e))
  {
    var t, task := e.task, TaskOf(s, e.task);
    if e.TakeForPublish? && task.PublishClaimed? {
      TakeKeepsPlaces(s, t, task.build, PublishTook(task.build, Lookup(s.table, task.build)));
    } else if e.CompletePublish? && task.PublishDone? {
      var outcome := if task.succeeded then Published else Abandoned;
      CompleteKeepsPlaces(s, t, PublishClosed(task.build, task.succeeded), outcome);
    } else {
      UntouchedKeepsPlaces(s, PublishStep(s, e));
    }
  }

  lemma StepKeepsPlaces(s: State, e: Event)
    requires OnePlaceEach(s)
    ensures OnePlaceEach(Step(s, e))
  {
    if e.FailEarly? || e.TakeForPublish? || e.PublishReturns? || e.CompletePublish? || e.SettlePublish? {
      PublishStepKeepsPlaces(s, e);
    } else if e.Desire? || e.Drop? || e.ClaimJob? || e.ClaimPublish? {
      UntouchedKeepsPlaces(s, Step(s, e));
    } else {
      JobStepKeepsPlaces(s, e);
    }
  }

  ghost function After(events: seq<Event>): State {
    if events == [] then START else Step(After(events[..|events| - 1]), events[|events| - 1])
  }

  lemma AfterExtends(events: seq<Event>, i: nat)
    requires i < |events|
    ensures After(events[..i + 1]) == Step(After(events[..i]), events[i])
  {
    assert events[..i + 1][..i] == events[..i];
  }

  /** In every interleaving of probes, job ends and publications, each session ever
      opened is in exactly one place: under one build in the table, in the hand of one
      worker, or completed once.  So no two builds share a session, a completed session is
      never handed out again or completed twice, and none gets lost. */
  lemma {:induction false} SessionsAreAccountedFor(events: seq<Event>)
    ensures OnePlaceEach(After(events))
    decreases |events|
  {
    if events == [] {
      forall x: nat, p ensures !IsAt(START, x, p) {
      }
    } else {
      SessionsAreAccountedFor(events[..|events| - 1]);
      StepKeepsPlaces(After(events[..|events| - 1]), events[|events| - 1]);
    }
  }

  /** Exactly when a step takes the session of a build out of the table. */
  lemma TakenOnlyByEndOrPublish(s: State, e: Event, build: string)
    requires build in s.table
    ensures build !in Step(s, e).table <==>
            || (e.TakeAtEnd? && TaskOf(s, e.task) == JobEnding(build))
            || (e.TakeForPublish? && TaskOf(s, e.task) == PublishClaimed(build))
  {
  }

  // ------------------------------------------------------------- honest reports

  /** A publication that held session `x` returned success. */
  ghost predicate ReturnedAt(events: seq<Event>, k: nat, x: nat)
    requires k < |events|
  {
    Returns(After(events[..k]), events[k], x)
  }

  ghost predicate Returned(events: seq<Event>, x: nat) {
    exists k: nat :: k < |events| && ReturnedAt(events, k, x)
  }

  /** `Published` is reported for `x`, or is about to be. */
  ghost predicate Reported(s: State, x: nat) {
    Completion(x, Published) in s.log || exists t: nat :: Succeeds(TaskOf(s, t), x)
  }

  ghost predicate Succeeds(task: Task, x: nat) {
    task.PublishDone? && task.session == Some(x) && task.succeeded
  }

  ghost predicate Returns(s: State, e: Event, x: nat) {
    e.PublishReturns? && e.succeeded && TaskOf(s, e.task).PublishTook? && TaskOf(s, e.task).session == Some(x)
  }

  lemma ReturnedOneMore(events: seq<Event>, x: nat)
    requires events != []
    ensures var n := |events| - 1;
            Returned(events, x) <==> Returned(events[..n], x) || ReturnedAt(events, n, x)
  {
    var n := |events| - 1;
    var front := events[..n];
    if Returned(front, x) {
      var k: nat :| k < n && ReturnedAt(front, k, x);
      assert front[..k] == events[..k];
      assert ReturnedAt(events, k, x);
    }
    if k: nat :| k < n && ReturnedAt(events, k, x) {
      assert front[..k] == events[..k];
      assert ReturnedAt(front, k, x);
    }
  }

  lemma OtherTasksStay(s: State, e: Event, t: nat)
    requires e.Desire? || e.Drop? || e.task != t
    ensures TaskOf(Step(s, e), t) == TaskOf(s, t)
  {
  }

  lemma LogStep(s: State, e: Event, x: nat)
    ensures Completion(x, Published) in Step(s, e).log <==>
            Completion(x, Published) in s.log || (e.CompletePublish? && Succeeds(TaskOf(s, e.task), x))
  {
  }

  lemma SucceedsStep(s: State, e: Event, t: nat, x: nat)
    ensures Succeeds(TaskOf(Step(s, e), t), x) <==>
            || (Succeeds(TaskOf(s, t), x) && !(e.CompletePublish? && e.task == t))
            || (Returns(s, e, x) && e.task == t)
  {
    if e.Desire? || e.Drop? || e.task != t { OtherTasksStay(s, e, t); }
  }

  lemma ReportedStep(s: State, e: Event, x: nat)
    ensures Reported(Step(s, e), x) <==> Reported(s, x) || Returns(s, e, x)
  {
    var s' := Step(s, e);
    LogStep(s, e, x);
    if t: nat :| Succeeds(TaskOf(s, t), x) { SucceedsStep(s, e, t, x); }
    if t: nat :| Succeeds(TaskOf(s', t), x) { SucceedsStep(s, e, t, x); }
    if Returns(s, e, x) { SucceedsStep(s, e, e.task, x); }
  }

  /** In every run `Published` is reported, or about to be, for exactly the sessions whose publication
      returned success while it held them. */
  lemma {:induction false} PublishedIffReturned(events: seq<Event>, x: nat)
    ensures Reported(After(events), x) <==> Returned(events, x)
    decreases |events|
  {
    if events != [] {
      PublishedIffReturned(events[..|events| - 1], x);
      ReturnedOneMore(events, x);
      ReportedStep(After(events[..|events| - 1]), events[|events| - 1], x);
    }
  }
}
