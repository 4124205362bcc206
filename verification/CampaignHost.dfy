/** What a campaign leaves on the host, counted in runs that were started and not in runs the
    driver heard of: `waitForAccepted` gives up after a while, and a run accepted later is never
    torn down (tools/vm-boot-benchmark/campaign.ts). */
module CampaignHost {
  import opened Wrappers
  import opened SampleIds
  import opened Campaign
  import opened CampaignProofs
  import opened CampaignSessions

  // ------------------------------------------------------------ runs on the host

  ghost function OnHostAfter(runs: set<Run>, e: Event): set<Run> {
    if e.BatchStarts? then runs + e.started else if e.Torn? then runs - {e.run} else runs
  }

  /** Runs that were started and that no cleanup has confirmed gone. */
  ghost function OnHost(trace: seq<Event>): set<Run> {
    if trace == [] then {} else OnHostAfter(OnHost(trace[..|trace| - 1]), trace[|trace| - 1])
  }

  /** Whenever a batch starts, every run started before it is confirmed gone. */
  ghost predicate HostSafeStarts(trace: seq<Event>) {
    forall i :: 0 <= i < |trace| && trace[i].BatchStarts? ==> OnHost(trace[..i]) == {}
  }

  lemma OneMoreOnHost(trace: seq<Event>, e: Event)
    ensures OnHost(trace + [e]) == OnHostAfter(OnHost(trace), e)
  {
    assert (trace + [e])[..|trace|] == trace;
  }

  lemma {:induction false} TearingOnHost(past: seq<Event>, part: seq<Event>, run: Run)
    requires forall e :: e in part ==> !e.BatchStarts?
    ensures run in OnHost(past + part) <==> run in OnHost(past) && Torn(run) !in part
    decreases |part|
  {
    if part == [] {
      assert past + part == past;
    } else {
      var n := |part| - 1;
      TearingOnHost(past, part[..n], run);
      assert past + part == (past + part[..n]) + [part[n]] && part == part[..n] + [part[n]];
      OneMoreOnHost(past + part[..n], part[n]);
      assert part[n] in part;
      assert part[n] == Torn(run) <==> part[n].Torn? && part[n].run == run;
    }
  }

  // --------------------------------------------------------- the batches that ran

  /** A batch that was launched, and how many of its effects came before the crash. */
  datatype Piece = Piece(env: Env, batch: seq<Sample>, records: seq<Record>, kept: nat)

  ghost predicate PieceValid(p: Piece) {
    p.batch != [] && DistinctBatch(p.batch) && 1 <= p.kept <= |BatchEffects(p.env, p.batch, p.records)|
  }

  ghost function PieceEffects(p: Piece): seq<Event> {
    if PieceValid(p) then BatchEffects(p.env, p.batch, p.records)[..p.kept] else []
  }

  ghost predicate AllValid(pieces: seq<Piece>) { forall i :: 0 <= i < |pieces| ==> PieceValid(pieces[i]) }

  function Mapped<S, T>(f: S -> T, xs: seq<S>): seq<T> { seq(|xs|, i requires 0 <= i < |xs| => f(xs[i])) }

  lemma MappedConcat<S, T>(f: S -> T, a: seq<S>, b: seq<S>)
    ensures Mapped(f, a + b) == Mapped(f, a) + Mapped(f, b)
  {
  }

  lemma MappedRest<S, T>(f: S -> T, xs: seq<S>)
    requires xs != []
    ensures Mapped(f, xs)[1..] == Mapped(f, xs[1..])
  {
  }

  ghost function Flat(pieces: seq<Piece>): seq<Event> { Joined(Mapped(PieceEffects, pieces)) }

  function Joined<T>(parts: seq<seq<T>>): seq<T> {
    if parts == [] then [] else parts[0] + Joined(parts[1..])
  }

  lemma {:induction false} JoinedConcat<T>(a: seq<seq<T>>, b: seq<seq<T>>)
    ensures Joined(a + b) == Joined(a) + Joined(b)
    decreases |a|
  {
    if a == [] {
      assert a + b == b;
    } else {
      JoinedConcat(a[1..], b);
      assert (a + b)[1..] == a[1..] + b;
    }
  }

  lemma FlatConcat(a: seq<Piece>, b: seq<Piece>)
    ensures Flat(a + b) == Flat(a) + Flat(b)
  {
    MappedConcat(PieceEffects, a, b);
    JoinedConcat(Mapped(PieceEffects, a), Mapped(PieceEffects, b));
  }

  lemma FlatFirst(pieces: seq<Piece>)
    requires pieces != []
    ensures Flat(pieces) == PieceEffects(pieces[0]) + Flat(pieces[1..])
  {
    MappedRest(PieceEffects, pieces);
  }

  /** The batch started this run and has not torn it down. */
  ghost predicate Leaves(p: Piece, run: Run) {
    p.batch != [] && run in StartedRuns(p.env, p.batch) && Torn(run) !in TornSoFar(p.env, p.batch, p.kept)
  }

  ghost predicate LeavesNone(p: Piece) { forall run :: !Leaves(p, run) }

  ghost function AfterLaunch(p: Piece): seq<Event>
    requires PieceValid(p)
  {
    LearnedSoFar(p.env, p.batch, p.kept) + TornSoFar(p.env, p.batch, p.kept)
    + RecordedSoFar(p.env, p.batch, p.records, p.kept)
  }

  lemma FirstOfFour<T>(b: seq<T>, l: seq<T>, d: seq<T>, r: seq<T>)
    ensures b + l + d + r == b + (l + d + r)
  {
  }

  lemma PieceShape(p: Piece)
    requires PieceValid(p)
    ensures PieceEffects(p) == [Launch(p.env, p.batch)] + AfterLaunch(p)
  {
    var launch := [Launch(p.env, p.batch)];
    CutBatch(p.env, p.batch, p.records, p.kept);
    assert launch[..Clamp(p.kept, 1)] == launch;
    FirstOfFour(launch, LearnedSoFar(p.env, p.batch, p.kept), TornSoFar(p.env, p.batch, p.kept),
                RecordedSoFar(p.env, p.batch, p.records, p.kept));
  }

  lemma InOneOfThree<T>(a: seq<T>, b: seq<T>, c: seq<T>, x: T)
    ensures x in a + b + c <==> x in a || x in b || x in c
  {
  }

  lemma AfterLaunchParts(p: Piece, e: Event)
    requires PieceValid(p)
    ensures e in AfterLaunch(p) ==> !e.BatchStarts?
    ensures e.Torn? ==> (e in AfterLaunch(p) <==> e in TornSoFar(p.env, p.batch, p.kept))
  {
    PhasesOfBatch(p.env, p.batch, p.records, p.kept);
    InOneOfThree(LearnedSoFar(p.env, p.batch, p.kept), TornSoFar(p.env, p.batch, p.kept),
                 RecordedSoFar(p.env, p.batch, p.records, p.kept), e);
  }

  /** What is on the host after a batch. */
  lemma PieceOnHost(p: Piece, past: seq<Event>, run: Run)
    requires PieceValid(p)
    ensures run in OnHost(past + PieceEffects(p)) <==>
            Leaves(p, run) || (run in OnHost(past) && Torn(run) !in TornSoFar(p.env, p.batch, p.kept))
  {
    var launch, rest := Launch(p.env, p.batch), AfterLaunch(p);
    PieceShape(p);
    Associative(past, [launch], rest);
    forall e | e in rest ensures !e.BatchStarts? { AfterLaunchParts(p, e); }
    OneMoreOnHost(past, launch);
    TearingOnHost(past + [launch], rest, run);
    AfterLaunchParts(p, Torn(run));
  }

  // ----------------------------------------------------------- the pieces of a run

  /** The launched batches of one group, from a state in which `cut` effects are still allowed. */
  ghost function BatchPieces(env: Env, pending: seq<Sample>, concurrency: nat, s: State, cut: nat): seq<Piece>
    requires concurrency >= 1
    decreases |pending|
  {
    if pending == [] || Stopped(s) || cut <= |s.trace| then []
    else
      var size := BatchSize(pending, concurrency);
      var after := BatchDone(env, pending[..size], s);
      [Piece(env, pending[..size], s.records, Clamp(Least(cut, |after.trace|) - |s.trace|, |after.trace|))]
      + BatchPieces(env, pending[size..], concurrency, after, cut)
  }

  ghost function GroupPieces(env: Env, groups: seq<Group>, skippable: set<string>, s: State, cut: nat): seq<Piece>
    requires forall g :: g in groups ==> g.concurrency >= 1
    decreases |groups|
  {
    if groups == [] || s.aborted.Some? then []
    else
      var pending := Pending(groups[0].samples, skippable);
      BatchPieces(env, pending, groups[0].concurrency, s, cut)
      + GroupPieces(env, groups[1..], skippable, AfterGroup(Batches(env, pending, groups[0].concurrency, s)), cut)
  }

  ghost function Pieces(records: seq<Record>, session: Session): seq<Piece>
    requires Runnable(session)
  {
    if !MayStart(records) then []
    else GroupPieces(session.env, session.groups, Skippable(records), Fresh(records), session.survives)
  }

  lemma PieceOfBatch(env: Env, batch: seq<Sample>, s: State, cut: nat)
    requires batch != [] && DistinctBatch(batch) && !Stopped(s) && |s.trace| < cut
    ensures var after := BatchDone(env, batch, s);
            var p := Piece(env, batch, s.records, Clamp(Least(cut, |after.trace|) - |s.trace|, |after.trace|));
            && PieceValid(p) && |s.trace| < |after.trace|
            && CutTrace(after.trace, cut) == s.trace + PieceEffects(p)
            && (|after.trace| <= cut ==> p.kept == |BatchEffects(env, batch, s.records)|)
  {
    BatchTrace(env, batch, s);
    assert |BatchEffects(env, batch, s.records)| >= 1;
  }

  lemma CutStays(a: seq<Event>, b: seq<Event>, cut: nat)
    requires a <= b && cut <= |a|
    ensures CutTrace(b, cut) == CutTrace(a, cut)
  {
  }

  lemma {:induction false} BatchPiecesAreValid(env: Env, pending: seq<Sample>, concurrency: nat, s: State, cut: nat)
    requires concurrency >= 1 && DistinctBatch(pending)
    ensures AllValid(BatchPieces(env, pending, concurrency, s, cut))
    decreases |pending|
  {
    if pending != [] && !Stopped(s) && |s.trace| < cut {
      var size := BatchSize(pending, concurrency);
      PieceOfBatch(env, pending[..size], s, cut);
      BatchPiecesAreValid(env, pending[size..], concurrency, BatchDone(env, pending[..size], s), cut);
    }
  }

  /** The pieces of a group spell out what is left of its trace. */
  lemma {:induction false} BatchPiecesSpell(env: Env, pending: seq<Sample>, concurrency: nat, s: State, cut: nat)
    requires concurrency >= 1 && DistinctBatch(pending)
    ensures CutTrace(Batches(env, pending, concurrency, s).trace, cut)
            == CutTrace(s.trace, cut) + Flat(BatchPieces(env, pending, concurrency, s, cut))
    decreases |pending|
  {
    var end, pieces := Batches(env, pending, concurrency, s), BatchPieces(env, pending, concurrency, s, cut);
    if pending == [] || Stopped(s) {
      assert CutTrace(s.trace, cut) + [] == CutTrace(s.trace, cut);
    } else if cut <= |s.trace| {
      BatchesGrow(env, pending, concurrency, s);
      CutStays(s.trace, end.trace, cut);
    } else {
      var size := BatchSize(pending, concurrency);
      var rest, after := pending[size..], BatchDone(env, pending[..size], s);
      PieceOfBatch(env, pending[..size], s, cut);
      BatchPiecesSpell(env, rest, concurrency, after, cut);
      assert pieces[1..] == BatchPieces(env, rest, concurrency, after, cut);
      FlatFirst(pieces);
      Associative(s.trace, PieceEffects(pieces[0]), Flat(pieces[1..]));
    }
  }

  lemma {:induction false} GroupPiecesSpell(env: Env, groups: seq<Group>, skippable: set<string>, s: State, cut: nat)
    requires forall g :: g in groups ==> g.concurrency >= 1 && DistinctBatch(g.samples)
    ensures AllValid(GroupPieces(env, groups, skippable, s, cut))
    ensures CutTrace(Groups(env, groups, skippable, s).trace, cut)
            == CutTrace(s.trace, cut) + Flat(GroupPieces(env, groups, skippable, s, cut))
    decreases |groups|
  {
    if groups != [] && s.aborted.None? {
      var pending := Pending(groups[0].samples, skippable);
      var mid := Batches(env, pending, groups[0].concurrency, s);
      PendingIsDistinct(groups[0].samples, skippable);
      BatchPiecesAreValid(env, pending, groups[0].concurrency, s, cut);
      BatchPiecesSpell(env, pending, groups[0].concurrency, s, cut);
      GroupPiecesSpell(env, groups[1..], skippable, AfterGroup(mid), cut);
      var a := BatchPieces(env, pending, groups[0].concurrency, s, cut);
      var b := GroupPieces(env, groups[1..], skippable, AfterGroup(mid), cut);
      FlatConcat(a, b);
      Associative(CutTrace(s.trace, cut), Flat(a), Flat(b));
    }
  }

  /** The effects of a session are those of its pieces. */
  lemma PiecesSpell(records: seq<Record>, session: Session)
    requires DistinctPlan(session)
    ensures AllValid(Pieces(records, session)) && Flat(Pieces(records, session)) == Effects(records, session)
  {
    if MayStart(records) {
      GroupPiecesSpell(session.env, session.groups, Skippable(records), Fresh(records), session.survives);
    }
  }

  /** The pieces of all sessions on one host. */
  ghost function AllPieces(records: seq<Record>, sessions: seq<Session>): seq<Piece>
    requires AllRunnable(sessions)
    decreases |sessions|
  {
    if sessions == [] then []
    else Pieces(records, sessions[0]) + AllPieces(FileAfterSession(records, sessions[0]), sessions[1..])
  }

  lemma {:induction false} AllPiecesSpell(records: seq<Record>, sessions: seq<Session>)
    requires DistinctPlans(sessions)
    ensures AllValid(AllPieces(records, sessions))
    ensures Flat(AllPieces(records, sessions)) == AllEffects(records, sessions)
    decreases |sessions|
  {
    if sessions != [] {
      var file := FileAfterSession(records, sessions[0]);
      PiecesSpell(records, sessions[0]);
      AllPiecesSpell(file, sessions[1..]);
      FlatConcat(Pieces(records, sessions[0]), AllPieces(file, sessions[1..]));
    }
  }

  // ---------------------------------------------------- every batch of every session

  /** Every batch that another one follows leaves nothing on the host. */
  ghost predicate AllButLastClean(pieces: seq<Piece>) {
    forall i :: 0 <= i < |pieces| - 1 ==> LeavesNone(pieces[i])
  }

  /** Starts inside a part of the trace, after what came before it. */
  ghost predicate SafeAfter(past: seq<Event>, part: seq<Event>) {
    forall i :: 0 <= i < |part| && part[i].BatchStarts? ==> OnHost(past + part[..i]) == {}
  }

  lemma SafeAfterSplit(past: seq<Event>, a: seq<Event>, b: seq<Event>)
    ensures SafeAfter(past, a + b) <==> SafeAfter(past, a) && SafeAfter(past + a, b)
  {
    forall i | 0 <= i < |a| ensures (a + b)[i] == a[i] && (a + b)[..i] == a[..i] {
    }
    forall i | 0 <= i < |b|
      ensures (a + b)[|a| + i] == b[i] && past + (a + b)[..|a| + i] == past + a + b[..i]
    {
      assert (a + b)[..|a| + i] == a + b[..i];
      Associative(past, a, b[..i]);
    }
    if SafeAfter(past, a + b) {
      forall i | 0 <= i < |b| && b[i].BatchStarts? ensures OnHost(past + a + b[..i]) == {} {
        assert (a + b)[|a| + i].BatchStarts?;
      }
      forall i | 0 <= i < |a| && a[i].BatchStarts? ensures OnHost(past + a[..i]) == {} {
        assert (a + b)[i].BatchStarts?;
      }
    }
    if SafeAfter(past, a) && SafeAfter(past + a, b) {
      forall i | 0 <= i < |a + b| && (a + b)[i].BatchStarts? ensures OnHost(past + (a + b)[..i]) == {} {
        if i >= |a| { assert b[i - |a|].BatchStarts?; }
      }
    }
  }

  lemma PieceSafeAfter(past: seq<Event>, p: Piece)
    requires PieceValid(p)
    ensures SafeAfter(past, PieceEffects(p)) <==> OnHost(past) == {}
  {
    var effects, rest := PieceEffects(p), AfterLaunch(p);
    PieceShape(p);
    assert effects[0].BatchStarts? && past + effects[..0] == past;
    forall i | 0 < i < |effects| ensures !effects[i].BatchStarts? {
      assert effects[i] == rest[i - 1] && rest[i - 1] in rest;
      AfterLaunchParts(p, rest[i - 1]);
    }
  }

  lemma {:induction false} PiecesSafeAfter(past: seq<Event>, pieces: seq<Piece>)
    requires AllValid(pieces) && OnHost(past) == {}
    ensures SafeAfter(past, Flat(pieces)) <==> AllButLastClean(pieces)
    decreases |pieces|
  {
    if pieces != [] {
      var p, rest := pieces[0], pieces[1..];
      var effects := PieceEffects(p);
      PieceSafeAfter(past, p);
      FlatFirst(pieces);
      SafeAfterSplit(past, effects, Flat(rest));
      forall run ensures run in OnHost(past + effects) <==> Leaves(p, run) { PieceOnHost(p, past, run); }
      assert OnHost(past + effects) == {} <==> LeavesNone(p);
      FirstDecides(pieces);
      if LeavesNone(p) {
        PiecesSafeAfter(past + effects, rest);
      } else if rest != [] {
        PieceSafeAfter(past + effects, rest[0]);
        FlatFirst(rest);
        SafeAfterSplit(past + effects, PieceEffects(rest[0]), Flat(rest[1..]));
      }
    }
  }

  lemma FirstDecides(pieces: seq<Piece>)
    requires pieces != []
    ensures AllButLastClean(pieces) <==>
            pieces[1..] == [] || (LeavesNone(pieces[0]) && AllButLastClean(pieces[1..]))
  {
    var rest := pieces[1..];
    if rest != [] && AllButLastClean(pieces) {
      forall i | 0 <= i < |rest| - 1 ensures LeavesNone(rest[i]) { assert rest[i] == pieces[i + 1]; }
    }
    if rest != [] && LeavesNone(pieces[0]) && AllButLastClean(rest) {
      forall i | 0 <= i < |pieces| - 1 ensures LeavesNone(pieces[i]) { if i > 0 { assert pieces[i] == rest[i - 1]; } }
    }
  }

  /** Over any sequence of sessions on one host, each crashing anywhere: every batch starts on a
      host without runs of earlier batches, learned or not, if and only if every batch that
      another one follows tore down all the runs it started. */
  lemma HostSafeIffBatchesLeaveNone(records: seq<Record>, sessions: seq<Session>)
    requires DistinctPlans(sessions)
    ensures AllValid(AllPieces(records, sessions))
    ensures HostSafeStarts(AllEffects(records, sessions)) <==> AllButLastClean(AllPieces(records, sessions))
  {
    var all := AllEffects(records, sessions);
    AllPiecesSpell(records, sessions);
    PiecesSafeAfter([], AllPieces(records, sessions));
    forall i | 0 <= i < |all| ensures [] + all[..i] == all[..i] {
    }
  }

  // --------------------------------------------------------------- late runs

  /** The launch led to a run, and the driver stopped waiting before it was reported. */
  predicate Late(env: Env, sample: string) { env.starts(sample).Some? && !env.inTime(sample) }

  /** A batch that ran to its end and does not stop the campaign. */
  ghost predicate Passed(p: Piece) {
    && p.batch != [] && p.kept == |BatchEffects(p.env, p.batch, p.records)| && !LacksHostTime(p.env, p.batch)
    && forall k :: 0 <= k < |p.batch| ==> TeardownOf(p.env, p.batch[k]) != Failed
  }

  lemma {:induction false} TornAreCleaned(env: Env, batch: seq<Sample>, n: nat, run: Run)
    requires n <= |batch|
    ensures Torn(run) in TornEvents(env, batch, n) <==> CleanedRun(env, batch, n, run)
  {
    if n > 0 {
      TornAreCleaned(env, batch, n - 1, run);
      var x := batch[n - 1];
      var last := if TeardownOf(env, x) == Destroyed then [Torn(Run(x.id, env.run(x.id).value))] else [];
      assert Torn(run) in last <==> x.id == run.sample && env.run(x.id) == Some(run.id) && env.cleaned(x.id);
      if CleanedRun(env, batch, n - 1, run) { assert CleanedRun(env, batch, n, run); }
    }
  }

  /** A batch that the campaign goes past leaves exactly its late runs. */
  lemma PassedLeavesLate(p: Piece, run: Run)
    requires PieceValid(p) && Passed(p)
    ensures Leaves(p, run) <==> run in StartedRuns(p.env, p.batch) && Late(p.env, run.sample)
  {
    var n := |p.batch|;
    assert TornSoFar(p.env, p.batch, p.kept) == TornEvents(p.env, p.batch, n);
    TornAreCleaned(p.env, p.batch, n, run);
    if run in StartedRuns(p.env, p.batch) {
      var k :| 0 <= k < n && run.sample == p.batch[k].id && p.env.starts(p.batch[k].id) == Some(run.id);
      assert TeardownOf(p.env, p.batch[k]) != Failed;
      assert p.env.inTime(run.sample) ==> CleanedRun(p.env, p.batch, n, run);
    }
  }

  lemma CompletedPieceIsPassed(env: Env, batch: seq<Sample>, s: State, cut: nat)
    requires batch != [] && DistinctBatch(batch) && !Stopped(s) && !Stopped(BatchDone(env, batch, s))
    requires |s.trace| < cut && |BatchDone(env, batch, s).trace| <= cut
    ensures var after := BatchDone(env, batch, s);
            var p := Piece(env, batch, s.records, Clamp(Least(cut, |after.trace|) - |s.trace|, |after.trace|));
            PieceValid(p) && Passed(p)
  {
    var n := |batch|;
    PieceOfBatch(env, batch, s, cut);
    LaunchingKeepsReport(env, batch, n, Opened(env, batch, s));
    var launched := Launched(env, batch, n, Opened(env, batch, s));
    CleanupFailuresAreFailedTeardowns(env, batch, n, launched);
    CleanupStays(env, batch, n, TornDown(env, batch, n, launched));
  }

  ghost predicate AllPassed(pieces: seq<Piece>, n: int)
    requires n <= |pieces|
  {
    forall i :: 0 <= i < n ==> Passed(pieces[i])
  }

  lemma {:induction false} BatchPiecesPass(env: Env, pending: seq<Sample>, concurrency: nat, s: State, cut: nat)
    requires concurrency >= 1 && DistinctBatch(pending)
    ensures var end, pieces := Batches(env, pending, concurrency, s), BatchPieces(env, pending, concurrency, s, cut);
            && AllPassed(pieces, |pieces| - 1)
            && (!Stopped(end) && |end.trace| <= cut ==> AllPassed(pieces, |pieces|))
    decreases |pending|
  {
    if pending != [] && !Stopped(s) && |s.trace| < cut {
      var size := BatchSize(pending, concurrency);
      var batch, rest, after := pending[..size], pending[size..], BatchDone(env, pending[..size], s);
      BatchPiecesPass(env, rest, concurrency, after, cut);
      BatchesGrow(env, rest, concurrency, after);
      if !Stopped(after) && |after.trace| <= cut {
        CompletedPieceIsPassed(env, batch, s, cut);
      }
    }
  }

  lemma {:induction false} GroupPiecesPass(env: Env, groups: seq<Group>, skippable: set<string>, s: State, cut: nat)
    requires forall g :: g in groups ==> g.concurrency >= 1 && DistinctBatch(g.samples)
    ensures var pieces := GroupPieces(env, groups, skippable, s, cut);
            AllPassed(pieces, |pieces| - 1)
    decreases |groups|
  {
    if groups != [] && s.aborted.None? {
      var pending, rest := Pending(groups[0].samples, skippable), groups[1..];
      var mid := Batches(env, pending, groups[0].concurrency, s);
      PendingIsDistinct(groups[0].samples, skippable);
      BatchPiecesPass(env, pending, groups[0].concurrency, s, cut);
      GroupPiecesPass(env, rest, skippable, AfterGroup(mid), cut);
      if GroupPieces(env, rest, skippable, AfterGroup(mid), cut) != [] {
        NoPiecesAfterTheEnd(env, rest, skippable, AfterGroup(mid), cut);
      }
    }
  }

  lemma {:induction false} NoPiecesAfterTheEnd(
    env: Env, groups: seq<Group>, skippable: set<string>, s: State, cut: nat)
    requires forall g :: g in groups ==> g.concurrency >= 1 && DistinctBatch(g.samples)
    requires GroupPieces(env, groups, skippable, s, cut) != []
    ensures s.aborted.None? && |s.trace| < cut
    decreases |groups|
  {
    var pending := Pending(groups[0].samples, skippable);
    if BatchPieces(env, pending, groups[0].concurrency, s, cut) == [] {
      PendingIsDistinct(groups[0].samples, skippable);
      BatchesGrow(env, pending, groups[0].concurrency, s);
      var mid := AfterGroup(Batches(env, pending, groups[0].concurrency, s));
      NoPiecesAfterTheEnd(env, groups[1..], skippable, mid, cut);
    }
  }

  /** Every batch of a session but the last ran to its end without stopping the campaign. */
  lemma PiecesPass(records: seq<Record>, session: Session)
    requires DistinctPlan(session)
    ensures AllPassed(Pieces(records, session), |Pieces(records, session)| - 1)
  {
    if MayStart(records) {
      GroupPiecesPass(session.env, session.groups, Skippable(records), Fresh(records), session.survives);
    }
  }

  // --------------------------------------------------- what a session leaves behind

  ghost predicate Holds(batch: seq<Sample>, id: string) { exists k :: 0 <= k < |batch| && batch[k].id == id }

  /** No sample ID is in two of the pieces. */
  ghost predicate DisjointPieces(pieces: seq<Piece>) {
    forall i, j, id :: 0 <= i < j < |pieces| ==> !(Holds(pieces[i].batch, id) && Holds(pieces[j].batch, id))
  }

  ghost predicate SomePieceHolds(pieces: seq<Piece>, id: string) {
    exists i :: 0 <= i < |pieces| && Holds(pieces[i].batch, id)
  }

  /** No sample ID is in two groups, as the loaded plan has it. */
  ghost predicate DisjointGroups(groups: seq<Group>) {
    forall i, j, id :: 0 <= i < j < |groups| ==> !(Holds(groups[i].samples, id) && Holds(groups[j].samples, id))
  }

  ghost predicate SomeGroupHolds(groups: seq<Group>, id: string) {
    exists i :: 0 <= i < |groups| && Holds(groups[i].samples, id)
  }

  lemma FirstOrRest(pieces: seq<Piece>, id: string)
    requires pieces != []
    ensures SomePieceHolds(pieces, id) <==> Holds(pieces[0].batch, id) || SomePieceHolds(pieces[1..], id)
  {
    var rest := pieces[1..];
    if SomePieceHolds(rest, id) {
      var i :| 0 <= i < |rest| && Holds(rest[i].batch, id);
      assert pieces[i + 1] == rest[i];
    }
    if SomePieceHolds(pieces, id) {
      var i :| 0 <= i < |pieces| && Holds(pieces[i].batch, id);
      assert i > 0 ==> rest[i - 1] == pieces[i];
    }
  }

  lemma FirstIsApart(pieces: seq<Piece>, id: string)
    requires pieces != [] && DisjointPieces(pieces)
    ensures DisjointPieces(pieces[1..]) && !(Holds(pieces[0].batch, id) && SomePieceHolds(pieces[1..], id))
  {
    var rest := pieces[1..];
    forall i, j, x | 0 <= i < j < |rest| ensures !(Holds(rest[i].batch, x) && Holds(rest[j].batch, x)) {
      assert rest[i] == pieces[i + 1] && rest[j] == pieces[j + 1];
    }
    forall i | 0 <= i < |rest| ensures !(Holds(pieces[0].batch, id) && Holds(rest[i].batch, id)) {
      assert rest[i] == pieces[i + 1];
    }
  }

  lemma DisjointConcat(a: seq<Piece>, b: seq<Piece>)
    requires DisjointPieces(a) && DisjointPieces(b)
    requires forall id :: !(SomePieceHolds(a, id) && SomePieceHolds(b, id))
    ensures DisjointPieces(a + b)
  {
    forall i, j, id | 0 <= i < j < |a + b| ensures !(Holds((a + b)[i].batch, id) && Holds((a + b)[j].batch, id)) {
      if i < |a| <= j {
        assert Holds(a[i].batch, id) ==> SomePieceHolds(a, id);
        assert Holds(b[j - |a|].batch, id) ==> SomePieceHolds(b, id);
      }
    }
  }

  lemma SomeOfConcat(a: seq<Piece>, b: seq<Piece>, id: string)
    requires SomePieceHolds(a + b, id)
    ensures SomePieceHolds(a, id) || SomePieceHolds(b, id)
  {
    var i :| 0 <= i < |a + b| && Holds((a + b)[i].batch, id);
    if i < |a| { assert Holds(a[i].batch, id); } else { assert Holds(b[i - |a|].batch, id); }
  }

  lemma SplitHolds(pending: seq<Sample>, size: nat, id: string)
    requires size <= |pending| && DistinctBatch(pending)
    ensures Holds(pending[..size], id) ==> Holds(pending, id) && !Holds(pending[size..], id)
    ensures Holds(pending[size..], id) ==> Holds(pending, id)
  {
    if Holds(pending[size..], id) {
      var k :| 0 <= k < |pending[size..]| && pending[size..][k].id == id;
      assert pending[size + k].id == id;
    }
  }

  lemma {:induction false} BatchPiecesAreDisjoint(
    env: Env, pending: seq<Sample>, concurrency: nat, s: State, cut: nat)
    requires concurrency >= 1 && DistinctBatch(pending)
    ensures var pieces := BatchPieces(env, pending, concurrency, s, cut);
            DisjointPieces(pieces) && forall id :: SomePieceHolds(pieces, id) ==> Holds(pending, id)
    decreases |pending|
  {
    if pending != [] && !Stopped(s) && |s.trace| < cut {
      var size := BatchSize(pending, concurrency);
      var after, pieces := BatchDone(env, pending[..size], s), BatchPieces(env, pending, concurrency, s, cut);
      var rest := BatchPieces(env, pending[size..], concurrency, after, cut);
      BatchPiecesAreDisjoint(env, pending[size..], concurrency, after, cut);
      assert pieces == [pieces[0]] + rest && pieces[1..] == rest;
      forall id
        ensures SomePieceHolds(pieces, id) ==> Holds(pending, id)
        ensures !(SomePieceHolds([pieces[0]], id) && SomePieceHolds(rest, id))
      {
        SplitHolds(pending, size, id);
        FirstOrRest(pieces, id);
      }
      DisjointConcat([pieces[0]], rest);
    }
  }

  lemma PendingHolds(samples: seq<Sample>, skippable: set<string>, id: string)
    requires Holds(Pending(samples, skippable), id)
    ensures Holds(samples, id)
  {
    var pending := Pending(samples, skippable);
    var k :| 0 <= k < |pending| && pending[k].id == id;
    PendingIsUnskipped(samples, skippable, pending[k]);
    assert pending[k] in samples;
  }

  lemma RestIsDisjoint(groups: seq<Group>, id: string)
    requires groups != [] && DisjointGroups(groups)
    ensures DisjointGroups(groups[1..]) && !(Holds(groups[0].samples, id) && SomeGroupHolds(groups[1..], id))
    ensures SomeGroupHolds(groups[1..], id) || Holds(groups[0].samples, id) ==> SomeGroupHolds(groups, id)
  {
    var rest := groups[1..];
    forall i, j, x | 0 <= i < j < |rest| ensures !(Holds(rest[i].samples, x) && Holds(rest[j].samples, x)) {
      assert rest[i] == groups[i + 1] && rest[j] == groups[j + 1];
    }
    if SomeGroupHolds(rest, id) {
      var i :| 0 <= i < |rest| && Holds(rest[i].samples, id);
      assert Holds(groups[i + 1].samples, id);
    }
  }

  lemma {:induction false} GroupPiecesAreDisjoint(
    env: Env, groups: seq<Group>, skippable: set<string>, s: State, cut: nat)
    requires forall g :: g in groups ==> g.concurrency >= 1 && DistinctBatch(g.samples)
    requires DisjointGroups(groups)
    ensures var pieces := GroupPieces(env, groups, skippable, s, cut);
            DisjointPieces(pieces) && forall id :: SomePieceHolds(pieces, id) ==> SomeGroupHolds(groups, id)
    decreases |groups|
  {
    if groups != [] && s.aborted.None? {
      var pending := Pending(groups[0].samples, skippable);
      var mid := AfterGroup(Batches(env, pending, groups[0].concurrency, s));
      var a, b := BatchPieces(env, pending, groups[0].concurrency, s, cut),
                  GroupPieces(env, groups[1..], skippable, mid, cut);
      PendingIsDistinct(groups[0].samples, skippable);
      BatchPiecesAreDisjoint(env, pending, groups[0].concurrency, s, cut);
      RestIsDisjoint(groups, "");
      GroupPiecesAreDisjoint(env, groups[1..], skippable, mid, cut);
      forall id
        ensures SomePieceHolds(a + b, id) ==> SomeGroupHolds(groups, id)
        ensures !(SomePieceHolds(a, id) && SomePieceHolds(b, id))
      {
        if SomePieceHolds(a, id) { PendingHolds(groups[0].samples, skippable, id); }
        RestIsDisjoint(groups, id);
        if SomePieceHolds(a + b, id) { SomeOfConcat(a, b, id); }
      }
      DisjointConcat(a, b);
    }
  }

  lemma TornIsHeld(p: Piece, run: Run)
    requires PieceValid(p)
    ensures Torn(run) in TornSoFar(p.env, p.batch, p.kept) ==> Holds(p.batch, run.sample)
    ensures Leaves(p, run) ==> Holds(p.batch, run.sample)
  {
    TornAreCleaned(p.env, p.batch, |p.batch|, run);
  }

  ghost predicate SomeLeaves(pieces: seq<Piece>, run: Run) { exists i :: 0 <= i < |pieces| && Leaves(pieces[i], run) }

  lemma FirstOrRestLeaves(pieces: seq<Piece>, run: Run)
    requires pieces != []
    ensures SomeLeaves(pieces, run) <==> Leaves(pieces[0], run) || SomeLeaves(pieces[1..], run)
  {
    var rest := pieces[1..];
    if SomeLeaves(rest, run) {
      var i :| 0 <= i < |rest| && Leaves(rest[i], run);
      assert pieces[i + 1] == rest[i];
    }
    if SomeLeaves(pieces, run) {
      var i :| 0 <= i < |pieces| && Leaves(pieces[i], run);
      assert i > 0 ==> rest[i - 1] == pieces[i];
    }
  }

  /** Runs of other samples stay, and each piece adds what it leaves. */
  lemma {:induction false} PiecesOnHost(past: seq<Event>, pieces: seq<Piece>, run: Run)
    requires AllValid(pieces) && DisjointPieces(pieces)
    requires run in OnHost(past) ==> !SomePieceHolds(pieces, run.sample)
    ensures run in OnHost(past + Flat(pieces)) <==> run in OnHost(past) || SomeLeaves(pieces, run)
    decreases |pieces|
  {
    if pieces == [] {
      assert past + Flat(pieces) == past;
    } else {
      var p, rest := pieces[0], pieces[1..];
      FlatFirst(pieces);
      Associative(past, PieceEffects(p), Flat(rest));
      PieceOnHost(p, past, run);
      TornIsHeld(p, run);
      FirstOrRest(pieces, run.sample);
      FirstOrRestLeaves(pieces, run);
      FirstIsApart(pieces, run.sample);
      PiecesOnHost(past + PieceEffects(p), rest, run);
    }
  }

  /** The session leaves a run it started, heard of or not, and a resume may start. */
  ghost predicate HidesAStartedRun(records: seq<Record>, session: Session)
    requires Runnable(session)
  {
    OnHost(Effects(records, session)) != {} && MayStart(FileAfterSession(records, session))
  }

  ghost predicate UniquePlan(session: Session) { DistinctPlan(session) && DisjointGroups(session.groups) }

  lemma PiecesAreDisjoint(records: seq<Record>, session: Session)
    requires UniquePlan(session)
    ensures DisjointPieces(Pieces(records, session))
  {
    if MayStart(records) {
      GroupPiecesAreDisjoint(session.env, session.groups, Skippable(records), Fresh(records), session.survives);
    }
  }

  lemma LeftOnHost(records: seq<Record>, session: Session, run: Run)
    requires UniquePlan(session)
    ensures run in OnHost(Effects(records, session)) <==> SomeLeaves(Pieces(records, session), run)
  {
    PiecesSpell(records, session);
    PiecesAreDisjoint(records, session);
    PiecesOnHost([], Pieces(records, session), run);
    assert [] + Flat(Pieces(records, session)) == Effects(records, session);
  }

  // ----------------------------------------------------------- what the file reveals

  ghost predicate RecordsNoFailure(p: Piece) {
    p.batch != [] ==> NoFailedRecord(RecordedSoFar(p.env, p.batch, p.records, p.kept))
  }

  lemma PieceRecords(p: Piece)
    requires PieceValid(p)
    ensures NoFailedRecord(PieceEffects(p)) <==> RecordsNoFailure(p)
  {
    CutRecords(p.env, p.batch, p.records, p.kept);
  }

  lemma {:induction false} PiecesRecord(pieces: seq<Piece>)
    requires AllValid(pieces)
    ensures NoFailedRecord(Flat(pieces)) <==> forall i :: 0 <= i < |pieces| ==> RecordsNoFailure(pieces[i])
    decreases |pieces|
  {
    if pieces != [] {
      var p, rest := pieces[0], pieces[1..];
      FlatFirst(pieces);
      PieceRecords(p);
      PiecesRecord(rest);
      var effects := PieceEffects(p);
      assert NoFailedRecord(effects + Flat(rest)) <==> NoFailedRecord(effects) && NoFailedRecord(Flat(rest)) by {
        assert forall e :: e in effects + Flat(rest) <==> e in effects || e in Flat(rest);
      }
      forall i | 0 < i < |pieces| ensures pieces[i] == rest[i - 1] {
      }
    }
  }

  lemma {:induction false} RecordedAreOutcomes(env: Env, batch: seq<Sample>, n: nat)
    requires n <= |batch| && forall k :: 0 <= k < |batch| ==> TeardownOf(env, batch[k]) != Failed
    ensures NoFailedRecord(RecordedEvents(env, batch, n))
  {
    if n > 0 { RecordedAreOutcomes(env, batch, n - 1); }
  }

  lemma PassedRecordsNoFailure(p: Piece)
    requires PieceValid(p) && Passed(p)
    ensures RecordsNoFailure(p)
  {
    RecordedAreOutcomes(p.env, p.batch, FirstRefused(p.env, p.batch, p.records, |p.batch|));
  }

  /** A batch that another one follows had a late run. */
  ghost predicate PassesLateRun(pieces: seq<Piece>) {
    exists i, run :: 0 <= i < |pieces| - 1
      && run in StartedRuns(pieces[i].env, pieces[i].batch) && Late(pieces[i].env, run.sample)
  }

  lemma LateIsPassed(records: seq<Record>, session: Session)
    requires DistinctPlan(session)
    ensures PassesLateRun(Pieces(records, session)) <==> !AllButLastClean(Pieces(records, session))
  {
    var pieces := Pieces(records, session);
    PiecesSpell(records, session);
    PiecesPass(records, session);
    forall i, run | 0 <= i < |pieces| - 1
      ensures Leaves(pieces[i], run) <==>
              run in StartedRuns(pieces[i].env, pieces[i].batch) && Late(pieces[i].env, run.sample)
    {
      PassedLeavesLate(pieces[i], run);
    }
  }

  lemma HostIsEmptyIff(records: seq<Record>, session: Session)
    requires UniquePlan(session)
    ensures OnHost(Effects(records, session)) == {} <==> AllClean(Pieces(records, session))
  {
    forall run ensures run in OnHost(Effects(records, session)) <==> SomeLeaves(Pieces(records, session), run) {
      LeftOnHost(records, session, run);
    }
    SomeRunIsLeft(Pieces(records, session), OnHost(Effects(records, session)));
  }

  ghost predicate AllClean(pieces: seq<Piece>) { forall i :: 0 <= i < |pieces| ==> LeavesNone(pieces[i]) }

  lemma LastDecidesTheFile(records: seq<Record>, session: Session)
    requires DistinctPlan(session) && Pieces(records, session) != []
    ensures MayStart(FileAfterSession(records, session)) <==>
            RecordsNoFailure(Pieces(records, session)[|Pieces(records, session)| - 1])
  {
    var pieces := Pieces(records, session);
    PiecesSpell(records, session);
    PiecesPass(records, session);
    FileMayStart(records, Effects(records, session));
    PiecesRecord(pieces);
    forall i | 0 <= i < |pieces| - 1 ensures RecordsNoFailure(pieces[i]) { PassedRecordsNoFailure(pieces[i]); }
  }

  /** Exactly when a session hides a run it started: the last batch it launched has no failed
      teardown on file, and it left a run, or an earlier batch of the session had a late one. */
  lemma HidesAStartedRunIff(records: seq<Record>, session: Session)
    requires UniquePlan(session)
    ensures var pieces := Pieces(records, session);
            HidesAStartedRun(records, session) <==>
            && pieces != [] && RecordsNoFailure(pieces[|pieces| - 1])
            && (!LeavesNone(pieces[|pieces| - 1]) || PassesLateRun(pieces))
  {
    var pieces := Pieces(records, session);
    HostIsEmptyIff(records, session);
    if pieces != [] {
      LastDecidesTheFile(records, session);
      LateIsPassed(records, session);
      assert AllClean(pieces) <==> AllButLastClean(pieces) && LeavesNone(pieces[|pieces| - 1]);
    }
  }

  lemma SomeRunIsLeft(pieces: seq<Piece>, runs: set<Run>)
    requires forall run :: run in runs <==> SomeLeaves(pieces, run)
    ensures runs != {} <==> exists i, run :: 0 <= i < |pieces| && Leaves(pieces[i], run)
  {
    if i, run :| 0 <= i < |pieces| && Leaves(pieces[i], run) { assert SomeLeaves(pieces, run); }
  }

  // -------------------------------------------------------- every session, once more

  ghost predicate UniquePlans(sessions: seq<Session>) {
    forall k :: 0 <= k < |sessions| ==> UniquePlan(sessions[k])
  }

  /** No session went past a late run, and none on which a later one builds ended hiding a run. */
  ghost predicate NoneHidesStarted(records: seq<Record>, sessions: seq<Session>)
    requires AllRunnable(sessions)
    decreases |sessions|
  {
    sessions != [] ==>
      var file := FileAfterSession(records, sessions[0]);
      && !PassesLateRun(Pieces(records, sessions[0]))
      && (AllEffects(file, sessions[1..]) != [] ==> !HidesAStartedRun(records, sessions[0]))
      && NoneHidesStarted(file, sessions[1..])
  }

  lemma CleanConcat(a: seq<Piece>, b: seq<Piece>)
    ensures AllButLastClean(a + b) <==>
            if b == [] then AllButLastClean(a)
            else AllClean(a) && AllButLastClean(b)
  {
    var all := a + b;
    if b == [] {
      assert all == a;
    } else {
      forall i | 0 <= i < |a| ensures all[i] == a[i] {
      }
      forall i | 0 <= i < |b| - 1 ensures all[|a| + i] == b[i] {
      }
      if AllButLastClean(all) {
        forall i | 0 <= i < |b| - 1 ensures LeavesNone(b[i]) { assert LeavesNone(all[|a| + i]); }
        forall i | 0 <= i < |a| ensures LeavesNone(a[i]) { assert LeavesNone(all[i]); }
      }
      if AllClean(a) && AllButLastClean(b) {
        forall i | 0 <= i < |all| - 1 ensures LeavesNone(all[i]) {
          if i < |a| { assert LeavesNone(a[i]); } else { assert LeavesNone(b[i - |a|]); }
        }
      }
    }
  }

  lemma NoPiecesNoEffects(pieces: seq<Piece>)
    requires AllValid(pieces)
    ensures pieces == [] <==> Flat(pieces) == []
  {
    if pieces != [] {
      FlatFirst(pieces);
      PieceShape(pieces[0]);
    }
  }

  lemma {:induction false} CleanSessionsIff(records: seq<Record>, sessions: seq<Session>)
    requires UniquePlans(sessions) && DistinctPlans(sessions)
    ensures AllButLastClean(AllPieces(records, sessions)) <==> NoneHidesStarted(records, sessions)
    decreases |sessions|
  {
    if sessions != [] {
      var first, rest := sessions[0], sessions[1..];
      var file, a := FileAfterSession(records, first), Pieces(records, first);
      var b := AllPieces(file, rest);
      HostIsEmptyIff(records, first);
      LateIsPassed(records, first);
      CleanSessionsIff(file, rest);
      AllPiecesSpell(file, rest);
      NoPiecesNoEffects(b);
      AllBegin(file, rest);
      CleanConcat(a, b);
      assert AllClean(a) ==> AllButLastClean(a);
    }
  }

  /** Over any sequence of sessions on one host, each crashing anywhere: every batch starts on a host
      without runs of earlier batches, learned or not, if and only if no session went past a late
      run and none on which a later one builds ended hiding a run. */
  lemma HostSafeIffNoneHides(records: seq<Record>, sessions: seq<Session>)
    requires UniquePlans(sessions)
    ensures HostSafeStarts(AllEffects(records, sessions)) <==> NoneHidesStarted(records, sessions)
  {
    HostSafeIffBatchesLeaveNone(records, sessions);
    CleanSessionsIff(records, sessions);
  }

  // --------------------------------------------------------------------- a late run

  /** One sample whose run is accepted after the driver stopped waiting: everything succeeds, the
      record says no teardown was needed, and the run stays on the host while a resume may start. */
  lemma LateRunIsHidden(survives: nat)
    requires survives >= 2
    ensures HidesAStartedRun([], Session(Answers(false, true), [Group([Sample("a", false)], 1)], survives))
  {
    var env, x := Answers(false, true), Sample("a", false);
    var all := BatchEffects(env, [x], []);
    var p, session := Piece(env, [x], [], |all|), Session(env, [Group([x], 1)], survives);
    OneBatchTrace(env, x);
    LateEffects();
    assert Effects([], session) == all == PieceEffects(p);
    assert TeardownOf(env, [x][0]) == NotNeeded && Passed(p);
    assert [x][0].id == "a" && Run("a", "r") in StartedRuns(env, [x]);
    PassedLeavesLate(p, Run("a", "r"));
    PieceOnHost(p, [], Run("a", "r"));
    assert [] + all == all;
    PassedRecordsNoFailure(p);
    PieceRecords(p);
    FileMayStart([], all);
  }

  lemma LateEffects()
    ensures |BatchEffects(Answers(false, true), [Sample("a", false)], [])| == 2
  {
    var env, batch := Answers(false, true), [Sample("a", false)];
    assert !LacksHostTime(env, batch) && TeardownOf(env, batch[0]) == NotNeeded;
    assert LearnedEvents(env, batch, 1) == [] && TornEvents(env, batch, 1) == [];
    assert !Refused(env, [], batch[0]) && FirstRefused(env, batch, [], 1) == 1;
    assert |RecordedEvents(env, batch, 1)| == 1;
  }
}
