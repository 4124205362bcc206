/** The drain fence (crates/intar-agent/src/drain.rs): `admit` takes a shared lock on
    `admission.lock` and looks for the `drain` marker; `set` takes the lock exclusively
    and creates or removes the marker.  The steps of any number of processes interleave,
    every lock attempt is non-blocking, and a process may die at any point. */
module Drain {
  import opened Wrappers

  datatype Phase =
    | Idle
    | Checking            // `admit` holds the shared lock, marker not read yet
    | Admitted            // the caller keeps the lock file
    | Setting(drain: bool)  // `set` holds the exclusive lock, marker not written yet
    | Written(drain: bool)  // marker written, directory not synced yet

  /** The advisory lock on `admission.lock`, as the operating system keeps it. */
  datatype Lock = Lock(shared: set<nat>, exclusive: Option<nat>)

  datatype State = State(phases: map<nat, Phase>, lock: Lock, marker: bool)

  datatype Event =
    | TryAdmit(p: nat)
    | ReadMarker(p: nat)
    | Release(p: nat)
    | TrySet(p: nat, drain: bool)
    | WriteMarker(p: nat)
    | Finish(p: nat)                      // directory synced, `set` returns Ok
    | Fail(p: nat, afterWriting: bool)    // an I/O error, before or after the marker changed
    | Die(p: nat)

  function PhaseOf(s: State, p: nat): Phase { if p in s.phases then s.phases[p] else Idle }

  function With(s: State, p: nat, phase: Phase): State { s.(phases := s.phases[p := phase]) }

  /** Dropping the file releases whatever lock it carried. */
  function Unlocked(s: State, p: nat): State {
    With(s, p, Idle).(lock := Lock(s.lock.shared - {p}, if s.lock.exclusive == Some(p) then None else s.lock.exclusive))
  }

  function Step(s: State, e: Event): State {
    match e
    case TryAdmit(p) =>
      if PhaseOf(s, p).Idle? && s.lock.exclusive.None?
      then With(s, p, Checking).(lock := s.lock.(shared := s.lock.shared + {p})) else s
    case ReadMarker(p) =>
      if !PhaseOf(s, p).Checking? then s
      else if s.marker then Unlocked(s, p) else With(s, p, Admitted)
    case Release(p) => if PhaseOf(s, p).Admitted? then Unlocked(s, p) else s
    case TrySet(p, drain) =>
      if PhaseOf(s, p).Idle? && s.lock.exclusive.None? && s.lock.shared == {}
      then With(s, p, Setting(drain)).(lock := s.lock.(exclusive := Some(p))) else s
    case WriteMarker(p) =>
      if PhaseOf(s, p).Setting? then With(s, p, Written(PhaseOf(s, p).drain)).(marker := PhaseOf(s, p).drain) else s
    case Finish(p) => if PhaseOf(s, p).Written? then Unlocked(s, p) else s
    case Fail(p, afterWriting) =>
      if PhaseOf(s, p).Setting? then Unlocked(s, p).(marker := if afterWriting then PhaseOf(s, p).drain else s.marker)
      else if PhaseOf(s, p).Checking? || PhaseOf(s, p).Written? then Unlocked(s, p)
      else s
    case Die(p) => Unlocked(s, p)
  }

  const START := State(map[], Lock({}, None), false)

  ghost function After(events: seq<Event>): State {
    if events == [] then START else Step(After(events[..|events| - 1]), events[|events| - 1])
  }

  // ------------------------------------------------------------- observations

  /** `admit` of `p` returns the lock. */
  ghost predicate Admits(s: State, e: Event) { e.ReadMarker? && PhaseOf(s, e.p).Checking? && !s.marker }

  /** `set(drain)` returns Ok. */
  ghost predicate Completes(s: State, e: Event, drain: bool) {
    e.Finish? && PhaseOf(s, e.p) == Written(drain)
  }

  /** A `set(false)` call takes the marker away. */
  ghost predicate Removes(s: State, e: Event) {
    && s.marker && !Step(s, e).marker
  }

  // --------------------------------------------------------------- invariants

  ghost predicate Inv(s: State) {
    && (forall p: nat :: p in s.lock.shared <==> PhaseOf(s, p).Checking? || PhaseOf(s, p).Admitted?)
    && (forall p: nat :: s.lock.exclusive == Some(p) <==> PhaseOf(s, p).Setting? || PhaseOf(s, p).Written?)
    && (s.lock.exclusive.Some? ==> s.lock.shared == {})
    && (forall p: nat :: PhaseOf(s, p).Admitted? ==> !s.marker)
    && (forall p: nat :: PhaseOf(s, p).Written? ==> s.marker == PhaseOf(s, p).drain)
  }

  lemma PhaseAfter(s: State, p: nat, phase: Phase, q: nat)
    ensures PhaseOf(With(s, p, phase), q) == if q == p then phase else PhaseOf(s, q)
    ensures PhaseOf(Unlocked(s, p), q) == if q == p then Idle else PhaseOf(s, q)
  {
  }

  lemma StepKeepsInv(s: State, e: Event)
    requires Inv(s)
    ensures Inv(Step(s, e))
  {
    forall q ensures PhaseOf(Step(s, e), q) == if q == e.p then PhaseOf(Step(s, e), e.p) else PhaseOf(s, q) {
    }
  }

  lemma {:induction false} RunsKeepInv(events: seq<Event>)
    ensures Inv(After(events))
    decreases |events|
  {
    if events != [] {
      RunsKeepInv(events[..|events| - 1]);
      StepKeepsInv(After(events[..|events| - 1]), events[|events| - 1]);
    }
  }

  ghost predicate IsSetting(phase: Phase) { phase.Setting? || phase.Written? }

  /** In every interleaving: a held admission means there is no drain marker, admissions
      and a running `set` exclude each other, at most one `set` runs, and when
      `set(true)` returns Ok nothing is admitted and the marker is there. */
  lemma FenceHolds(events: seq<Event>, e: Event, p: nat, q: nat)
    ensures var s := After(events);
            && (PhaseOf(s, p).Admitted? ==> !s.marker)
            && (PhaseOf(s, p).Admitted? ==> !IsSetting(PhaseOf(s, q)))
            && (IsSetting(PhaseOf(s, p)) && IsSetting(PhaseOf(s, q)) ==> p == q)
            && (Completes(s, e, true) ==> Step(s, e).marker && !PhaseOf(Step(s, e), p).Admitted?)
  {
    RunsKeepInv(events);
    StepKeepsInv(After(events), e);
  }

  // ----------------------------------------------------------- the drain lasts

  /** The exact reason the marker goes away. */
  lemma RemovedOnlyBySetFalse(s: State, e: Event)
    requires Removes(s, e)
    ensures PhaseOf(s, e.p) == Setting(false)
    ensures e.WriteMarker? || (e.Fail? && e.afterWriting)
  {
  }

  lemma AfterExtends(events: seq<Event>, i: nat)
    requires i < |events|
    ensures After(events[..i + 1]) == Step(After(events[..i]), events[i])
  {
    assert events[..i + 1][..i] == events[..i];
  }

  lemma {:induction false} MarkerStaysUntilRemoved(events: seq<Event>, i: nat, j: nat)
    requires i <= j <= |events| && After(events[..i]).marker
    requires forall k :: i <= k < j ==> !Removes(After(events[..k]), events[k])
    ensures After(events[..j]).marker
    decreases j
  {
    if i < j {
      MarkerStaysUntilRemoved(events, i, j - 1);
      AfterExtends(events, j - 1);
    }
  }

  ghost predicate Ends(e: Event, p: nat) { e.p == p && (e.Finish? || e.Fail? || e.Die?) }

  lemma WriterStays(s: State, e: Event, p: nat)
    requires PhaseOf(s, p) == Written(false) && !Ends(e, p)
    ensures PhaseOf(Step(s, e), p) == Written(false)
  {
  }

  /** The step that ends the `set(false)` of `p`, which wrote at `k` and does not run at `j`. */
  lemma {:induction false} FirstEnd(events: seq<Event>, p: nat, k: nat, j: nat) returns (l: nat)
    requires k < j <= |events|
    requires PhaseOf(After(events[..k + 1]), p) == Written(false)
    requires PhaseOf(After(events[..j]), p) != Written(false)
    ensures k < l < j && Ends(events[l], p) && PhaseOf(After(events[..l]), p) == Written(false)
    decreases j
  {
    if PhaseOf(After(events[..j - 1]), p) == Written(false) {
      l := j - 1;
      AfterExtends(events, l);
      if !Ends(events[l], p) { WriterStays(After(events[..l]), events[l], p); }
    } else {
      l := FirstEnd(events, p, k, j - 1);
    }
  }

  /** The removal after which the marker stayed away. */
  lemma {:induction false} LastRemoval(events: seq<Event>, i: nat, j: nat) returns (k: nat)
    requires i <= j <= |events| && After(events[..i]).marker && !After(events[..j]).marker
    ensures i <= k < j && Removes(After(events[..k]), events[k])
    ensures forall m :: k < m <= j ==> !After(events[..m]).marker
    decreases j
  {
    AfterExtends(events, j - 1);
    if After(events[..j - 1]).marker {
      k := j - 1;
    } else {
      k := LastRemoval(events, i, j - 1);
    }
  }

  lemma RemoverWrites(events: seq<Event>, k: nat)
    requires k < |events| && Removes(After(events[..k]), events[k]) && !events[k].Fail?
    ensures PhaseOf(After(events[..k + 1]), events[k].p) == Written(false)
  {
    RemovedOnlyBySetFalse(After(events[..k]), events[k]);
    AfterExtends(events, k);
    PhaseAfter(After(events[..k]), events[k].p, Written(false), events[k].p);
  }

  /** Once `set(true)` has returned Ok, no admission succeeds until a later `set(false)`
      has removed the marker and is over: it returned Ok, failed in the directory sync,
      or its process died. */
  lemma DrainLastsUntilReset(events: seq<Event>, i: nat, j: nat)
    requires i < j < |events|
    requires Completes(After(events[..i]), events[i], true)
    requires Admits(After(events[..j]), events[j])
    ensures exists k :: i < k < j && Removes(After(events[..k]), events[k])
                        && (events[k].Fail? || exists l :: k < l < j && Ends(events[l], events[k].p))
  {
    FenceHolds(events[..i], events[i], 0, 0);
    AfterExtends(events, i);
    var k := LastRemoval(events, i + 1, j);
    if !events[k].Fail? {
      RemoverWrites(events, k);
      RunsKeepInv(events[..j]);
      var l := FirstEnd(events, events[k].p, k, j);
    }
  }

  // ------------------------------------------------------ without a completed reset

  /** A fresh call of `admit` by `p` would return the lock. */
  ghost predicate WouldAdmit(s: State, p: nat) { Admits(Step(s, TryAdmit(p)), ReadMarker(p)) }

  ghost predicate Abandons(e: Event, p: nat) { e.p == p && (e.Fail? || e.Die?) }

  /** At `k` a `set(false)` removed the marker and then failed or died, and no `set(true)` has
      written it again before `j`. */
  ghost predicate AbandonedRemoval(events: seq<Event>, k: nat, j: nat)
    requires k < j <= |events|
  {
    && Removes(After(events[..k]), events[k])
    && (events[k].Fail? || exists l :: k < l < j && Abandons(events[l], events[k].p))
    && forall m :: k < m < j ==> After(events[..m]).marker || !Step(After(events[..m]), events[m]).marker
  }

  lemma {:induction false} NeverWrittenAgain(events: seq<Event>, k: nat, j: nat)
    requires k < j <= |events| && Removes(After(events[..k]), events[k])
    requires forall m :: k < m < j ==> After(events[..m]).marker || !Step(After(events[..m]), events[m]).marker
    ensures !After(events[..j]).marker
    decreases j
  {
    AfterExtends(events, j - 1);
    if k < j - 1 { NeverWrittenAgain(events, k, j - 1); }
  }

  lemma StaysAwayIsNotWritten(events: seq<Event>, k: nat, j: nat)
    requires k < j <= |events| && forall m :: k < m <= j ==> !After(events[..m]).marker
    ensures forall m :: k < m < j ==> After(events[..m]).marker || !Step(After(events[..m]), events[m]).marker
  {
    forall m: nat | k < m < j ensures !Step(After(events[..m]), events[m]).marker {
      AfterExtends(events, m);
      assert !After(events[..m + 1]).marker;
    }
  }

  lemma RemovalWasAbandoned(events: seq<Event>, i: nat, k: nat, j: nat)
    requires i < k < j <= |events| && Removes(After(events[..k]), events[k]) && !events[k].Fail?
    requires forall m :: i < m < j ==> !Completes(After(events[..m]), events[m], false)
    requires After(events[..j]).lock.exclusive.None?
    ensures exists l :: k < l < j && Abandons(events[l], events[k].p)
  {
    RemoverWrites(events, k);
    RunsKeepInv(events[..j]);
    var l := FirstEnd(events, events[k].p, k, j);
    assert !Completes(After(events[..l]), events[l], false);
  }

  /** After a completed `set(true)` and without a completed `set(false)` since, an idle process would
      be admitted if and only if a `set(false)` removed the marker and was abandoned, no `set(true)`
      has written it again, and no `set` holds the lock. */
  lemma AdmittedWithoutResetIff(events: seq<Event>, i: nat, j: nat, p: nat)
    requires i < j <= |events| && PhaseOf(After(events[..j]), p).Idle?
    requires Completes(After(events[..i]), events[i], true)
    requires forall m :: i < m < j ==> !Completes(After(events[..m]), events[m], false)
    ensures WouldAdmit(After(events[..j]), p) <==>
            After(events[..j]).lock.exclusive.None? && exists k: nat :: i < k < j && AbandonedRemoval(events, k, j)
  {
    var s := After(events[..j]);
    PhaseAfter(s, p, Checking, p);
    assert WouldAdmit(s, p) <==> s.lock.exclusive.None? && !s.marker;
    if s.lock.exclusive.None? && !s.marker {
      FenceHolds(events[..i], events[i], 0, 0);
      AfterExtends(events, i);
      var k := LastRemoval(events, i + 1, j);
      StaysAwayIsNotWritten(events, k, j);
      if !events[k].Fail? { RemovalWasAbandoned(events, i, k, j); }
      assert AbandonedRemoval(events, k, j);
    }
    if k: nat :| i < k < j && AbandonedRemoval(events, k, j) {
      NeverWrittenAgain(events, k, j);
    }
  }

  /** Running `events` from `s`. */
  ghost function Run(s: State, events: seq<Event>): State
    decreases |events|
  {
    if events == [] then s else Run(Step(s, events[0]), events[1..])
  }

  lemma {:induction false} AfterIsRun(events: seq<Event>, more: seq<Event>)
    ensures After(events + more) == Run(After(events), more)
    decreases |more|
  {
    if more == [] {
      assert events + more == events;
    } else {
      var longer := events + [more[0]];
      assert longer[..|events|] == events && longer + more[1..] == events + more;
      AfterIsRun(longer, more[1..]);
    }
  }

  lemma RunOne(s: State, e: Event, rest: seq<Event>)
    ensures Run(s, [e] + rest) == Run(Step(s, e), rest)
  {
    assert ([e] + rest)[1..] == rest;
  }

  lemma RunThree(s: State, a: Event, b: Event, c: Event)
    ensures Run(s, [a, b, c]) == Step(Step(Step(s, a), b), c)
  {
    RunOne(s, a, [b, c]);
    RunOne(Step(s, a), b, [c]);
    RunOne(Step(Step(s, a), b), c, []);
    assert [a] + [b, c] == [a, b, c] && [b] + [c] == [b, c] && [c] + [] == [c];
  }

  const DRAINED := State(map[0 := Idle], Lock({}, None), true)
  const RESET_FAILED := State(map[0 := Idle, 1 := Idle], Lock({}, None), false)

  /** The `set(false)` need not have succeeded: with process 0 draining and process 1
      failing in the directory sync after it removed the marker, process 2 is admitted. */
  lemma FailedResetReadmits()
    ensures After([TrySet(0, true), WriteMarker(0), Finish(0)]) == DRAINED
    ensures Run(DRAINED, [TrySet(1, false), WriteMarker(1), Fail(1, true)]) == RESET_FAILED
    ensures Admits(Step(RESET_FAILED, TryAdmit(2)), ReadMarker(2))
  {
    var drain := [TrySet(0, true), WriteMarker(0), Finish(0)];
    assert [] + drain == drain;
    AfterIsRun([], drain);
    RunThree(START, drain[0], drain[1], drain[2]);
    RunThree(DRAINED, TrySet(1, false), WriteMarker(1), Fail(1, true));
  }
}
