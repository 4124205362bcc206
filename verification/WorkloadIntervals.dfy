/** Background workload evidence of the boot benchmark (tools/vm-boot-benchmark.py):
    start and end events are folded into intervals, and a sample is accepted only when
    every workload of its condition was active in the sample window. */
module WorkloadIntervals {
  import opened Wrappers
  import opened Sorting

  datatype Kind = Start | End

  datatype Event = Event(at: int, workload: string, kind: Kind, job: string)

  /** `end == None` is an interval that is still open. */
  datatype Interval = Interval(job: string, start: int, end: Option<int>)

  datatype Identity = Identity(workload: string, job: string)

  datatype Window = Window(start: int, end: int)

  function TimeOf(e: Event): int { e.at }

  function IdentityOf(e: Event): Identity { Identity(e.workload, e.job) }

  function Min(a: int, b: int): int { if a <= b then a else b }

  predicate Contains(v: Interval, t: int) { v.start <= t && (v.end.Some? ==> t <= v.end.value) }

  /** `interval_covers_window` */
  predicate CoversWindow(v: Interval, w: Window) {
    v.start <= w.end && (v.end.Some? ==> v.end.value >= w.start)
  }

  function Covering(intervals: seq<Interval>, w: Window): seq<Interval> {
    if intervals == [] then []
    else
      var rest := Covering(intervals[..|intervals| - 1], w);
      if CoversWindow(intervals[|intervals| - 1], w) then rest + [intervals[|intervals| - 1]] else rest
  }

  // ---------------------------------------------------------------- the fold

  /** When the identity was since, after the first `n` events. */
  ghost function OpenSince(events: seq<Event>, n: nat, id: Identity): Option<int>
    requires n <= |events|
  {
    if n == 0 then None
    else
      var before, e := OpenSince(events, n - 1, id), events[n - 1];
      if IdentityOf(e) != id then before
      else if e.kind == End then None
      else if before.Some? then before else Some(e.at)
  }

  /** The interval an end event closes. */
  ghost function ClosedBy(events: seq<Event>, n: nat): Interval
    requires n < |events|
  {
    var e := events[n];
    var since := OpenSince(events, n, IdentityOf(e));
    Interval(e.job, Min(if since.Some? then since.value else e.at, e.at), Some(e.at))
  }

  /** The closed intervals of a workload after the first `n` events, in closing order. */
  ghost function Closed(events: seq<Event>, n: nat, workload: string): seq<Interval>
    requires n <= |events|
  {
    if n == 0 then []
    else
      var before, e := Closed(events, n - 1, workload), events[n - 1];
      if e.workload == workload && e.kind == End then before + [ClosedBy(events, n - 1)] else before
  }

  /** All intervals of a workload: the closed ones and one open interval per open job. */
  ghost predicate IsIntervalOf(events: seq<Event>, workload: string, v: Interval) {
    || v in Closed(events, |events|, workload)
    || (v.end.None? && OpenSince(events, |events|, Identity(workload, v.job)) == Some(v.start))
  }

  function Listed(intervals: map<string, seq<Interval>>, workload: string): seq<Interval> {
    if workload in intervals then intervals[workload] else []
  }

  ghost predicate Exact(events: seq<Event>, intervals: map<string, seq<Interval>>) {
    forall workload, v :: v in Listed(intervals, workload) <==> IsIntervalOf(events, workload, v)
  }

  /** The event loop of `workload_intervals`, over events in time order. */
  method FoldEvents(events: seq<Event>)
    returns (open: map<Identity, int>, intervals: map<string, seq<Interval>>)
    ensures forall id :: Lookup(open, id) == OpenSince(events, |events|, id)
    ensures forall workload :: Listed(intervals, workload) == Closed(events, |events|, workload)
  {
    open, intervals := map[], map[];
    var i := 0;
    while i < |events|
      invariant 0 <= i <= |events|
      invariant forall id :: Lookup(open, id) == OpenSince(events, i, id)
      invariant forall workload :: Listed(intervals, workload) == Closed(events, i, workload)
    {
      var e := events[i];
      var id := IdentityOf(e);
      assert Lookup(open, id) == OpenSince(events, i, id);
      if e.kind == Start {
        if id !in open {
          open := open[id := e.at];
        }
      } else {
        var since := if id in open then open[id] else e.at;
        open := open - {id};
        var interval := Interval(e.job, Min(since, e.at), Some(e.at));
        intervals := intervals[e.workload := Listed(intervals, e.workload) + [interval]];
      }
      i := i + 1;
    }
  }

  /** The open jobs of a workload, outside `left`, whose interval meets the window. */
  ghost function OpenMeeting(open: map<Identity, int>, left: set<Identity>, workload: string, w: Window)
    : set<Identity>
  {
    set id | id in open && id !in left && id.workload == workload && open[id] <= w.end
  }

  lemma OneMoreCovering(list: seq<Interval>, v: Interval, w: Window)
    ensures |Covering(list + [v], w)| == |Covering(list, w)| + if CoversWindow(v, w) then 1 else 0
  {
    assert (list + [v])[..|list|] == list;
  }

  lemma OneMoreOpen(open: map<Identity, int>, left: set<Identity>, id: Identity, workload: string, w: Window)
    requires id in open && id in left
    ensures |OpenMeeting(open, left - {id}, workload, w)| ==
            |OpenMeeting(open, left, workload, w)| + if id.workload == workload && open[id] <= w.end then 1 else 0
  {
    var before, after := OpenMeeting(open, left, workload, w), OpenMeeting(open, left - {id}, workload, w);
    if id.workload == workload && open[id] <= w.end {
      assert after == before + {id};
    } else {
      assert after == before;
    }
  }

  /** How many intervals of each workload meet the window, so far. */
  ghost predicate Counted(intervals: map<string, seq<Interval>>, closed: map<string, seq<Interval>>,
                          open: map<Identity, int>, left: set<Identity>, w: Window)
  {
    forall workload :: |Covering(Listed(intervals, workload), w)| ==
                         |Covering(Listed(closed, workload), w)| + |OpenMeeting(open, left, workload, w)|
  }

  lemma CountedOneMore(intervals: map<string, seq<Interval>>, closed: map<string, seq<Interval>>,
                       open: map<Identity, int>, left: set<Identity>, w: Window, id: Identity)
    requires id in open && id in left && Counted(intervals, closed, open, left, w)
    ensures var longer := Listed(intervals, id.workload) + [Interval(id.job, open[id], None)];
            Counted(intervals[id.workload := longer], closed, open, left - {id}, w)
  {
    var v := Interval(id.job, open[id], None);
    var next := intervals[id.workload := Listed(intervals, id.workload) + [v]];
    forall workload ensures |Covering(Listed(next, workload), w)| ==
                              |Covering(Listed(closed, workload), w)| + |OpenMeeting(open, left - {id}, workload, w)|
    {
      OneMoreOpen(open, left, id, workload, w);
      OneMoreCovering(Listed(intervals, id.workload), v, w);
      assert |Covering(Listed(intervals, workload), w)| ==
             |Covering(Listed(closed, workload), w)| + |OpenMeeting(open, left, workload, w)|;
    }
  }

  /** The lists hold the closed intervals and one open interval per open job outside `left`. */
  ghost predicate Merged(intervals: map<string, seq<Interval>>, closed: map<string, seq<Interval>>,
                         open: map<Identity, int>, left: set<Identity>)
  {
    forall workload, v :: v in Listed(intervals, workload) <==>
      v in Listed(closed, workload)
      || (v.end.None? && Identity(workload, v.job) !in left
          && Lookup(open, Identity(workload, v.job)) == Some(v.start))
  }

  lemma MergedOneMore(intervals: map<string, seq<Interval>>, closed: map<string, seq<Interval>>,
                      open: map<Identity, int>, left: set<Identity>, id: Identity)
    requires id in open && id in left && Merged(intervals, closed, open, left)
    ensures var longer := Listed(intervals, id.workload) + [Interval(id.job, open[id], None)];
            Merged(intervals[id.workload := longer], closed, open, left - {id})
  {
  }

  /** The second loop: the jobs still open, in any order. */
  method AddOpen(open: map<Identity, int>, closed: map<string, seq<Interval>>, ghost w: Window)
    returns (intervals: map<string, seq<Interval>>)
    ensures Merged(intervals, closed, open, {}) && Counted(intervals, closed, open, {}, w)
  {
    intervals := closed;
    var remaining := open.Keys;
    NothingAdded(open, closed, w);
    while remaining != {}
      invariant remaining <= open.Keys
      invariant Merged(intervals, closed, open, remaining) && Counted(intervals, closed, open, remaining, w)
      decreases remaining
    {
      var id :| id in remaining;
      MergedOneMore(intervals, closed, open, remaining, id);
      CountedOneMore(intervals, closed, open, remaining, w, id);
      var longer := Listed(intervals, id.workload) + [Interval(id.job, open[id], None)];
      intervals := intervals[id.workload := longer];
      remaining := remaining - {id};
    }
  }

  lemma NothingAdded(open: map<Identity, int>, closed: map<string, seq<Interval>>, w: Window)
    ensures Merged(closed, closed, open, open.Keys) && Counted(closed, closed, open, open.Keys, w)
  {
    assert forall workload :: OpenMeeting(open, open.Keys, workload, w) == {};
  }

  ghost function Identities(events: seq<Event>): set<Identity> { set e | e in events :: IdentityOf(e) }

  /** How many intervals of a workload meet the window: closed ones, and one per open job. */
  ghost function OverlapCount(events: seq<Event>, workload: string, w: Window): nat {
    var n := |events|;
    |Covering(Closed(events, n, workload), w)|
    + |set id | id in Identities(events) && id.workload == workload
                && OpenSince(events, n, id).Some? && OpenSince(events, n, id).value <= w.end|
  }

  lemma {:induction false} OpenIsKnown(events: seq<Event>, n: nat, id: Identity)
    requires n <= |events| && OpenSince(events, n, id).Some?
    ensures id in Identities(events)
    decreases n
  {
    if IdentityOf(events[n - 1]) == id {
      assert events[n - 1] in events;
    } else {
      OpenIsKnown(events, n - 1, id);
    }
  }

  lemma CountedIsOverlapCount(events: seq<Event>, open: map<Identity, int>, closed: map<string, seq<Interval>>,
                              intervals: map<string, seq<Interval>>, w: Window, workload: string)
    requires forall id :: Lookup(open, id) == OpenSince(events, |events|, id)
    requires Listed(closed, workload) == Closed(events, |events|, workload)
    requires Counted(intervals, closed, open, {}, w)
    ensures |Covering(Listed(intervals, workload), w)| == OverlapCount(events, workload, w)
  {
    var n := |events|;
    var meeting := set id | id in Identities(events) && id.workload == workload
                            && OpenSince(events, n, id).Some? && OpenSince(events, n, id).value <= w.end;
    forall id ensures id in OpenMeeting(open, {}, workload, w) <==> id in meeting {
      assert Lookup(open, id) == OpenSince(events, n, id);
      if OpenSince(events, n, id).Some? { OpenIsKnown(events, n, id); }
    }
    assert OpenMeeting(open, {}, workload, w) == meeting;
  }

  /** `workload_intervals` */
  method FoldWorkloadIntervals(events: seq<Event>, ghost w: Window) returns (intervals: map<string, seq<Interval>>)
    ensures Exact(SortBy(events, TimeOf), intervals)
    ensures forall workload ::
              |Covering(Listed(intervals, workload), w)| == OverlapCount(SortBy(events, TimeOf), workload, w)
  {
    var ordered := SortBy(events, TimeOf);
    var open, closed := FoldEvents(ordered);
    intervals := AddOpen(open, closed, w);
    forall workload, v ensures v in Listed(intervals, workload) <==> IsIntervalOf(ordered, workload, v) {
      assert Lookup(open, Identity(workload, v.job)) == OpenSince(ordered, |ordered|, Identity(workload, v.job));
      assert Listed(closed, workload) == Closed(ordered, |ordered|, workload);
    }
    forall workload ensures |Covering(Listed(intervals, workload), w)| == OverlapCount(ordered, workload, w) {
      CountedIsOverlapCount(ordered, open, closed, intervals, w, workload);
    }
  }

  // -------------------------------------------------- what the intervals mean

  /** A start of the job at or before `t` that no later event of the job ends before `t`. */
  ghost predicate StartedAndRunning(events: seq<Event>, n: nat, id: Identity, t: int, i: nat)
    requires n <= |events|
  {
    && i < n && IdentityOf(events[i]) == id && events[i].kind == Start && events[i].at <= t
    && forall k :: i < k < n && IdentityOf(events[k]) == id && events[k].kind == End ==> events[k].at >= t
  }

  ghost predicate EndsAt(events: seq<Event>, n: nat, id: Identity, t: int, k: nat)
    requires n <= |events|
  {
    k < n && IdentityOf(events[k]) == id && events[k].kind == End && events[k].at == t
  }

  /** The job was active at `t`, read off the events alone. */
  ghost predicate ActiveAt(events: seq<Event>, n: nat, id: Identity, t: int)
    requires n <= |events|
  {
    (exists i :: StartedAndRunning(events, n, id, t, i)) || exists k :: EndsAt(events, n, id, t, k)
  }

  /** Some interval of the job contains `t`, after `n` events. */
  ghost predicate CoveredAt(events: seq<Event>, n: nat, id: Identity, t: int)
    requires n <= |events|
  {
    || (OpenSince(events, n, id).Some? && OpenSince(events, n, id).value <= t)
    || exists v :: v in Closed(events, n, id.workload) && v.job == id.job && Contains(v, t)
  }

  lemma {:induction false} OpenIsInThePast(events: seq<Event>, n: nat, id: Identity)
    requires n <= |events| && SortedBy(events, TimeOf)
    ensures OpenSince(events, n, id).Some? ==>
              && (forall k :: n <= k < |events| ==> OpenSince(events, n, id).value <= events[k].at)
              && exists i :: 0 <= i < n && IdentityOf(events[i]) == id && events[i].kind == Start
                             && events[i].at == OpenSince(events, n, id).value
    decreases n
  {
    if n > 0 {
      OpenIsInThePast(events, n - 1, id);
      forall k | n <= k < |events| ensures events[n - 1].at <= events[k].at {
        assert TimeOf(events[n - 1]) <= TimeOf(events[k]);
      }
    }
  }

  lemma {:induction false} ClosedEndInThePast(events: seq<Event>, n: nat, workload: string, v: Interval)
    requires n <= |events| && SortedBy(events, TimeOf) && v in Closed(events, n, workload)
    ensures v.end.Some? && v.start <= v.end.value
    ensures exists i :: 0 <= i < n && events[i].at == v.end.value
    ensures forall k :: n <= k < |events| ==> v.end.value <= events[k].at
    decreases n
  {
    var before := Closed(events, n - 1, workload);
    if v in before {
      ClosedEndInThePast(events, n - 1, workload, v);
    } else {
      assert v == ClosedBy(events, n - 1);
      forall k | n <= k < |events| ensures events[n - 1].at <= events[k].at {
        assert TimeOf(events[n - 1]) <= TimeOf(events[k]);
      }
    }
  }

  /** An event of another job, or one after `t`, does not change whether the job was active at `t`. */
  lemma OtherEventsKeepActivity(events: seq<Event>, n: nat, m: nat, id: Identity, t: int)
    requires m == n + 1 <= |events| && (IdentityOf(events[n]) != id || events[n].at > t)
    ensures ActiveAt(events, m, id, t) <==> ActiveAt(events, n, id, t)
  {
    forall k: nat ensures EndsAt(events, m, id, t, k) <==> EndsAt(events, n, id, t, k) {
    }
    forall i: nat ensures StartedAndRunning(events, m, id, t, i) <==> StartedAndRunning(events, n, id, t, i) {
    }
  }

  lemma StartStep(events: seq<Event>, n: nat, m: nat, id: Identity, t: int)
    requires m == n + 1 <= |events| && SortedBy(events, TimeOf)
    requires IdentityOf(events[n]) == id && events[n].kind == Start
    requires CoveredAt(events, n, id, t) <==> ActiveAt(events, n, id, t)
    ensures CoveredAt(events, m, id, t) <==> ActiveAt(events, m, id, t)
  {
    OpenIsInThePast(events, n, id);
    if events[n].at <= t {
      assert StartedAndRunning(events, m, id, t, n);
    } else {
      OtherEventsKeepActivity(events, n, m, id, t);
    }
  }

  lemma ClosingCovers(events: seq<Event>, n: nat, id: Identity, t: int)
    requires n < |events| && IdentityOf(events[n]) == id && events[n].kind == End && t <= events[n].at
    requires OpenSince(events, n, id).Some? ==> OpenSince(events, n, id).value <= events[n].at
    ensures CoveredAt(events, n + 1, id, t) <==> CoveredAt(events, n, id, t) || t == events[n].at
  {
    var v := ClosedBy(events, n);
    var before, after := Closed(events, n, id.workload), Closed(events, n + 1, id.workload);
    assert after == before + [v] && v.job == id.job && v in after;
    assert Contains(v, t) <==>
           (OpenSince(events, n, id).Some? && OpenSince(events, n, id).value <= t) || t == events[n].at;
    if CoveredAt(events, n + 1, id, t) && !Contains(v, t) {
      var w :| w in after && w.job == id.job && Contains(w, t);
      assert w in before;
    }
    if exists w :: w in before && w.job == id.job && Contains(w, t) {
      var w :| w in before && w.job == id.job && Contains(w, t);
      assert w in after;
    }
  }

  /** Up to the end, both sides gain exactly the instant of the end itself. */
  lemma EndStepBefore(events: seq<Event>, n: nat, m: nat, id: Identity, t: int)
    requires m == n + 1 <= |events| && SortedBy(events, TimeOf)
    requires IdentityOf(events[n]) == id && events[n].kind == End && t <= events[n].at
    requires CoveredAt(events, n, id, t) <==> ActiveAt(events, n, id, t)
    ensures CoveredAt(events, m, id, t) <==> ActiveAt(events, m, id, t)
  {
    OpenIsInThePast(events, n, id);
    ClosingCovers(events, n, id, t);
    if t == events[n].at {
      assert EndsAt(events, m, id, t, n);
    } else {
      OtherEventsKeepActivity(events, n, m, id, t);
    }
  }

  /** After the end: the job is active on neither side. */
  lemma EndStepAfter(events: seq<Event>, n: nat, m: nat, id: Identity, t: int)
    requires m == n + 1 <= |events| && SortedBy(events, TimeOf)
    requires IdentityOf(events[n]) == id && events[n].kind == End && events[n].at < t
    ensures !ActiveAt(events, m, id, t) && !CoveredAt(events, m, id, t)
  {
    forall k | 0 <= k < n ensures events[k].at <= events[n].at {
      assert TimeOf(events[k]) <= TimeOf(events[n]);
    }
    forall i: nat ensures !StartedAndRunning(events, m, id, t, i) {
    }
    forall v | v in Closed(events, m, id.workload) ensures !Contains(v, t) {
      ClosedEndInThePast(events, m, id.workload, v);
    }
  }

  /** For every list of events in time order and every job: an instant lies in one of the
      folded intervals exactly when the job was active there. */
  lemma {:induction false} CoverageIsActivity(events: seq<Event>, n: nat, id: Identity, t: int)
    requires n <= |events| && SortedBy(events, TimeOf)
    ensures CoveredAt(events, n, id, t) <==> ActiveAt(events, n, id, t)
    decreases n
  {
    if n > 0 {
      CoverageIsActivity(events, n - 1, id, t);
      var e := events[n - 1];
      if IdentityOf(e) != id {
        OtherEventsKeepActivity(events, n - 1, n, id, t);
      } else if e.kind == Start {
        StartStep(events, n - 1, n, id, t);
      } else if t <= e.at {
        EndStepBefore(events, n - 1, n, id, t);
      } else {
        EndStepAfter(events, n - 1, n, id, t);
      }
    }
  }

  ghost predicate ActiveIn(events: seq<Event>, id: Identity, t: int) {
    var ordered := SortBy(events, TimeOf);
    ActiveAt(ordered, |ordered|, id, t)
  }

  ghost predicate InSomeInterval(intervals: seq<Interval>, job: string, t: int) {
    exists v :: v in intervals && v.job == job && Contains(v, t)
  }

  /** The intervals of a job, whatever the order of the events, contain exactly the instants
      at which the job was active. */
  lemma IntervalsAreActivity(events: seq<Event>, intervals: map<string, seq<Interval>>, id: Identity, t: int)
    requires Exact(SortBy(events, TimeOf), intervals)
    ensures InSomeInterval(Listed(intervals, id.workload), id.job, t) <==> ActiveIn(events, id, t)
  {
    var ordered := SortBy(events, TimeOf);
    SortByIsSorted(events, TimeOf);
    CoverageIsActivity(ordered, |ordered|, id, t);
    if InSomeInterval(Listed(intervals, id.workload), id.job, t) {
      var v :| v in Listed(intervals, id.workload) && v.job == id.job && Contains(v, t);
      assert IsIntervalOf(ordered, id.workload, v);
      assert CoveredAt(ordered, |ordered|, id, t);
    }
    if CoveredAt(ordered, |ordered|, id, t) {
      var v := CoveringInterval(ordered, id, t);
      assert v in Listed(intervals, id.workload);
    }
  }

  lemma CoveringInterval(ordered: seq<Event>, id: Identity, t: int) returns (v: Interval)
    requires CoveredAt(ordered, |ordered|, id, t)
    ensures IsIntervalOf(ordered, id.workload, v) && v.job == id.job && Contains(v, t)
  {
    var since := OpenSince(ordered, |ordered|, id);
    if since.Some? && since.value <= t {
      v := Interval(id.job, since.value, None);
      assert Identity(id.workload, v.job) == id;
    } else {
      v :| v in Closed(ordered, |ordered|, id.workload) && v.job == id.job && Contains(v, t);
    }
  }

  // ---------------------------------------------------------------- overlap

  /** The test is overlap: some instant of the window lies in the interval. */
  lemma CoversMeansOverlap(v: Interval, w: Window)
    requires w.start <= w.end && (v.end.Some? ==> v.start <= v.end.value)
    ensures CoversWindow(v, w) <==> exists t :: w.start <= t <= w.end && Contains(v, t)
  {
    if CoversWindow(v, w) {
      var t := if v.start <= w.start then w.start else v.start;
      assert w.start <= t <= w.end && Contains(v, t);
    }
  }

  datatype WorkloadKey = CacheRefresh | CacheRefreshArchive | OtherKey(name: string)

  /** `OBSERVABLE_WORKLOADS` */
  function Required(key: WorkloadKey): Option<seq<string>> {
    match key
    case CacheRefresh => Some(["cache-refresh"])
    case CacheRefreshArchive => Some(["cache-refresh", "archive"])
    case OtherKey(_) => None
  }

  function StartOf(v: Interval): int { v.start }

  lemma {:induction false} CoveringIsFilter(intervals: seq<Interval>, w: Window, v: Interval)
    ensures v in Covering(intervals, w) <==> v in intervals && CoversWindow(v, w)
    decreases |intervals|
  {
    if intervals != [] {
      var n := |intervals| - 1;
      CoveringIsFilter(intervals[..n], w, v);
      assert intervals == intervals[..n] + [intervals[n]];
    }
  }

  /** The earliest covering interval, which becomes the evidence. */
  method ChooseEvidence(intervals: seq<Interval>, w: Window) returns (r: Option<Interval>, count: nat)
    ensures count == |Covering(intervals, w)|
    ensures r.Some? ==> r.value in intervals && CoversWindow(r.value, w)
    ensures r.Some? ==> forall v :: v in intervals && CoversWindow(v, w) ==> r.value.start <= v.start
    ensures r.None? ==> forall v :: v in intervals ==> !CoversWindow(v, w)
  {
    var covering := SortBy(Covering(intervals, w), StartOf);
    SortByIsSorted(Covering(intervals, w), StartOf);
    forall v ensures v in covering <==> v in intervals && CoversWindow(v, w) {
      CoveringIsFilter(intervals, w, v);
      SortKeepsElements(Covering(intervals, w), StartOf, v);
    }
    count := |covering|;
    if covering == [] {
      return None, count;
    }
    r := Some(covering[0]);
    assert covering[0] in covering;
    forall v | v in intervals && CoversWindow(v, w) ensures covering[0].start <= v.start {
      var k :| 0 <= k < |covering| && covering[k] == v;
      assert k > 0 ==> StartOf(covering[0]) <= StartOf(covering[k]);
    }
  }

  /** Some interval of the workload meets the window. */
  ghost predicate Proven(events: seq<Event>, workload: string, w: Window) {
    exists v :: IsIntervalOf(SortBy(events, TimeOf), workload, v) && CoversWindow(v, w)
  }

  datatype Evidence = Evidence(interval: Interval, overlapCount: nat)

  datatype Overlap = Overlap(evidence: map<string, Evidence>, observedEvents: nat)

  /** The evidence for a workload: an interval that meets the window, with the earliest start, and
      how many do. */
  ghost predicate IsEvidence(events: seq<Event>, workload: string, w: Window, x: Evidence) {
    var ordered, v := SortBy(events, TimeOf), x.interval;
    && IsIntervalOf(ordered, workload, v) && CoversWindow(v, w)
    && (forall other :: IsIntervalOf(ordered, workload, other) && CoversWindow(other, w) ==> v.start <= other.start)
    && x.overlapCount == OverlapCount(ordered, workload, w)
  }

  /** The events of the required workloads up to the end of the window. */
  function ObservedEvents(events: seq<Event>, required: seq<string>, end: int): nat {
    if events == [] then 0
    else
      var front, last := events[..|events| - 1], events[|events| - 1];
      ObservedEvents(front, required, end) + if last.workload in required && last.at <= end then 1 else 0
  }

  ghost predicate Collected(events: seq<Event>, w: Window, seen: seq<string>, evidence: map<string, Evidence>,
                            missing: seq<string>)
  {
    && (forall workload :: workload in missing <==> workload in seen && !Proven(events, workload, w))
    && (forall workload :: workload in evidence <==> workload in seen && Proven(events, workload, w))
    && forall workload :: workload in evidence ==> IsEvidence(events, workload, w, evidence[workload])
  }

  lemma CollectedMissing(events: seq<Event>, w: Window, seen: seq<string>, evidence: map<string, Evidence>,
                         missing: seq<string>, workload: string)
    requires Collected(events, w, seen, evidence, missing) && !Proven(events, workload, w)
    ensures Collected(events, w, seen + [workload], evidence, missing + [workload])
  {
  }

  lemma CollectedFound(events: seq<Event>, w: Window, seen: seq<string>, evidence: map<string, Evidence>,
                       missing: seq<string>, workload: string, x: Evidence)
    requires Collected(events, w, seen, evidence, missing) && IsEvidence(events, workload, w, x)
    ensures Collected(events, w, seen + [workload], evidence[workload := x], missing)
  {
    assert Proven(events, workload, w);
  }

  /** The loop over the required workloads. */
  method CollectEvidence(events: seq<Event>, required: seq<string>, w: Window)
    returns (evidence: map<string, Evidence>, missing: seq<string>)
    ensures Collected(events, w, required, evidence, missing)
  {
    var intervals := FoldWorkloadIntervals(events, w);
    evidence, missing := map[], [];
    var i := 0;
    while i < |required|
      invariant 0 <= i <= |required|
      invariant Collected(events, w, required[..i], evidence, missing)
    {
      var workload := required[i];
      var chosen, count := ChooseEvidence(Listed(intervals, workload), w);
      assert required[..i + 1] == required[..i] + [workload];
      if chosen.None? {
        assert !Proven(events, workload, w);
        CollectedMissing(events, w, required[..i], evidence, missing, workload);
        missing := missing + [workload];
      } else {
        assert IsEvidence(events, workload, w, Evidence(chosen.value, count));
        CollectedFound(events, w, required[..i], evidence, missing, workload, Evidence(chosen.value, count));
        evidence := evidence[workload := Evidence(chosen.value, count)];
      }
      i := i + 1;
    }
    assert required[..i] == required;
  }

  /** `workload_overlap`: the evidence per required workload, or the missing workloads. */
  method WorkloadOverlap(events: seq<Event>, key: WorkloadKey, w: Window) returns (r: Result<Overlap, seq<string>>)
    ensures r.Ok? <==>
              Required(key).Some? && forall workload :: workload in Required(key).value ==> Proven(events, workload, w)
    ensures r.Ok? ==> r.value.evidence.Keys == (set workload | workload in Required(key).value)
    ensures r.Ok? ==> forall workload :: workload in r.value.evidence ==>
              IsEvidence(events, workload, w, r.value.evidence[workload])
    ensures r.Ok? ==> r.value.observedEvents == ObservedEvents(events, Required(key).value, w.end)
    ensures r.Err? && Required(key).Some? ==>
              forall workload ::
                workload in r.error <==> workload in Required(key).value && !Proven(events, workload, w)
  {
    if Required(key).None? {
      return Err([]);
    }
    var required := Required(key).value;
    var evidence, missing := CollectEvidence(events, required, w);
    if missing != [] {
      assert missing[0] in missing;
      return Err(missing);
    }
    assert forall workload :: workload in required ==> Proven(events, workload, w) by {
      forall workload | workload in required && !Proven(events, workload, w) ensures workload in missing {
      }
    }
    r := Ok(Overlap(evidence, ObservedEvents(events, required, w.end)));
  }

  /** The recheck of `validate_observation` on recorded evidence. */
  ghost predicate EvidenceRechecks(key: WorkloadKey, evidence: map<string, Evidence>, w: Window) {
    Required(key).Some? ==> forall workload :: workload in Required(key).value ==>
      && workload in evidence
      && evidence[workload].interval.start >= 1
      && (evidence[workload].interval.end.Some? ==> evidence[workload].interval.end.value >= 1)
      && CoversWindow(evidence[workload].interval, w)
  }

  lemma {:induction false} ClosedTimesAreEventTimes(events: seq<Event>, n: nat, workload: string, v: Interval)
    requires n <= |events| && SortedBy(events, TimeOf) && v in Closed(events, n, workload)
    requires forall i :: 0 <= i < |events| ==> events[i].at >= 1
    ensures v.start >= 1 && v.end.Some? && v.end.value >= 1
    decreases n
  {
    if v in Closed(events, n - 1, workload) {
      ClosedTimesAreEventTimes(events, n - 1, workload, v);
    } else {
      OpenIsInThePast(events, n - 1, IdentityOf(events[n - 1]));
    }
  }

  lemma IntervalTimesAreEventTimes(events: seq<Event>, workload: string, v: Interval)
    requires forall e :: e in events ==> e.at >= 1
    requires IsIntervalOf(SortBy(events, TimeOf), workload, v)
    ensures v.start >= 1 && (v.end.Some? ==> v.end.value >= 1)
  {
    var ordered := SortBy(events, TimeOf);
    var n := |ordered|;
    SortByIsSorted(events, TimeOf);
    forall i | 0 <= i < n ensures ordered[i].at >= 1 {
      assert ordered[i] in ordered;
      SortKeepsElements(events, TimeOf, ordered[i]);
    }
    if v in Closed(ordered, n, workload) {
      ClosedTimesAreEventTimes(ordered, n, workload, v);
    } else {
      OpenIsInThePast(ordered, n, Identity(workload, v.job));
    }
  }

  /** Evidence chosen from well-formed events always passes the later recheck. */
  lemma ChosenEvidenceRechecks(events: seq<Event>, key: WorkloadKey, w: Window, evidence: map<string, Evidence>)
    requires forall e :: e in events ==> e.at >= 1
    requires Required(key).Some? && evidence.Keys == (set workload | workload in Required(key).value)
    requires forall workload :: workload in evidence ==> IsEvidence(events, workload, w, evidence[workload])
    ensures EvidenceRechecks(key, evidence, w)
  {
    forall workload | workload in evidence
      ensures evidence[workload].interval.start >= 1
      ensures evidence[workload].interval.end.Some? ==> evidence[workload].interval.end.value >= 1
    {
      IntervalTimesAreEventTimes(events, workload, evidence[workload].interval);
    }
  }

  /** A workload is proven for a window exactly when one of its jobs was active at some
      instant of the window. */
  lemma ProvenMeansActive(events: seq<Event>, workload: string, w: Window)
    requires w.start <= w.end
    ensures Proven(events, workload, w) <==>
            exists job, t :: w.start <= t <= w.end && ActiveIn(events, Identity(workload, job), t)
  {
    var ordered := SortBy(events, TimeOf);
    var n := |ordered|;
    SortByIsSorted(events, TimeOf);
    if Proven(events, workload, w) {
      var v :| IsIntervalOf(ordered, workload, v) && CoversWindow(v, w);
      if v in Closed(ordered, n, workload) { ClosedEndInThePast(ordered, n, workload, v); }
      CoversMeansOverlap(v, w);
      var t :| w.start <= t <= w.end && Contains(v, t);
      CoverageIsActivity(ordered, n, Identity(workload, v.job), t);
      assert ActiveIn(events, Identity(workload, v.job), t);
    }
    if job, t :| w.start <= t <= w.end && ActiveIn(events, Identity(workload, job), t) {
      CoverageIsActivity(ordered, n, Identity(workload, job), t);
      var v := CoveringInterval(ordered, Identity(workload, job), t);
    }
  }
}
