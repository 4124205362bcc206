/** The release gate of the boot benchmark (tools/vm-boot-benchmark.py): observations are grouped
    by cell, summarised by order statistics and held against the targets. Percentiles are exact. */
module AcceptanceGate {
  import opened Wrappers
  import opened Sorting
  import opened SampleIds
  import opened BenchmarkPlan

  datatype Observation = Observation(sampleId: string, cell: Cell, success: bool, teardown: Teardown,
      firstCommandMs: int)

  const P50_TARGET_MS := 2000
  const P95_TARGET_MS := 4000

  // ---------------------------------------------------------- order statistics

  function Itself(x: int): int { x }

  function NearestRank(times: seq<int>): (r: Option<int>)
    ensures r.None? <==> times == []
  {
    if times == [] then None else Some(SortBy(times, Itself)[Rank(|times|) - 1])
  }

  /** `max(1, ceil(0.95 * n))` */
  function Rank(n: nat): (k: nat)
    ensures n >= 1 ==> 1 <= k <= n
  {
    var k := (95 * n + 99) / 100;
    if k < 1 then 1 else k
  }

  /** Twice the median, which is a whole number also for an even count. */
  function TwiceMedian(times: seq<int>): (r: Option<int>)
    ensures r.None? <==> times == []
  {
    var ordered, n := SortBy(times, Itself), |times|;
    if n == 0 then None
    else if n % 2 == 1 then Some(2 * ordered[n / 2])
    else Some(ordered[n / 2 - 1] + ordered[n / 2])
  }

  /** How many values are at most `t`. */
  ghost function Within(times: seq<int>, t: int): nat {
    if times == [] then 0
    else Within(times[..|times| - 1], t) + (if times[|times| - 1] <= t then 1 else 0)
  }

  lemma {:induction false} WithinLast(s: seq<int>, x: int, t: int)
    ensures Within(s + [x], t) == Within(s, t) + (if x <= t then 1 else 0)
  {
    assert (s + [x])[..|s|] == s;
  }

  lemma {:induction false} InsertKeepsWithin(s: seq<int>, x: int, t: int)
    ensures Within(InsertBy(s, x, Itself), t) == Within(s, t) + (if x <= t then 1 else 0)
    decreases |s|
  {
    if s != [] && s[|s| - 1] > x {
      var front, last := s[..|s| - 1], s[|s| - 1];
      InsertKeepsWithin(front, x, t);
      WithinLast(InsertBy(front, x, Itself), last, t);
    } else {
      WithinLast(s, x, t);
    }
  }

  lemma {:induction false} SortKeepsWithin(s: seq<int>, t: int)
    ensures Within(SortBy(s, Itself), t) == Within(s, t)
    decreases |s|
  {
    if s != [] {
      SortKeepsWithin(s[..|s| - 1], t);
      InsertKeepsWithin(SortBy(s[..|s| - 1], Itself), s[|s| - 1], t);
    }
  }

  lemma {:induction false} WithinBounds(s: seq<int>, t: int)
    ensures Within(s, t) <= |s|
    ensures (forall i :: 0 <= i < |s| ==> s[i] <= t) ==> Within(s, t) == |s|
    decreases |s|
  {
    if s != [] { WithinBounds(s[..|s| - 1], t); }
  }

  /** In a sorted list the value at rank `k` is within `t` exactly when more than `k` values are. */
  lemma {:induction false} RankIsWithin(s: seq<int>, k: nat, t: int)
    requires k < |s| && SortedBy(s, Itself)
    ensures s[k] <= t <==> Within(s, t) > k
    decreases |s|
  {
    var n := |s| - 1;
    if s[n] <= t {
      forall i | 0 <= i < |s| ensures s[i] <= t { assert i < n ==> Itself(s[i]) <= Itself(s[n]); }
      WithinBounds(s, t);
    } else if k == n {
      WithinBounds(s[..n], t);
    } else {
      RankIsWithin(s[..n], k, t);
    }
  }

  lemma SortedRank(times: seq<int>, k: nat, t: int)
    requires k < |times|
    ensures SortBy(times, Itself)[k] <= t <==> Within(times, t) > k
  {
    SortByIsSorted(times, Itself);
    SortKeepsWithin(times, t);
    RankIsWithin(SortBy(times, Itself), k, t);
  }

  /** The nearest-rank p95 meets a target exactly when at least 95% of the values do. */
  lemma NearestRankMeaning(times: seq<int>, t: int)
    requires times != []
    ensures NearestRank(times).value <= t <==> 100 * Within(times, t) >= 95 * |times|
  {
    SortedRank(times, Rank(|times|) - 1, t);
  }

  ghost predicate LargestWithin(times: seq<int>, t: int, x: int) {
    x in times && x <= t && forall y :: y in times && y <= t ==> y <= x
  }

  ghost predicate SmallestAbove(times: seq<int>, t: int, x: int) {
    x in times && x > t && forall y :: y in times && y > t ==> x <= y
  }

  /** The closest values on the two sides of the target average at most the target. */
  ghost predicate TieMeets(times: seq<int>, t: int) {
    exists low, high :: LargestWithin(times, t, low) && SmallestAbove(times, t, high) && low + high <= 2 * t
  }

  /** With exactly half within the target, the two middle values are the closest ones on its sides. */
  lemma TieMiddle(times: seq<int>, t: int)
    requires times != [] && 2 * Within(times, t) == |times|
    ensures var ordered, k := SortBy(times, Itself), |times| / 2;
            k >= 1 && LargestWithin(times, t, ordered[k - 1]) && SmallestAbove(times, t, ordered[k])
  {
    var ordered, k := SortBy(times, Itself), |times| / 2;
    SortedRank(times, k - 1, t);
    SortedRank(times, k, t);
    SortByIsSorted(times, Itself);
    forall x ensures x in times <==> x in ordered { SortKeepsElements(times, Itself, x); }
    forall x | x in times ensures (x <= t ==> x <= ordered[k - 1]) && (x > t ==> ordered[k] <= x) {
      var m :| 0 <= m < |ordered| && ordered[m] == x;
      assert m < k - 1 ==> Itself(ordered[m]) <= Itself(ordered[k - 1]);
      assert k < m ==> Itself(ordered[k]) <= Itself(ordered[m]);
    }
  }

  lemma TieIsDecided(times: seq<int>, t: int)
    requires times != [] && 2 * Within(times, t) == |times|
    ensures TwiceMedian(times).value <= 2 * t <==> TieMeets(times, t)
  {
    TieMiddle(times, t);
    var ordered, k := SortBy(times, Itself), |times| / 2;
    if low, high :| LargestWithin(times, t, low) && SmallestAbove(times, t, high) && low + high <= 2 * t {
      assert low == ordered[k - 1] && high == ordered[k];
    }
  }

  /** The median meets a target if and only if more than half of the values do, or exactly half do
      and the closest values on both sides of the target average at most the target. */
  lemma MedianMeaning(times: seq<int>, t: int)
    requires times != []
    ensures TwiceMedian(times).value <= 2 * t <==>
            2 * Within(times, t) > |times| || (2 * Within(times, t) == |times| && TieMeets(times, t))
  {
    var ordered, n := SortBy(times, Itself), |times|;
    SortedRank(times, n / 2, t);
    if n % 2 == 0 {
      SortedRank(times, n / 2 - 1, t);
      SortByIsSorted(times, Itself);
      assert Itself(ordered[n / 2 - 1]) <= Itself(ordered[n / 2]);
      if 2 * Within(times, t) == n { TieIsDecided(times, t); }
    }
  }

  /** Half within the target is not enough for an even count. */
  lemma HalfWithinIsNotEnough()
    ensures 2 * Within([1000, 5000], P50_TARGET_MS) >= 2 && TwiceMedian([1000, 5000]).value > 2 * P50_TARGET_MS
  {
    var times := [1000, 5000];
    assert SortedBy(times, Itself);
    SortedIsFixed(times, Itself);
    assert times[..1] == [1000] && [1000][..0] == [];
  }

  // ------------------------------------------------------------------ one cell

  function InCell(observations: seq<Observation>, cell: Cell): seq<Observation> {
    if observations == [] then []
    else
      var last := observations[|observations| - 1];
      var rest := InCell(observations[..|observations| - 1], cell);
      if last.cell == cell then rest + [last] else rest
  }

  function Times(observed: seq<Observation>): seq<int> {
    if observed == [] then []
    else
      var last := observed[|observed| - 1];
      var rest := Times(observed[..|observed| - 1]);
      if last.success then rest + [last.firstCommandMs] else rest
  }

  function Failures(observed: seq<Observation>): nat {
    if observed == [] then 0
    else Failures(observed[..|observed| - 1]) + (if observed[|observed| - 1].success then 0 else 1)
  }

  function Leaks(observed: seq<Observation>): nat {
    if observed == [] then 0
    else Leaks(observed[..|observed| - 1]) + (if observed[|observed| - 1].teardown == Failed then 1 else 0)
  }

  datatype Group = Group(expected: nat, observed: nat, failures: nat, leaks: nat, times: seq<int>)

  function GroupFor(plan: Plan, observations: seq<Observation>, cell: Cell): Group {
    var observed := InCell(observations, cell);
    Group(CellCount(plan.schedule, cell), |observed|, Failures(observed), Leaks(observed), Times(observed))
  }

  /** `report_group` */
  method ReportGroup(plan: Plan, observations: seq<Observation>, cell: Cell) returns (g: Group)
    ensures g == GroupFor(plan, observations, cell)
  {
    var observed := InCell(observations, cell);
    var failures, leaks, times, i := 0, 0, [], 0;
    while i < |observed|
      invariant 0 <= i <= |observed|
      invariant failures == Failures(observed[..i]) && leaks == Leaks(observed[..i]) && times == Times(observed[..i])
    {
      assert observed[..i + 1][..i] == observed[..i];
      if observed[i].success {
        times := times + [observed[i].firstCommandMs];
      } else {
        failures := failures + 1;
      }
      if observed[i].teardown == Failed {
        leaks := leaks + 1;
      }
      i := i + 1;
    }
    assert observed[..i] == observed;
    g := Group(CellCount(plan.schedule, cell), |observed|, failures, leaks, times);
  }

  datatype Problem = WrongPlanCount | Missing | Leaked | PartialMetric | CandidateFailed | P50Above | P95Above

  /** The reasons one cell gives against the release. */
  function Problems(plan: Plan, cell: Cell, g: Group): seq<Problem> {
    (if g.expected != plan.samples then [WrongPlanCount] else [])
    + (if g.observed != g.expected then [Missing] else [])
    + (if g.leaks > 0 then [Leaked] else [])
    + if cell.implementation == Candidate then CandidateProblems(g) else []
  }

  function CandidateProblems(g: Group): seq<Problem> {
    (if |g.times| != g.expected then [PartialMetric] else [])
    + (if g.failures > 0 then [CandidateFailed] else [])
    + (if g.times == [] || TwiceMedian(g.times).value > 2 * P50_TARGET_MS then [P50Above] else [])
    + (if g.times == [] || NearestRank(g.times).value > P95_TARGET_MS then [P95Above] else [])
  }

  lemma {:induction false} InCellMembers(observations: seq<Observation>, cell: Cell, o: Observation)
    ensures o in InCell(observations, cell) <==> o in observations && o.cell == cell
    decreases |observations|
  {
    if observations != [] {
      var n := |observations| - 1;
      InCellMembers(observations[..n], cell, o);
      assert observations == observations[..n] + [observations[n]];
    }
  }

  lemma {:induction false} CountsMean(observed: seq<Observation>)
    ensures |Times(observed)| + Failures(observed) == |observed|
    ensures Failures(observed) == 0 <==> forall o :: o in observed ==> o.success
    ensures Leaks(observed) == 0 <==> forall o :: o in observed ==> o.teardown != Failed
    decreases |observed|
  {
    if observed != [] {
      var n := |observed| - 1;
      CountsMean(observed[..n]);
      assert observed == observed[..n] + [observed[n]];
    }
  }

  // ---------------------------------------------- recorded and planned samples

  ghost predicate IsPlanned(plan: Plan, o: Observation) {
    exists k :: 0 <= k < |plan.schedule| && plan.schedule[k].sampleId == o.sampleId && plan.schedule[k].cell == o.cell
  }

  ghost predicate DistinctObservations(observations: seq<Observation>) {
    forall i, j :: 0 <= i < j < |observations| ==> observations[i].sampleId != observations[j].sampleId
  }

  /** Every observation is planned, for its own cell, and no sample is observed twice. */
  ghost predicate WellRecorded(plan: Plan, observations: seq<Observation>) {
    DistinctObservations(observations) && forall o :: o in observations ==> IsPlanned(plan, o)
  }

  ghost predicate IsObserved(observations: seq<Observation>, e: Entry) {
    exists k :: 0 <= k < |observations| && observations[k].sampleId == e.sampleId
  }

  ghost predicate AllObserved(plan: Plan, observations: seq<Observation>) {
    forall e :: e in plan.schedule ==> IsObserved(observations, e)
  }

  ghost function PlannedIds(schedule: seq<Entry>, cell: Cell): set<string> {
    set e | e in schedule && e.cell == cell :: e.sampleId
  }

  ghost function ObservedIds(observations: seq<Observation>, cell: Cell): set<string> {
    set o | o in observations && o.cell == cell :: o.sampleId
  }

  lemma {:induction false} CellCountIsSize(schedule: seq<Entry>, cell: Cell)
    requires DistinctIds(schedule)
    ensures CellCount(schedule, cell) == |PlannedIds(schedule, cell)|
    decreases |schedule|
  {
    if schedule != [] {
      var n := |schedule| - 1;
      var front, last := schedule[..n], schedule[n];
      CellCountIsSize(front, cell);
      assert schedule == front + [last];
      assert last.sampleId !in PlannedIds(front, cell);
      assert PlannedIds(schedule, cell) ==
          PlannedIds(front, cell) + (if last.cell == cell then {last.sampleId} else {});
    }
  }

  lemma {:induction false} InCellIsSize(observations: seq<Observation>, cell: Cell)
    requires DistinctObservations(observations)
    ensures |InCell(observations, cell)| == |ObservedIds(observations, cell)|
    decreases |observations|
  {
    if observations != [] {
      var n := |observations| - 1;
      var front, last := observations[..n], observations[n];
      InCellIsSize(front, cell);
      assert observations == front + [last];
      assert last.sampleId !in ObservedIds(front, cell);
      assert ObservedIds(observations, cell) ==
          ObservedIds(front, cell) + (if last.cell == cell then {last.sampleId} else {});
    }
  }

  /** When nothing is missing, every cell has as many observations as planned samples. */
  lemma NothingMissingFillsCells(plan: Plan, observations: seq<Observation>, cell: Cell)
    requires DistinctIds(plan.schedule) && WellRecorded(plan, observations) && AllObserved(plan, observations)
    ensures |InCell(observations, cell)| == CellCount(plan.schedule, cell)
  {
    CellCountIsSize(plan.schedule, cell);
    InCellIsSize(observations, cell);
    forall id ensures id in PlannedIds(plan.schedule, cell) <==> id in ObservedIds(observations, cell) {
      SameIdsInCell(plan, observations, cell, id);
    }
    assert PlannedIds(plan.schedule, cell) == ObservedIds(observations, cell);
  }

  lemma SameIdsInCell(plan: Plan, observations: seq<Observation>, cell: Cell, id: string)
    requires DistinctIds(plan.schedule) && WellRecorded(plan, observations) && AllObserved(plan, observations)
    ensures id in PlannedIds(plan.schedule, cell) <==> id in ObservedIds(observations, cell)
  {
    if id in PlannedIds(plan.schedule, cell) {
      var e :| e in plan.schedule && e.cell == cell && e.sampleId == id;
      assert IsObserved(observations, e);
      var k :| 0 <= k < |observations| && observations[k].sampleId == id;
      assert IsPlanned(plan, observations[k]);
      assert observations[k].cell == cell;
    }
    if id in ObservedIds(observations, cell) {
      var o :| o in observations && o.cell == cell && o.sampleId == id;
      assert IsPlanned(plan, o);
    }
  }

  // ------------------------------------------------------------------ the gate

  datatype Reason =
    | SmokePlan
    | CellFails(cell: Cell, problems: seq<Problem>)
    | NewFailures(scenario: string, condition: string)
    | NoObservation(samples: set<string>)

  function PlanCells(plan: Plan): set<Cell> { set e | e in plan.schedule :: e.cell }

  function FailureCount(observations: seq<Observation>, scenario: string, condition: string, i: Implementation): nat {
    Failures(InCell(observations, Cell(scenario, condition, i)))
  }

  predicate NoNewFailures(observations: seq<Observation>, scenario: string, condition: string) {
    FailureCount(observations, scenario, condition, Candidate)
    <= FailureCount(observations, scenario, condition, Baseline)
  }

  ghost predicate CellsClean(plan: Plan, observations: seq<Observation>, cells: set<Cell>) {
    forall cell :: cell in cells ==> Problems(plan, cell, GroupFor(plan, observations, cell)) == []
  }

  ghost predicate PairsClean(observations: seq<Observation>, cells: set<Cell>) {
    forall cell :: cell in cells ==> NoNewFailures(observations, cell.scenario, cell.condition)
  }

  /** The cell loop of `acceptance_report`, in any order. */
  method CellReasons(plan: Plan, observations: seq<Observation>) returns (reasons: seq<Reason>)
    ensures reasons == [] <==> CellsClean(plan, observations, PlanCells(plan))
  {
    reasons := [];
    var remaining, cells := PlanCells(plan), PlanCells(plan);
    while remaining != {}
      invariant remaining <= cells
      invariant reasons == [] <==> CellsClean(plan, observations, cells - remaining)
      decreases remaining
    {
      var cell :| cell in remaining;
      var g := ReportGroup(plan, observations, cell);
      var problems := Problems(plan, cell, g);
      if problems != [] {
        reasons := reasons + [CellFails(cell, problems)];
      }
      remaining := remaining - {cell};
      assert cell in cells - remaining;
    }
    assert cells - remaining == cells;
  }

  /** The failure parity loop, over each scenario and condition. */
  method ParityReasons(plan: Plan, observations: seq<Observation>) returns (reasons: seq<Reason>)
    ensures reasons == [] <==> PairsClean(observations, PlanCells(plan))
  {
    reasons := [];
    var remaining, cells := PlanCells(plan), PlanCells(plan);
    while remaining != {}
      invariant remaining <= cells
      invariant reasons == [] <==> PairsClean(observations, cells - remaining)
      decreases remaining
    {
      var cell :| cell in remaining;
      if !NoNewFailures(observations, cell.scenario, cell.condition) {
        reasons := reasons + [NewFailures(cell.scenario, cell.condition)];
      }
      var pair := set other | other in remaining
                              && other.scenario == cell.scenario && other.condition == cell.condition;
      remaining := remaining - pair;
      assert cell in cells - remaining;
    }
    assert cells - remaining == cells;
  }

  ghost predicate CandidateMeetsTargets(observations: seq<Observation>, cell: Cell) {
    var times := Times(InCell(observations, cell));
    times != [] && TwiceMedian(times).value <= 2 * P50_TARGET_MS && NearestRank(times).value <= P95_TARGET_MS
  }

  /** What a passing gate means, in terms of planned and observed samples. */
  ghost predicate GatePasses(plan: Plan, smoke: bool, observations: seq<Observation>) {
    && !smoke
    && AllObserved(plan, observations)
    && (forall o :: o in observations ==> o.teardown != Failed)
    && (forall o :: o in observations && o.cell.implementation == Candidate ==> o.success)
    && forall cell :: cell in PlanCells(plan) && cell.implementation == Candidate ==>
        CandidateMeetsTargets(observations, cell)
  }

  lemma {:induction false} PlannedCellIsCounted(schedule: seq<Entry>, e: Entry)
    requires e in schedule
    ensures CellCount(schedule, e.cell) > 0
    decreases |schedule|
  {
    var n := |schedule| - 1;
    if e in schedule[..n] {
      PlannedCellIsCounted(schedule[..n], e);
    } else {
      assert schedule == schedule[..n] + [schedule[n]];
    }
  }

  lemma LoadedCellCount(plan: Plan, cell: Cell)
    requires Loads(plan) && cell in PlanCells(plan)
    ensures CellCount(plan.schedule, cell) == plan.samples
  {
    var e :| e in plan.schedule && e.cell == cell;
    PlannedCellIsCounted(plan.schedule, e);
  }

  lemma CleanCell(plan: Plan, observations: seq<Observation>, cell: Cell)
    requires Loads(plan) && WellRecorded(plan, observations) && AllObserved(plan, observations) &&
        cell in PlanCells(plan)
    requires forall o :: o in InCell(observations, cell) ==> o.teardown != Failed
    requires cell.implementation == Candidate ==>
               CandidateMeetsTargets(observations, cell) && forall o :: o in InCell(observations, cell) ==> o.success
    ensures Problems(plan, cell, GroupFor(plan, observations, cell)) == []
  {
    LoadedCellCount(plan, cell);
    NothingMissingFillsCells(plan, observations, cell);
    CountsMean(InCell(observations, cell));
  }

  lemma ObservationIsInItsCell(plan: Plan, observations: seq<Observation>, o: Observation)
    requires WellRecorded(plan, observations) && o in observations
    ensures o.cell in PlanCells(plan) && o in InCell(observations, o.cell)
  {
    InCellMembers(observations, o.cell, o);
    assert IsPlanned(plan, o);
  }

  /** The parity loop never decides: when the cells are clean, no candidate failed at all. */
  lemma ParityNeverDecides(plan: Plan, observations: seq<Observation>)
    requires WellRecorded(plan, observations) && CellsClean(plan, observations, PlanCells(plan))
    ensures PairsClean(observations, PlanCells(plan))
  {
    forall cell | cell in PlanCells(plan) ensures NoNewFailures(observations, cell.scenario, cell.condition) {
      var candidate := Cell(cell.scenario, cell.condition, Candidate);
      CountsMean(InCell(observations, candidate));
      forall o | o in InCell(observations, candidate) ensures o.success {
        InCellMembers(observations, candidate, o);
        ObservationIsInItsCell(plan, observations, o);
        assert Problems(plan, candidate, GroupFor(plan, observations, candidate)) == [];
      }
    }
  }

  /** The loops find no reason exactly when the gate's meaning holds. */
  lemma ReasonsMean(plan: Plan, smoke: bool, observations: seq<Observation>)
    requires Loads(plan) && WellRecorded(plan, observations)
    ensures !smoke && AllObserved(plan, observations) && CellsClean(plan, observations, PlanCells(plan))
            && PairsClean(observations, PlanCells(plan))
            <==> GatePasses(plan, smoke, observations)
  {
    if AllObserved(plan, observations) && CellsClean(plan, observations, PlanCells(plan)) {
      forall o | o in observations ensures o.teardown != Failed && (o.cell.implementation == Candidate ==> o.success) {
        ObservationIsInItsCell(plan, observations, o);
        CountsMean(InCell(observations, o.cell));
        assert Problems(plan, o.cell, GroupFor(plan, observations, o.cell)) == [];
      }
      forall cell | cell in PlanCells(plan) && cell.implementation == Candidate
        ensures CandidateMeetsTargets(observations, cell)
      {
        assert Problems(plan, cell, GroupFor(plan, observations, cell)) == [];
      }
    }
    if GatePasses(plan, smoke, observations) {
      forall cell | cell in PlanCells(plan)
        ensures Problems(plan, cell, GroupFor(plan, observations, cell)) == []
        ensures NoNewFailures(observations, cell.scenario, cell.condition)
      {
        forall c, o | o in InCell(observations, c)
          ensures o in observations && o.cell == c
        {
          InCellMembers(observations, c, o);
        }
        CleanCell(plan, observations, cell);
        CountsMean(InCell(observations, Cell(cell.scenario, cell.condition, Candidate)));
      }
    }
  }

  ghost function MissingIds(plan: Plan, observations: seq<Observation>): set<string> {
    (set e | e in plan.schedule :: e.sampleId) - (set o | o in observations :: o.sampleId)
  }

  lemma MissingMeans(plan: Plan, observations: seq<Observation>)
    ensures MissingIds(plan, observations) == {} <==> AllObserved(plan, observations)
  {
    var planned, observed := set e | e in plan.schedule :: e.sampleId, set o | o in observations :: o.sampleId;
    if MissingIds(plan, observations) == {} {
      forall e | e in plan.schedule ensures IsObserved(observations, e) {
        assert e.sampleId in planned && e.sampleId !in planned - observed;
        var o :| o in observations && o.sampleId == e.sampleId;
        var k :| 0 <= k < |observations| && observations[k] == o;
      }
    }
    if AllObserved(plan, observations) {
      forall id | id in planned ensures id in observed {
        var e :| e in plan.schedule && e.sampleId == id;
        assert IsObserved(observations, e);
        var k :| 0 <= k < |observations| && observations[k].sampleId == id;
        assert observations[k] in observations;
      }
    }
  }

  /** `acceptance_report` */
  method AcceptanceReport(plan: Plan, smoke: bool, observations: seq<Observation>, missing: set<string>)
    returns (reasons: seq<Reason>)
    requires Loads(plan) && WellRecorded(plan, observations) && missing == MissingIds(plan, observations)
    ensures reasons == [] <==> GatePasses(plan, smoke, observations)
  {
    reasons := if smoke then [SmokePlan] else [];
    var cells := CellReasons(plan, observations);
    var parity := ParityReasons(plan, observations);
    reasons := reasons + cells + parity + if missing != {} then [NoObservation(missing)] else [];
    MissingMeans(plan, observations);
    ReasonsMean(plan, smoke, observations);
  }

  /** The observation loop of `build_report`. */
  method CheckObservations(plan: Plan, observations: seq<Observation>) returns (ok: bool)
    requires Loads(plan)
    ensures ok <==> WellRecorded(plan, observations)
  {
    var actual: set<string> := {};
    var i := 0;
    while i < |observations|
      invariant 0 <= i <= |observations|
      invariant actual == set k | 0 <= k < i :: observations[k].sampleId
      invariant DistinctObservations(observations[..i])
      invariant forall k :: 0 <= k < i ==> IsPlanned(plan, observations[k])
    {
      var o := observations[i];
      var planned := exists k :: 0 <= k < |plan.schedule|
                                 && plan.schedule[k].sampleId == o.sampleId && plan.schedule[k].cell == o.cell;
      if !planned || o.sampleId in actual {
        assert o in observations;
        return false;
      }
      actual := actual + {o.sampleId};
      i := i + 1;
    }
    assert observations[..i] == observations;
    ok := true;
  }

  /** `build_report`: nothing when the observations do not fit the plan, else whether the gate passes. */
  method BuildReport(plan: Plan, smoke: bool, observations: seq<Observation>, allowIncomplete: bool)
    returns (pass: Option<bool>)
    requires Loads(plan)
    ensures pass.Some? <==> WellRecorded(plan, observations) && (allowIncomplete || AllObserved(plan, observations))
    ensures pass.Some? ==> (pass.value <==> GatePasses(plan, smoke, observations))
  {
    var ok := CheckObservations(plan, observations);
    if !ok {
      return None;
    }
    var missing := (set e | e in plan.schedule :: e.sampleId) - (set o | o in observations :: o.sampleId);
    MissingMeans(plan, observations);
    if missing != {} && !allowIncomplete {
      return None;
    }
    var reasons := AcceptanceReport(plan, smoke, observations, missing);
    pass := Some(reasons == []);
  }

  /** A passing gate: every candidate cell measured all its planned samples successfully, at least
      half of them within the p50 target and at least 95% within the p95 target. */
  lemma PassMeansMeasured(plan: Plan, smoke: bool, observations: seq<Observation>, cell: Cell)
    requires Loads(plan) && WellRecorded(plan, observations) && GatePasses(plan, smoke, observations)
    requires cell in PlanCells(plan) && cell.implementation == Candidate
    ensures var times := Times(InCell(observations, cell));
            && |times| == |InCell(observations, cell)| == plan.samples
            && 2 * Within(times, P50_TARGET_MS) >= plan.samples
            && 100 * Within(times, P95_TARGET_MS) >= 95 * plan.samples
  {
    var observed := InCell(observations, cell);
    LoadedCellCount(plan, cell);
    NothingMissingFillsCells(plan, observations, cell);
    forall o | o in observed ensures o.success { InCellMembers(observations, cell, o); }
    CountsMean(observed);
    assert CandidateMeetsTargets(observations, cell);
    MedianMeaning(Times(observed), P50_TARGET_MS);
    NearestRankMeaning(Times(observed), P95_TARGET_MS);
  }
}
