/** The block-randomised schedule of the boot benchmark (tools/vm-boot-benchmark.py) and the
    two independent checks it must pass: `load_plan` and the campaign driver's `planGroups`. */
module BenchmarkPlan {
  import opened Wrappers
  import opened SampleIds

  datatype Entry = Entry(sampleId: string, cell: Cell, ordinal: nat, group: string, concurrency: nat,
      participant: string)

  datatype Cell = Cell(scenario: string, condition: string, implementation: Implementation)

  datatype Plan = Plan(scenarios: seq<string>, conditions: seq<string>, samples: int, blockSize: int,
      schedule: seq<Entry>)

  /** What the operator asks for; scenarios and participants come from the run manifest. */
  datatype Request = Request(scenarios: seq<string>, participants: seq<string>,
                             conditions: seq<string>, samples: int, blockSize: int)

  datatype Pair = Pair(blockIndex: nat, scenario: string)

  datatype Block = Block(condition: string, pair: Pair, first: Implementation)

  datatype Spec = Spec(block: Block, implementation: Implementation, number: nat)

  const MAX_CONCURRENCY := 4

  ghost predicate Distinct<T(!new)>(s: seq<T>) { forall i, j :: 0 <= i < j < |s| ==> s[i] != s[j] }

  // ------------------------------------------------------------ the schedule

  /** What the run manifest guarantees before a plan is made. */
  ghost predicate ValidManifest(r: Request) {
    && |r.scenarios| == 3 && Distinct(r.scenarios) && (forall s :: s in r.scenarios ==> IsSafeId(s))
    && |r.participants| >= 4 && Distinct(r.participants) && (forall p :: p in r.participants ==> IsSafeId(p))
  }

  predicate ConditionFits(r: Request, name: string)
    requires r.blockSize >= 1
  {
    && IsCondition(name)
    && r.blockSize % Concurrency(name) == 0
    && (Concurrency(name) > 1 ==> r.blockSize == Concurrency(name))
    && |r.participants| >= Concurrency(name)
  }

  ghost predicate CanPlan(r: Request) {
    && r.samples >= 1 && r.blockSize >= 1 && r.samples % r.blockSize == 0
    && r.conditions != [] && forall name :: name in r.conditions ==> ConditionFits(r, name)
  }

  function PairsOf(blockIndex: nat, scenarios: seq<string>): seq<Pair> {
    seq(|scenarios|, i requires 0 <= i < |scenarios| => Pair(blockIndex, scenarios[i]))
  }

  /** Every block index with every scenario. */
  function AllPairs(blocks: nat, scenarios: seq<string>): seq<Pair> {
    if blocks == 0 then [] else AllPairs(blocks - 1, scenarios) + PairsOf(blocks - 1, scenarios)
  }

  function BlocksPer(r: Request): nat
    requires r.samples >= 1 && r.blockSize >= 1
  {
    r.samples / r.blockSize
  }

  /** What the random generator provides: one permutation of the pairs per condition. */
  ghost predicate AreShuffles(r: Request, shuffles: seq<seq<Pair>>) {
    && |shuffles| == |r.conditions|
    && (r.samples >= 1 && r.blockSize >= 1 ==>
          forall c :: 0 <= c < |shuffles| ==> multiset(shuffles[c]) == multiset(AllPairs(BlocksPer(r), r.scenarios)))
  }

  ghost function BlocksFor(condition: string, shuffle: seq<Pair>, first: nat -> Implementation): seq<Block> {
    seq(|shuffle|, k requires 0 <= k < |shuffle| => Block(condition, shuffle[k], first(k)))
  }

  /** The randomised block order of the first `n` conditions. */
  ghost function BlockOrder(conditions: seq<string>, shuffles: seq<seq<Pair>>, first: nat -> nat -> Implementation,
      n: nat): seq<Block>
    requires n <= |conditions| == |shuffles|
  {
    if n == 0 then []
    else BlockOrder(conditions, shuffles, first, n - 1) + BlocksFor(conditions[n - 1], shuffles[n - 1], first(n - 1))
  }

  /** Launch group `g`: the two implementations of each block in turn. */
  function SpecAt(blocks: seq<Block>, g: nat): Spec
    requires g < 2 * |blocks|
  {
    var block := blocks[g / 2];
    Spec(block, if g % 2 == 0 then block.first else Other(block.first), g + 1)
  }

  ghost function Specs(blocks: seq<Block>): seq<Spec> {
    seq(2 * |blocks|, g requires 0 <= g < 2 * |blocks| => SpecAt(blocks, g))
  }

  function CellOf(spec: Spec): Cell {
    Cell(spec.block.pair.scenario, spec.block.condition, spec.implementation)
  }

  function IdOf(spec: Spec): string { GroupId(spec.block.condition, spec.number) }

  function ParticipantFor(r: Request, condition: string, ordinal: nat, offset: nat): string
    requires |r.participants| >= 4 && ordinal >= 1
  {
    if Concurrency(condition) > 1 then r.participants[offset % Concurrency(condition)]
    else r.participants[(ordinal - 1) % |r.participants|]
  }

  function Ordinal(r: Request, p: Pair, offset: nat): nat
    requires r.blockSize >= 1
  {
    p.blockIndex * r.blockSize + offset + 1
  }

  function EntryOf(r: Request, spec: Spec, offset: nat): Entry
    requires |r.participants| >= 4 && r.blockSize >= 1
  {
    var condition := spec.block.condition;
    var ordinal := Ordinal(r, spec.block.pair, offset);
    Entry(SampleId(spec.block.pair.scenario, condition, spec.implementation, ordinal), CellOf(spec), ordinal,
          IdOf(spec), Concurrency(condition), ParticipantFor(r, condition, ordinal, offset))
  }

  ghost function Members(r: Request, spec: Spec): seq<Entry>
    requires |r.participants| >= 4 && r.blockSize >= 1
  {
    seq(r.blockSize, k requires 0 <= k < r.blockSize => EntryOf(r, spec, k))
  }

  ghost function Parts(r: Request, specs: seq<Spec>): seq<seq<Entry>>
    requires |r.participants| >= 4 && r.blockSize >= 1
  {
    seq(|specs|, g requires 0 <= g < |specs| => Members(r, specs[g]))
  }

  /** The first `n` launch groups, one after the other. */
  ghost function Flat(parts: seq<seq<Entry>>, n: nat): seq<Entry>
    requires n <= |parts|
  {
    if n == 0 then [] else Flat(parts, n - 1) + parts[n - 1]
  }

  ghost function Blocks(r: Request, shuffles: seq<seq<Pair>>, first: nat -> nat -> Implementation): seq<Block>
    requires |shuffles| == |r.conditions|
  {
    BlockOrder(r.conditions, shuffles, first, |r.conditions|)
  }

  ghost function Schedule(r: Request, blocks: seq<Block>): seq<Entry>
    requires |r.participants| >= 4 && r.blockSize >= 1
  {
    Flat(Parts(r, Specs(blocks)), 2 * |blocks|)
  }

  ghost function Planned(r: Request, shuffles: seq<seq<Pair>>, first: nat -> nat -> Implementation): Plan
    requires |r.participants| >= 4 && r.blockSize >= 1 && |shuffles| == |r.conditions|
  {
    Plan(r.scenarios, r.conditions, r.samples, r.blockSize, Schedule(r, Blocks(r, shuffles, first)))
  }

  method OrderBlocks(r: Request, shuffles: seq<seq<Pair>>,
      first: nat -> nat -> Implementation) returns (blocks: seq<Block>)
    requires |shuffles| == |r.conditions|
    ensures blocks == Blocks(r, shuffles, first)
  {
    blocks := [];
    var c := 0;
    while c < |r.conditions|
      invariant 0 <= c <= |r.conditions|
      invariant blocks == BlockOrder(r.conditions, shuffles, first, c)
    {
      var k := 0;
      ghost var before, added := blocks, BlocksFor(r.conditions[c], shuffles[c], first(c));
      while k < |shuffles[c]|
        invariant 0 <= k <= |shuffles[c]|
        invariant blocks == before + added[..k]
      {
        blocks := blocks + [Block(r.conditions[c], shuffles[c][k], first(c)(k))];
        assert added[..k + 1] == added[..k] + [added[k]];
        k := k + 1;
      }
      assert added[..k] == added;
      c := c + 1;
    }
  }

  method AppendGroup(r: Request, spec: Spec, schedule: seq<Entry>) returns (longer: seq<Entry>)
    requires |r.participants| >= 4 && r.blockSize >= 1
    ensures longer == schedule + Members(r, spec)
  {
    longer := schedule;
    var offset := 0;
    while offset < r.blockSize
      invariant 0 <= offset <= r.blockSize
      invariant longer == schedule + Members(r, spec)[..offset]
    {
      longer := longer + [EntryOf(r, spec, offset)];
      assert Members(r, spec)[..offset + 1] == Members(r, spec)[..offset] + [Members(r, spec)[offset]];
      offset := offset + 1;
    }
    assert Members(r, spec)[..offset] == Members(r, spec);
  }

  lemma BlockParts(r: Request, blocks: seq<Block>, i: nat)
    requires |r.participants| >= 4 && r.blockSize >= 1 && i < |blocks|
    ensures Parts(r, Specs(blocks))[2 * i] == Members(r, Spec(blocks[i], blocks[i].first, 2 * i + 1))
    ensures Parts(r, Specs(blocks))[2 * i + 1] == Members(r, Spec(blocks[i], Other(blocks[i].first), 2 * i + 2))
  {
    assert Specs(blocks)[2 * i] == Spec(blocks[i], blocks[i].first, 2 * i + 1);
    assert Specs(blocks)[2 * i + 1] == Spec(blocks[i], Other(blocks[i].first), 2 * i + 2);
  }

  lemma FlatTwoMore(parts: seq<seq<Entry>>, n: nat)
    requires n + 2 <= |parts|
    ensures Flat(parts, n + 2) == Flat(parts, n) + parts[n] + parts[n + 1]
  {
  }

  method BuildSchedule(r: Request, blocks: seq<Block>) returns (schedule: seq<Entry>)
    requires |r.participants| >= 4 && r.blockSize >= 1
    ensures schedule == Schedule(r, blocks)
  {
    schedule := [];
    ghost var parts := Parts(r, Specs(blocks));
    var nextGroup, i := 1, 0;
    while i < |blocks|
      invariant 0 <= i <= |blocks| && nextGroup == 2 * i + 1
      invariant schedule == Flat(parts, 2 * i)
    {
      var block := blocks[i];
      BlockParts(r, blocks, i);
      FlatTwoMore(parts, 2 * i);
      schedule := AppendGroup(r, Spec(block, block.first, nextGroup), schedule);
      schedule := AppendGroup(r, Spec(block, Other(block.first), nextGroup + 1), schedule);
      nextGroup := nextGroup + 2;
      i := i + 1;
    }
  }

  /** The schedule part of `create_plan`. */
  method CreatePlan(r: Request, shuffles: seq<seq<Pair>>, first: nat -> nat -> Implementation)
    returns (plan: Option<Plan>)
    requires ValidManifest(r) && AreShuffles(r, shuffles)
    ensures plan.Some? <==> CanPlan(r)
    ensures plan.Some? ==> plan.value == Planned(r, shuffles, first)
  {
    if r.samples < 1 || r.blockSize < 1 || r.samples % r.blockSize != 0 || r.conditions == [] {
      return None;
    }
    if !(forall name :: name in r.conditions ==> ConditionFits(r, name)) {
      return None;
    }
    var blocks := OrderBlocks(r, shuffles, first);
    var schedule := BuildSchedule(r, blocks);
    plan := Some(Plan(r.scenarios, r.conditions, r.samples, r.blockSize, schedule));
  }

  // ------------------------------------------------------------ the two checks

  function GroupOf(schedule: seq<Entry>, group: string): seq<Entry> {
    if schedule == [] then []
    else
      var last := schedule[|schedule| - 1];
      var rest := GroupOf(schedule[..|schedule| - 1], group);
      if last.group == group then rest + [last] else rest
  }

  function CellCount(schedule: seq<Entry>, cell: Cell): nat {
    if schedule == [] then 0
    else CellCount(schedule[..|schedule| - 1], cell) + (if schedule[|schedule| - 1].cell == cell then 1 else 0)
  }

  ghost predicate DistinctIds(schedule: seq<Entry>) {
    forall i, j :: 0 <= i < j < |schedule| ==> schedule[i].sampleId != schedule[j].sampleId
  }

  predicate EntryLoads(plan: Plan, e: Entry) {
    IsSafeId(e.sampleId) && IsCondition(e.cell.condition) && e.cell.scenario in plan.scenarios &&
        IsSafeId(e.participant)
  }

  function Participants(entries: seq<Entry>): set<string> { set e | e in entries :: e.participant }

  predicate GroupLoads(plan: Plan, group: string, entries: seq<Entry>)
    requires entries != []
  {
    && IsSafeId(group)
    && (forall e :: e in entries ==> e.cell.condition == entries[0].cell.condition)
    && |entries| == plan.blockSize
    && (Concurrency(entries[0].cell.condition) > 1 ==>
          |Participants(entries)| == Concurrency(entries[0].cell.condition))
  }

  ghost predicate CellsLoad(plan: Plan) {
    forall cell :: CellCount(plan.schedule, cell) ==
                     if cell.scenario in plan.scenarios && cell.condition in plan.conditions then plan.samples else 0
  }

  ghost predicate GroupsLoad(plan: Plan) {
    forall group :: GroupOf(plan.schedule, group) != [] ==> GroupLoads(plan, group, GroupOf(plan.schedule, group))
  }

  /** The structural checks of `load_plan`. */
  ghost predicate Loads(plan: Plan) {
    && plan.conditions != [] && (forall name :: name in plan.conditions ==> IsCondition(name))
    && plan.scenarios != [] && Distinct(plan.scenarios) && (forall s :: s in plan.scenarios ==> IsSafeId(s))
    && plan.schedule != [] && plan.samples >= 1 && plan.blockSize >= 1
    && DistinctIds(plan.schedule)
    && (forall e :: e in plan.schedule ==> EntryLoads(plan, e))
    && CellsLoad(plan)
    && GroupsLoad(plan)
  }

  /** Within one launch group the driver wants one condition and no participant twice. */
  ghost predicate GroupRuns(entries: seq<Entry>) {
    forall i, j :: 0 <= i < j < |entries| ==>
      && entries[i].cell.condition == entries[j].cell.condition
      && entries[i].concurrency == entries[j].concurrency
      && entries[i].participant != entries[j].participant
  }

  ghost predicate AllGroupsRun(schedule: seq<Entry>) {
    forall group :: GroupRuns(GroupOf(schedule, group))
  }

  predicate IsDriverId(s: string) {
    && 0 < |s| <= 128 && IsAlphanumeric(s[0])
    && forall i :: 0 <= i < |s| ==> IsIdChar(s[i]) || s[i] == '@' || s[i] == '/'
  }

  predicate EntryRuns(plan: Plan, e: Entry) {
    IsDriverId(e.group) && 1 <= e.concurrency <= MAX_CONCURRENCY && e.cell.condition in plan.conditions
  }

  /** The driver's `planGroups`. */
  ghost predicate Runs(plan: Plan) {
    && plan.schedule != [] && plan.conditions != []
    && (forall e :: e in plan.schedule ==> EntryRuns(plan, e))
    && AllGroupsRun(plan.schedule)
  }

  lemma {:induction false} GroupOfConcat(a: seq<Entry>, b: seq<Entry>, group: string)
    ensures GroupOf(a + b, group) == GroupOf(a, group) + GroupOf(b, group)
    decreases |b|
  {
    if b == [] {
      assert a + b == a;
    } else {
      var n := |b| - 1;
      GroupOfConcat(a, b[..n], group);
      assert (a + b)[..|a + b| - 1] == a + b[..n];
    }
  }

  lemma {:induction false} GroupOfMembers(s: seq<Entry>, group: string, e: Entry)
    ensures e in GroupOf(s, group) <==> e in s && e.group == group
    decreases |s|
  {
    if s != [] {
      var n := |s| - 1;
      GroupOfMembers(s[..n], group, e);
      assert s == s[..n] + [s[n]];
    }
  }

  lemma GroupOfNext(s: seq<Entry>, i: nat, group: string)
    requires i < |s|
    ensures GroupOf(s[..i + 1], group) == GroupOf(s[..i], group) + (if s[i].group == group then [s[i]] else [])
  {
    assert s[..i + 1][..i] == s[..i];
  }

  /** The groups of a prefix are prefixes of the groups. */
  lemma GroupOfPrefix(s: seq<Entry>, i: nat, group: string)
    requires i <= |s|
    ensures GroupOf(s[..i], group) <= GroupOf(s, group)
  {
    GroupOfConcat(s[..i], s[i..], group);
    assert s[..i] + s[i..] == s;
  }

  function Collected(groups: map<string, seq<Entry>>, group: string): seq<Entry> {
    if group in groups then groups[group] else []
  }

  ghost predicate Grouped(groups: map<string, seq<Entry>>, s: seq<Entry>) {
    && (forall group :: Collected(groups, group) == GroupOf(s, group))
    && forall group :: group in groups ==> groups[group] != []
  }

  lemma GroupedNext(groups: map<string, seq<Entry>>, s: seq<Entry>, i: nat)
    requires i < |s| && Grouped(groups, s[..i])
    ensures Grouped(groups[s[i].group := Collected(groups, s[i].group) + [s[i]]], s[..i + 1])
  {
    var e := s[i];
    var longer := groups[e.group := Collected(groups, e.group) + [e]];
    forall group ensures Collected(longer, group) == GroupOf(s[..i + 1], group) {
      GroupOfNext(s, i, group);
      assert Collected(groups, group) == GroupOf(s[..i], group);
    }
  }

  method CollectGroups(schedule: seq<Entry>) returns (groups: map<string, seq<Entry>>)
    ensures Grouped(groups, schedule)
  {
    groups := map[];
    var i := 0;
    while i < |schedule|
      invariant 0 <= i <= |schedule|
      invariant Grouped(groups, schedule[..i])
    {
      var e := schedule[i];
      GroupedNext(groups, schedule, i);
      groups := groups[e.group := Collected(groups, e.group) + [e]];
      i := i + 1;
    }
    assert schedule[..i] == schedule;
  }

  ghost predicate Counted(counts: map<Cell, nat>, s: seq<Entry>) {
    forall cell :: (cell in counts <==> CellCount(s, cell) > 0) &&
        (cell in counts ==> counts[cell] == CellCount(s, cell))
  }

  method CountCells(schedule: seq<Entry>) returns (counts: map<Cell, nat>)
    ensures Counted(counts, schedule)
  {
    counts := map[];
    var i := 0;
    while i < |schedule|
      invariant 0 <= i <= |schedule|
      invariant Counted(counts, schedule[..i])
    {
      var cell := schedule[i].cell;
      assert schedule[..i + 1][..i] == schedule[..i];
      counts := counts[cell := (if cell in counts then counts[cell] else 0) + 1];
      i := i + 1;
    }
    assert schedule[..i] == schedule;
  }

  method CheckEntries(plan: Plan) returns (ok: bool)
    ensures ok <==> DistinctIds(plan.schedule) && forall e :: e in plan.schedule ==> EntryLoads(plan, e)
  {
    var seen: set<string> := {};
    var i := 0;
    while i < |plan.schedule|
      invariant 0 <= i <= |plan.schedule|
      invariant seen == set k | 0 <= k < i :: plan.schedule[k].sampleId
      invariant DistinctIds(plan.schedule[..i]) && forall k :: 0 <= k < i ==> EntryLoads(plan, plan.schedule[k])
    {
      var e := plan.schedule[i];
      if e.sampleId in seen || !EntryLoads(plan, e) {
        assert e in plan.schedule;
        return false;
      }
      seen := seen + {e.sampleId};
      i := i + 1;
    }
    assert plan.schedule[..i] == plan.schedule;
    ok := true;
  }

  method CheckCells(plan: Plan) returns (ok: bool)
    requires plan.samples >= 1
    ensures ok <==> CellsLoad(plan)
  {
    var counts := CountCells(plan.schedule);
    var expected := set s, c, i | s in plan.scenarios && c in plan.conditions &&
        i in {Baseline, Candidate} :: Cell(s, c, i);
    forall cell: Cell
      ensures cell in expected <==> cell.scenario in plan.scenarios && cell.condition in plan.conditions
    {
      var i := cell.implementation;
      assert i == Baseline || i == Candidate;
      assert cell == Cell(cell.scenario, cell.condition, i);
    }
    ok := counts.Keys == expected && forall cell :: cell in counts ==> counts[cell] == plan.samples;
    CellCheckIsExact(plan, counts, expected);
  }

  lemma CellCheckIsExact(plan: Plan, counts: map<Cell, nat>, expected: set<Cell>)
    requires plan.samples >= 1 && Counted(counts, plan.schedule)
    requires forall cell: Cell :: cell in expected <==>
        cell.scenario in plan.scenarios && cell.condition in plan.conditions
    ensures CellsLoad(plan) <==>
        counts.Keys == expected && forall cell :: cell in counts ==> counts[cell] == plan.samples
  {
    if CellsLoad(plan) {
      forall cell ensures cell in counts <==> cell in expected {
        assert CellCount(plan.schedule, cell) > 0 <==> cell in expected;
      }
    }
    if counts.Keys == expected && forall cell :: cell in counts ==> counts[cell] == plan.samples {
      forall cell ensures CellCount(plan.schedule, cell) == if cell in expected then plan.samples else 0 {
        assert cell in counts <==> cell in expected;
      }
    }
  }

  /** The structural checks of `load_plan`. */
  method LoadPlan(plan: Plan) returns (ok: bool)
    ensures ok <==> Loads(plan)
  {
    if plan.conditions == [] || plan.scenarios == [] || plan.schedule == [] || plan.samples < 1 || plan.blockSize < 1 {
      return false;
    }
    if !(forall name :: name in plan.conditions ==> IsCondition(name))
       || !(forall s :: s in plan.scenarios ==> IsSafeId(s))
       || !(forall i, j :: 0 <= i < j < |plan.scenarios| ==> plan.scenarios[i] != plan.scenarios[j]) {
      return false;
    }
    var entries := CheckEntries(plan);
    if !entries {
      return false;
    }
    var cells := CheckCells(plan);
    if !cells {
      return false;
    }
    var groups := CollectGroups(plan.schedule);
    ok := forall group :: group in groups ==> GroupLoads(plan, group, groups[group]);
    assert ok <==> GroupsLoad(plan) by {
      assert forall group :: group in groups ==> groups[group] == GroupOf(plan.schedule, group);
    }
  }

  /** The driver's `planGroups`: the groups, or nothing when a check fails. */
  method PlanGroups(plan: Plan) returns (groups: Option<map<string, seq<Entry>>>)
    ensures groups.Some? <==> Runs(plan)
    ensures groups.Some? ==> Grouped(groups.value, plan.schedule)
  {
    if plan.schedule == [] || plan.conditions == [] {
      return None;
    }
    var built: map<string, seq<Entry>> := map[];
    var i := 0;
    while i < |plan.schedule|
      invariant 0 <= i <= |plan.schedule|
      invariant Grouped(built, plan.schedule[..i])
      invariant forall k :: 0 <= k < i ==> EntryRuns(plan, plan.schedule[k])
      invariant AllGroupsRun(plan.schedule[..i])
    {
      var e := plan.schedule[i];
      if !EntryRuns(plan, e) {
        assert e in plan.schedule;
        return None;
      }
      var group := Collected(built, e.group);
      assert group == GroupOf(plan.schedule[..i], e.group);
      var fits := JoinsGroup(group, e);
      RunsNext(plan.schedule, i);
      if !fits {
        return None;
      }
      GroupedNext(built, plan.schedule, i);
      built := built[e.group := group + [e]];
      i := i + 1;
    }
    assert plan.schedule[..i] == plan.schedule;
    groups := Some(built);
  }

  /** The group checks for one more sample: same condition and concurrency as the group, and a
      participant it does not have yet. */
  method JoinsGroup(group: seq<Entry>, e: Entry) returns (fits: bool)
    requires GroupRuns(group)
    ensures fits <==> GroupRuns(group + [e])
  {
    var longer := group + [e];
    if group != [] && (group[0].cell.condition != e.cell.condition || group[0].concurrency != e.concurrency) {
      assert longer[0] == group[0] && longer[|group|] == e;
      return false;
    }
    fits := !exists k :: 0 <= k < |group| && group[k].participant == e.participant;
    if !fits {
      var k :| 0 <= k < |group| && group[k].participant == e.participant;
      assert longer[k] == group[k] && longer[|group|] == e;
    }
  }

  /** A sample that does not fit its group settles the whole schedule. */
  lemma RunsNext(s: seq<Entry>, i: nat)
    requires i < |s| && AllGroupsRun(s[..i])
    ensures GroupRuns(GroupOf(s[..i], s[i].group) + [s[i]]) ==> AllGroupsRun(s[..i + 1])
    ensures !GroupRuns(GroupOf(s[..i], s[i].group) + [s[i]]) ==> !AllGroupsRun(s)
  {
    var joined := GroupOf(s[..i], s[i].group) + [s[i]];
    GroupOfNext(s, i, s[i].group);
    if GroupRuns(joined) {
      var longer := s[..i + 1];
      forall group ensures GroupRuns(GroupOf(longer, group)) {
        GroupOfNext(s, i, group);
        assert GroupRuns(GroupOf(s[..i], group));
      }
    } else {
      GroupOfPrefix(s, i + 1, s[i].group);
      PrefixRuns(joined, GroupOf(s, s[i].group));
    }
  }

  lemma PrefixRuns(a: seq<Entry>, b: seq<Entry>)
    requires a <= b && !GroupRuns(a)
    ensures !GroupRuns(b)
  {
    var i, j :| 0 <= i < j < |a| && !(a[i].cell.condition == a[j].cell.condition
                                      && a[i].concurrency == a[j].concurrency && a[i].participant != a[j].participant);
    assert b[i] == a[i] && b[j] == a[j];
  }
}
