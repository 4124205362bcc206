/** For every shuffle and every choice of first implementation: exactly when a created plan passes
    `load_plan`, and exactly when the campaign driver accepts it. */
module PlanAcceptance {
  import opened SampleIds
  import opened BenchmarkPlan
  import opened PlanCounts
  import opened PlanProofs

  // ------------------------------------------------------------ one launch group

  lemma ConsecutiveDiffer(b: nat, i: nat, j: nat, p: nat)
    requires i < j < i + p
    ensures (b + i) % p != (b + j) % p
  {
    var q, s := (b + i) / p, (b + j) / p;
    assert b + i == q * p + (b + i) % p && b + j == s * p + (b + j) % p;
    if s > q { ProductGrows(q, s, p); }
    if s < q { ProductGrows(s, q, p); }
  }

  lemma OnePeriodOn(b: nat, p: nat)
    requires p > 0
    ensures (b + p) % p == b % p
  {
    var q := b / p;
    assert b + p == (q + 1) * p + b % p;
    SameRemainder(b + p, q + 1, b % p, p);
  }

  lemma SameRemainder(n: nat, q: nat, m: nat, p: nat)
    requires m < p && n == q * p + m
    ensures n % p == m
  {
    assert n == (n / p) * p + n % p;
    SameOrdinalSameBlock(q, m, n / p, n % p, p);
  }

  lemma NearbyOrdinalsDiffer(r: Request, condition: string, m: nat, n: nat, i: nat, j: nat)
    requires |r.participants| >= 4 && Distinct(r.participants) && 1 <= m < n < m + |r.participants|
    requires Concurrency(condition) == 1
    ensures ParticipantFor(r, condition, m, i) != ParticipantFor(r, condition, n, j)
  {
    ConsecutiveDiffer(m - 1, 0, n - m, |r.participants|);
  }

  lemma SerialParticipantsDiffer(r: Request, spec: Spec, i: nat, j: nat)
    requires |r.participants| >= 4 && Distinct(r.participants) && i < j < r.blockSize <= |r.participants|
    requires Concurrency(spec.block.condition) == 1
    ensures EntryOf(r, spec, i).participant != EntryOf(r, spec, j).participant
  {
    var pair := spec.block.pair;
    NearbyOrdinalsDiffer(r, spec.block.condition, Ordinal(r, pair, i), Ordinal(r, pair, j), i, j);
  }

  lemma DistantOrdinalsRepeat(r: Request, condition: string, m: nat, i: nat, j: nat)
    requires |r.participants| >= 4 && 1 <= m && Concurrency(condition) == 1
    ensures ParticipantFor(r, condition, m, i) == ParticipantFor(r, condition, m + |r.participants|, j)
  {
    OnePeriodOn(m - 1, |r.participants|);
    assert m + |r.participants| - 1 == m - 1 + |r.participants|;
  }

  lemma SerialParticipantsWrap(r: Request, spec: Spec)
    requires 4 <= |r.participants| < r.blockSize && Concurrency(spec.block.condition) == 1
    ensures EntryOf(r, spec, 0).participant == EntryOf(r, spec, |r.participants|).participant
  {
    var p := |r.participants|;
    DistantOrdinalsRepeat(r, spec.block.condition, Ordinal(r, spec.block.pair, 0), 0, p);
    assert Ordinal(r, spec.block.pair, p) == Ordinal(r, spec.block.pair, 0) + p;
  }

  /** A serial group walks through the participants, so it repeats one exactly when it is longer
      than the participant list; a concurrent group never does. */
  lemma GroupRunsIffParticipantsSuffice(r: Request, spec: Spec)
    requires |r.participants| >= 4 && Distinct(r.participants) && r.blockSize >= 1 &&
        ConditionFits(r, spec.block.condition)
    ensures GroupRuns(Members(r, spec)) <==> Concurrency(spec.block.condition) > 1 || r.blockSize <= |r.participants|
  {
    var members := Members(r, spec);
    if Concurrency(spec.block.condition) > 1 {
      forall i: nat, j: nat | i < j < |members| ensures members[i].participant != members[j].participant {
        assert members[i] == EntryOf(r, spec, i) && members[j] == EntryOf(r, spec, j);
      }
    } else if r.blockSize <= |r.participants| {
      forall i: nat, j: nat | i < j < |members| ensures members[i].participant != members[j].participant {
        SerialParticipantsDiffer(r, spec, i, j);
      }
    } else {
      SerialParticipantsWrap(r, spec);
      assert members[0].participant == members[|r.participants|].participant;
    }
  }

  lemma {:induction false} DistinctParticipants(entries: seq<Entry>)
    requires forall i, j :: 0 <= i < j < |entries| ==> entries[i].participant != entries[j].participant
    ensures |Participants(entries)| == |entries|
    decreases |entries|
  {
    if entries != [] {
      var n := |entries| - 1;
      DistinctParticipants(entries[..n]);
      assert entries == entries[..n] + [entries[n]];
      assert Participants(entries) == Participants(entries[..n]) + {entries[n].participant};
      assert entries[n].participant !in Participants(entries[..n]);
    }
  }

  lemma GroupLoadsIffIdSafe(r: Request, plan: Plan, spec: Spec)
    requires |r.participants| >= 4 && Distinct(r.participants) && r.blockSize >= 1 &&
        ConditionFits(r, spec.block.condition)
    requires plan.blockSize == r.blockSize
    ensures GroupLoads(plan, IdOf(spec), Members(r, spec)) <==> IsSafeId(IdOf(spec))
  {
    var members := Members(r, spec);
    assert members[0].cell.condition == spec.block.condition;
    if Concurrency(spec.block.condition) > 1 {
      GroupRunsIffParticipantsSuffice(r, spec);
      DistinctParticipants(members);
    }
  }

  ghost function GroupIds(specs: seq<Spec>): seq<string> {
    seq(|specs|, g requires 0 <= g < |specs| => IdOf(specs[g]))
  }

  lemma PlannedAreLabelled(r: Request, blocks: seq<Block>)
    requires |r.participants| >= 4 && r.blockSize >= 1
    ensures Labelled(Parts(r, Specs(blocks)), GroupIds(Specs(blocks)))
  {
    var specs := Specs(blocks);
    var parts, ids := Parts(r, specs), GroupIds(specs);
    forall g, h | 0 <= g < h < |ids| ensures ids[g] != ids[h] {
      if ids[g] == ids[h] {
        GroupIdsAreInjective(specs[g].block.condition, specs[g].number, specs[h].block.condition, specs[h].number);
      }
    }
    forall g | 0 <= g < |parts| ensures AllIn(parts[g], ids[g]) {
      assert forall e :: e in Members(r, specs[g]) ==> e.group == IdOf(specs[g]);
    }
  }

  // -------------------------------------------------------- what is scheduled

  ghost predicate BlockOf(r: Request, b: Block)
    requires r.samples >= 1 && r.blockSize >= 1
  {
    b.condition in r.conditions && b.pair.scenario in r.scenarios && b.pair.blockIndex < BlocksPer(r)
  }

  lemma ShuffledPairs(r: Request, shuffle: seq<Pair>, p: Pair)
    requires r.samples >= 1 && r.blockSize >= 1 && multiset(shuffle) == multiset(AllPairs(BlocksPer(r), r.scenarios))
    ensures p in shuffle <==> p.scenario in r.scenarios && p.blockIndex < BlocksPer(r)
  {
    AllPairsMembers(BlocksPer(r), r.scenarios, p);
    assert p in shuffle <==> p in multiset(shuffle);
    assert p in AllPairs(BlocksPer(r), r.scenarios) <==> p in multiset(AllPairs(BlocksPer(r), r.scenarios));
  }

  lemma {:induction false} BlocksComeFromRequest(r: Request, shuffles: seq<seq<Pair>>,
      first: nat -> nat -> Implementation,
                                                 n: nat, b: Block)
    requires r.samples >= 1 && r.blockSize >= 1 && AreShuffles(r, shuffles) && n <= |r.conditions|
    requires b in BlockOrder(r.conditions, shuffles, first, n)
    ensures BlockOf(r, b)
    decreases n
  {
    if b in BlockOrder(r.conditions, shuffles, first, n - 1) {
      BlocksComeFromRequest(r, shuffles, first, n - 1, b);
    } else {
      var last := BlocksFor(r.conditions[n - 1], shuffles[n - 1], first(n - 1));
      var k :| 0 <= k < |last| && last[k] == b;
      ShuffledPairs(r, shuffles[n - 1], shuffles[n - 1][k]);
    }
  }

  lemma {:induction false} RequestIsOrdered(r: Request, shuffles: seq<seq<Pair>>, first: nat -> nat -> Implementation,
                                            n: nat, c: nat, k: nat)
    requires |shuffles| == |r.conditions| && c < n <= |r.conditions| && k < |shuffles[c]|
    ensures Block(r.conditions[c], shuffles[c][k], first(c)(k)) in BlockOrder(r.conditions, shuffles, first, n)
    decreases n
  {
    if c < n - 1 {
      RequestIsOrdered(r, shuffles, first, n - 1, c, k);
    } else {
      var last := BlocksFor(r.conditions[c], shuffles[c], first(c));
      assert last[k] in last;
    }
  }

  lemma RequestedBlock(r: Request, shuffles: seq<seq<Pair>>, first: nat -> nat -> Implementation, c: nat, p: Pair)
    returns (b: nat)
    requires r.samples >= 1 && r.blockSize >= 1 && AreShuffles(r, shuffles) && c < |r.conditions|
    requires p.scenario in r.scenarios && p.blockIndex < BlocksPer(r)
    ensures b < |Blocks(r, shuffles, first)|
    ensures Blocks(r, shuffles, first)[b].condition == r.conditions[c] && Blocks(r, shuffles, first)[b].pair == p
  {
    ShuffledPairs(r, shuffles[c], p);
    var k :| 0 <= k < |shuffles[c]| && shuffles[c][k] == p;
    RequestIsOrdered(r, shuffles, first, |r.conditions|, c, k);
    var blocks := Blocks(r, shuffles, first);
    b :| b < |blocks| && blocks[b] == Block(r.conditions[c], p, first(c)(k));
  }

  lemma BlockSampleIsPlanned(r: Request, blocks: seq<Block>, b: nat, i: Implementation, offset: nat) returns (e: Entry)
    requires |r.participants| >= 4 && r.blockSize >= 1 && b < |blocks| && offset < r.blockSize
    ensures e in Schedule(r, blocks)
    ensures e.sampleId == SampleId(blocks[b].pair.scenario, blocks[b].condition, i, Ordinal(r, blocks[b].pair, offset))
    ensures e.cell == Cell(blocks[b].pair.scenario, blocks[b].condition, i)
    ensures exists number :: e in Members(r, Spec(blocks[b], i, number))
                             && e.group == GroupId(blocks[b].condition, number)
                             && GroupOf(Schedule(r, blocks), e.group) == Members(r, Spec(blocks[b], i, number))
  {
    var specs := Specs(blocks);
    var parts: seq<seq<Entry>> := Parts(r, specs);
    var g := if i == blocks[b].first then 2 * b else 2 * b + 1;
    BlockParts(r, blocks, b);
    assert parts[g] == Members(r, Spec(blocks[b], i, g + 1));
    e := PartEntry(r, Spec(blocks[b], i, g + 1), offset);
    EntryIsScheduled(parts, 2 * |blocks|, g, offset);
    PlannedAreLabelled(r, blocks);
    assert GroupIds(specs)[g] == GroupId(blocks[b].condition, g + 1);
    GroupIsOnePart(parts, GroupIds(specs), 2 * |blocks|, g);
  }

  lemma PartEntry(r: Request, spec: Spec, offset: nat) returns (e: Entry)
    requires |r.participants| >= 4 && r.blockSize >= 1 && offset < r.blockSize
    ensures e == Members(r, spec)[offset] && e in Members(r, spec) && e.group == IdOf(spec) && e.cell == CellOf(spec)
    ensures e.sampleId == SampleId(spec.block.pair.scenario, spec.block.condition, spec.implementation,
                                   Ordinal(r, spec.block.pair, offset))
  {
    e := Members(r, spec)[offset];
  }

  // ----------------------------------------------------------------- ID lengths

  lemma {:induction false} DigitsGrow(m: nat, n: nat)
    requires m <= n
    ensures |Digits(m)| <= |Digits(n)|
  {
    if m >= 10 { DigitsGrow(m / 10, n / 10); }
  }

  /** The longest sample ID of each cell fits in 128 characters. */
  ghost predicate IdsFit(r: Request)
    requires r.samples >= 0
  {
    forall s, c :: s in r.scenarios && c in r.conditions ==> |SampleId(s, c, Candidate, r.samples)| <= 128
  }

  lemma SampleIdLength(s: string, c: string, i: Implementation, n: nat)
    ensures |SampleId(s, c, i, n)| == |s| + |c| + 6 + |ImplementationName(i)| + |Padded(n, 3)|
  {
  }

  lemma PaddedLength(n: nat, width: nat)
    ensures |Padded(n, width)| == if |Digits(n)| >= width then |Digits(n)| else width
  {
    if |Digits(n)| < width { ZerosLength(width - |Digits(n)|); }
  }

  lemma {:induction false} ZerosLength(n: nat)
    ensures |Zeros(n)| == n
  {
    if n > 0 { ZerosLength(n - 1); }
  }

  lemma EveryIdIsShorter(s: string, c: string, i: Implementation, m: nat, n: nat)
    requires m <= n
    ensures |SampleId(s, c, i, m)| <= |SampleId(s, c, Candidate, n)|
  {
    SampleIdLength(s, c, i, m);
    SampleIdLength(s, c, Candidate, n);
    DigitsGrow(m, n);
    PaddedLength(m, 3);
    PaddedLength(n, 3);
  }

  /** Launch group numbers are not long enough to matter: where the sample IDs of a condition fit,
      its group IDs fit. */
  lemma GroupIdsFit(s: string, c: string, samples: nat, number: nat)
    requires s != "" && samples >= 1 && number <= 100 * samples && |SampleId(s, c, Candidate, samples)| <= 128
    ensures |GroupId(c, number)| <= 128
  {
    SampleIdLength(s, c, Candidate, samples);
    PaddedLength(samples, 3);
    PaddedLength(number, 4);
    DigitsGrow(number, 100 * samples);
    assert 100 * samples / 10 == 10 * samples && 10 * samples / 10 == samples;
    assert |Digits(100 * samples)| == |Digits(10 * samples)| + 1 == |Digits(samples)| + 2;
  }

  // ------------------------------------------------------- the number of groups

  lemma {:induction false} AllPairsLength(n: nat, scenarios: seq<string>)
    requires |scenarios| == 3
    ensures |AllPairs(n, scenarios)| == 3 * n
  {
    if n > 0 { AllPairsLength(n - 1, scenarios); }
  }

  lemma ShuffleLength(r: Request, shuffle: seq<Pair>)
    requires |r.scenarios| == 3 && r.samples >= 1 && r.blockSize >= 1
    requires multiset(shuffle) == multiset(AllPairs(BlocksPer(r), r.scenarios))
    ensures |shuffle| == 3 * BlocksPer(r)
  {
    AllPairsLength(BlocksPer(r), r.scenarios);
    assert |shuffle| == |multiset(shuffle)| == |multiset(AllPairs(BlocksPer(r), r.scenarios))|;
  }

  lemma {:induction false} OrderLength(conditions: seq<string>, shuffles: seq<seq<Pair>>,
      first: nat -> nat -> Implementation,
                                       n: nat, each: nat)
    requires n <= |conditions| == |shuffles| <= 4 && forall c :: 0 <= c < |shuffles| ==> |shuffles[c]| == each
    ensures |BlockOrder(conditions, shuffles, first, n)| <= 4 * each
    ensures n <= 3 ==> |BlockOrder(conditions, shuffles, first, n)| <= 3 * each
    ensures n <= 2 ==> |BlockOrder(conditions, shuffles, first, n)| <= 2 * each
    ensures n <= 1 ==> |BlockOrder(conditions, shuffles, first, n)| <= each
    ensures n == 0 ==> |BlockOrder(conditions, shuffles, first, n)| == 0
  {
    if n > 0 { OrderLength(conditions, shuffles, first, n - 1, each); }
  }

  lemma OneOfFiveRepeats(a: string, b: string, c: string, d: string, e: string)
    requires IsCondition(a) && IsCondition(b) && IsCondition(c) && IsCondition(d) && IsCondition(e)
    ensures a == b || a == c || a == d || a == e || b == c || b == d || b == e || c == d || c == e || d == e
  {
  }

  /** At most four conditions can be listed without repetition. */
  lemma FewConditions(s: seq<string>)
    requires Distinct(s) && forall name :: name in s ==> IsCondition(name)
    ensures |s| <= 4
  {
    if |s| > 4 { OneOfFiveRepeats(s[0], s[1], s[2], s[3], s[4]); }
  }

  lemma FewerBlocksThanSamples(samples: nat, size: nat)
    requires size >= 1
    ensures samples / size <= samples
  {
  }

  lemma FewGroups(r: Request, shuffles: seq<seq<Pair>>, first: nat -> nat -> Implementation)
    requires ValidManifest(r) && CanPlan(r) && AreShuffles(r, shuffles) && Distinct(r.conditions)
    ensures 2 * |Blocks(r, shuffles, first)| <= 24 * r.samples
  {
    FewConditions(r.conditions);
    forall c | 0 <= c < |shuffles| ensures |shuffles[c]| == 3 * BlocksPer(r) { ShuffleLength(r, shuffles[c]); }
    OrderLength(r.conditions, shuffles, first, |r.conditions|, 3 * BlocksPer(r));
    FewerBlocksThanSamples(r.samples, r.blockSize);
  }

  // ------------------------------------------------------------- the two verdicts

  lemma OrdinalsAreBounded(r: Request, p: Pair, offset: nat)
    requires CanPlan(r) && p.blockIndex < BlocksPer(r) && offset < r.blockSize
    ensures Ordinal(r, p, offset) <= r.samples
  {
    ProductGrows(p.blockIndex, BlocksPer(r), r.blockSize);
    assert BlocksPer(r) * r.blockSize == r.samples;
  }

  lemma LastOrdinal(r: Request, p: Pair)
    requires CanPlan(r) && p.blockIndex == BlocksPer(r) - 1
    ensures Ordinal(r, p, r.blockSize - 1) == r.samples
  {
    assert (BlocksPer(r) - 1) * r.blockSize + r.blockSize == BlocksPer(r) * r.blockSize == r.samples;
  }

  lemma PlannedEntryLoads(r: Request, plan: Plan, spec: Spec, offset: nat)
    requires ValidManifest(r) && CanPlan(r) && IdsFit(r) && BlockOf(r, spec.block) && offset < r.blockSize
    requires plan.scenarios == r.scenarios
    ensures EntryLoads(plan, EntryOf(r, spec, offset))
  {
    var p, c := spec.block.pair, spec.block.condition;
    assert ConditionFits(r, c);
    OrdinalsAreBounded(r, p, offset);
    EveryIdIsShorter(p.scenario, c, spec.implementation, Ordinal(r, p, offset), r.samples);
    SampleIdIsSafeIffShort(p.scenario, c, spec.implementation, Ordinal(r, p, offset));
  }

  /** What every launch group of a plan looks like. */
  lemma GroupOfPlanned(r: Request, shuffles: seq<seq<Pair>>, first: nat -> nat -> Implementation, e: Entry)
    returns (spec: Spec, offset: nat)
    requires ValidManifest(r) && CanPlan(r) && AreShuffles(r, shuffles) && e in Planned(r, shuffles, first).schedule
    ensures offset < r.blockSize && e == EntryOf(r, spec, offset) && BlockOf(r, spec.block)
    ensures spec.number <= 2 * |Blocks(r, shuffles, first)|
    ensures GroupOf(Planned(r, shuffles, first).schedule, e.group) == Members(r, spec)
  {
    var blocks := Blocks(r, shuffles, first);
    var specs := Specs(blocks);
    var g;
    g, offset := EntryComesFrom(Parts(r, specs), 2 * |blocks|, e);
    spec := specs[g];
    assert Parts(r, specs)[g] == Members(r, spec);
    assert spec.block == blocks[g / 2] && spec.block in blocks;
    BlocksComeFromRequest(r, shuffles, first, |r.conditions|, spec.block);
    PlannedAreLabelled(r, blocks);
    assert e.group == GroupIds(specs)[g];
    GroupIsOnePart(Parts(r, specs), GroupIds(specs), 2 * |blocks|, g);
  }

  lemma PlannedIdsAreDistinct(r: Request, shuffles: seq<seq<Pair>>, first: nat -> nat -> Implementation)
    requires ValidManifest(r) && CanPlan(r) && AreShuffles(r, shuffles) && Distinct(r.conditions)
    ensures DistinctIds(Planned(r, shuffles, first).schedule)
  {
    var blocks := Blocks(r, shuffles, first);
    var specs := Specs(blocks);
    BlockOrderDiffers(r, shuffles, first, |r.conditions|);
    DifferentBlocksDifferentSpecs(blocks);
    forall g | 0 <= g < |specs| ensures IsCondition(specs[g].block.condition) {
      assert specs[g].block == blocks[g / 2] && blocks[g / 2] in blocks;
      BlocksComeFromRequest(r, shuffles, first, |r.conditions|, blocks[g / 2]);
      assert ConditionFits(r, blocks[g / 2].condition);
    }
    PlannedPartsDiffer(r, specs);
    FlatIdsDiffer(Parts(r, specs), 2 * |blocks|);
  }

  lemma PlannedGroupIsSafe(r: Request, shuffles: seq<seq<Pair>>, first: nat -> nat -> Implementation, spec: Spec)
    requires ValidManifest(r) && CanPlan(r) && AreShuffles(r, shuffles) && Distinct(r.conditions) && IdsFit(r)
    requires BlockOf(r, spec.block) && spec.number <= 2 * |Blocks(r, shuffles, first)|
    ensures IsSafeId(IdOf(spec))
  {
    FewGroups(r, shuffles, first);
    assert ConditionFits(r, spec.block.condition);
    GroupIdsFit(spec.block.pair.scenario, spec.block.condition, r.samples, spec.number);
    GroupIdIsSafeIffShort(spec.block.condition, spec.number);
  }

  lemma PlannedGroupsLoad(r: Request, shuffles: seq<seq<Pair>>, first: nat -> nat -> Implementation)
    requires ValidManifest(r) && CanPlan(r) && AreShuffles(r, shuffles) && Distinct(r.conditions) && IdsFit(r)
    ensures GroupsLoad(Planned(r, shuffles, first))
  {
    var plan := Planned(r, shuffles, first);
    forall group | GroupOf(plan.schedule, group) != []
      ensures GroupLoads(plan, group, GroupOf(plan.schedule, group))
    {
      var e := GroupOf(plan.schedule, group)[0];
      GroupOfMembers(plan.schedule, group, e);
      var spec, offset := GroupOfPlanned(r, shuffles, first, e);
      PlannedGroupIsSafe(r, shuffles, first, spec);
      assert ConditionFits(r, spec.block.condition);
      GroupLoadsIffIdSafe(r, plan, spec);
    }
  }

  lemma PlannedEntriesLoad(r: Request, shuffles: seq<seq<Pair>>, first: nat -> nat -> Implementation)
    requires ValidManifest(r) && CanPlan(r) && AreShuffles(r, shuffles) && IdsFit(r)
    ensures forall e :: e in Planned(r, shuffles, first).schedule ==> EntryLoads(Planned(r, shuffles, first), e)
  {
    var plan := Planned(r, shuffles, first);
    forall e | e in plan.schedule ensures EntryLoads(plan, e) {
      var spec, offset := GroupOfPlanned(r, shuffles, first, e);
      PlannedEntryLoads(r, plan, spec, offset);
    }
  }

  /** The longest sample of a cell is planned, so its ID must fit. */
  lemma LongestSample(r: Request, shuffles: seq<seq<Pair>>, first: nat -> nat -> Implementation, s: string, c: nat)
    returns (e: Entry)
    requires ValidManifest(r) && CanPlan(r) && AreShuffles(r, shuffles) && s in r.scenarios && c < |r.conditions|
    ensures e in Planned(r, shuffles, first).schedule &&
        e.sampleId == SampleId(s, r.conditions[c], Candidate, r.samples)
  {
    assert BlocksPer(r) >= 1 by { assert r.samples == BlocksPer(r) * r.blockSize; }
    var p := Pair(BlocksPer(r) - 1, s);
    var b := RequestedBlock(r, shuffles, first, c, p);
    e := BlockSampleIsPlanned(r, Blocks(r, shuffles, first), b, Candidate, r.blockSize - 1);
    LastOrdinal(r, p);
  }

  /** A created plan loads exactly when no condition is listed twice and the longest sample ID of
      every cell fits, whatever the shuffles and the first implementations. */
  lemma PlannedLoads(r: Request, shuffles: seq<seq<Pair>>, first: nat -> nat -> Implementation)
    requires ValidManifest(r) && CanPlan(r) && AreShuffles(r, shuffles)
    ensures Loads(Planned(r, shuffles, first)) <==> Distinct(r.conditions) && IdsFit(r)
  {
    var plan := Planned(r, shuffles, first);
    CellsLoadIffConditionsDistinct(r, shuffles, first);
    var longest := LongestSample(r, shuffles, first, r.scenarios[0], 0);
    assert forall name :: name in r.conditions ==> ConditionFits(r, name);
    if Distinct(r.conditions) && IdsFit(r) {
      PlannedIdsAreDistinct(r, shuffles, first);
      PlannedEntriesLoad(r, shuffles, first);
      PlannedGroupsLoad(r, shuffles, first);
    }
    if Loads(plan) {
      forall s, c | s in r.scenarios && c in r.conditions ensures |SampleId(s, c, Candidate, r.samples)| <= 128 {
        var k: nat :| k < |r.conditions| && r.conditions[k] == c;
        var e := LongestSample(r, shuffles, first, s, k);
        assert EntryLoads(plan, e);
      }
    }
  }

  ghost predicate ParticipantsSuffice(r: Request) {
    forall c :: c in r.conditions ==> Concurrency(c) > 1 || r.blockSize <= |r.participants|
  }

  lemma PlannedGroupRuns(r: Request, shuffles: seq<seq<Pair>>, first: nat -> nat -> Implementation, group: string)
    requires ValidManifest(r) && CanPlan(r) && AreShuffles(r, shuffles) && ParticipantsSuffice(r)
    ensures GroupRuns(GroupOf(Planned(r, shuffles, first).schedule, group))
  {
    var schedule := Planned(r, shuffles, first).schedule;
    if GroupOf(schedule, group) != [] {
      var e := GroupOf(schedule, group)[0];
      GroupOfMembers(schedule, group, e);
      var spec, offset := GroupOfPlanned(r, shuffles, first, e);
      assert ConditionFits(r, spec.block.condition);
      GroupRunsIffParticipantsSuffice(r, spec);
    }
  }

  lemma SerialGroupTooLong(r: Request, shuffles: seq<seq<Pair>>, first: nat -> nat -> Implementation, c: nat)
    requires ValidManifest(r) && CanPlan(r) && AreShuffles(r, shuffles) && c < |r.conditions|
    requires Concurrency(r.conditions[c]) <= 1 && r.blockSize > |r.participants|
    ensures !AllGroupsRun(Planned(r, shuffles, first).schedule)
  {
    var e := LongestSample(r, shuffles, first, r.scenarios[0], c);
    var spec, offset := GroupOfPlanned(r, shuffles, first, e);
    assert ConditionFits(r, r.conditions[c]);
    assert ConditionFits(r, spec.block.condition);
    SampleIdsAreInjective(r.scenarios[0], r.conditions[c], Candidate, r.samples,
                          spec.block.pair.scenario, spec.block.condition, spec.implementation, e.ordinal);
    GroupRunsIffParticipantsSuffice(r, spec);
  }

  lemma PlannedEntriesRun(r: Request, shuffles: seq<seq<Pair>>, first: nat -> nat -> Implementation)
    requires ValidManifest(r) && CanPlan(r) && AreShuffles(r, shuffles) && Distinct(r.conditions) && IdsFit(r)
    ensures forall e :: e in Planned(r, shuffles, first).schedule ==> EntryRuns(Planned(r, shuffles, first), e)
  {
    var plan := Planned(r, shuffles, first);
    forall e | e in plan.schedule ensures EntryRuns(plan, e) {
      var spec, offset := GroupOfPlanned(r, shuffles, first, e);
      PlannedGroupIsSafe(r, shuffles, first, spec);
    }
  }

  /** The driver accepts a loadable created plan exactly when no serial block is longer than the
      participant list. */
  lemma PlannedRuns(r: Request, shuffles: seq<seq<Pair>>, first: nat -> nat -> Implementation)
    requires ValidManifest(r) && CanPlan(r) && AreShuffles(r, shuffles) && Distinct(r.conditions) && IdsFit(r)
    ensures Runs(Planned(r, shuffles, first)) <==> ParticipantsSuffice(r)
  {
    var plan := Planned(r, shuffles, first);
    var longest := LongestSample(r, shuffles, first, r.scenarios[0], 0);
    PlannedEntriesRun(r, shuffles, first);
    if ParticipantsSuffice(r) {
      forall group ensures GroupRuns(GroupOf(plan.schedule, group)) {
        PlannedGroupRuns(r, shuffles, first, group);
      }
    } else {
      var name :| name in r.conditions && !(Concurrency(name) > 1 || r.blockSize <= |r.participants|);
      var c: nat :| c < |r.conditions| && r.conditions[c] == name;
      SerialGroupTooLong(r, shuffles, first, c);
    }
  }

  /** Eight serial samples in one block over four participants: created and loadable, yet the
      driver refuses the plan. */
  lemma LoadableButNotRunnable(shuffles: seq<seq<Pair>>, first: nat -> nat -> Implementation)
    requires AreShuffles(Request(["a", "b", "c"], ["p", "q", "r", "s"], [SERIAL_PREPARED], 8, 8), shuffles)
    ensures var r := Request(["a", "b", "c"], ["p", "q", "r", "s"], [SERIAL_PREPARED], 8, 8);
            ValidManifest(r) && CanPlan(r) && Loads(Planned(r, shuffles, first)) && !Runs(Planned(r, shuffles, first))
  {
    var r := Request(["a", "b", "c"], ["p", "q", "r", "s"], [SERIAL_PREPARED], 8, 8);
    assert ConditionFits(r, SERIAL_PREPARED);
    forall s, c | s in r.scenarios && c in r.conditions ensures |SampleId(s, c, Candidate, 8)| <= 128 {
      SampleIdLength(s, c, Candidate, 8);
      PaddedLength(8, 3);
    }
    PlannedLoads(r, shuffles, first);
    PlannedRuns(r, shuffles, first);
    assert SERIAL_PREPARED in r.conditions;
  }
}
