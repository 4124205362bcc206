/** Which planned schedules pass `load_plan` and the driver's `planGroups`. */
module PlanProofs {
  import opened SampleIds
  import opened BenchmarkPlan

  // ------------------------------------------------------------- launch groups

  lemma {:induction false} GroupOfUniform(s: seq<Entry>, group: string)
    requires forall e :: e in s ==> e.group == group
    ensures GroupOf(s, group) == s
    decreases |s|
  {
    if s != [] {
      var n := |s| - 1;
      GroupOfUniform(s[..n], group);
      assert s == s[..n] + [s[n]];
    }
  }

  lemma {:induction false} GroupOfOthers(s: seq<Entry>, group: string)
    requires forall e :: e in s ==> e.group != group
    ensures GroupOf(s, group) == []
    decreases |s|
  {
    if s != [] {
      GroupOfOthers(s[..|s| - 1], group);
    }
  }

  /** Every group of the parts holds its own ID, and no two share one. */
  ghost predicate Labelled(parts: seq<seq<Entry>>, ids: seq<string>) {
    |parts| == |ids| && Distinct(ids) && forall g :: 0 <= g < |parts| ==> AllIn(parts[g], ids[g])
  }

  ghost predicate AllIn(part: seq<Entry>, group: string) { forall e :: e in part ==> e.group == group }

  /** Each launch group of the schedule is exactly one of its parts. */
  lemma {:induction false} GroupIsOnePart(parts: seq<seq<Entry>>, ids: seq<string>, n: nat, g: nat)
    requires n <= |parts| && g < |parts| && Labelled(parts, ids)
    ensures GroupOf(Flat(parts, n), ids[g]) == if g < n then parts[g] else []
    decreases n
  {
    if n > 0 {
      GroupIsOnePart(parts, ids, n - 1, g);
      GroupOfConcat(Flat(parts, n - 1), parts[n - 1], ids[g]);
      assert AllIn(parts[n - 1], ids[n - 1]);
      if g == n - 1 {
        GroupOfUniform(parts[n - 1], ids[g]);
      } else {
        GroupOfOthers(parts[n - 1], ids[g]);
      }
    }
  }

  lemma {:induction false} EntryComesFrom(parts: seq<seq<Entry>>, n: nat, e: Entry) returns (g: nat, k: nat)
    requires n <= |parts| && e in Flat(parts, n)
    ensures g < n && k < |parts[g]| && e == parts[g][k]
    decreases n
  {
    if e in Flat(parts, n - 1) {
      g, k := EntryComesFrom(parts, n - 1, e);
    } else {
      g := n - 1;
      k :| 0 <= k < |parts[g]| && parts[g][k] == e;
    }
  }

  lemma {:induction false} EntryIsScheduled(parts: seq<seq<Entry>>, n: nat, g: nat, k: nat)
    requires g < n <= |parts| && k < |parts[g]|
    ensures parts[g][k] in Flat(parts, n)
    decreases n
  {
    if g < n - 1 { EntryIsScheduled(parts, n - 1, g, k); }
  }

  // -------------------------------------------------------------- block order

  ghost predicate FromConditions(blocks: seq<Block>, conditions: seq<string>) {
    forall b :: b in blocks ==> b.condition in conditions
  }

  /** A block is the condition, block index and scenario it runs; the order never repeats one. */
  ghost predicate BlocksDiffer(blocks: seq<Block>) {
    forall i, j :: 0 <= i < j < |blocks| ==>
        blocks[i].condition != blocks[j].condition || blocks[i].pair != blocks[j].pair
  }

  lemma {:induction false} AllPairsMembers(n: nat, scenarios: seq<string>, p: Pair)
    ensures p in AllPairs(n, scenarios) <==> p.blockIndex < n && p.scenario in scenarios
  {
    if n > 0 {
      AllPairsMembers(n - 1, scenarios, p);
      var last := PairsOf(n - 1, scenarios);
      if p.blockIndex == n - 1 && p.scenario in scenarios {
        var i :| 0 <= i < |scenarios| && scenarios[i] == p.scenario;
        assert last[i] == p;
      }
    }
  }

  lemma {:induction false} AllPairsDistinct(n: nat, scenarios: seq<string>)
    requires Distinct(scenarios)
    ensures Distinct(AllPairs(n, scenarios))
  {
    if n > 0 {
      AllPairsDistinct(n - 1, scenarios);
      var before, last := AllPairs(n - 1, scenarios), PairsOf(n - 1, scenarios);
      forall i | 0 <= i < |before| ensures before[i].blockIndex < n - 1 {
        AllPairsMembers(n - 1, scenarios, before[i]);
      }
    }
  }

  lemma {:induction false} DistinctCounts<T(!new)>(s: seq<T>, x: T)
    requires Distinct(s)
    ensures multiset(s)[x] <= 1
    decreases |s|
  {
    if s != [] {
      var n := |s| - 1;
      DistinctCounts(s[..n], x);
      assert s == s[..n] + [s[n]];
      if s[n] == x { assert x !in s[..n]; }
    }
  }

  lemma ShuffleIsDistinct<T(!new)>(s: seq<T>, t: seq<T>)
    requires Distinct(s) && multiset(s) == multiset(t)
    ensures Distinct(t)
  {
    forall i, j | 0 <= i < j < |t| ensures t[i] != t[j] {
      DistinctCounts(s, t[i]);
      assert t == t[..j] + [t[j]] + t[j + 1..];
      assert t[i] in t[..j];
    }
  }

  /** Distinct conditions and scenarios give distinct blocks, for every shuffle. */
  lemma {:induction false} BlockOrderDiffers(r: Request, shuffles: seq<seq<Pair>>,
      first: nat -> nat -> Implementation, n: nat)
    requires r.samples >= 1 && r.blockSize >= 1 && AreShuffles(r, shuffles) && n <= |r.conditions|
    requires Distinct(r.scenarios) && Distinct(r.conditions)
    ensures BlocksDiffer(BlockOrder(r.conditions, shuffles, first, n))
    ensures FromConditions(BlockOrder(r.conditions, shuffles, first, n), r.conditions[..n])
  {
    if n > 0 {
      BlockOrderDiffers(r, shuffles, first, n - 1);
      AllPairsDistinct(BlocksPer(r), r.scenarios);
      ShuffleIsDistinct(AllPairs(BlocksPer(r), r.scenarios), shuffles[n - 1]);
      var before := BlockOrder(r.conditions, shuffles, first, n - 1);
      var last := BlocksFor(r.conditions[n - 1], shuffles[n - 1], first(n - 1));
      forall i | 0 <= i < |before|
        ensures before[i].condition in r.conditions[..n - 1] && before[i].condition != r.conditions[n - 1]
      {
        assert before[i] in before;
      }
    }
  }

  // ---------------------------------------------------------------- unique IDs

  lemma {:induction false} ProductGrows(a: nat, b: nat, size: nat)
    requires a < b
    ensures a * size + size <= b * size
    decreases b
  {
    assert b * size == (b - 1) * size + size;
    if a < b - 1 { ProductGrows(a, b - 1, size); }
  }

  lemma SameOrdinalSameBlock(a: nat, i: nat, b: nat, j: nat, size: nat)
    requires i < size && j < size && a * size + i == b * size + j
    ensures a == b && i == j
  {
    if a < b { ProductGrows(a, b, size); }
    if b < a { ProductGrows(b, a, size); }
  }

  /** Different launch groups run different blocks or different implementations. */
  ghost predicate SpecsDiffer(specs: seq<Spec>) {
    forall g, h :: 0 <= g < h < |specs| ==>
      CellOf(specs[g]) != CellOf(specs[h]) || specs[g].block.pair.blockIndex != specs[h].block.pair.blockIndex
  }

  ghost predicate KnownConditions(specs: seq<Spec>) {
    forall g :: 0 <= g < |specs| ==> IsCondition(specs[g].block.condition)
  }

  lemma DifferentBlocksDifferentSpecs(blocks: seq<Block>)
    requires BlocksDiffer(blocks)
    ensures SpecsDiffer(Specs(blocks))
  {
    var specs := Specs(blocks);
    forall g, h | 0 <= g < h < |specs|
      ensures CellOf(specs[g]) != CellOf(specs[h]) || specs[g].block.pair.blockIndex != specs[h].block.pair.blockIndex
    {
      assert specs[g].block == blocks[g / 2] && specs[h].block == blocks[h / 2];
      if g / 2 == h / 2 {
        assert g % 2 == 0 && h % 2 == 1;
      }
    }
  }

  /** Two planned samples with one ID are one sample of one launch group. */
  lemma SameIdSameSample(r: Request, specs: seq<Spec>, g: nat, i: nat, h: nat, j: nat)
    requires |r.participants| >= 4 && r.blockSize >= 1 && i < r.blockSize && j < r.blockSize
    requires g < |specs| && h < |specs| && SpecsDiffer(specs) && KnownConditions(specs)
    requires EntryOf(r, specs[g], i).sampleId == EntryOf(r, specs[h], j).sampleId
    ensures g == h && i == j
  {
    var s, t := specs[g], specs[h];
    var d, e := EntryOf(r, s, i), EntryOf(r, t, j);
    SampleIdsAreInjective(s.block.pair.scenario, s.block.condition, s.implementation, d.ordinal,
                          t.block.pair.scenario, t.block.condition, t.implementation, e.ordinal);
    SameOrdinalSameBlock(s.block.pair.blockIndex, i, t.block.pair.blockIndex, j, r.blockSize);
    assert CellOf(s) == CellOf(t);
  }

  /** No ID occurs twice, within a part or in two parts. */
  ghost predicate PartsDiffer(parts: seq<seq<Entry>>) {
    forall g, i, h, j :: 0 <= g < |parts| && 0 <= i < |parts[g]| && 0 <= h < |parts| && 0 <= j < |parts[h]| ==>
      (parts[g][i].sampleId == parts[h][j].sampleId ==> g == h && i == j)
  }

  lemma PlannedPartsDiffer(r: Request, specs: seq<Spec>)
    requires |r.participants| >= 4 && r.blockSize >= 1 && SpecsDiffer(specs) && KnownConditions(specs)
    ensures PartsDiffer(Parts(r, specs))
  {
    var parts: seq<seq<Entry>> := Parts(r, specs);
    forall g: nat, i: nat, h: nat, j: nat | g < |parts| && i < |parts[g]| && h < |parts| && j < |parts[h]|
      ensures parts[g][i].sampleId == parts[h][j].sampleId ==> g == h && i == j
    {
      if parts[g][i].sampleId == parts[h][j].sampleId { SameIdSameSample(r, specs, g, i, h, j); }
    }
  }

  lemma {:induction false} FlatIdsDiffer(parts: seq<seq<Entry>>, n: nat)
    requires n <= |parts| && PartsDiffer(parts)
    ensures DistinctIds(Flat(parts, n))
    decreases n
  {
    if n > 0 {
      FlatIdsDiffer(parts, n - 1);
      var before, last := Flat(parts, n - 1), parts[n - 1];
      forall i, j | 0 <= i < |before| && 0 <= j < |last| ensures before[i].sampleId != last[j].sampleId {
        var g, k := EntryComesFrom(parts, n - 1, before[i]);
      }
    }
  }
}
