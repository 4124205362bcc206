/** How many samples each cell of a planned schedule gets, for every shuffle. The counts carry
    the block size as a weight, so that they add up to samples and not to blocks. */
module PlanCounts {
  import opened SampleIds
  import opened BenchmarkPlan

  // -------------------------------------------------- pairs, under permutation

  ghost function PairWeight(pairs: seq<Pair>, scenario: string, size: nat): nat {
    if pairs == [] then 0
    else
      var front, last := pairs[..|pairs| - 1], pairs[|pairs| - 1];
      PairWeight(front, scenario, size) + (if last.scenario == scenario then size else 0)
  }

  lemma {:induction false} PairWeightConcat(a: seq<Pair>, b: seq<Pair>, scenario: string, size: nat)
    ensures PairWeight(a + b, scenario, size) == PairWeight(a, scenario, size) + PairWeight(b, scenario, size)
    decreases |b|
  {
    if b == [] {
      assert a + b == a;
    } else {
      PairWeightConcat(a, b[..|b| - 1], scenario, size);
      assert (a + b)[..|a + b| - 1] == a + b[..|b| - 1];
    }
  }

  lemma RemoveOne<T>(front: seq<T>, x: T, left: seq<T>, right: seq<T>)
    requires multiset(front + [x]) == multiset(left + [x] + right)
    ensures multiset(front) == multiset(left + right)
  {
    assert multiset(front + [x]) == multiset(front) + multiset{x};
    assert multiset(left + [x] + right) == multiset(left + right) + multiset{x};
    assert multiset(front) == multiset(front + [x]) - multiset{x};
    assert multiset(left + right) == multiset(left + [x] + right) - multiset{x};
  }

  /** Shuffling does not change how often a scenario occurs. */
  lemma {:induction false} ShuffleKeepsWeight(a: seq<Pair>, b: seq<Pair>, scenario: string, size: nat)
    requires multiset(a) == multiset(b)
    ensures PairWeight(a, scenario, size) == PairWeight(b, scenario, size)
    decreases |a|
  {
    if a == [] {
      assert |multiset(b)| == 0;
    } else {
      var front, x := a[..|a| - 1], a[|a| - 1];
      assert a == front + [x];
      assert x in multiset(b);
      var j :| 0 <= j < |b| && b[j] == x;
      var left, right := b[..j], b[j + 1..];
      assert b == left + [x] + right;
      RemoveOne(front, x, left, right);
      ShuffleKeepsWeight(front, left + right, scenario, size);
      PairWeightConcat(left, right, scenario, size);
      PairWeightConcat(left + [x], right, scenario, size);
      PairWeightConcat(left, [x], scenario, size);
      PairWeightConcat(front, [x], scenario, size);
    }
  }

  lemma {:induction false} OneBlockWeight(blockIndex: nat, scenarios: seq<string>, scenario: string, size: nat)
    requires Distinct(scenarios)
    ensures PairWeight(PairsOf(blockIndex, scenarios), scenario, size) == if scenario in scenarios then size else 0
    decreases |scenarios|
  {
    if scenarios != [] {
      var n := |scenarios| - 1;
      OneBlockWeight(blockIndex, scenarios[..n], scenario, size);
      assert PairsOf(blockIndex, scenarios)[..n] == PairsOf(blockIndex, scenarios[..n]);
      assert scenarios == scenarios[..n] + [scenarios[n]];
    }
  }

  lemma {:induction false} AllPairsWeight(blocks: nat, scenarios: seq<string>, scenario: string, size: nat)
    requires Distinct(scenarios)
    ensures PairWeight(AllPairs(blocks, scenarios), scenario, size) ==
        if scenario in scenarios then blocks * size else 0
  {
    if blocks > 0 {
      AllPairsWeight(blocks - 1, scenarios, scenario, size);
      OneBlockWeight(blocks - 1, scenarios, scenario, size);
      PairWeightConcat(AllPairs(blocks - 1, scenarios), PairsOf(blocks - 1, scenarios), scenario, size);
      assert blocks * size == (blocks - 1) * size + size;
    }
  }

  // ------------------------------------------------------------------- blocks

  ghost function BlockWeight(blocks: seq<Block>, scenario: string, condition: string, size: nat): nat {
    if blocks == [] then 0
    else
      var last := blocks[|blocks| - 1];
      BlockWeight(blocks[..|blocks| - 1], scenario, condition, size)
      + (if last.pair.scenario == scenario && last.condition == condition then size else 0)
  }

  lemma {:induction false} BlockWeightConcat(a: seq<Block>, b: seq<Block>, scenario: string, condition: string,
      size: nat)
    ensures BlockWeight(a + b, scenario, condition, size) ==
            BlockWeight(a, scenario, condition, size) + BlockWeight(b, scenario, condition, size)
    decreases |b|
  {
    if b == [] {
      assert a + b == a;
    } else {
      BlockWeightConcat(a, b[..|b| - 1], scenario, condition, size);
      assert (a + b)[..|a + b| - 1] == a + b[..|b| - 1];
    }
  }

  lemma {:induction false} ConditionWeight(name: string, shuffle: seq<Pair>, first: nat -> Implementation,
                                           scenario: string, condition: string, size: nat)
    ensures BlockWeight(BlocksFor(name, shuffle, first), scenario, condition, size) ==
            if name == condition then PairWeight(shuffle, scenario, size) else 0
    decreases |shuffle|
  {
    if shuffle != [] {
      var n := |shuffle| - 1;
      ConditionWeight(name, shuffle[..n], first, scenario, condition, size);
      assert BlocksFor(name, shuffle, first)[..n] == BlocksFor(name, shuffle[..n], first);
    }
  }

  /** `each`, once for every time `x` is listed. */
  ghost function Total(s: seq<string>, n: nat, x: string, each: nat): nat
    requires n <= |s|
  {
    if n == 0 then 0 else Total(s, n - 1, x, each) + (if s[n - 1] == x then each else 0)
  }

  ghost function SamplesOf(r: Request, scenario: string): nat
    requires r.samples >= 1
  {
    if scenario in r.scenarios then r.samples else 0
  }

  lemma ShuffleWeight(r: Request, shuffle: seq<Pair>, scenario: string)
    requires r.samples >= 1 && r.blockSize >= 1 && r.samples % r.blockSize == 0 && Distinct(r.scenarios)
    requires multiset(shuffle) == multiset(AllPairs(BlocksPer(r), r.scenarios))
    ensures PairWeight(shuffle, scenario, r.blockSize) == SamplesOf(r, scenario)
  {
    ShuffleKeepsWeight(shuffle, AllPairs(BlocksPer(r), r.scenarios), scenario, r.blockSize);
    AllPairsWeight(BlocksPer(r), r.scenarios, scenario, r.blockSize);
    assert BlocksPer(r) * r.blockSize == r.samples;
  }

  /** Each listed condition brings every planned scenario its full sample count. */
  lemma {:induction false} OrderWeight(r: Request, shuffles: seq<seq<Pair>>, first: nat -> nat -> Implementation,
      n: nat,
                                       scenario: string, condition: string)
    requires r.samples >= 1 && r.blockSize >= 1 && r.samples % r.blockSize == 0 && Distinct(r.scenarios)
    requires AreShuffles(r, shuffles) && n <= |r.conditions|
    ensures BlockWeight(BlockOrder(r.conditions, shuffles, first, n), scenario, condition, r.blockSize) ==
            Total(r.conditions, n, condition, SamplesOf(r, scenario))
  {
    if n > 0 {
      OrderWeight(r, shuffles, first, n - 1, scenario, condition);
      var before := BlockOrder(r.conditions, shuffles, first, n - 1);
      var last := BlocksFor(r.conditions[n - 1], shuffles[n - 1], first(n - 1));
      BlockWeightConcat(before, last, scenario, condition, r.blockSize);
      ConditionWeight(r.conditions[n - 1], shuffles[n - 1], first(n - 1), scenario, condition, r.blockSize);
      ShuffleWeight(r, shuffles[n - 1], scenario);
    }
  }

  // -------------------------------------------------------------------- cells

  lemma {:induction false} CellCountConcat(a: seq<Entry>, b: seq<Entry>, cell: Cell)
    ensures CellCount(a + b, cell) == CellCount(a, cell) + CellCount(b, cell)
    decreases |b|
  {
    if b == [] {
      assert a + b == a;
    } else {
      CellCountConcat(a, b[..|b| - 1], cell);
      assert (a + b)[..|a + b| - 1] == a + b[..|b| - 1];
    }
  }

  lemma {:induction false} UniformCellCount(s: seq<Entry>, own: Cell, cell: Cell)
    requires forall e :: e in s ==> e.cell == own
    ensures CellCount(s, cell) == if own == cell then |s| else 0
    decreases |s|
  {
    if s != [] {
      UniformCellCount(s[..|s| - 1], own, cell);
      assert s[|s| - 1] in s;
    }
  }

  ghost predicate Uniform(part: seq<Entry>, own: Cell, size: nat) {
    |part| == size && forall e :: e in part ==> e.cell == own
  }

  ghost predicate PartsOf(parts: seq<seq<Entry>>, cells: seq<Cell>, size: nat) {
    |parts| == |cells| && forall g :: 0 <= g < |parts| ==> Uniform(parts[g], cells[g], size)
  }

  ghost function CellWeight(cells: seq<Cell>, n: nat, cell: Cell, size: nat): nat
    requires n <= |cells|
  {
    if n == 0 then 0 else CellWeight(cells, n - 1, cell, size) + (if cells[n - 1] == cell then size else 0)
  }

  lemma {:induction false} FlatCellCount(parts: seq<seq<Entry>>, cells: seq<Cell>, size: nat, n: nat, cell: Cell)
    requires PartsOf(parts, cells, size) && n <= |parts|
    ensures CellCount(Flat(parts, n), cell) == CellWeight(cells, n, cell, size)
    decreases n
  {
    if n > 0 {
      FlatCellCount(parts, cells, size, n - 1, cell);
      CellCountConcat(Flat(parts, n - 1), parts[n - 1], cell);
      assert Uniform(parts[n - 1], cells[n - 1], size);
      UniformCellCount(parts[n - 1], cells[n - 1], cell);
    }
  }

  ghost function Cells(specs: seq<Spec>): seq<Cell> {
    seq(|specs|, g requires 0 <= g < |specs| => CellOf(specs[g]))
  }

  lemma PlannedPartsOf(r: Request, specs: seq<Spec>)
    requires |r.participants| >= 4 && r.blockSize >= 1
    ensures PartsOf(Parts(r, specs), Cells(specs), r.blockSize)
  {
    forall g | 0 <= g < |specs| ensures Uniform(Parts(r, specs)[g], Cells(specs)[g], r.blockSize) {
      assert forall e :: e in Members(r, specs[g]) ==> e.cell == CellOf(specs[g]);
    }
  }

  lemma BlockCells(blocks: seq<Block>, i: nat)
    requires i < |blocks|
    ensures Cells(Specs(blocks))[2 * i] == Cell(blocks[i].pair.scenario, blocks[i].condition, blocks[i].first)
    ensures Cells(Specs(blocks))[2 * i + 1] ==
        Cell(blocks[i].pair.scenario, blocks[i].condition, Other(blocks[i].first))
  {
    assert Specs(blocks)[2 * i] == Spec(blocks[i], blocks[i].first, 2 * i + 1);
    assert Specs(blocks)[2 * i + 1] == Spec(blocks[i], Other(blocks[i].first), 2 * i + 2);
  }

  lemma CellWeightTwoMore(cells: seq<Cell>, n: nat, cell: Cell, size: nat)
    requires n + 2 <= |cells|
    ensures CellWeight(cells, n + 2, cell, size) ==
            CellWeight(cells, n, cell, size) + (if cells[n] == cell then size else 0) +
                (if cells[n + 1] == cell then size else 0)
  {
  }

  /** Both implementations of a block run, so a cell has one launch group per block. */
  lemma {:induction false} CellWeightIsBlockWeight(blocks: seq<Block>, m: nat, cell: Cell, size: nat)
    requires m <= |blocks|
    ensures CellWeight(Cells(Specs(blocks)), 2 * m, cell, size) ==
        BlockWeight(blocks[..m], cell.scenario, cell.condition, size)
    decreases m
  {
    if m > 0 {
      CellWeightIsBlockWeight(blocks, m - 1, cell, size);
      assert blocks[..m][..m - 1] == blocks[..m - 1];
      BlockCells(blocks, m - 1);
      CellWeightTwoMore(Cells(Specs(blocks)), 2 * (m - 1), cell, size);
      assert cell.implementation == blocks[m - 1].first <==> cell.implementation != Other(blocks[m - 1].first);
    }
  }

  /** For every shuffle and choice of first implementation, a cell of a planned scenario gets the
      planned sample count once for each time its condition is listed. */
  lemma PlannedCellCount(r: Request, shuffles: seq<seq<Pair>>, first: nat -> nat -> Implementation, cell: Cell)
    requires ValidManifest(r) && CanPlan(r) && AreShuffles(r, shuffles)
    ensures CellCount(Planned(r, shuffles, first).schedule, cell) ==
            Total(r.conditions, |r.conditions|, cell.condition, SamplesOf(r, cell.scenario))
  {
    var blocks := Blocks(r, shuffles, first);
    var specs := Specs(blocks);
    PlannedPartsOf(r, specs);
    FlatCellCount(Parts(r, specs), Cells(specs), r.blockSize, |specs|, cell);
    CellWeightIsBlockWeight(blocks, |blocks|, cell, r.blockSize);
    assert blocks[..|blocks|] == blocks;
    OrderWeight(r, shuffles, first, |r.conditions|, cell.scenario, cell.condition);
  }

  lemma {:induction false} TotalOfDistinct(s: seq<string>, n: nat, x: string, each: nat)
    requires n <= |s| && Distinct(s)
    ensures Total(s, n, x, each) == if x in s[..n] then each else 0
    decreases n
  {
    if n > 0 {
      TotalOfDistinct(s, n - 1, x, each);
      assert s[..n] == s[..n - 1] + [s[n - 1]];
    }
  }

  lemma {:induction false} TotalOfListed(s: seq<string>, n: nat, i: nat, each: nat)
    requires i < n <= |s|
    ensures Total(s, n, s[i], each) >= each
    decreases n
  {
    if i < n - 1 { TotalOfListed(s, n - 1, i, each); }
  }

  lemma {:induction false} TotalOfRepeated(s: seq<string>, n: nat, i: nat, j: nat, each: nat)
    requires i < j < n <= |s| && s[i] == s[j]
    ensures Total(s, n, s[i], each) >= each + each
    decreases n
  {
    if j < n - 1 {
      TotalOfRepeated(s, n - 1, i, j, each);
    } else {
      TotalOfListed(s, n - 1, i, each);
    }
  }

  lemma RepeatedConditionOverfills(r: Request, shuffles: seq<seq<Pair>>, first: nat -> nat -> Implementation, i: nat,
      j: nat)
    requires ValidManifest(r) && CanPlan(r) && AreShuffles(r, shuffles)
    requires i < j < |r.conditions| && r.conditions[i] == r.conditions[j]
    ensures CellCount(Planned(r, shuffles, first).schedule, Cell(r.scenarios[0], r.conditions[i], Baseline)) > r.samples
  {
    PlannedCellCount(r, shuffles, first, Cell(r.scenarios[0], r.conditions[i], Baseline));
    TotalOfRepeated(r.conditions, |r.conditions|, i, j, r.samples);
  }

  /** The cell check of `load_plan` passes exactly when no condition is listed twice. */
  lemma CellsLoadIffConditionsDistinct(r: Request, shuffles: seq<seq<Pair>>, first: nat -> nat -> Implementation)
    requires ValidManifest(r) && CanPlan(r) && AreShuffles(r, shuffles)
    ensures CellsLoad(Planned(r, shuffles, first)) <==> Distinct(r.conditions)
  {
    var plan, n := Planned(r, shuffles, first), |r.conditions|;
    if Distinct(r.conditions) {
      forall cell ensures CellCount(plan.schedule, cell) ==
                            if cell.scenario in plan.scenarios &&
                                cell.condition in plan.conditions then plan.samples else 0
      {
        PlannedCellCount(r, shuffles, first, cell);
        TotalOfDistinct(r.conditions, n, cell.condition, SamplesOf(r, cell.scenario));
        assert r.conditions[..n] == r.conditions;
      }
    } else {
      var i, j :| 0 <= i < j < n && r.conditions[i] == r.conditions[j];
      RepeatedConditionOverfills(r, shuffles, first, i, j);
    }
  }
}
