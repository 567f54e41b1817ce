/**
 Reverse water-filling of `compute_ideal_bit_budgets` in exact arithmetic: one level for all coordinates, and
 how far the accumulated tolerances can push the total above the budget.
 */
module WaterFilling {
  import opened Arithmetic
  import opened Permutations
  import opened Sorting

  predicate Higher(a: real, b: real) {
    a > b
  }

  ghost predicate Descending(h: seq<real>) {
    forall i, j :: 0 <= i < j < |h| ==> h[i] >= h[j]
  }

  /** The bits a coordinate of the given height gets above the level. */
  function BudgetAt(level: real): real -> real {
    (h: real) => RealMax(0.0, h - level)
  }

  function Above(level: real): real -> real {
    (h: real) => h - level
  }

  /** Lowering the level by `drop` gives every coordinate that much more. */
  lemma {:induction false} LowerLevel(h: seq<real>, level: real, drop: real)
    ensures Sum(Above(level - drop), h) == Sum(Above(level), h) + |h| as real * drop
  {
    if h != [] {
      LowerLevel(h[..|h| - 1], level, drop);
      assert |h| as real * drop == (|h| - 1) as real * drop + drop;
    }
  }

  lemma BudgetIs(level: real, h: real)
    ensures BudgetAt(level)(h) == if h > level then h - level else 0.0
  {
    assert BudgetAt(level)(h) == RealMax(0.0, h - level);
  }

  lemma {:induction false} AllAbove(h: seq<real>, level: real)
    requires forall i :: 0 <= i < |h| ==> h[i] >= level
    ensures Sum(BudgetAt(level), h) == Sum(Above(level), h)
  {
    if h != [] {
      AllAbove(h[..|h| - 1], level);
      BudgetIs(level, h[|h| - 1]);
    }
  }

  lemma {:induction false} NoneAbove(h: seq<real>, level: real)
    requires forall i :: 0 <= i < |h| ==> h[i] <= level
    ensures Sum(BudgetAt(level), h) == 0.0
  {
    if h != [] {
      NoneAbove(h[..|h| - 1], level);
      BudgetIs(level, h[|h| - 1]);
    }
  }

  /** The first `active` heights are at or above the level and the rest at or below it. */
  lemma SplitAtLevel(h: seq<real>, active: nat, level: real)
    requires active <= |h|
    requires forall i :: 0 <= i < active ==> h[i] >= level
    requires forall i :: active <= i < |h| ==> h[i] <= level
    ensures Sum(BudgetAt(level), h) == Sum(Above(level), h[..active])
  {
    assert h == h[..active] + h[active..];
    SumConcat(BudgetAt(level), h[..active], h[active..]);
    AllAbove(h[..active], level);
    NoneAbove(h[active..], level);
  }

  /** The bits poured so far, up to the tolerances of the steps taken. */
  ghost predicate Poured(h: seq<real>, active: nat, level: real, bits: real, remaining: real) {
    && 0 < active <= |h| && remaining >= 0.0
    && level == h[active - 1]
    && var excess := Sum(Above(level), h[..active]) - (bits - remaining);
       0.0 <= excess <= (active - 1) as real * SCORE_TOLERANCE
  }

  lemma PourStart(h: seq<real>, bits: real)
    requires h != [] && bits >= 0.0
    ensures Poured(h, 1, h[0], bits, bits)
  {
    assert h[..1] == [h[0]];
    SumOne(Above(h[0]), h[0]);
  }

  /** Lowering the level to the next height activates one more coordinate. */
  lemma PourStep(h: seq<real>, active: nat, level: real, bits: real, remaining: real, cost: real)
    requires Descending(h) && Poured(h, active, level, bits, remaining) && active < |h|
    requires cost == Cost(active, level - h[active]) && remaining + SCORE_TOLERANCE >= cost
    ensures Poured(h, active + 1, h[active], bits, RealMax(0.0, remaining - cost))
  {
    var next, left := h[active], RealMax(0.0, remaining - cost);
    LowerLevel(h[..active], level, level - next);
    SumNext(Above(next), h, active);
    assert Above(next)(next) == 0.0;
    var before, after := Sum(Above(level), h[..active]), Sum(Above(next), h[..active + 1]);
    assert |h[..active]| == active;
    assert after == before + cost;
    assert active as real * SCORE_TOLERANCE == (active - 1) as real * SCORE_TOLERANCE + SCORE_TOLERANCE;
    assert 0.0 <= cost - remaining + left <= SCORE_TOLERANCE || cost - remaining + left == 0.0;
  }

  /** The level reached, and how much the total exceeds the budget. */
  ghost predicate Filled(h: seq<real>, level: real, bits: real) {
    0.0 <= Sum(BudgetAt(level), h) - bits <= (|h| - 1) as real * SCORE_TOLERANCE
  }

  lemma StopInGap(h: seq<real>, active: nat, level: real, bits: real, remaining: real, drop: real)
    requires Descending(h) && Poured(h, active, level, bits, remaining)
    requires drop >= 0.0 && active as real * drop == remaining
    requires active < |h| ==> h[active] <= level - drop
    ensures Filled(h, level - drop, bits)
  {
    SplitAtLevel(h, active, level - drop);
    PoursOut(h, active, level, bits, remaining, drop);
    FewerSteps(active, |h|);
  }

  /** Sharing out what remains leaves only the excess of the steps taken. */
  lemma PoursOut(h: seq<real>, active: nat, level: real, bits: real, remaining: real, drop: real)
    requires Poured(h, active, level, bits, remaining) && active as real * drop == remaining
    ensures 0.0 <= Sum(Above(level - drop), h[..active]) - bits <= (active - 1) as real * SCORE_TOLERANCE
  {
    LowerLevel(h[..active], level, drop);
    assert |h[..active]| == active;
  }

  lemma FewerSteps(a: nat, b: nat)
    requires a <= b
    ensures (a - 1) as real * SCORE_TOLERANCE <= (b - 1) as real * SCORE_TOLERANCE
  {
  }

  lemma DropStops(active: nat, gap: real, cost: real, remaining: real, drop: real)
    requires active > 0 && cost == Cost(active, gap) && remaining + SCORE_TOLERANCE < cost
    requires active as real * drop == remaining
    ensures drop <= gap
  {
  }

  /** An equal share of the remaining bits for every active coordinate. */
  function Share(remaining: real, active: nat): (drop: real)
    requires remaining >= 0.0 && active > 0
    ensures drop >= 0.0 && active as real * drop == remaining
  {
    remaining / active as real
  }

  function Cost(active: nat, gap: real): real {
    active as real * gap
  }

  /** The level of the sorted heights: it descends from height to height until the bits are spent. */
  method FindLevel(h: seq<real>, bits: real) returns (level: real)
    requires h != [] && Descending(h) && bits >= 0.0
    ensures Filled(h, level, bits)
  {
    var remaining := bits;
    level := h[0];
    var active := 1;
    PourStart(h, bits);
    while active < |h| && remaining + SCORE_TOLERANCE >= Cost(active, RealMax(0.0, level - h[active]))
      invariant Poured(h, active, level, bits, remaining)
    {
      var nextHeight := h[active];
      GapOf(h, active);
      var cost := Cost(active, RealMax(0.0, level - nextHeight));
      PourStep(h, active, level, bits, remaining, cost);
      remaining := RealMax(0.0, remaining - cost);
      level := nextHeight;
      active := active + 1;
    }
    if active < |h| { GapOf(h, active); }
    StopPouring(h, active, level, bits, remaining);
    if active < |h| || remaining > 0.0 {
      level := level - Share(remaining, active);
    }
  }

  lemma GapOf(h: seq<real>, active: nat)
    requires Descending(h) && 0 < active < |h|
    ensures RealMax(0.0, h[active - 1] - h[active]) == h[active - 1] - h[active]
  {
  }

  lemma StopPouring(h: seq<real>, active: nat, level: real, bits: real, remaining: real)
    requires Descending(h) && Poured(h, active, level, bits, remaining)
    requires active < |h| ==> remaining + SCORE_TOLERANCE < Cost(active, level - h[active])
    ensures Filled(h, level - Share(remaining, active), bits)
    ensures remaining == 0.0 ==> Share(remaining, active) == 0.0
  {
    if active < |h| {
      DropStops(active, level - h[active], Cost(active, level - h[active]), remaining, Share(remaining, active));
    }
    StopInGap(h, active, level, bits, remaining, Share(remaining, active));
  }

  lemma HigherOrder()
    ensures StrictWeakOrder(Higher)
  {
  }

  /** Budgets in the original coordinate order. Their sum is off the target by tolerances only. */
  method BitBudgets(heights: seq<real>, bits: real) returns (budgets: seq<real>, ghost level: real)
    requires heights != [] && bits >= 0.0
    ensures |budgets| == |heights|
    ensures forall j :: 0 <= j < |budgets| ==> budgets[j] == RealMax(0.0, heights[j] - level)
    ensures forall j :: 0 <= j < |budgets| ==> budgets[j] >= 0.0 && (budgets[j] == 0.0 <==> heights[j] <= level)
    ensures 0.0 <= Sum(Same, budgets) - bits <= (|heights| - 1) as real * SCORE_TOLERANCE
  {
    var sorted := Sort(Higher, heights);
    HigherOrder();
    SortSorted(Higher, heights);
    SortMultiset(Higher, heights);
    var found := FindLevel(sorted, bits);
    level := found;
    budgets := seq(|heights|, j requires 0 <= j < |heights| => RealMax(0.0, heights[j] - found));
    SumPermuted(BudgetAt(level), sorted, heights);
    BudgetsSum(heights, budgets, level);
  }

  lemma {:induction false} BudgetsSum(heights: seq<real>, budgets: seq<real>, level: real)
    requires |budgets| == |heights| && forall j :: 0 <= j < |budgets| ==> budgets[j] == RealMax(0.0, heights[j] - level)
    ensures Sum(Same, budgets) == Sum(BudgetAt(level), heights)
  {
    if heights != [] {
      BudgetsSum(heights[..|heights| - 1], budgets[..|heights| - 1], level);
    }
  }

  /** The source's final check passes for every dimension up to 40000 times the group count. */
  lemma BudgetCheckPasses(dimension: nat, groups: nat, total: real)
    requires dimension > 0 && groups > 0 && dimension - 1 <= 40000 * groups
    requires var bits := 4.0 * groups as real; 0.0 <= total - bits <= (dimension - 1) as real * SCORE_TOLERANCE
    ensures var bits := 4.0 * groups as real; -0.00000001 * RealMax(1.0, bits) <= total - bits <= 0.00000001 * RealMax(1.0, bits)
  {
    assert (dimension - 1) as real <= 40000.0 * groups as real;
  }
}
