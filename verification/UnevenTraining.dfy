/** The layout half of `train` (src/uneven_product_quantizer.cpp): variances, budgets, capacities, assignment, buckets, validation. */
module UnevenTraining {
  import opened Arithmetic
  import opened Outcomes
  import opened Permutations
  import opened WaterFilling
  import opened Variances
  import CP = CapacityPlanner
  import DA = DimensionAssignment
  import UL = UnevenLayout

  datatype Layout = Layout(budgets: seq<real>, groups: seq<seq<nat>>, loads: seq<real>, buckets: seq<UL.Bucket>)

  /** A layout that decoding and lookup tables can rely on. */
  ghost predicate Usable(layout: Layout, d: nat, m: nat, maximum: nat) {
    && |layout.groups| == m
    && multiset(DA.Members(layout.groups)) == multiset(UpTo(d))
    && UL.Tiling(layout.buckets, layout.groups, m)
    && UL.ValidLayout(layout.buckets, m, d, m)
    && (forall g :: 0 <= g < m ==> 1 <= |layout.groups[g]| <= maximum)
    && DA.LoadsOf(DA.Assignment(layout.groups, layout.loads), layout.budgets)
  }

  function MaximumWidth(d: nat, m: nat, maxSubspaceDimension: nat): nat
    requires m > 0
  {
    if maxSubspaceDimension == 0 then (d + m - 1) / m + 2 else maxSubspaceDimension
  }

  predicate BudgetsPreserved(total: real, bits: real) {
    var slack := 0.00000001 * RealMax(1.0, bits);
    -slack <= total - bits <= slack
  }

  /** The groups' loads miss their bits by no more than those of the nearly uniform starting profile would. */
  ghost predicate NoWorseThanUniform(layout: Layout, d: nat, m: nat) {
    forall start :: Starts(start, d, m) ==>
      Sum(DA.Miss(DA.BITS_PER_GROUP), layout.loads) <= DA.MissOf(layout.budgets)(CP.PairWidths(start))
  }

  /** The nearly uniform profile that planning starts from. */
  ghost predicate Starts(start: seq<nat>, d: nat, m: nat) {
    m >= 2 && start == CP.InitialProfile(d / 2, m / 2)
  }

  ghost predicate Planned(miss: CP.PairWidths -> real, pairs: seq<nat>, d: nat, m: nat) {
    forall start :: Starts(start, d, m) ==> miss(CP.PairWidths(pairs)) <= miss(CP.PairWidths(start))
  }

  lemma PlannedLoads(layout: Layout, pairs: seq<nat>, d: nat, m: nat)
    requires Planned(DA.MissOf(layout.budgets), pairs, d, m) && layout.loads == DA.Assigned(pairs, layout.budgets).loads
    ensures NoWorseThanUniform(layout, d, m)
  {
  }

  /** The width limit is below the average width. */
  predicate TooNarrow(d: nat, m: nat, maxSubspaceDimension: nat) {
    m > 0 && 0 < maxSubspaceDimension < (d + m - 1) / m
  }

  /** The layout is the assignment for pair widths that hill climbing from the uniform profile ended with. */
  ghost predicate FromClimb(layout: Layout, pairs: seq<nat>, d: nat, m: nat, maximum: nat) {
    && m >= 2 && DA.Assignment(layout.groups, layout.loads) == DA.Assigned(pairs, layout.budgets)
    && CP.Profile(pairs, m / 2, d / 2, maximum)
    && CP.Climbed(pairs, CP.InitialProfile(d / 2, m / 2), maximum, DA.AssignmentScore(layout.budgets))
  }

  /** Capacities, assignment and buckets for given budgets. */
  method PlanGroups(d: nat, m: nat, maxSubspaceDimension: nat, budgets: seq<real>) returns (r: Result<Layout>, ghost pairs: seq<nat>)
    requires d % 2 == 0 && m % 2 == 0 && 0 < m <= d && |budgets| == d
    ensures r.Ok? ==> Usable(r.value, d, m, MaximumWidth(d, m, maxSubspaceDimension)) && r.value.budgets == budgets
    ensures r.Ok? ==> NoWorseThanUniform(r.value, d, m) && FromClimb(r.value, pairs, d, m, MaximumWidth(d, m, maxSubspaceDimension))
    ensures r.Err? <==> TooNarrow(d, m, maxSubspaceDimension)
    ensures r.Err? ==> r.error == RuntimeError
  {
    DA.RelativeRanks(DA.MissOf(budgets));
    var planned := PlanPairs(d, m, maxSubspaceDimension, DA.MissOf(budgets), DA.AssignmentScore(budgets));
    if planned.Err? {
      return Err(planned.error), [];
    }
    pairs := planned.value;
    r := BuildLayout(d, m, MaximumWidth(d, m, maxSubspaceDimension), planned.value, budgets);
  }

  /** Capacities by a score that ranks them by their miss. */
  method PlanPairs(d: nat, m: nat, maxSubspaceDimension: nat, ghost miss: CP.PairWidths -> real, score: CP.Scoring) returns (r: Result<seq<nat>>)
    requires d % 2 == 0 && m % 2 == 0 && 0 < m <= d && DA.Ranks(score, miss)
    ensures r.Err? <==> TooNarrow(d, m, maxSubspaceDimension)
    ensures r.Err? ==> r.error == RuntimeError
    ensures r.Ok? ==> CP.Profile(r.value, m / 2, d / 2, MaximumWidth(d, m, maxSubspaceDimension))
    ensures r.Ok? ==> Planned(miss, r.value, d, m)
    ensures r.Ok? ==> CP.Climbed(r.value, CP.InitialProfile(d / 2, m / 2), MaximumWidth(d, m, maxSubspaceDimension), score)
  {
    ghost var passes;
    r, passes := CP.PlanPairedCapacities(d, m, maxSubspaceDimension, score);
  }

  /** The final assignment and its buckets; every check on them passes. */
  method BuildLayout(d: nat, m: nat, maximum: nat, pairs: seq<nat>, budgets: seq<real>) returns (r: Result<Layout>)
    requires d % 2 == 0 && m % 2 == 0 && |budgets| == d && CP.Profile(pairs, m / 2, d / 2, maximum)
    requires Planned(DA.MissOf(budgets), pairs, d, m)
    ensures r.Ok? && Usable(r.value, d, m, maximum) && r.value.budgets == budgets
    ensures NoWorseThanUniform(r.value, d, m) && DA.Assignment(r.value.groups, r.value.loads) == DA.Assigned(pairs, budgets)
  {
    var assignment, greedy, order, groups := DA.AssignGroups(pairs, budgets);
    UL.CompleteIsPaired(assignment, pairs, budgets);
    GroupSizes(assignment, pairs, DA.GroupCapacities(pairs), budgets, maximum);
    var built := UL.BuildBuckets(assignment.dimensions);
    UL.BuiltLayoutValid(built.value, assignment.dimensions, d);
    var valid := UL.ValidateLayout(built.value, |assignment.dimensions|, d, m);
    assert valid.Ok?;
    var layout := Layout(budgets, assignment.dimensions, assignment.loads, built.value);
    PlannedLoads(layout, pairs, d, m);
    return Ok(layout);
  }

  ghost predicate NothingVaries(x: seq<seq<real>>, d: nat) {
    x == [] || forall j :: 0 <= j < d ==> Constant(x, j)
  }

  /** A coordinate that varies more never gets fewer bits. */
  ghost predicate DemandOrdered(x: seq<seq<real>>, d: nat, budgets: seq<real>) {
    x != [] && |budgets| == d &&
    forall i, j :: 0 <= i < d && 0 <= j < d && Variance(x, i) <= Variance(x, j) ==> budgets[i] <= budgets[j]
  }

  ghost predicate StrictlyMonotone(f: real -> real) {
    forall a, b :: 0.0 < a < b ==> f(a) < f(b)
  }

  /** The bits of the groups, up to the tolerance of the source's check. */
  ghost predicate SpendsBits(total: real, m: nat) {
    var bits := 4.0 * m as real;
    -0.00000001 * bits <= total - bits <= 0.00000001 * bits
  }

  lemma PreservedSpends(total: real, m: nat)
    requires m > 0
    ensures BudgetsPreserved(total, DA.BITS_PER_GROUP * m as real) ==> SpendsBits(total, m)
  {
  }

  /** Heights above one common level, which spends four bits a group on all coordinates together. */
  ghost predicate LevelBudgets(x: seq<seq<real>>, d: nat, m: nat, log2: real -> real, budgets: seq<real>) {
    && x != [] && |budgets| == d && SpendsBits(Sum(Same, budgets), m)
    && exists heights, level: real :: HeightsAre(x, d, log2, heights) && AboveLevel(heights, level, budgets)
  }

  ghost predicate AboveLevel(heights: seq<real>, level: real, budgets: seq<real>) {
    |budgets| == |heights| && forall j :: 0 <= j < |heights| ==> budgets[j] == if heights[j] > level then heights[j] - level else 0.0
  }

  /** Coordinates that get bits, both off the floor, differ by half the difference of their logarithms. */
  ghost predicate BudgetsSpread(x: seq<seq<real>>, d: nat, log2: real -> real, budgets: seq<real>)
    requires x != [] && |budgets| == d
  {
    forall i, j :: 0 <= i < d && 0 <= j < d && Unfloored(x, d, i) && Unfloored(x, d, j) && budgets[i] > 0.0 && budgets[j] > 0.0 ==>
      budgets[i] - budgets[j] == 0.5 * (log2(Variance(x, i)) - log2(Variance(x, j)))
  }

  /** Of two coordinates off the floor the one that varies more gets more bits, unless neither gets any. */
  ghost predicate StrictlyDemanded(x: seq<seq<real>>, d: nat, budgets: seq<real>)
    requires x != [] && |budgets| == d
  {
    forall i, j :: 0 <= i < d && 0 <= j < d && Unfloored(x, d, i) && Unfloored(x, d, j) ==>
      Variance(x, i) < Variance(x, j) && budgets[j] > 0.0 ==> budgets[i] < budgets[j]
  }

  lemma LevelsSpread(x: seq<seq<real>>, d: nat, log2: real -> real, heights: seq<real>, level: real, budgets: seq<real>)
    requires x != [] && HeightsAre(x, d, log2, heights) && AboveLevel(heights, level, budgets)
    requires exists j :: 0 <= j < d && !Constant(x, j)
    ensures BudgetsSpread(x, d, log2, budgets)
    ensures Monotone(log2) && (forall i, j :: 0 <= i < d && 0 <= j < d && Variance(x, i) <= Variance(x, j) ==> heights[i] <= heights[j]) ==>
      DemandOrdered(x, d, budgets)
    ensures StrictlyMonotone(log2) ==> StrictlyDemanded(x, d, budgets)
  {
    forall i | 0 <= i < d && Unfloored(x, d, i) ensures Variance(x, i) > 0.0 {
      var j :| 0 <= j < d && !Constant(x, j);
      VarianceVanishes(x, j);
      assert Variance(x, i) >= 0.000000000001 * Variance(x, j);
    }
  }

  /** What the training rows decide about the budgets. */
  ghost predicate Demanded(x: seq<seq<real>>, d: nat, m: nat, log2: real -> real, budgets: seq<real>) {
    && LevelBudgets(x, d, m, log2, budgets) && BudgetsSpread(x, d, log2, budgets)
    && (Monotone(log2) ==> DemandOrdered(x, d, budgets))
    && (StrictlyMonotone(log2) ==> StrictlyDemanded(x, d, budgets))
  }

  lemma CheckPasses(d: nat, m: nat, total: real, bits: real)
    requires 0 < m <= d && bits == DA.BITS_PER_GROUP * m as real && 0.0 <= total - bits <= (d - 1) as real * SCORE_TOLERANCE
    ensures d - 1 <= 40000 * m ==> BudgetsPreserved(total, bits)
    ensures BudgetsPreserved(total, bits) ==> SpendsBits(total, m)
  {
    if d - 1 <= 40000 * m { BudgetCheckPasses(d, m, total); }
    PreservedSpends(total, m);
  }

  lemma BudgetsDemanded(x: seq<seq<real>>, d: nat, m: nat, log2: real -> real, heights: seq<real>, level: real, budgets: seq<real>)
    requires x != [] && HeightsAre(x, d, log2, heights) && AboveLevel(heights, level, budgets) && SpendsBits(Sum(Same, budgets), m)
    requires exists j :: 0 <= j < d && !Constant(x, j)
    requires Monotone(log2) ==> forall i, j :: 0 <= i < d && 0 <= j < d && Variance(x, i) <= Variance(x, j) ==> heights[i] <= heights[j]
    ensures Demanded(x, d, m, log2, budgets)
  {
    LevelsSpread(x, d, log2, heights, level, budgets);
  }

  /** Heights, level and budgets from the training rows. */
  method PlanBudgets(d: nat, m: nat, x: seq<seq<real>>, log2: real -> real) returns (r: Result<seq<real>>)
    requires 0 < m <= d && Rectangular(x, d)
    ensures r.Ok? ==> Demanded(x, d, m, log2, r.value)
    ensures NothingVaries(x, d) ==> r.Err?
    ensures r.Err? && d - 1 <= 40000 * m ==> NothingVaries(x, d)
    ensures r.Err? ==> r.error == RuntimeError
  {
    var heights := ComputeHeights(x, d, log2);
    if heights.Err? {
      return Err(heights.error);
    }
    var bits := DA.BITS_PER_GROUP * m as real;
    var budgets, level := BitBudgets(heights.value, bits);
    CheckPasses(d, m, Sum(Same, budgets), bits);
    if !BudgetsPreserved(Sum(Same, budgets), bits) {
      return Err(RuntimeError);
    }
    BudgetsDemanded(x, d, m, log2, heights.value, level, budgets);
    return Ok(budgets);
  }

  /**
   Planning from the training rows fails only on rows that do not vary, on a width limit below the average width,
   or on more than 40000 coordinates a group; every later check, down to the final validation, passes.
   */
  method PlanLayout(d: nat, m: nat, maxSubspaceDimension: nat, x: seq<seq<real>>, log2: real -> real)
    returns (r: Result<Layout>, ghost pairs: seq<nat>)
    requires d % 2 == 0 && m % 2 == 0 && 0 < m <= d && Rectangular(x, d)
    ensures r.Ok? ==> Usable(r.value, d, m, MaximumWidth(d, m, maxSubspaceDimension)) && NoWorseThanUniform(r.value, d, m)
    ensures r.Ok? ==> Demanded(x, d, m, log2, r.value.budgets)
    ensures r.Ok? ==> FromClimb(r.value, pairs, d, m, MaximumWidth(d, m, maxSubspaceDimension))
    ensures TooNarrow(d, m, maxSubspaceDimension) || NothingVaries(x, d) ==> r.Err?
    ensures r.Err? && d - 1 <= 40000 * m ==> TooNarrow(d, m, maxSubspaceDimension) || NothingVaries(x, d)
    ensures r.Err? ==> r.error == RuntimeError
  {
    var budgets := PlanBudgets(d, m, x, log2);
    if budgets.Err? {
      return Err(budgets.error), [];
    }
    r, pairs := PlanGroups(d, m, maxSubspaceDimension, budgets.value);
  }

  lemma GroupSizes(a: DA.Assignment, pairs: seq<nat>, capacities: seq<nat>, budgets: seq<real>, maximum: nat)
    requires CP.Ordered(pairs) && forall i :: 0 <= i < |pairs| ==> 1 <= pairs[i] <= maximum
    requires DA.Complete(a, capacities, budgets) && capacities == DA.GroupCapacities(pairs)
    ensures |a.dimensions| == 2 * |pairs| && forall g :: 0 <= g < |a.dimensions| ==> 1 <= |a.dimensions[g]| <= maximum
  {
    CP.DoubledSorted(pairs);
    WidthsWithin(a.dimensions, pairs, maximum);
  }

  lemma WidthsWithin(groups: seq<seq<nat>>, pairs: seq<nat>, maximum: nat)
    requires |groups| == 2 * |pairs| && forall i :: 0 <= i < |pairs| ==> 1 <= pairs[i] <= maximum
    requires forall g :: 0 <= g < |groups| ==> |groups[g]| == CP.Doubled(pairs)[g]
    ensures forall g :: 0 <= g < |groups| ==> 1 <= |groups[g]| <= maximum
  {
    forall g | 0 <= g < |groups| ensures 1 <= |groups[g]| <= maximum {
      DoubledEntry(pairs, g / 2, g);
    }
  }

  lemma DoubledEntry(pairs: seq<nat>, k: nat, g: nat)
    requires k < |pairs| && (g == 2 * k || g == 2 * k + 1)
    ensures CP.Doubled(pairs)[g] == pairs[k]
  {
    CP.DoubledAt(pairs, k);
  }
}
