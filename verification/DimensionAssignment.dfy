/**
 Assigning dimensions to groups of given capacities (`assign_dimensions` of src/uneven_product_quantizer.cpp):
 largest demand first into the lightest group with room, then the best swaps.
 */
module DimensionAssignment {
  import opened Arithmetic
  import opened Sorting
  import opened Permutations
  import opened CapacityPlanner

  /** A change must be below this to count as an improvement. */
  const NO_GAIN: real := -SCORE_TOLERANCE

  datatype Assignment = Assignment(dimensions: seq<seq<nat>>, loads: seq<real>)

  function BudgetOf(budgets: seq<real>): nat -> real {
    (i: nat) => if i < |budgets| then budgets[i] else 0.0
  }

  function Whole(group: seq<nat>): seq<nat> {
    group
  }

  /** All dimensions that have been assigned, group by group. */
  function Members(groups: seq<seq<nat>>): seq<nat> {
    FlatMap(Whole, groups)
  }

  ghost predicate LoadsOf(a: Assignment, budgets: seq<real>) {
    |a.loads| == |a.dimensions| && forall g :: 0 <= g < |a.loads| ==> a.loads[g] == Sum(BudgetOf(budgets), a.dimensions[g])
  }

  ghost predicate Within(a: Assignment, capacities: seq<nat>) {
    |a.dimensions| == |capacities| && forall g :: 0 <= g < |capacities| ==> |a.dimensions[g]| <= capacities[g]
  }

  /** A complete assignment: every dimension in exactly one group, every group exactly full, loads as recorded. */
  ghost predicate Complete(a: Assignment, capacities: seq<nat>, budgets: seq<real>) {
    && LoadsOf(a, budgets)
    && multiset(Members(a.dimensions)) == multiset(UpTo(|budgets|))
    && |a.dimensions| == |capacities|
    && (forall g :: 0 <= g < |capacities| ==> |a.dimensions[g]| == capacities[g])
  }

  // ---------------------------------------------------------------- filling the groups

  function Magnitude(x: real): real {
    if x < 0.0 then -x else x
  }

  predicate AlmostEqual(a: real, b: real) {
    var scale := if Magnitude(a) > Magnitude(b) then Magnitude(a) else Magnitude(b);
    Magnitude(a - b) <= 0.000000000001 * (if scale > 1.0 then scale else 1.0)
  }

  /** Whether a group with room is preferred to the best one so far. */
  predicate Preferred(loads: seq<real>, capacities: seq<nat>, group: nat, best: nat)
    requires group < |loads| == |capacities| && best < |loads|
  {
    || loads[group] < loads[best]
    || (AlmostEqual(loads[group], loads[best])
        && (capacities[group] < capacities[best] || (capacities[group] == capacities[best] && group < best)))
  }

  predicate HasRoom(a: Assignment, capacities: seq<nat>, group: nat)
    requires group < |a.dimensions| == |capacities|
  {
    |a.dimensions[group]| < capacities[group]
  }

  lemma {:induction false} FullTotal(groups: seq<seq<nat>>, capacities: seq<nat>)
    requires |groups| == |capacities| && forall g :: 0 <= g < |groups| ==> |groups[g]| <= capacities[g]
    ensures |Members(groups)| <= Total(capacities)
    ensures |Members(groups)| == Total(capacities) <==> forall g :: 0 <= g < |groups| ==> |groups[g]| == capacities[g]
  {
    if groups != [] {
      var n := |groups| - 1;
      FullTotal(groups[..n], capacities[..n]);
      assert Whole(groups[n]) == groups[n];
      assert (forall g :: 0 <= g < |groups| ==> |groups[g]| == capacities[g]) <==>
        |groups[n]| == capacities[n] && forall g :: 0 <= g < n ==> |groups[..n][g]| == capacities[..n][g];
    }
  }

  /** The scan over the first `n` groups; `|capacities|` while none of them has room. */
  function ChosenGroup(a: Assignment, capacities: seq<nat>, n: nat): (best: nat)
    requires |a.dimensions| == |a.loads| == |capacities| && n <= |capacities|
    ensures best < n || best == |capacities|
    ensures best < |capacities| ==> HasRoom(a, capacities, best)
    ensures best == |capacities| ==> forall g :: 0 <= g < n ==> !HasRoom(a, capacities, g)
  {
    if n == 0 then |capacities| else
      var best := ChosenGroup(a, capacities, n - 1);
      if HasRoom(a, capacities, n - 1) && (best == |capacities| || Preferred(a.loads, capacities, n - 1, best)) then n - 1 else best
  }

  /** While dimensions remain some group has room, so the scan finds one. */
  lemma RoomRemains(a: Assignment, capacities: seq<nat>)
    requires Within(a, capacities) && |a.loads| == |capacities| && |Members(a.dimensions)| < Total(capacities)
    ensures ChosenGroup(a, capacities, |capacities|) < |capacities|
  {
    FullTotal(a.dimensions, capacities);
    var g :| 0 <= g < |capacities| && |a.dimensions[g]| != capacities[g];
    assert HasRoom(a, capacities, g);
  }

  ghost predicate RoomIn(a: Assignment, capacities: seq<nat>, g: nat) {
    g < |a.dimensions| && g < |a.loads| && g < |capacities| && |a.dimensions[g]| < capacities[g]
  }

  /** The loads differ by at most 1e-12, absolutely or relative to one of them. */
  ghost predicate Close(x: real, y: real) {
    var d, t := if x < y then y - x else x - y, 0.000000000001;
    d <= t || d <= t * x || d <= t * -x || d <= t * y || d <= t * -y
  }

  /** Among the groups with room only equal loads are close. */
  ghost predicate Clear(a: Assignment, capacities: seq<nat>) {
    forall g: nat, h: nat :: RoomIn(a, capacities, g) && RoomIn(a, capacities, h) && Close(a.loads[g], a.loads[h]) ==> a.loads[g] == a.loads[h]
  }

  ghost predicate Sized(loads: seq<real>, size: real) {
    size >= 1.0 && forall g :: 0 <= g < |loads| ==> -size <= loads[g] <= size
  }

  /** Heavier by at most so many tolerances at the size of the loads. */
  ghost predicate DriftedBy(lighter: real, heavier: real, steps: nat, loads: seq<real>) {
    forall size: real :: Sized(loads, size) ==> heavier <= lighter + steps as real * (0.000000000001 * size)
  }

  /**
   The group for the next dimension has room. No later group with room has a smaller load, or a close one and a
   smaller capacity; an earlier one has a smaller load by at most one tolerance for every group in between. Without
   close but different loads it is the first group of the least capacity among the lightest.
   */
  ghost predicate LightestWithRoom(a: Assignment, capacities: seq<nat>, best: nat) {
    && RoomIn(a, capacities, best)
    && (forall g: nat :: best < g && RoomIn(a, capacities, g) ==>
          a.loads[best] <= a.loads[g] && (Close(a.loads[best], a.loads[g]) ==> capacities[best] <= capacities[g]))
    && (forall g: nat :: g < best && RoomIn(a, capacities, g) ==> DriftedBy(a.loads[g], a.loads[best], best - g, a.loads))
    && (Clear(a, capacities) ==> forall g: nat :: g != best && RoomIn(a, capacities, g) ==>
          || a.loads[best] < a.loads[g]
          || (a.loads[best] == a.loads[g] && (capacities[best] < capacities[g] || (capacities[best] == capacities[g] && best < g))))
  }

  lemma AlmostEqualIsClose(x: real, y: real)
    ensures AlmostEqual(x, y) <==> Close(x, y)
    ensures Close(x, y) <==> Close(y, x)
  {
  }

  lemma PreferredPlainly(a: Assignment, capacities: seq<nat>, g: nat, best: nat)
    requires g < |a.loads| == |capacities| && best < |a.loads|
    ensures Preferred(a.loads, capacities, g, best) <==>
      || a.loads[g] < a.loads[best]
      || (Close(a.loads[g], a.loads[best]) && (capacities[g] < capacities[best] || (capacities[g] == capacities[best] && g < best)))
  {
    AlmostEqualIsClose(a.loads[g], a.loads[best]);
  }

  lemma CloseBound(x: real, y: real, size: real)
    requires Close(x, y) && size >= 1.0 && -size <= x <= size && -size <= y <= size
    ensures x <= y + 0.000000000001 * size
  {
  }

  ghost function Steps(n: nat, step: real): real {
    if n == 0 then 0.0 else Steps(n - 1, step) + step
  }

  lemma {:induction false} StepsIs(n: nat, step: real)
    ensures Steps(n, step) == n as real * step
  {
    if n > 0 {
      StepsIs(n - 1, step);
      assert n as real * step == (n - 1) as real * step + step;
    }
  }

  lemma {:induction false} StepsGrow(n: nat, k: nat, step: real)
    requires n <= k && step >= 0.0
    ensures Steps(n, step) <= Steps(k, step)
  {
    if n < k { StepsGrow(n, k - 1, step); }
  }

  ghost function StepsFrom(g: nat, best: nat, step: real): real {
    if best < g then 0.0 else Steps(best - g, step)
  }

  lemma FurtherSteps(g: nat, before: nat, best: nat, step: real)
    requires g <= best && before < best && step >= 0.0
    ensures StepsFrom(g, before, step) <= StepsFrom(g, best, step)
    ensures g < best ==> StepsFrom(g, before, step) + step <= StepsFrom(g, best, step)
  {
    if g < best {
      StepsGrow(if before < g then 0 else before - g, best - g - 1, step);
    }
  }

  /** The running choice among the first `n` groups drifts by at most a tolerance a group. */
  lemma {:induction false} ChoiceDrifts(a: Assignment, capacities: seq<nat>, n: nat, g: nat, size: real, step: real)
    requires |a.dimensions| == |a.loads| == |capacities| && g < n <= |capacities| && RoomIn(a, capacities, g) && Sized(a.loads, size)
    requires step == 0.000000000001 * size
    ensures var best := ChosenGroup(a, capacities, n);
      best < n && a.loads[best] <= a.loads[g] + StepsFrom(g, best, step)
  {
    var before := ChosenGroup(a, capacities, n - 1);
    if before < |capacities| { ChoiceMoves(a, capacities, n - 1, before, size); }
    if g < n - 1 {
      ChoiceDrifts(a, capacities, n - 1, g, size, step);
      FurtherSteps(g, before, n - 1, step);
    }
  }

  /** A new choice is at most a tolerance heavier; a group passed over is no lighter. */
  lemma ChoiceMoves(a: Assignment, capacities: seq<nat>, g: nat, best: nat, size: real)
    requires g < |a.loads| == |capacities| && best < |a.loads| && Sized(a.loads, size)
    ensures Preferred(a.loads, capacities, g, best) ==> a.loads[g] <= a.loads[best] + 0.000000000001 * size
    ensures !Preferred(a.loads, capacities, g, best) ==> a.loads[best] <= a.loads[g]
  {
    PreferredPlainly(a, capacities, g, best);
    if Close(a.loads[g], a.loads[best]) { CloseBound(a.loads[g], a.loads[best], size); }
  }

  /** Without close but different loads the running choice is the first of the least in load and capacity. */
  lemma {:induction false} ChoiceLeast(a: Assignment, capacities: seq<nat>, n: nat, g: nat)
    requires |a.dimensions| == |a.loads| == |capacities| && g < n <= |capacities| && RoomIn(a, capacities, g) && Clear(a, capacities)
    ensures var best := ChosenGroup(a, capacities, n);
      && RoomIn(a, capacities, best)
      && (g == best || a.loads[best] < a.loads[g]
          || (a.loads[best] == a.loads[g] && (capacities[best] < capacities[g] || (capacities[best] == capacities[g] && best < g))))
  {
    var before := ChosenGroup(a, capacities, n - 1);
    if before < |capacities| { PreferredPlainly(a, capacities, n - 1, before); }
    if g < n - 1 {
      ChoiceLeast(a, capacities, n - 1, g);
    }
    if before < |capacities| && RoomIn(a, capacities, n - 1) && a.loads[before] == a.loads[n - 1] {
      assert Close(a.loads[n - 1], a.loads[before]);
    }
  }

  lemma {:induction false} LaterBeaten(a: Assignment, capacities: seq<nat>, n: nat, g: nat)
    requires |a.dimensions| == |a.loads| == |capacities| && n <= |capacities|
    requires ChosenGroup(a, capacities, n) < g < n && RoomIn(a, capacities, g)
    ensures !Preferred(a.loads, capacities, g, ChosenGroup(a, capacities, n))
  {
    if g < n - 1 { LaterBeaten(a, capacities, n - 1, g); }
  }

  lemma NoneLaterLighter(a: Assignment, capacities: seq<nat>, g: nat)
    requires |a.dimensions| == |a.loads| == |capacities| && ChosenGroup(a, capacities, |capacities|) < g && RoomIn(a, capacities, g)
    ensures var best := ChosenGroup(a, capacities, |capacities|);
      a.loads[best] <= a.loads[g] && (Close(a.loads[best], a.loads[g]) ==> capacities[best] <= capacities[g])
  {
    var best := ChosenGroup(a, capacities, |capacities|);
    LaterBeaten(a, capacities, |capacities|, g);
    PreferredPlainly(a, capacities, g, best);
    AlmostEqualIsClose(a.loads[best], a.loads[g]);
  }

  lemma EarlierDrift(a: Assignment, capacities: seq<nat>, g: nat)
    requires |a.dimensions| == |a.loads| == |capacities| && g < ChosenGroup(a, capacities, |capacities|) < |capacities|
    requires RoomIn(a, capacities, g)
    ensures var best := ChosenGroup(a, capacities, |capacities|); DriftedBy(a.loads[g], a.loads[best], best - g, a.loads)
  {
    var best := ChosenGroup(a, capacities, |capacities|);
    forall size: real | Sized(a.loads, size) ensures a.loads[best] <= a.loads[g] + (best - g) as real * (0.000000000001 * size) {
      ChoiceDrifts(a, capacities, |capacities|, g, size, 0.000000000001 * size);
      StepsIs(best - g, 0.000000000001 * size);
    }
  }

  /** What the scan chooses, in plain terms. */
  lemma ChosenIsLightest(a: Assignment, capacities: seq<nat>)
    requires |a.dimensions| == |a.loads| == |capacities| && ChosenGroup(a, capacities, |capacities|) < |capacities|
    ensures LightestWithRoom(a, capacities, ChosenGroup(a, capacities, |capacities|))
  {
    var best := ChosenGroup(a, capacities, |capacities|);
    forall g: nat | best < g && RoomIn(a, capacities, g)
      ensures a.loads[best] <= a.loads[g] && (Close(a.loads[best], a.loads[g]) ==> capacities[best] <= capacities[g])
    {
      NoneLaterLighter(a, capacities, g);
    }
    forall g: nat | g < best && RoomIn(a, capacities, g) ensures DriftedBy(a.loads[g], a.loads[best], best - g, a.loads) {
      EarlierDrift(a, capacities, g);
    }
    if Clear(a, capacities) {
      forall g: nat | g != best && RoomIn(a, capacities, g)
        ensures || a.loads[best] < a.loads[g]
                || (a.loads[best] == a.loads[g] && (capacities[best] < capacities[g] || (capacities[best] == capacities[g] && best < g)))
      {
        ChoiceLeast(a, capacities, |capacities|, g);
      }
    }
  }

  /** The last of the lightest groups with room. */
  ghost predicate LastLightest(a: Assignment, capacities: seq<nat>, p: nat) {
    && RoomIn(a, capacities, p)
    && (forall g: nat :: RoomIn(a, capacities, g) ==> a.loads[p] <= a.loads[g])
    && (forall g: nat :: p < g && RoomIn(a, capacities, g) ==> a.loads[p] < a.loads[g])
  }

  lemma LightWhenReached(a: Assignment, capacities: seq<nat>, p: nat)
    requires |a.dimensions| == |a.loads| == |capacities| && LastLightest(a, capacities, p)
    ensures ChosenGroup(a, capacities, p + 1) <= p && a.loads[ChosenGroup(a, capacities, p + 1)] == a.loads[p]
  {
    var before := ChosenGroup(a, capacities, p);
    if before < |capacities| {
      assert RoomIn(a, capacities, before);
      PreferredPlainly(a, capacities, p, before);
    }
  }

  /** No group with room among those from the lightest on is close to it and has less capacity than the choice so far. */
  ghost predicate NoneTempts(a: Assignment, capacities: seq<nat>, p: nat, n: nat)
    requires |a.dimensions| == |a.loads| == |capacities| && LastLightest(a, capacities, p) && ChosenGroup(a, capacities, p + 1) <= p
  {
    forall g: nat :: p < g < n && RoomIn(a, capacities, g) && Close(a.loads[g], a.loads[p]) ==>
      capacities[g] >= capacities[ChosenGroup(a, capacities, p + 1)]
  }

  lemma {:induction false} StaysLight(a: Assignment, capacities: seq<nat>, p: nat, n: nat)
    requires |a.dimensions| == |a.loads| == |capacities| && LastLightest(a, capacities, p) && p < n <= |capacities|
    requires ChosenGroup(a, capacities, p + 1) <= p && a.loads[ChosenGroup(a, capacities, p + 1)] == a.loads[p]
    ensures RoomIn(a, capacities, ChosenGroup(a, capacities, n))
    ensures NoneTempts(a, capacities, p, n) ==> ChosenGroup(a, capacities, n) == ChosenGroup(a, capacities, p + 1)
    ensures !NoneTempts(a, capacities, p, n) ==> a.loads[ChosenGroup(a, capacities, n)] > a.loads[p]
  {
    if p + 1 < n {
      StaysLight(a, capacities, p, n - 1);
      PreferredPlainly(a, capacities, n - 1, ChosenGroup(a, capacities, n - 1));
      var tempted := RoomIn(a, capacities, n - 1) && Close(a.loads[n - 1], a.loads[p])
                     && capacities[n - 1] < capacities[ChosenGroup(a, capacities, p + 1)];
      assert NoneTempts(a, capacities, p, n) <==> NoneTempts(a, capacities, p, n - 1) && !tempted;
    }
  }

  /** The chosen group is a lightest one exactly if no later group with room has a close load and less capacity than the choice so far. */
  lemma LightestExactly(a: Assignment, capacities: seq<nat>, p: nat)
    requires |a.dimensions| == |a.loads| == |capacities| && LastLightest(a, capacities, p)
    ensures ChosenGroup(a, capacities, p + 1) <= p && ChosenGroup(a, capacities, |capacities|) < |capacities|
    ensures a.loads[ChosenGroup(a, capacities, |capacities|)] == a.loads[p] <==> NoneTempts(a, capacities, p, |capacities|)
  {
    LightWhenReached(a, capacities, p);
    StaysLight(a, capacities, p, |capacities|);
  }

  /** Close loads can add up: the choice need not be close to the lightest group with room. */
  lemma CloseLoadsDrift()
    ensures var a := Assignment([[], [], []], [0.0, 0.0000000000009, 0.0000000000018]);
      && ChosenGroup(a, [4, 3, 2], 3) == 2 && RoomIn(a, [4, 3, 2], 0)
      && a.loads[0] < a.loads[2] && !Close(a.loads[0], a.loads[2])
  {
    var a, capacities := Assignment([[], [], []], [0.0, 0.0000000000009, 0.0000000000018]), [4, 3, 2];
    assert ChosenGroup(a, capacities, 0) == 3;
    assert ChosenGroup(a, capacities, 1) == 0;
    PreferredPlainly(a, capacities, 1, 0);
    assert ChosenGroup(a, capacities, 2) == 1;
    PreferredPlainly(a, capacities, 2, 1);
  }

  /** While dimensions remain some group has room; the lightest is found. */
  method BestGroup(a: Assignment, capacities: seq<nat>) returns (best: nat)
    requires Within(a, capacities) && |a.loads| == |capacities| && |Members(a.dimensions)| < Total(capacities)
    ensures best == ChosenGroup(a, capacities, |capacities|) && LightestWithRoom(a, capacities, best)
  {
    best := |capacities|;
    RoomRemains(a, capacities);
    for group := 0 to |capacities|
      invariant best == ChosenGroup(a, capacities, group)
    {
      if HasRoom(a, capacities, group) && (best == |capacities| || Preferred(a.loads, capacities, group, best)) {
        best := group;
      }
    }
    ChosenIsLightest(a, capacities);
  }

  function Place(a: Assignment, group: nat, dimension: nat, budget: real): Assignment
    requires group < |a.dimensions| == |a.loads|
  {
    Assignment(a.dimensions[group := a.dimensions[group] + [dimension]], a.loads[group := a.loads[group] + budget])
  }

  lemma PlaceStep(a: Assignment, capacities: seq<nat>, budgets: seq<real>, group: nat, dimension: nat)
    requires LoadsOf(a, budgets) && Within(a, capacities) && group < |capacities| && HasRoom(a, capacities, group)
    requires dimension < |budgets|
    ensures var next := Place(a, group, dimension, budgets[dimension]);
      && LoadsOf(next, budgets) && Within(next, capacities)
      && multiset(Members(next.dimensions)) == multiset(Members(a.dimensions)) + multiset{dimension}
      && |Members(next.dimensions)| == |Members(a.dimensions)| + 1
  {
    var grown := a.dimensions[group] + [dimension];
    SumConcat(BudgetOf(budgets), a.dimensions[group], [dimension]);
    SumOne(BudgetOf(budgets), dimension);
    GroupUpdated(a.dimensions, group, grown);
    assert multiset(grown) == multiset(a.dimensions[group]) + multiset{dimension};
    var next := a.dimensions[group := grown];
    MultisetCancel(multiset(Members(next)), multiset(Members(a.dimensions)), multiset(a.dimensions[group]), multiset{dimension});
  }

  function MoreDemand(budgets: seq<real>): (nat, nat) -> bool {
    (a: nat, b: nat) => BudgetOf(budgets)(a) > BudgetOf(budgets)(b) || (BudgetOf(budgets)(a) == BudgetOf(budgets)(b) && a < b)
  }

  lemma {:induction false} EmptyGroups(m: nat, budgets: seq<real>)
    ensures Members(seq(m, _ => [])) == []
  {
    if m > 0 {
      EmptyGroups(m - 1, budgets);
      var none: seq<nat> := [];
      assert seq(m, _ => none)[..m - 1] == seq(m - 1, _ => none);
      assert Whole(none) == [];
    }
  }

  function NoGroups(m: nat): Assignment {
    Assignment(seq(m, _ => []), seq(m, _ => 0.0))
  }

  /** The dimensions in the given order, each into the group chosen for it. */
  function Greedy(capacities: seq<nat>, budgets: seq<real>, order: seq<nat>): (a: Assignment)
    ensures |a.dimensions| == |a.loads| == |capacities|
  {
    if order == [] then NoGroups(|capacities|) else
      var a, x := Greedy(capacities, budgets, order[..|order| - 1]), order[|order| - 1];
      var group := ChosenGroup(a, capacities, |capacities|);
      if group < |capacities| then Place(a, group, x, BudgetOf(budgets)(x)) else a
  }

  /** Dimensions by falling demand, equal demands by number. */
  function DemandOrder(budgets: seq<real>): (order: seq<nat>)
    ensures |order| == |budgets|
  {
    Sort<nat>(MoreDemand(budgets), UpTo(|budgets|))
  }

  /** All dimensions, the larger demand first and equal demands by number. */
  ghost predicate FallingDemand(order: seq<nat>, budgets: seq<real>) {
    && |order| == |budgets| && (forall x: nat :: x in order <==> x < |budgets|)
    && forall i, j :: 0 <= i < j < |order| ==>
         order[i] < |budgets| && order[j] < |budgets|
         && (budgets[order[i]] > budgets[order[j]] || (budgets[order[i]] == budgets[order[j]] && order[i] < order[j]))
  }

  lemma MoreDemandIs(budgets: seq<real>, a: nat, b: nat)
    requires a < |budgets| && b < |budgets|
    ensures MoreDemand(budgets)(a, b) <==> budgets[a] > budgets[b] || (budgets[a] == budgets[b] && a < b)
  {
    assert BudgetOf(budgets)(a) == budgets[a] && BudgetOf(budgets)(b) == budgets[b];
  }

  lemma DemandFalls(budgets: seq<real>)
    ensures FallingDemand(DemandOrder(budgets), budgets)
  {
    var all, lt := UpTo(|budgets|), MoreDemand(budgets);
    assert StrictWeakOrder<nat>(lt);
    assert Untied<nat>(lt, all);
    SortStrict<nat>(lt, all);
    var order := DemandOrder(budgets);
    forall x: nat ensures x in order <==> x < |budgets| {
      SortMembers<nat>(lt, all, x);
      if x < |budgets| { assert all[x] == x; }
    }
    forall i | 0 <= i < |order| ensures order[i] < |budgets| { OrderedDimension(budgets, i); }
    forall i, j | 0 <= i < j < |order|
      ensures budgets[order[i]] > budgets[order[j]] || (budgets[order[i]] == budgets[order[j]] && order[i] < order[j])
    {
      OrderedDimension(budgets, i);
      OrderedDimension(budgets, j);
      assert lt(order[i], order[j]);
      MoreDemandIs(budgets, order[i], order[j]);
    }
  }

  /** What a group has received in the first `n` turns. */
  ghost function Received(order: seq<nat>, groups: seq<nat>, g: nat, n: nat): seq<nat>
    requires n <= |order| == |groups|
  {
    if n == 0 then [] else Received(order, groups, g, n - 1) + (if groups[n - 1] == g then [order[n - 1]] else [])
  }

  ghost function AfterTurns(m: nat, budgets: seq<real>, order: seq<nat>, groups: seq<nat>, n: nat): Assignment
    requires n <= |order| == |groups|
  {
    Assignment(seq(m, g requires 0 <= g => Received(order, groups, g, n)),
               seq(m, g requires 0 <= g => Sum(BudgetOf(budgets), Received(order, groups, g, n))))
  }

  /** One dimension after the other, the largest demand first, each into the lightest group that then has room. */
  ghost predicate FilledInTurn(a: Assignment, capacities: seq<nat>, budgets: seq<real>, order: seq<nat>, groups: seq<nat>) {
    && FallingDemand(order, budgets) && |groups| == |order|
    && (forall i :: 0 <= i < |order| ==> LightestWithRoom(AfterTurns(|capacities|, budgets, order, groups, i), capacities, groups[i]))
    && a == AfterTurns(|capacities|, budgets, order, groups, |order|)
  }

  /** Placing in the order of the turns is what the turns say. */
  lemma TurnTaken(a: Assignment, m: nat, budgets: seq<real>, order: seq<nat>, groups: seq<nat>, i: nat)
    requires i < |order| == |groups| && groups[i] < m && a == AfterTurns(m, budgets, order, groups, i)
    ensures Place(a, groups[i], order[i], BudgetOf(budgets)(order[i])) == AfterTurns(m, budgets, order, groups, i + 1)
  {
    var next, after := Place(a, groups[i], order[i], BudgetOf(budgets)(order[i])), AfterTurns(m, budgets, order, groups, i + 1);
    forall g | 0 <= g < m ensures next.dimensions[g] == after.dimensions[g] && next.loads[g] == after.loads[g] {
      if g == groups[i] {
        SumConcat(BudgetOf(budgets), Received(order, groups, g, i), [order[i]]);
        SumOne(BudgetOf(budgets), order[i]);
      } else {
        assert Received(order, groups, g, i) + [] == Received(order, groups, g, i);
      }
    }
    assert next.dimensions == after.dimensions && next.loads == after.loads;
  }

  lemma NoTurns(m: nat, budgets: seq<real>, order: seq<nat>, groups: seq<nat>)
    requires |order| == |groups|
    ensures NoGroups(m) == AfterTurns(m, budgets, order, groups, 0)
  {
    var none, after := NoGroups(m), AfterTurns(m, budgets, order, groups, 0);
    assert none.dimensions == after.dimensions && none.loads == after.loads;
  }

  /** The groups hold the first `i` dimensions of the order, within their capacities. */
  ghost predicate Filling(a: Assignment, capacities: seq<nat>, budgets: seq<real>, order: seq<nat>, i: nat)
    requires i <= |order|
  {
    && a == Greedy(capacities, budgets, order[..i])
    && LoadsOf(a, budgets) && Within(a, capacities)
    && multiset(Members(a.dimensions)) == multiset(order[..i]) && |Members(a.dimensions)| == i
  }

  lemma PlaceFills(a: Assignment, capacities: seq<nat>, budgets: seq<real>, order: seq<nat>, i: nat, group: nat)
    requires i < |order| && Filling(a, capacities, budgets, order, i) && order[i] < |budgets|
    requires group == ChosenGroup(a, capacities, |capacities|) < |capacities|
    ensures Filling(Place(a, group, order[i], budgets[order[i]]), capacities, budgets, order, i + 1)
  {
    PlaceStep(a, capacities, budgets, group, order[i]);
    NextInOrder(order, i);
  }

  lemma NextInOrder(order: seq<nat>, i: nat)
    requires i < |order|
    ensures order[..i + 1] == order[..i] + [order[i]]
    ensures |order[..i + 1]| == i + 1 && order[..i + 1][i] == order[i] && order[..i + 1][..i] == order[..i]
    ensures multiset(order[..i + 1]) == multiset(order[..i]) + multiset{order[i]}
  {
    assert order[..i + 1] == order[..i] + [order[i]];
  }

  method PlaceNext(a: Assignment, capacities: seq<nat>, budgets: seq<real>, order: seq<nat>, i: nat) returns (next: Assignment, group: nat)
    requires i < |order| && Filling(a, capacities, budgets, order, i) && order[i] < |budgets| && i < Total(capacities)
    ensures Filling(next, capacities, budgets, order, i + 1)
    ensures LightestWithRoom(a, capacities, group) && group < |a.dimensions| == |a.loads|
    ensures next == Place(a, group, order[i], budgets[order[i]])
  {
    group := BestGroup(a, capacities);
    PlaceFills(a, capacities, budgets, order, i, group);
    next := Place(a, group, order[i], budgets[order[i]]);
  }

  lemma FilledComplete(a: Assignment, capacities: seq<nat>, budgets: seq<real>, order: seq<nat>)
    requires Filling(a, capacities, budgets, order, |order|) && |order| == |budgets| == Total(capacities)
    requires multiset(order) == multiset(UpTo(|budgets|))
    ensures Complete(a, capacities, budgets) && a == Greedy(capacities, budgets, order)
  {
    assert order[..|order|] == order;
    FullTotal(a.dimensions, capacities);
  }

  lemma NothingFilled(a: Assignment, capacities: seq<nat>, budgets: seq<real>, order: seq<nat>)
    requires a == NoGroups(|capacities|)
    ensures Filling(a, capacities, budgets, order, 0)
  {
    EmptyGroups(|capacities|, budgets);
    var none: seq<nat> := [];
    assert a.dimensions == seq(|capacities|, _ => none);
    assert order[..0] == [];
  }

  /** The turns so far: where each dimension went, and why. */
  ghost predicate TurnsTaken(a: Assignment, capacities: seq<nat>, budgets: seq<real>, order: seq<nat>, groups: seq<nat>, i: nat)
    requires i <= |order| == |groups|
  {
    && a == AfterTurns(|capacities|, budgets, order, groups, i)
    && forall k :: 0 <= k < i ==> LightestWithRoom(AfterTurns(|capacities|, budgets, order, groups, k), capacities, groups[k])
  }

  lemma {:induction false} ReceivedAlike(order: seq<nat>, groups: seq<nat>, groups': seq<nat>, g: nat, n: nat)
    requires n <= |order| == |groups| == |groups'| && groups[..n] == groups'[..n]
    ensures Received(order, groups, g, n) == Received(order, groups', g, n)
  {
    if n > 0 {
      assert groups[..n][n - 1] == groups'[..n][n - 1];
      assert groups[..n - 1] == groups[..n][..n - 1] && groups'[..n - 1] == groups'[..n][..n - 1];
      ReceivedAlike(order, groups, groups', g, n - 1);
    }
  }

  lemma TurnsAlike(m: nat, budgets: seq<real>, order: seq<nat>, groups: seq<nat>, groups': seq<nat>, n: nat)
    requires n <= |order| == |groups| == |groups'| && groups[..n] == groups'[..n]
    ensures AfterTurns(m, budgets, order, groups, n) == AfterTurns(m, budgets, order, groups', n)
  {
    var a, b := AfterTurns(m, budgets, order, groups, n), AfterTurns(m, budgets, order, groups', n);
    forall g | 0 <= g < m ensures a.dimensions[g] == b.dimensions[g] && a.loads[g] == b.loads[g] {
      ReceivedAlike(order, groups, groups', g, n);
    }
    assert a.dimensions == b.dimensions && a.loads == b.loads;
  }

  lemma TurnsNext(a: Assignment, capacities: seq<nat>, budgets: seq<real>, order: seq<nat>, groups: seq<nat>, i: nat, group: nat)
    requires i < |order| == |groups| && TurnsTaken(a, capacities, budgets, order, groups, i)
    requires LightestWithRoom(a, capacities, group) && group < |a.dimensions| == |a.loads|
    ensures TurnsTaken(Place(a, group, order[i], BudgetOf(budgets)(order[i])), capacities, budgets, order, groups[i := group], i + 1)
  {
    var next := groups[i := group];
    assert groups[..i] == next[..i];
    forall k | 0 <= k <= i ensures AfterTurns(|capacities|, budgets, order, groups, k) == AfterTurns(|capacities|, budgets, order, next, k) {
      assert groups[..k] == groups[..i][..k] && next[..k] == next[..i][..k];
      TurnsAlike(|capacities|, budgets, order, groups, next, k);
    }
    TurnTaken(a, |capacities|, budgets, order, next, i);
  }

  /** Largest demand first. */
  method FillGroups(capacities: seq<nat>, budgets: seq<real>) returns (a: Assignment, ghost order: seq<nat>, ghost groups: seq<nat>)
    requires Total(capacities) == |budgets|
    ensures Complete(a, capacities, budgets) && a == Greedy(capacities, budgets, DemandOrder(budgets))
    ensures FilledInTurn(a, capacities, budgets, order, groups)
  {
    var placed := DemandOrder(budgets);
    SortMultiset<nat>(MoreDemand(budgets), UpTo(|budgets|));
    DemandFalls(budgets);
    a, order, groups := NoGroups(|capacities|), placed, placed;
    NothingFilled(a, capacities, budgets, placed);
    NoTurns(|capacities|, budgets, placed, groups);
    for i := 0 to |placed|
      invariant Filling(a, capacities, budgets, placed, i)
      invariant |groups| == |placed| && TurnsTaken(a, capacities, budgets, placed, groups, i)
    {
      OrderedDimension(budgets, i);
      ghost var before := a;
      var group;
      a, group := PlaceNext(a, capacities, budgets, placed, i);
      TurnsNext(before, capacities, budgets, placed, groups, i, group);
      groups := groups[i := group];
    }
    FilledComplete(a, capacities, budgets, placed);
  }

  lemma OrderedDimension(budgets: seq<real>, i: nat)
    requires i < |budgets|
    ensures DemandOrder(budgets)[i] < |budgets|
  {
    var order := DemandOrder(budgets);
    assert order[i] in order;
    SortMembers<nat>(MoreDemand(budgets), UpTo(|budgets|), order[i]);
  }

  // ---------------------------------------------------------------- swaps

  datatype Swap = NoSwap | Swap(a: nat, b: nat, ia: nat, ib: nat)

  ghost predicate Legal(x: Assignment, a: nat, b: nat, ia: nat, ib: nat) {
    a < b < |x.dimensions| && ia < |x.dimensions[a]| && ib < |x.dimensions[b]|
  }

  /** How the sum of squared loads changes when two groups exchange demands `wa` and `wb`. */
  function Change(la: real, lb: real, wa: real, wb: real): real {
    Square(la - wa + wb) + Square(lb - wb + wa) - (Square(la) + Square(lb))
  }

  function Delta(x: Assignment, budgets: seq<real>, a: nat, b: nat, ia: nat, ib: nat): real {
    if a < b < |x.dimensions| && b < |x.loads| && ia < |x.dimensions[a]| && ib < |x.dimensions[b]|
    then Change(x.loads[a], x.loads[b], BudgetOf(budgets)(x.dimensions[a][ia]), BudgetOf(budgets)(x.dimensions[b][ib]))
    else 0.0
  }

  ghost predicate PairBeaten(x: Assignment, budgets: seq<real>, bound: real, a: nat, b: nat) {
    forall ia: nat, ib: nat :: Legal(x, a, b, ia, ib) ==> Delta(x, budgets, a, b, ia, ib) >= bound
  }

  /** No swap of the assignment changes the sum by less than the bound. */
  ghost predicate NoneBelow(x: Assignment, budgets: seq<real>, bound: real) {
    forall a: nat, b: nat :: a < b < |x.dimensions| ==> PairBeaten(x, budgets, bound, a, b)
  }

  /** The best swap so far: none at the tolerance, or a legal one with the recorded change. */
  ghost predicate Found(x: Assignment, budgets: seq<real>, s: Swap, delta: real) {
    match s
    case NoSwap => delta == NO_GAIN
    case Swap(a, b, ia, ib) => Legal(x, a, b, ia, ib) && delta == Delta(x, budgets, a, b, ia, ib) < NO_GAIN
  }

  /** In the order of the loops: by the first group, then the second, then the member of the first, then that of the second. */
  ghost predicate Precedes(a: nat, b: nat, ia: nat, ib: nat, s: Swap)
    requires s.Swap?
  {
    a < s.a || (a == s.a && (b < s.b || (b == s.b && (ia < s.ia || (ia == s.ia && ib < s.ib)))))
  }

  /** Every swap before this one changes the sum by strictly more. */
  ghost predicate FirstOfBest(x: Assignment, budgets: seq<real>, s: Swap, delta: real) {
    s.Swap? ==> forall a: nat, b: nat, ia: nat, ib: nat :: Legal(x, a, b, ia, ib) && Precedes(a, b, ia, ib, s) ==>
      Delta(x, budgets, a, b, ia, ib) > delta
  }

  lemma NewFirst(x: Assignment, budgets: seq<real>, a: nat, b: nat, ia: nat, ib: nat, before: real)
    requires PairsBeaten(x, budgets, before, a, b) && CellsBeaten(x, budgets, before, a, b, ia, ib)
    requires Delta(x, budgets, a, b, ia, ib) < before
    ensures FirstOfBest(x, budgets, Swap(a, b, ia, ib), Delta(x, budgets, a, b, ia, ib))
  {
    var s := Swap(a, b, ia, ib);
    forall i: nat, j: nat, ii: nat, jj: nat | Legal(x, i, j, ii, jj) && Precedes(i, j, ii, jj, s)
      ensures Delta(x, budgets, i, j, ii, jj) > Delta(x, budgets, a, b, ia, ib)
    {
      if i != a || j != b { assert PairBeaten(x, budgets, before, i, j); }
    }
  }

  // The scan as a function: the first of the swaps with the lowest change, in the order of the loops.

  function SizeAt(x: Assignment, g: nat): nat {
    if g < |x.dimensions| then |x.dimensions[g]| else 0
  }

  function Kept(x: Assignment, budgets: seq<real>, best: (Swap, real), a: nat, b: nat, ia: nat, ib: nat): (Swap, real) {
    if Delta(x, budgets, a, b, ia, ib) < best.1 then (Swap(a, b, ia, ib), Delta(x, budgets, a, b, ia, ib)) else best
  }

  /** Exchanging one member of `a` with the first `n` of `b`. */
  function BestOfPartners(x: Assignment, budgets: seq<real>, best: (Swap, real), a: nat, b: nat, ia: nat, n: nat): (Swap, real) {
    if n == 0 then best else Kept(x, budgets, BestOfPartners(x, budgets, best, a, b, ia, n - 1), a, b, ia, n - 1)
  }

  /** Exchanging the first `n` members of `a`. */
  function BestOfMembers(x: Assignment, budgets: seq<real>, best: (Swap, real), a: nat, b: nat, n: nat): (Swap, real) {
    if n == 0 then best
    else BestOfPartners(x, budgets, BestOfMembers(x, budgets, best, a, b, n - 1), a, b, n - 1, SizeAt(x, b))
  }

  /** Exchanging with the groups after `a` and before `n`. */
  function BestOfGroups(x: Assignment, budgets: seq<real>, best: (Swap, real), a: nat, n: nat): (Swap, real) {
    if n <= a + 1 then best
    else BestOfMembers(x, budgets, BestOfGroups(x, budgets, best, a, n - 1), a, n - 1, SizeAt(x, a))
  }

  function BestUpTo(x: Assignment, budgets: seq<real>, n: nat): (Swap, real) {
    if n == 0 then (NoSwap, NO_GAIN) else BestOfGroups(x, budgets, BestUpTo(x, budgets, n - 1), n - 1, |x.dimensions|)
  }

  function BestSwap(x: Assignment, budgets: seq<real>): (Swap, real) {
    BestUpTo(x, budgets, |x.dimensions|)
  }

  /** The exchanges of a pair before (ia, ib) in the order of the scan. */
  ghost predicate CellsBeaten(x: Assignment, budgets: seq<real>, bound: real, a: nat, b: nat, ia: nat, ib: nat) {
    forall i: nat, j: nat :: (i < ia || (i == ia && j < ib)) && Legal(x, a, b, i, j) ==> Delta(x, budgets, a, b, i, j) >= bound
  }

  /** All partners for one member. */
  method ScanMember(x: Assignment, budgets: seq<real>, a: nat, b: nat, ia: nat, s0: Swap, delta0: real) returns (s: Swap, delta: real)
    requires a < b < |x.dimensions| == |x.loads| && ia < |x.dimensions[a]| && Found(x, budgets, s0, delta0)
    requires PairsBeaten(x, budgets, delta0, a, b) && CellsBeaten(x, budgets, delta0, a, b, ia, 0) && FirstOfBest(x, budgets, s0, delta0)
    ensures Found(x, budgets, s, delta) && delta <= delta0 && CellsBeaten(x, budgets, delta, a, b, ia + 1, 0)
    ensures PairsBeaten(x, budgets, delta, a, b) && FirstOfBest(x, budgets, s, delta)
    ensures (s, delta) == BestOfPartners(x, budgets, (s0, delta0), a, b, ia, |x.dimensions[b]|)
  {
    s, delta := s0, delta0;
    for ib := 0 to |x.dimensions[b]|
      invariant (s, delta) == BestOfPartners(x, budgets, (s0, delta0), a, b, ia, ib)
      invariant Found(x, budgets, s, delta) && delta <= delta0
      invariant CellsBeaten(x, budgets, delta, a, b, ia, ib)
      invariant PairsBeaten(x, budgets, delta, a, b) && FirstOfBest(x, budgets, s, delta)
    {
      if Delta(x, budgets, a, b, ia, ib) < delta {
        NewFirst(x, budgets, a, b, ia, ib, delta);
        AllStillBeaten(x, budgets, delta, Delta(x, budgets, a, b, ia, ib), a, b);
        s, delta := Swap(a, b, ia, ib), Delta(x, budgets, a, b, ia, ib);
      }
    }
  }

  method ScanPair(x: Assignment, budgets: seq<real>, a: nat, b: nat, s0: Swap, delta0: real) returns (s: Swap, delta: real)
    requires a < b < |x.dimensions| == |x.loads| && Found(x, budgets, s0, delta0)
    requires PairsBeaten(x, budgets, delta0, a, b) && FirstOfBest(x, budgets, s0, delta0)
    ensures Found(x, budgets, s, delta) && delta <= delta0 && PairBeaten(x, budgets, delta, a, b)
    ensures PairsBeaten(x, budgets, delta, a, b) && FirstOfBest(x, budgets, s, delta)
    ensures (s, delta) == BestOfMembers(x, budgets, (s0, delta0), a, b, |x.dimensions[a]|)
  {
    s, delta := s0, delta0;
    for ia := 0 to |x.dimensions[a]|
      invariant (s, delta) == BestOfMembers(x, budgets, (s0, delta0), a, b, ia)
      invariant Found(x, budgets, s, delta) && delta <= delta0
      invariant CellsBeaten(x, budgets, delta, a, b, ia, 0)
      invariant PairsBeaten(x, budgets, delta, a, b) && FirstOfBest(x, budgets, s, delta)
    {
      MembersNext(x, budgets, (s0, delta0), a, b, ia);
      s, delta := ScanMember(x, budgets, a, b, ia, s, delta);
    }
  }

  lemma MembersNext(x: Assignment, budgets: seq<real>, start: (Swap, real), a: nat, b: nat, ia: nat)
    ensures BestOfMembers(x, budgets, start, a, b, ia + 1)
         == BestOfPartners(x, budgets, BestOfMembers(x, budgets, start, a, b, ia), a, b, ia, SizeAt(x, b))
  {
  }

  lemma GroupsNext(x: Assignment, budgets: seq<real>, start: (Swap, real), a: nat, b: nat)
    requires a < b
    ensures BestOfGroups(x, budgets, start, a, b + 1)
         == BestOfMembers(x, budgets, BestOfGroups(x, budgets, start, a, b), a, b, SizeAt(x, a))
  {
  }

  /** All partners of one group. */
  method ScanGroup(x: Assignment, budgets: seq<real>, a: nat, s0: Swap, delta0: real) returns (s: Swap, delta: real)
    requires |x.dimensions| == |x.loads| && a < |x.dimensions| && Found(x, budgets, s0, delta0)
    requires PairsBeaten(x, budgets, delta0, a, 0) && FirstOfBest(x, budgets, s0, delta0)
    ensures Found(x, budgets, s, delta) && PairsBeaten(x, budgets, delta, a + 1, 0) && FirstOfBest(x, budgets, s, delta)
    ensures (s, delta) == BestOfGroups(x, budgets, (s0, delta0), a, |x.dimensions|)
  {
    s, delta := s0, delta0;
    for b := a + 1 to |x.dimensions|
      invariant (s, delta) == BestOfGroups(x, budgets, (s0, delta0), a, b)
      invariant Found(x, budgets, s, delta)
      invariant PairsBeaten(x, budgets, delta, a, b) && FirstOfBest(x, budgets, s, delta)
    {
      GroupsNext(x, budgets, (s0, delta0), a, b);
      ghost var before := delta;
      s, delta := ScanPair(x, budgets, a, b, s, delta);
      AllStillBeaten(x, budgets, before, delta, a, b);
    }
  }

  /** The swap that lowers the sum of squared loads most, if any lowers it by more than the tolerance. */
  method FindBestSwap(x: Assignment, budgets: seq<real>) returns (s: Swap, delta: real)
    requires |x.dimensions| == |x.loads|
    ensures Found(x, budgets, s, delta) && (s, delta) == BestSwap(x, budgets)
    ensures NoneBelow(x, budgets, delta) && FirstOfBest(x, budgets, s, delta)
  {
    s, delta := NoSwap, NO_GAIN;
    for a := 0 to |x.dimensions|
      invariant (s, delta) == BestUpTo(x, budgets, a)
      invariant Found(x, budgets, s, delta)
      invariant PairsBeaten(x, budgets, delta, a, 0) && FirstOfBest(x, budgets, s, delta)
    {
      s, delta := ScanGroup(x, budgets, a, s, delta);
    }
  }

  /** The pairs of groups before (a, b) in the order of the scan. */
  ghost predicate PairsBeaten(x: Assignment, budgets: seq<real>, bound: real, a: nat, b: nat) {
    forall i: nat, j: nat :: (i < a || (i == a && j < b)) && i < j < |x.dimensions| ==> PairBeaten(x, budgets, bound, i, j)
  }

  lemma AllStillBeaten(x: Assignment, budgets: seq<real>, before: real, now: real, a: nat, b: nat)
    requires PairsBeaten(x, budgets, before, a, b) && now <= before
    ensures PairsBeaten(x, budgets, now, a, b)
  {
    forall i: nat, j: nat | PairBeaten(x, budgets, before, i, j) ensures PairBeaten(x, budgets, now, i, j) {
      StillBeaten(x, budgets, before, now, i, j);
    }
  }

  lemma StillBeaten(x: Assignment, budgets: seq<real>, before: real, now: real, a: nat, b: nat)
    requires PairBeaten(x, budgets, before, a, b) && now <= before
    ensures PairBeaten(x, budgets, now, a, b)
  {
    forall ia: nat, ib: nat | Legal(x, a, b, ia, ib) ensures Delta(x, budgets, a, b, ia, ib) >= now {
      assert Delta(x, budgets, a, b, ia, ib) >= before;
    }
  }

  function Swapped(x: Assignment, budgets: seq<real>, a: nat, b: nat, ia: nat, ib: nat): Assignment
    requires a < b < |x.dimensions| == |x.loads| && ia < |x.dimensions[a]| && ib < |x.dimensions[b]|
  {
    var (da, db) := (x.dimensions[a][ia], x.dimensions[b][ib]);
    var (wa, wb) := (BudgetOf(budgets)(da), BudgetOf(budgets)(db));
    Assignment(x.dimensions[a := x.dimensions[a][ia := db]][b := x.dimensions[b][ib := da]],
               x.loads[a := x.loads[a] + (wb - wa)][b := x.loads[b] + (wa - wb)])
  }

  /** A swap keeps every capacity, the partition and the recorded loads. */
  lemma SwapKeeps(x: Assignment, capacities: seq<nat>, budgets: seq<real>, a: nat, b: nat, ia: nat, ib: nat)
    requires Complete(x, capacities, budgets) && Legal(x, a, b, ia, ib)
    ensures Complete(Swapped(x, budgets, a, b, ia, ib), capacities, budgets)
  {
    var da, db := x.dimensions[a][ia], x.dimensions[b][ib];
    var ga, gb := x.dimensions[a][ia := db], x.dimensions[b][ib := da];
    SumUpdated(BudgetOf(budgets), x.dimensions[a], ia, db);
    SumUpdated(BudgetOf(budgets), x.dimensions[b], ib, da);
    SwapMembers(x.dimensions, a, b, ia, ib);
  }

  lemma SwapMembers(groups: seq<seq<nat>>, a: nat, b: nat, ia: nat, ib: nat)
    requires a < b < |groups| && ia < |groups[a]| && ib < |groups[b]|
    ensures multiset(Members(groups[a := groups[a][ia := groups[b][ib]]][b := groups[b][ib := groups[a][ia]]]))
         == multiset(Members(groups))
  {
    var da, db := groups[a][ia], groups[b][ib];
    var ga, gb := groups[a][ia := db], groups[b][ib := da];
    var first := groups[a := ga];
    GroupUpdated(groups, a, ga);
    GroupUpdated(first, b, gb);
    ReplacedMember(groups[a], ia, db);
    ReplacedMember(groups[b], ib, da);
    SwapBalance(multiset(Members(groups)), multiset(Members(first)), multiset(Members(first[b := gb])),
                multiset(groups[a]), multiset(ga), multiset(groups[b]), multiset(gb), da, db);
  }

  lemma GroupUpdated(groups: seq<seq<nat>>, g: nat, x: seq<nat>)
    requires g < |groups|
    ensures multiset(Members(groups[g := x])) + multiset(groups[g]) == multiset(Members(groups)) + multiset(x)
    ensures |Members(groups[g := x])| + |groups[g]| == |Members(groups)| + |x|
  {
    FlatMapUpdated(Whole, groups, g, x);
  }

  lemma SwapBalance(all: multiset<nat>, middle: multiset<nat>, last: multiset<nat>, a: multiset<nat>, a': multiset<nat>,
                    b: multiset<nat>, b': multiset<nat>, da: nat, db: nat)
    requires middle + a == all + a' && last + b == middle + b'
    requires a' + multiset{da} == a + multiset{db} && b' + multiset{db} == b + multiset{da}
    ensures last == all
  {
    forall x: nat ensures last[x] == all[x] {
      assert (middle + a)[x] == (all + a')[x] && (last + b)[x] == (middle + b')[x];
      assert (a' + multiset{da})[x] == (a + multiset{db})[x] && (b' + multiset{db})[x] == (b + multiset{da})[x];
    }
  }

  /** The sum of squared loads changes by exactly the delta of the swap. */
  lemma SwapChange(x: Assignment, budgets: seq<real>, a: nat, b: nat, ia: nat, ib: nat)
    requires |x.dimensions| == |x.loads| && Legal(x, a, b, ia, ib)
    ensures Sum(Square, Swapped(x, budgets, a, b, ia, ib).loads) == Sum(Square, x.loads) + Delta(x, budgets, a, b, ia, ib)
  {
    var (wa, wb) := (BudgetOf(budgets)(x.dimensions[a][ia]), BudgetOf(budgets)(x.dimensions[b][ib]));
    var na, nb := x.loads[a] + (wb - wa), x.loads[b] + (wa - wb);
    SumUpdated(Square, x.loads, a, na);
    SumUpdated(Square, x.loads[a := na], b, nb);
    assert na == x.loads[a] - wa + wb && nb == x.loads[b] - wb + wa;
  }

  function Applied(x: Assignment, budgets: seq<real>, s: Swap): Assignment {
    if s.Swap? && s.a < s.b < |x.dimensions| == |x.loads| && s.ia < |x.dimensions[s.a]| && s.ib < |x.dimensions[s.b]|
    then Swapped(x, budgets, s.a, s.b, s.ia, s.ib) else x
  }

  /** What up to `passes` best swaps make of an assignment. */
  function Improved(x: Assignment, budgets: seq<real>, passes: nat): Assignment {
    if passes == 0 then x
    else
      var y := Improved(x, budgets, passes - 1);
      Applied(y, budgets, BestSwap(y, budgets).0)
  }

  /** Once no swap is left, further passes change nothing. */
  lemma {:induction false} Settled(x: Assignment, budgets: seq<real>, passes: nat, more: nat)
    requires BestSwap(Improved(x, budgets, passes), budgets).0.NoSwap?
    ensures Improved(x, budgets, passes + more) == Improved(x, budgets, passes)
  {
    if more > 0 { Settled(x, budgets, passes, more - 1); }
  }

  // The scan as a function finds what the loops find.

  lemma KeptFound(x: Assignment, budgets: seq<real>, best: (Swap, real), a: nat, b: nat, ia: nat, ib: nat)
    requires Found(x, budgets, best.0, best.1)
    ensures var r := Kept(x, budgets, best, a, b, ia, ib); Found(x, budgets, r.0, r.1)
  {
  }

  lemma {:induction false} PartnersFound(x: Assignment, budgets: seq<real>, best: (Swap, real), a: nat, b: nat, ia: nat, n: nat)
    requires Found(x, budgets, best.0, best.1)
    ensures var r := BestOfPartners(x, budgets, best, a, b, ia, n); Found(x, budgets, r.0, r.1)
  {
    if n > 0 {
      PartnersFound(x, budgets, best, a, b, ia, n - 1);
      KeptFound(x, budgets, BestOfPartners(x, budgets, best, a, b, ia, n - 1), a, b, ia, n - 1);
    }
  }

  lemma {:induction false} MembersFound(x: Assignment, budgets: seq<real>, best: (Swap, real), a: nat, b: nat, n: nat)
    requires Found(x, budgets, best.0, best.1)
    ensures var r := BestOfMembers(x, budgets, best, a, b, n); Found(x, budgets, r.0, r.1)
  {
    if n > 0 {
      MembersFound(x, budgets, best, a, b, n - 1);
      PartnersFound(x, budgets, BestOfMembers(x, budgets, best, a, b, n - 1), a, b, n - 1, SizeAt(x, b));
    }
  }

  lemma {:induction false} GroupsFound(x: Assignment, budgets: seq<real>, best: (Swap, real), a: nat, n: nat)
    requires Found(x, budgets, best.0, best.1)
    ensures var r := BestOfGroups(x, budgets, best, a, n); Found(x, budgets, r.0, r.1)
  {
    if n > a + 1 {
      GroupsFound(x, budgets, best, a, n - 1);
      MembersFound(x, budgets, BestOfGroups(x, budgets, best, a, n - 1), a, n - 1, SizeAt(x, a));
    }
  }

  lemma {:induction false} BestFound(x: Assignment, budgets: seq<real>, n: nat)
    ensures var r := BestUpTo(x, budgets, n); Found(x, budgets, r.0, r.1)
  {
    if n > 0 {
      BestFound(x, budgets, n - 1);
      GroupsFound(x, budgets, BestUpTo(x, budgets, n - 1), n - 1, |x.dimensions|);
    }
  }

  /** The best swap keeps a complete assignment complete and lowers the sum of squared loads by more than the tolerance. */
  lemma SwapLowers(x: Assignment, capacities: seq<nat>, budgets: seq<real>)
    requires Complete(x, capacities, budgets) && BestSwap(x, budgets).0.Swap?
    ensures Complete(Applied(x, budgets, BestSwap(x, budgets).0), capacities, budgets)
    ensures Sum(Square, Applied(x, budgets, BestSwap(x, budgets).0).loads) + SCORE_TOLERANCE < Sum(Square, x.loads)
  {
    BestFound(x, budgets, |x.dimensions|);
    var s := BestSwap(x, budgets).0;
    SwapKeeps(x, capacities, budgets, s.a, s.b, s.ia, s.ib);
    SwapChange(x, budgets, s.a, s.b, s.ia, s.ib);
  }

  /** Up to so many swaps were made. */
  lemma {:induction false} ImprovedKeeps(x: Assignment, capacities: seq<nat>, budgets: seq<real>, passes: nat)
    requires Complete(x, capacities, budgets)
    ensures Complete(Improved(x, budgets, passes), capacities, budgets)
  {
    if passes > 0 {
      ImprovedKeeps(x, capacities, budgets, passes - 1);
      var y := Improved(x, budgets, passes - 1);
      if BestSwap(y, budgets).0.Swap? { SwapLowers(y, capacities, budgets); }
    }
  }

  /** As long as every pass finds a swap, each lowers the sum. */
  lemma {:induction false} ImprovedLowers(x: Assignment, capacities: seq<nat>, budgets: seq<real>, passes: nat)
    requires Complete(x, capacities, budgets)
    requires forall k: nat :: k < passes ==> BestSwap(Improved(x, budgets, k), budgets).0.Swap?
    ensures Sum(Square, Improved(x, budgets, passes).loads) + Gain(passes) <= Sum(Square, x.loads)
  {
    if passes > 0 {
      ImprovedLowers(x, capacities, budgets, passes - 1);
      ImprovedKeeps(x, capacities, budgets, passes - 1);
      SwapLowers(Improved(x, budgets, passes - 1), capacities, budgets);
    }
  }

  /** What so many swaps gain at least. */
  function Gain(passes: nat): real {
    if passes == 0 then 0.0 else Gain(passes - 1) + SCORE_TOLERANCE
  }

  lemma {:induction false} GainIs(passes: nat)
    ensures Gain(passes) == passes as real * SCORE_TOLERANCE && Gain(passes) >= 0.0
  {
    if passes > 0 { GainIs(passes - 1); }
  }

  /** No swap gains more than the tolerance, or eight of them were made that did. */
  ghost predicate EnoughSwaps(x: Assignment, x0: Assignment, budgets: seq<real>) {
    NoneBelow(x, budgets, -0.000000000001) || Sum(Square, x.loads) + 0.000000000008 <= Sum(Square, x0.loads)
  }

  /** By a tolerance a swap. */
  ghost predicate LoweredBy(swaps: nat, now: real, before: real) {
    now + swaps as real * 0.000000000001 <= before
  }

  lemma SwapsGain(swaps: nat, x: real, x0: real)
    requires x + Gain(swaps) <= x0
    ensures LoweredBy(swaps, x, x0) && x <= x0
    ensures swaps == 8 ==> x + 0.000000000008 <= x0
  {
    GainIs(swaps);
  }

  /** At most eight swaps, each of which strictly lowers the sum of squared loads. */
  method ImproveBySwaps(x0: Assignment, capacities: seq<nat>, budgets: seq<real>) returns (x: Assignment, ghost swaps: nat)
    requires Complete(x0, capacities, budgets)
    ensures Complete(x, capacities, budgets)
    ensures LoweredBy(swaps, Sum(Square, x.loads), Sum(Square, x0.loads))
    ensures Sum(Square, x.loads) <= Sum(Square, x0.loads)
    ensures swaps <= 8
    ensures swaps < 8 ==> NoneBelow(x, budgets, NO_GAIN)
    ensures x == Improved(x0, budgets, 8) && EnoughSwaps(x, x0, budgets)
  {
    x, swaps := MakeSwaps(x0, capacities, budgets);
    ImprovedKeeps(x0, capacities, budgets, 8);
    ImprovedLowers(x0, capacities, budgets, swaps);
    SwapsGain(swaps, Sum(Square, x.loads), Sum(Square, x0.loads));
  }

  lemma ImprovedNext(x: Assignment, budgets: seq<real>, passes: nat)
    ensures Improved(x, budgets, passes + 1) == Applied(Improved(x, budgets, passes), budgets, BestSwap(Improved(x, budgets, passes), budgets).0)
  {
  }

  /** The best swap, applied; or none when nothing lowers the sum by more than the tolerance. */
  method SwapOnce(x: Assignment, ghost capacities: seq<nat>, budgets: seq<real>) returns (swapped: bool, next: Assignment)
    requires Complete(x, capacities, budgets)
    ensures swapped == BestSwap(x, budgets).0.Swap? && next == Applied(x, budgets, BestSwap(x, budgets).0)
    ensures !swapped ==> NoneBelow(x, budgets, NO_GAIN)
  {
    var s, delta := FindBestSwap(x, budgets);
    if s.NoSwap? {
      return false, x;
    }
    return true, Swapped(x, budgets, s.a, s.b, s.ia, s.ib);
  }

  method MakeSwaps(x0: Assignment, ghost capacities: seq<nat>, budgets: seq<real>) returns (x: Assignment, ghost swaps: nat)
    requires Complete(x0, capacities, budgets)
    ensures swaps <= 8 && x == Improved(x0, budgets, swaps) && x == Improved(x0, budgets, 8)
    ensures forall k: nat :: k < swaps ==> BestSwap(Improved(x0, budgets, k), budgets).0.Swap?
    ensures swaps < 8 ==> NoneBelow(x, budgets, NO_GAIN)
  {
    x, swaps := x0, 0;
    for pass := 0 to 8
      invariant swaps == pass && x == Improved(x0, budgets, pass)
      invariant forall k: nat :: k < pass ==> BestSwap(Improved(x0, budgets, k), budgets).0.Swap?
    {
      ImprovedKeeps(x0, capacities, budgets, pass);
      var swapped, next := SwapOnce(x, capacities, budgets);
      if !swapped {
        Settled(x0, budgets, pass, 8 - pass);
        break;
      }
      ImprovedNext(x0, budgets, pass);
      x, swaps := next, swaps + 1;
    }
  }

  /** Both groups of every pair, narrowest first. */
  function GroupCapacities(pairedCapacities: seq<nat>): (capacities: seq<nat>)
    ensures |capacities| == 2 * |pairedCapacities|
  {
    Sort(Fewer, Doubled(pairedCapacities))
  }

  lemma CapacitiesTotal(pairedCapacities: seq<nat>)
    ensures Total(GroupCapacities(pairedCapacities)) == 2 * Total(pairedCapacities)
  {
    DoubledTotal(pairedCapacities);
    SortMultiset(Fewer, Doubled(pairedCapacities));
    TotalPermuted(GroupCapacities(pairedCapacities), Doubled(pairedCapacities));
  }

  /** The assignment for a capacity profile: greedy, then up to eight swaps. */
  function Assigned(pairedCapacities: seq<nat>, budgets: seq<real>): Assignment {
    Improved(Greedy(GroupCapacities(pairedCapacities), budgets, DemandOrder(budgets)), budgets, 8)
  }

  /** A complete assignment: the greedy one, improved by swaps. */
  method AssignGroups(pairedCapacities: seq<nat>, budgets: seq<real>)
    returns (x: Assignment, ghost greedy: Assignment, ghost order: seq<nat>, ghost groups: seq<nat>)
    requires 2 * Total(pairedCapacities) == |budgets|
    ensures Complete(x, GroupCapacities(pairedCapacities), budgets)
    ensures FilledInTurn(greedy, GroupCapacities(pairedCapacities), budgets, order, groups)
    ensures Sum(Square, x.loads) <= Sum(Square, greedy.loads)
    ensures EnoughSwaps(x, greedy, budgets)
    ensures x == Improved(greedy, budgets, 8) == Assigned(pairedCapacities, budgets)
  {
    CapacitiesTotal(pairedCapacities);
    var capacities := GroupCapacities(pairedCapacities);
    var filled;
    filled, order, groups := FillGroups(capacities, budgets);
    greedy := filled;
    ghost var swaps;
    x, swaps := ImproveBySwaps(filled, capacities, budgets);
  }

  // ---------------------------------------------------------------- the score

  const BITS_PER_GROUP: real := 4.0

  function Scale(groups: nat): (c: real)
    ensures c > 0.0
  {
    groups as real * BITS_PER_GROUP * BITS_PER_GROUP + RELATIVE_VARIANCE_FLOOR
  }

  /** How far the loads of a profile's assignment miss the bits of a group, squared and added up. */
  function MissOf(budgets: seq<real>): PairWidths -> real {
    (p: PairWidths) => Sum(Miss(BITS_PER_GROUP), Assigned(p.widths, budgets).loads)
  }

  /** The miss relative to the number of groups. */
  function Relative(miss: PairWidths -> real): Scoring {
    (p: PairWidths) => miss(p) / Scale(2 * |p.widths|)
  }

  /** A profile's score is that of its assignment. */
  function AssignmentScore(budgets: seq<real>): Scoring {
    Relative(MissOf(budgets))
  }

  /** Among profiles of equally many groups the lower score has the lower miss. */
  ghost predicate Ranks(score: Scoring, miss: PairWidths -> real) {
    forall p: PairWidths, q: PairWidths :: |p.widths| == |q.widths| && score(p) <= score(q) ==> miss(p) <= miss(q)
  }

  lemma RelativeRanks(miss: PairWidths -> real)
    ensures Ranks(Relative(miss), miss)
  {
    forall p: PairWidths, q: PairWidths | |p.widths| == |q.widths| && Relative(miss)(p) <= Relative(miss)(q) ensures miss(p) <= miss(q) {
      Cleared(miss(p), miss(q), Scale(2 * |p.widths|));
    }
  }

  lemma Cleared(a: real, b: real, c: real)
    requires c > 0.0 && a / c <= b / c
    ensures a <= b
  {
    assert a == a / c * c && b == b / c * c;
  }

  /** The assignment for a profile, with its score. */
  method AssignDimensions(pairedCapacities: seq<nat>, budgets: seq<real>)
    returns (x: Assignment, score: real, ghost greedy: Assignment, ghost order: seq<nat>, ghost groups: seq<nat>)
    requires 2 * Total(pairedCapacities) == |budgets|
    ensures Complete(x, GroupCapacities(pairedCapacities), budgets)
    ensures FilledInTurn(greedy, GroupCapacities(pairedCapacities), budgets, order, groups)
    ensures Sum(Square, x.loads) <= Sum(Square, greedy.loads)
    ensures EnoughSwaps(x, greedy, budgets)
    ensures x == Improved(greedy, budgets, 8)
    ensures ScoreIs(score, x.loads, |pairedCapacities|)
    ensures x == Assigned(pairedCapacities, budgets) && score == AssignmentScore(budgets)(PairWidths(pairedCapacities))
  {
    x, greedy, order, groups := AssignGroups(pairedCapacities, budgets);
    score := Score(x.loads, |pairedCapacities|);
    AssignmentScoreIs(pairedCapacities, budgets);
  }

  lemma ScaleIs(pairs: nat)
    ensures Scale(2 * pairs) == 2.0 * pairs as real * 16.0 + 0.000000000001
  {
  }

  /** The squared misses of four bits a group, relative to the squares of the bits of all groups. */
  ghost predicate ScoreIs(score: real, loads: seq<real>, pairs: nat) {
    score == Sum(Miss(4.0), loads) / (2.0 * pairs as real * 16.0 + 0.000000000001)
  }

  lemma AssignmentScoreIs(pairedCapacities: seq<nat>, budgets: seq<real>)
    ensures AssignmentScore(budgets)(PairWidths(pairedCapacities))
         == Sum(Miss(BITS_PER_GROUP), Assigned(pairedCapacities, budgets).loads) / Scale(2 * |pairedCapacities|)
  {
  }

  method Score(loads: seq<real>, pairs: nat) returns (score: real)
    ensures score == Sum(Miss(BITS_PER_GROUP), loads) / Scale(2 * pairs) && ScoreIs(score, loads, pairs)
  {
    ScaleIs(pairs);
    var squaredError := SquaredError(loads);
    score := squaredError / Scale(2 * pairs);
  }

  method SquaredError(loads: seq<real>) returns (squaredError: real)
    ensures squaredError == Sum(Miss(BITS_PER_GROUP), loads)
  {
    squaredError := 0.0;
    for g := 0 to |loads|
      invariant squaredError == Sum(Miss(BITS_PER_GROUP), loads[..g])
    {
      SumNext(Miss(BITS_PER_GROUP), loads, g);
      squaredError := squaredError + Square(loads[g] - BITS_PER_GROUP);
    }
    assert loads[..|loads|] == loads;
  }

  function Miss(target: real): real -> real {
    (load: real) => Square(load - target)
  }

  lemma {:induction false} MissIsSquares(loads: seq<real>, target: real)
    ensures Sum(Miss(target), loads) == Sum(Square, loads) - 2.0 * target * Sum(Same, loads) + |loads| as real * target * target
  {
    if loads != [] {
      var n, x := |loads| - 1, loads[|loads| - 1];
      MissIsSquares(loads[..n], target);
      assert Miss(target)(x) == Square(x - target);
      assert Square(x - target) == x * x - 2.0 * target * x + target * target;
      assert |loads| as real * target * target == n as real * target * target + target * target;
      assert 2.0 * target * (Sum(Same, loads[..n]) + x) == 2.0 * target * Sum(Same, loads[..n]) + 2.0 * target * x;
    }
  }

  /** A swap keeps the total load, so the squared distance from the target falls exactly as the squares do. */
  lemma SwapLowersScore(x: Assignment, budgets: seq<real>, a: nat, b: nat, ia: nat, ib: nat, target: real)
    requires |x.dimensions| == |x.loads| && Legal(x, a, b, ia, ib)
    ensures Sum(Miss(target), Swapped(x, budgets, a, b, ia, ib).loads)
         == Sum(Miss(target), x.loads) + Delta(x, budgets, a, b, ia, ib)
  {
    var y := Swapped(x, budgets, a, b, ia, ib);
    SwapChange(x, budgets, a, b, ia, ib);
    SwapKeepsTotal(x, budgets, a, b, ia, ib);
    SameTotalMiss(x.loads, y.loads, target);
  }

  lemma SwapKeepsTotal(x: Assignment, budgets: seq<real>, a: nat, b: nat, ia: nat, ib: nat)
    requires |x.dimensions| == |x.loads| && Legal(x, a, b, ia, ib)
    ensures Sum(Same, Swapped(x, budgets, a, b, ia, ib).loads) == Sum(Same, x.loads)
  {
    var (wa, wb) := (BudgetOf(budgets)(x.dimensions[a][ia]), BudgetOf(budgets)(x.dimensions[b][ib]));
    SumUpdated(Same, x.loads, a, x.loads[a] + (wb - wa));
    SumUpdated(Same, x.loads[a := x.loads[a] + (wb - wa)], b, x.loads[b] + (wa - wb));
  }

  /** With the same total, distances from the target differ exactly as the squares do. */
  lemma SameTotalMiss(loads: seq<real>, loads': seq<real>, target: real)
    requires |loads| == |loads'| && Sum(Same, loads) == Sum(Same, loads')
    ensures Sum(Miss(target), loads') - Sum(Miss(target), loads) == Sum(Square, loads') - Sum(Square, loads)
  {
    MissIsSquares(loads, target);
    MissIsSquares(loads', target);
  }
}
