/**
 What interval selection means: rank all scanned rows by (estimate, ID), keep the first R, keep those
 whose lower endpoint does not exceed the K-th smallest upper endpoint.
 */
module Selection {
  import opened Extended
  import opened Sorting
  import opened Float32

  datatype DistanceEstimate = DistanceEstimate(id: Word, estimate: Float, uncertainty: Ext)

  function Lower(e: DistanceEstimate, z: real): Ext {
    if z == 0.0 || e.uncertainty == Fin(0.0) then Value(e.estimate)
    else if !e.uncertainty.Fin? then NegInf
    else match Value(e.estimate)
      case Fin(x) => Fin(x - z * e.uncertainty.r)
      case infinite => infinite
  }

  function Upper(e: DistanceEstimate, z: real): Ext {
    if z == 0.0 || e.uncertainty == Fin(0.0) then Value(e.estimate)
    else if !e.uncertainty.Fin? then PosInf
    else match Value(e.estimate)
      case Fin(x) => Fin(x + z * e.uncertainty.r)
      case infinite => infinite
  }

  predicate Before(a: DistanceEstimate, b: DistanceEstimate) {
    Less(a.estimate, b.estimate) || (Equal(a.estimate, b.estimate) && a.id < b.id)
  }

  ghost predicate DistinctIds(rows: seq<DistanceEstimate>) {
    forall i, j :: 0 <= i < j < |rows| ==> rows[i].id != rows[j].id
  }

  datatype SelectionResult =
    SelectionResult(candidates: seq<DistanceEstimate>, kthUpperBound: Ext, truncated: bool)

  /** The K-th smallest upper endpoint. */
  function KthUpper(uppers: seq<Ext>, k: nat): Ext
    requires 0 < k <= |uppers|
  {
    Sort(Lt, uppers)[k - 1]
  }

  /** The first R rows in rank order; all of them when R is 0. */
  function Shortlist(rows: seq<DistanceEstimate>, r: nat): seq<DistanceEstimate> {
    if r == 0 then Sort(Before, rows) else Take(Sort(Before, rows), r)
  }

  function Reaches(z: real, kthUpper: Ext): DistanceEstimate -> bool {
    (e: DistanceEstimate) => Le(Lower(e, z), kthUpper)
  }

  /** Extended subtraction as the hardware does it: equal infinities give NaN, shown as no value. */
  datatype MaybeNaN = NaN | Number(value: Ext)

  function Minus(a: Ext, b: Ext): MaybeNaN {
    match (a, b)
    case (Fin(x), Fin(y)) => Number(Fin(x - y))
    case (Fin(x), PosInf) => Number(NegInf)
    case (Fin(x), NegInf) => Number(PosInf)
    case (NegInf, NegInf) => NaN
    case (PosInf, PosInf) => NaN
    case (infinite, _) => Number(infinite)
  }

  /** A positive multiple of an extended real. */
  function Times(z: real, a: Ext): Ext {
    if a.Fin? then Fin(z * a.r) else a
  }

  function Plus(a: Ext, b: real): Ext {
    if a.Fin? then Fin(a.r + b) else a
  }

  /** The 16-lane upper endpoint: plain arithmetic, then infinity in every lane without a finite radius. */
  function LaneUpper(e: DistanceEstimate, z: real): Ext {
    if z == 0.0 then Value(e.estimate)
    else if e.uncertainty.Fin? then Plus(Value(e.estimate), z * e.uncertainty.r)
    else PosInf
  }

  /** Unlike the lower endpoints, the upper endpoints are the same on both paths. */
  lemma UppersAgree(e: DistanceEstimate, z: real)
    ensures LaneUpper(e, z) == Upper(e, z)
  {
    if e.uncertainty == Fin(0.0) { assert z * e.uncertainty.r == 0.0; }
  }

  /** A score that the selector accepts: a finite number, not negative. */
  predicate ValidScore(z: MaybeNaN) {
    z.Number? && z.value.Fin? && z.value.r >= 0.0
  }

  function ScoreValue(z: MaybeNaN): real {
    if z.Number? && z.value.Fin? then z.value.r else 0.0
  }

  /** The 16-lane lower test: plain arithmetic on every lane, and a comparison that is false on NaN. */
  function LanesReach(z: real, kthUpper: Ext): DistanceEstimate -> bool {
    (e: DistanceEstimate) =>
      if z == 0.0 then Le(Value(e.estimate), kthUpper)
      else var lower := Minus(Value(e.estimate), Times(z, e.uncertainty));
        lower.Number? && Le(lower.value, kthUpper)
  }

  function LowerTest(simd: bool, z: real, kthUpper: Ext): DistanceEstimate -> bool {
    if simd then LanesReach(z, kthUpper) else Reaches(z, kthUpper)
  }

  /** Rows whose 16-lane lower endpoint is infinity minus infinity. */
  predicate DoublyInfinite(z: real, e: DistanceEstimate) {
    z != 0.0 && Value(e.estimate) == PosInf && e.uncertainty == PosInf
  }

  ghost predicate NonNegative(e: DistanceEstimate) {
    e.uncertainty.PosInf? || (e.uncertainty.Fin? && e.uncertainty.r >= 0.0)
  }

  /** The two lower tests agree on a row exactly when it is not doubly infinite; such a row only the portable test keeps. */
  lemma LowerTestsAgree(e: DistanceEstimate, z: real, kthUpper: Ext)
    requires NonNegative(e) && z >= 0.0
    ensures (LanesReach(z, kthUpper)(e) <==> Reaches(z, kthUpper)(e)) <==> !DoublyInfinite(z, e)
    ensures DoublyInfinite(z, e) ==> Reaches(z, kthUpper)(e) && !LanesReach(z, kthUpper)(e)
  {
  }

  function Select(simd: bool, rows: seq<DistanceEstimate>, uppers: seq<Ext>, k: nat, z: real, r: nat): SelectionResult
    requires 0 < k <= |uppers|
  {
    SelectionResult(
      Filter(LowerTest(simd, z, KthUpper(uppers, k)), Shortlist(rows, r)),
      KthUpper(uppers, k),
      r > 0 && |rows| > r)
  }

  // ---------------------------------------------------------------- the two orders

  lemma LtOrder()
    ensures StrictWeakOrder(Lt) && Antisymmetric(Lt)
  {
  }

  lemma BeforeOrder()
    ensures StrictWeakOrder(Before)
  {
  }

  lemma DistinctIdsUntied(rows: seq<DistanceEstimate>)
    requires DistinctIds(rows)
    ensures Untied(Before, rows)
  {
  }

  // ---------------------------------------------------------------- rank prefixes

  /** `kept` holds the rows of `all` that precede every other row of `all`. */
  ghost predicate RankPrefix(kept: seq<DistanceEstimate>, all: seq<DistanceEstimate>) {
    && (forall x :: x in kept ==> x in all)
    && (forall x, y :: x in kept && y in all && y !in kept ==> Before(x, y))
  }

  function Outside(kept: seq<DistanceEstimate>): DistanceEstimate -> bool {
    (e: DistanceEstimate) => e !in kept
  }

  lemma FilterDistinct(p: DistanceEstimate -> bool, rows: seq<DistanceEstimate>)
    requires DistinctIds(rows)
    ensures DistinctIds(Filter(p, rows))
  {
    FilterPairwise(p, (a: DistanceEstimate, b: DistanceEstimate) => a.id != b.id, rows);
  }

  /** A rank prefix, sorted, is the head of the sorted whole. */
  lemma RankPrefixIsTake(kept: seq<DistanceEstimate>, all: seq<DistanceEstimate>)
    requires DistinctIds(kept) && DistinctIds(all) && RankPrefix(kept, all)
    ensures |kept| <= |all|
    ensures Sort(Before, kept) == Sort(Before, all)[..|kept|]
    ensures (forall x :: x in all ==> x in kept) ==> |kept| == |all|
  {
    BeforeOrder();
    var rest := Filter(Outside(kept), all);
    FilterDistinct(Outside(kept), all);
    DistinctIdsUntied(kept);
    DistinctIdsUntied(all);
    DistinctIdsUntied(rest);
    var a, b, whole := Sort(Before, kept), Sort(Before, rest), Sort(Before, all);
    SortStrict(Before, kept);
    SortStrict(Before, rest);
    SortStrict(Before, all);
    forall x ensures x in a <==> x in kept { SortMembers(Before, kept, x); }
    forall x ensures x in b <==> x in all && x !in kept {
      SortMembers(Before, rest, x);
      FilterMembers(Outside(kept), all, x);
    }
    forall x ensures x in whole <==> x in all { SortMembers(Before, all, x); }
    JoinStrict(Before, a, b);
    StrictlySortedUnique(Before, a + b, whole);
    assert (a + b)[..|a|] == a;
    if forall x :: x in all ==> x in kept {
      NonemptyHasMember(b);
    }
  }

  /** Filtering before sorting or after it is the same. */
  lemma SortFilter(p: DistanceEstimate -> bool, rows: seq<DistanceEstimate>)
    requires DistinctIds(rows)
    ensures Sort(Before, Filter(p, rows)) == Filter(p, Sort(Before, rows))
  {
    BeforeOrder();
    FilterDistinct(p, rows);
    DistinctIdsUntied(rows);
    DistinctIdsUntied(Filter(p, rows));
    SortStrict(Before, rows);
    SortStrict(Before, Filter(p, rows));
    FilterPairwise(p, Before, Sort(Before, rows));
    forall x ensures x in Sort(Before, Filter(p, rows)) <==> x in Filter(p, Sort(Before, rows)) {
      SortMembers(Before, Filter(p, rows), x);
      FilterMembers(p, rows, x);
      FilterMembers(p, Sort(Before, rows), x);
      SortMembers(Before, rows, x);
    }
    StrictlySortedUnique(Before, Sort(Before, Filter(p, rows)), Filter(p, Sort(Before, rows)));
  }
}
