/** Selection in plain terms: numbers are compared with numbers and rows are counted, without the functions that compute it. */
module PlainSelection {
  import opened Extended
  import opened Sorting
  import opened Float32
  import opened Selection

  /** x + step <= t. */
  ghost predicate Within(x: Ext, step: real, t: Ext) {
    match x
    case NegInf => true
    case PosInf => t.PosInf?
    case Fin(v) => t.PosInf? || (t.Fin? && v + step <= t.r)
  }

  /** x < t. */
  ghost predicate Under(x: Ext, t: Ext) {
    match x
    case NegInf => !t.NegInf?
    case PosInf => false
    case Fin(v) => t.PosInf? || (t.Fin? && v < t.r)
  }

  /** The one row ranks before the other: a smaller estimate, or the same estimate and a smaller ID. */
  ghost predicate Outranks(a: DistanceEstimate, b: DistanceEstimate) {
    Under(Value(a.estimate), Value(b.estimate)) || (Value(a.estimate) == Value(b.estimate) && a.id < b.id)
  }

  /** estimate - z * uncertainty is at most t; an unbounded interval passes, except as infinity minus infinity in a lane. */
  ghost predicate LowerPasses(simd: bool, e: DistanceEstimate, z: real, t: Ext) {
    if z == 0.0 then Within(Value(e.estimate), 0.0, t)
    else match e.uncertainty
      case Fin(u) => Within(Value(e.estimate), -(z * u), t)
      case PosInf => !simd || Value(e.estimate) != PosInf
      case NegInf => !simd || (t == PosInf && Value(e.estimate) != NegInf)
  }

  /** estimate + z * uncertainty is u; the upper end of an interval without a finite radius is infinite. */
  ghost predicate UpperIs(e: DistanceEstimate, z: real, u: Ext) {
    if z == 0.0 then u == Value(e.estimate)
    else if !e.uncertainty.Fin? then u == PosInf
    else if Value(e.estimate).Fin? then u == Fin(Value(e.estimate).r + z * e.uncertainty.r)
    else u == Value(e.estimate)
  }

  ghost predicate UppersAre(rows: seq<DistanceEstimate>, z: real, uppers: seq<Ext>) {
    |uppers| == |rows| && forall i :: 0 <= i < |rows| ==> UpperIs(rows[i], z, uppers[i])
  }

  /** Fewer than k of the values are below t, which is one of them, and at least k are at or below it. */
  ghost predicate KthSmallest(values: seq<Ext>, k: nat, t: Ext) {
    && t in values
    && |set i | 0 <= i < |values| && Under(values[i], t)| < k
    && |set i | 0 <= i < |values| && Within(values[i], 0.0, t)| >= k
  }

  /** Fewer than r scanned rows rank before the row; every row if r is 0. */
  ghost predicate Shortlisted(rows: seq<DistanceEstimate>, r: nat, e: DistanceEstimate) {
    e in rows && (r == 0 || |set i | 0 <= i < |rows| && Outranks(rows[i], e)| < r)
  }

  /** What a selection over all scanned rows is. */
  ghost predicate Chosen(simd: bool, rows: seq<DistanceEstimate>, uppers: seq<Ext>, k: nat, z: real, r: nat, s: SelectionResult) {
    && KthSmallest(uppers, k, s.kthUpperBound)
    && (forall e :: e in s.candidates <==> Shortlisted(rows, r, e) && LowerPasses(simd, e, z, s.kthUpperBound))
    && (forall i, j :: 0 <= i < j < |s.candidates| ==> Outranks(s.candidates[i], s.candidates[j]))
    && (s.truncated <==> r > 0 && |rows| > r)
  }

  // ---------------------------------------------------------------- what is computed meets it

  lemma BeforeOutranks(a: DistanceEstimate, b: DistanceEstimate)
    ensures Before(a, b) <==> Outranks(a, b)
  {
    ValueOrder(a.estimate, b.estimate);
  }

  lemma LePlain(x: Ext, step: real, t: Ext)
    ensures Le(Plus(x, step), t) <==> Within(x, step, t)
  {
  }

  lemma PortablePasses(e: DistanceEstimate, z: real, t: Ext)
    ensures Reaches(z, t)(e) <==> LowerPasses(false, e, z, t)
  {
    if z == 0.0 || !e.uncertainty.Fin? {
      LePlain(Value(e.estimate), 0.0, t);
    } else {
      var u := e.uncertainty.r;
      if u == 0.0 { assert z * u == 0.0; }
      LePlain(Value(e.estimate), -(z * u), t);
      assert Lower(e, z) == Plus(Value(e.estimate), -(z * u));
    }
  }

  lemma LanePasses(e: DistanceEstimate, z: real, t: Ext)
    ensures LanesReach(z, t)(e) <==> LowerPasses(true, e, z, t)
  {
    var lower := Minus(Value(e.estimate), Times(z, e.uncertainty));
    if z == 0.0 {
      LePlain(Value(e.estimate), 0.0, t);
    } else if e.uncertainty.Fin? {
      LePlain(Value(e.estimate), -(z * e.uncertainty.r), t);
      var radius := z * e.uncertainty.r;
      assert Times(z, e.uncertainty) == Fin(radius);
      match Value(e.estimate)
      case Fin(x) => assert lower == Number(Fin(x - radius));
      case infinite => assert lower == Number(infinite);
    } else if lower.Number? {
      LePlain(lower.value, 0.0, t);
    }
  }

  lemma TestPasses(simd: bool, e: DistanceEstimate, z: real, t: Ext)
    ensures LowerTest(simd, z, t)(e) <==> LowerPasses(simd, e, z, t)
  {
    if simd { LanePasses(e, z, t); } else { PortablePasses(e, z, t); }
  }

  lemma UpperPlain(e: DistanceEstimate, z: real)
    ensures UpperIs(e, z, Upper(e, z))
  {
    if e.uncertainty == Fin(0.0) { assert z * e.uncertainty.r == 0.0; }
  }

  lemma BelowPlain(values: seq<Ext>, t: Ext)
    ensures Count(Below(Lt, t), values) == |set i | 0 <= i < |values| && Under(values[i], t)|
  {
    forall i | 0 <= i < |values| ensures Below(Lt, t)(values[i]) <==> Under(values[i], t) { LePlain(t, 0.0, values[i]); }
    CountIsSize(Below(Lt, t), values, set i | 0 <= i < |values| && Under(values[i], t));
  }

  lemma AtMostPlain(values: seq<Ext>, t: Ext)
    ensures Count(AtMost(Lt, t), values) == |set i | 0 <= i < |values| && Within(values[i], 0.0, t)|
  {
    forall i | 0 <= i < |values| ensures AtMost(Lt, t)(values[i]) <==> Within(values[i], 0.0, t) { LePlain(values[i], 0.0, t); }
    CountIsSize(AtMost(Lt, t), values, set i | 0 <= i < |values| && Within(values[i], 0.0, t));
  }

  lemma KthPlain(uppers: seq<Ext>, k: nat)
    requires 0 < k <= |uppers|
    ensures KthSmallest(uppers, k, KthUpper(uppers, k))
  {
    LtOrder();
    NthCounts(Lt, uppers, k - 1);
    BelowPlain(uppers, KthUpper(uppers, k));
    AtMostPlain(uppers, KthUpper(uppers, k));
  }

  lemma RankPlain(rows: seq<DistanceEstimate>, e: DistanceEstimate)
    ensures Count(Below(Before, e), rows) == |set i | 0 <= i < |rows| && Outranks(rows[i], e)|
  {
    forall i | 0 <= i < |rows| ensures Below(Before, e)(rows[i]) <==> Outranks(rows[i], e) { BeforeOutranks(rows[i], e); }
    CountIsSize(Below(Before, e), rows, set i | 0 <= i < |rows| && Outranks(rows[i], e));
  }

  lemma ShortlistPlain(rows: seq<DistanceEstimate>, r: nat, e: DistanceEstimate)
    requires DistinctIds(rows)
    ensures e in Shortlist(rows, r) <==> Shortlisted(rows, r, e)
  {
    SortMembers(Before, rows, e);
    TakeMembers(Sort(Before, rows), r, e);
    if e in rows && r > 0 {
      BeforeOrder();
      DistinctIdsUntied(rows);
      RankCount(Before, rows, e, r);
      RankPlain(rows, e);
    }
  }

  /** What `Select` computes is chosen in this sense. */
  lemma SelectIsChosen(simd: bool, rows: seq<DistanceEstimate>, uppers: seq<Ext>, k: nat, z: real, r: nat)
    requires 0 < k <= |uppers| && DistinctIds(rows)
    ensures Chosen(simd, rows, uppers, k, z, r, Select(simd, rows, uppers, k, z, r))
  {
    var s := Select(simd, rows, uppers, k, z, r);
    var t := s.kthUpperBound;
    KthPlain(uppers, k);
    forall e ensures e in s.candidates <==> Shortlisted(rows, r, e) && LowerPasses(simd, e, z, t) {
      FilterMembers(LowerTest(simd, z, t), Shortlist(rows, r), e);
      ShortlistPlain(rows, r, e);
      TestPasses(simd, e, z, t);
    }
    BeforeOrder();
    DistinctIdsUntied(rows);
    SortStrict(Before, rows);
    TakeStrict(Before, Sort(Before, rows), r);
    FilterStrict(LowerTest(simd, z, t), Before, Shortlist(rows, r));
    forall i, j | 0 <= i < j < |s.candidates| ensures Outranks(s.candidates[i], s.candidates[j]) {
      BeforeOutranks(s.candidates[i], s.candidates[j]);
    }
  }
}
