/**
 The approximate-rank partition of src/interval_selection_internal.h: a threshold that cuts the
 reservoir at some exact rank between two bounds.
 */
module FuzzyRank {
  import opened Sorting
  import opened Float32
  import opened Outcomes

  datatype FuzzyRankThreshold =
    FuzzyRankThreshold(estimate: Float, id: Word, outputSize: nat, equalToKeep: nat)

  /** The test by which the reservoir is compacted under a threshold. */
  predicate Keeps(t: FuzzyRankThreshold, estimate: Float, id: Word) {
    || Less(estimate, t.estimate)
    || (t.equalToKeep > 0 && Equal(estimate, t.estimate) && id <= t.id)
  }

  function Zip(estimates: seq<Float>, ids: seq<Word>): (z: seq<(Float, Word)>)
    requires |estimates| == |ids|
    ensures |z| == |ids|
  {
    seq(|ids|, i requires 0 <= i < |ids| && |estimates| == |ids| => (estimates[i], ids[i]))
  }

  lemma LessOrder()
    ensures StrictWeakOrder(Less)
  {
  }

  lemma TiedIsEqual(a: Float, t: Float)
    ensures Tied(Less, t)(a) <==> Equal(a, t)
  {
    assert Tied(Less, t)(a) <==> !Less(a, t) && !Less(t, a);
  }

  function IdLess(a: Word, b: Word): bool { a < b }

  function Tally(b: bool): nat { if b then 1 else 0 }

  /** One of the three, with two of them at or below it and two at or above it. */
  function FuzzyMedian3(a: Float, b: Float, c: Float): (m: Float)
    ensures m == a || m == b || m == c
    ensures Tally(!Less(m, a)) + Tally(!Less(m, b)) + Tally(!Less(m, c)) >= 2
    ensures Tally(!Less(a, m)) + Tally(!Less(b, m)) + Tally(!Less(c, m)) >= 2
  {
    var (lo, hi) := if Less(b, a) then (b, a) else (a, b);
    if Less(hi, c) then hi else if Less(lo, c) then c else lo
  }

  method SampleFuzzyThreshold(values: seq<Float>, lower: Float, upper: Float) returns (r: Float)
    requires values != []
    ensures r == lower || (r in values && Less(lower, r) && Less(r, upper))
  {
    var count := |values|;
    var sample: seq<Float> := [];
    var i := 0;
    while i < count
      invariant 0 <= i <= count && |sample| <= 3
      invariant |sample| == 3 ==> i == count
      invariant forall v :: v in sample ==> v in values && Less(lower, v) && Less(v, upper)
    {
      var value := values[(i * 6700417) % count];
      i := i + 1;
      if Less(lower, value) && Less(value, upper) {
        sample := sample + [value];
        if |sample| == 3 {
          i := count;
        }
      }
    }
    if |sample| == 3 {
      return FuzzyMedian3(sample[0], sample[1], sample[2]);
    }
    return if |sample| == 0 then lower else sample[0];
  }

  method CountFuzzyThreshold(values: seq<Float>, threshold: Float) returns (less: nat, equal: nat)
    ensures less == Count(Below(Less, threshold), values)
    ensures equal == Count(Tied(Less, threshold), values)
  {
    less, equal := 0, 0;
    for i := 0 to |values|
      invariant less == Count(Below(Less, threshold), values[..i])
      invariant equal == Count(Tied(Less, threshold), values[..i])
    {
      assert values[..i + 1][..i] == values[..i];
      TiedIsEqual(values[i], threshold);
      less := less + Tally(Less(values[i], threshold));
      equal := equal + Tally(Equal(values[i], threshold));
    }
    assert values[..|values|] == values;
  }

  /** The candidate cut found so far: `output` rows, `less` of them strictly below the threshold. */
  ghost predicate Cut(estimates: seq<Float>, threshold: Float, less: nat, equal: nat, output: nat,
                      qMin: nat, qMax: nat) {
    && threshold in estimates
    && less == Count(Below(Less, threshold), estimates)
    && equal == Count(Tied(Less, threshold), estimates)
    && qMin <= output <= qMax
    && less <= output <= less + equal
  }

  /** The bisection over sampled values; gives up after 200 rounds or when no value is left between the bounds. */
  method SearchThreshold(estimates: seq<Float>, qMin: nat, qMax: nat)
    returns (found: bool, threshold: Float, less: nat, equal: nat, output: nat)
    requires 3 <= |estimates| && 0 < qMin <= qMax < |estimates|
    ensures threshold in estimates
    ensures found ==> Cut(estimates, threshold, less, equal, output, qMin, qMax)
  {
    var count := |estimates|;
    var lower: Float, upper: Float := NEGATIVE_INFINITY, POSITIVE_INFINITY;
    threshold := FuzzyMedian3(estimates[0], estimates[count / 2], estimates[count - 1]);
    less, equal, output, found := 0, 0, 0, false;
    var iteration := 0;
    while iteration < 200
      invariant threshold in estimates
    {
      less, equal := CountFuzzyThreshold(estimates, threshold);
      if less <= qMin {
        if less + equal >= qMin {
          output, found := qMin, true;
          return;
        }
        lower := threshold;
      } else if less <= qMax {
        output, found := less, true;
        return;
      } else {
        upper := threshold;
      }
      var next := SampleFuzzyThreshold(estimates, lower, upper);
      if Equal(next, lower) {
        return;
      }
      threshold := next;
      iteration := iteration + 1;
    }
  }

  /** The exact fallback: the qMin-th smallest value. */
  lemma FallbackCut(estimates: seq<Float>, qMin: nat)
    requires 0 < qMin <= |estimates|
    ensures var t := Sort(Less, estimates)[qMin - 1];
      && t in estimates
      && Count(Below(Less, t), estimates) < qMin
      && qMin <= Count(Below(Less, t), estimates) + Count(Tied(Less, t), estimates)
  {
    LessOrder();
    NthCounts(Less, estimates, qMin - 1);
    var t := Sort(Less, estimates)[qMin - 1];
    CountSplit(Below(Less, t), Tied(Less, t), AtMost(Less, t), estimates);
  }

  // ---------------------------------------------------------------- the tie on IDs

  /** The IDs of the rows tied with the threshold, in row order. */
  function EqualIds(estimates: seq<Float>, ids: seq<Word>, threshold: Float): (r: seq<Word>)
    requires |estimates| == |ids|
  {
    if ids == [] then [] else
      var n := |ids| - 1;
      EqualIds(estimates[..n], ids[..n], threshold) + if Equal(estimates[n], threshold) then [ids[n]] else []
  }

  lemma {:induction false} EqualIdsFacts(estimates: seq<Float>, ids: seq<Word>, threshold: Float)
    requires |estimates| == |ids|
    ensures |EqualIds(estimates, ids, threshold)| == Count(Tied(Less, threshold), estimates)
    ensures forall x :: x in EqualIds(estimates, ids, threshold) ==> x in ids
    ensures Distinct(ids) ==> Untied(IdLess, EqualIds(estimates, ids, threshold))
  {
    if ids != [] {
      var n := |ids| - 1;
      EqualIdsFacts(estimates[..n], ids[..n], threshold);
      TiedIsEqual(estimates[n], threshold);
      var e := EqualIds(estimates[..n], ids[..n], threshold);
      forall i | 0 <= i < |e| && Distinct(ids) ensures e[i] != ids[n] {
        assert e[i] in ids[..n];
      }
    }
  }

  function KeptBy(t: FuzzyRankThreshold): ((Float, Word)) -> bool {
    (p: (Float, Word)) => Keeps(t, p.0, p.1)
  }

  lemma {:induction false} KeptCount(t: FuzzyRankThreshold, estimates: seq<Float>, ids: seq<Word>)
    requires |estimates| == |ids|
    ensures Count(KeptBy(t), Zip(estimates, ids))
         == Count(Below(Less, t.estimate), estimates)
          + if t.equalToKeep > 0 then Count(AtMost(IdLess, t.id), EqualIds(estimates, ids, t.estimate)) else 0
  {
    if ids != [] {
      var n := |ids| - 1;
      KeptCount(t, estimates[..n], ids[..n]);
      assert Zip(estimates, ids)[..n] == Zip(estimates[..n], ids[..n]);
      assert Zip(estimates, ids)[n] == (estimates[n], ids[n]);
      CountConcat(AtMost(IdLess, t.id), EqualIds(estimates[..n], ids[..n], t.estimate), [ids[n]]);
      CountOne(AtMost(IdLess, t.id), ids[n]);
      var e := EqualIds(estimates[..n], ids[..n], t.estimate);
      assert EqualIds(estimates, ids, t.estimate)
          == if Equal(estimates[n], t.estimate) then e + [ids[n]] else e;
      assert AtMost(IdLess, t.id)(ids[n]) <==> !IdLess(t.id, ids[n]);
      assert Below(Less, t.estimate)(estimates[n]) <==> Less(estimates[n], t.estimate);
      assert KeptBy(t)((estimates[n], ids[n])) <==> Keeps(t, estimates[n], ids[n]);
    }
  }

  method CollectEqualIds(estimates: seq<Float>, ids: seq<Word>, threshold: Float) returns (scratch: seq<Word>)
    requires |estimates| == |ids|
    ensures scratch == EqualIds(estimates, ids, threshold)
  {
    scratch := [];
    for i := 0 to |ids|
      invariant scratch == EqualIds(estimates[..i], ids[..i], threshold)
    {
      assert estimates[..i + 1][..i] == estimates[..i] && ids[..i + 1][..i] == ids[..i];
      if Equal(estimates[i], threshold) {
        scratch := scratch + [ids[i]];
      }
    }
    assert estimates[..|ids|] == estimates && ids[..|ids|] == ids;
  }

  /**
   The whole search. Neither of the source's logic errors can occur: every accepted input gets a
   threshold, and with distinct IDs compaction under it keeps exactly `outputSize` rows.
   */
  method FindFuzzyRankThreshold(estimates: seq<Float>, ids: seq<Word>, qMin: nat, qMax: nat)
    returns (r: Result<FuzzyRankThreshold>)
    requires |estimates| == |ids|
    ensures r.Ok? <==> 0 < qMin <= qMax < |estimates|
    ensures r.Err? ==> r.error == InvalidArgument
    ensures r.Ok? ==> r.value.estimate in estimates && qMin <= r.value.outputSize <= qMax
    ensures r.Ok? && r.value.equalToKeep == 0 ==> r.value.id == 0
    ensures r.Ok? && Distinct(ids) ==> Count(KeptBy(r.value), Zip(estimates, ids)) == r.value.outputSize
  {
    if qMin == 0 || qMin > qMax || qMax >= |estimates| {
      return Err(InvalidArgument);
    }
    var threshold, less, equal, output, found := estimates[0], 0, 0, 0, false;
    if |estimates| >= 3 {
      found, threshold, less, equal, output := SearchThreshold(estimates, qMin, qMax);
    }
    if !found {
      FallbackCut(estimates, qMin);
      threshold := Sort(Less, estimates)[qMin - 1];
      less, equal := CountFuzzyThreshold(estimates, threshold);
      output := qMin;
    }
    if less > output || output - less > equal {
      return Err(LogicError);
    }
    var equalToKeep := output - less;
    var thresholdId: Word := 0;
    EqualIdsFacts(estimates, ids, threshold);
    if equalToKeep > 0 {
      var scratch := CollectEqualIds(estimates, ids, threshold);
      thresholdId := Sort(IdLess, scratch)[equalToKeep - 1];
      NthCounts(IdLess, scratch, equalToKeep - 1);
    }
    r := Ok(FuzzyRankThreshold(threshold, thresholdId, output, equalToKeep));
    KeptCount(r.value, estimates, ids);
  }
}
