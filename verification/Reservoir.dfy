/** The bounded reservoir as a value: what admission, batches and the two shrinks keep true of it. */
module Reservoir {
  import opened Sorting
  import opened Float32
  import opened FuzzyRank
  import opened Selection

  /** The admission threshold left by the latest partition, if there was one. */
  datatype Threshold = Open | At(estimate: Float, id: Word)

  predicate Admits(t: Threshold, e: DistanceEstimate) {
    || t.Open?
    || Less(e.estimate, t.estimate)
    || (Equal(e.estimate, t.estimate) && e.id < t.id)
  }

  /** At or before the threshold in rank order. */
  predicate AtOrBefore(t: Threshold, e: DistanceEstimate) {
    || t.Open?
    || Less(e.estimate, t.estimate)
    || (Equal(e.estimate, t.estimate) && e.id <= t.id)
  }

  /**
   The threshold may be stale, yet it still separates: everything held is at or before it, everything
   scanned but not held is not admitted by it, and a partition has left at least R rows.
   */
  ghost predicate Holds(held: seq<DistanceEstimate>, scanned: seq<DistanceEstimate>, t: Threshold, r: nat) {
    && DistinctIds(held) && DistinctIds(scanned)
    && (forall x :: x in held ==> x in scanned)
    && (t.Open? ==> forall y :: y in scanned ==> y in held)
    && (t.At? ==> r > 0 && |held| >= r)
    && (t.At? ==> forall x :: x in held ==> AtOrBefore(t, x))
    && (t.At? ==> forall y :: y in scanned && y !in held ==> !Admits(t, y))
  }

  lemma HeldIsRankPrefix(held: seq<DistanceEstimate>, scanned: seq<DistanceEstimate>, t: Threshold, r: nat)
    requires Holds(held, scanned, t, r)
    ensures RankPrefix(held, scanned)
  {
    forall x, y | x in held && y in scanned && y !in held ensures Before(x, y) {
      assert x in scanned && x.id != y.id by {
        var i :| 0 <= i < |scanned| && scanned[i] == x;
        var j :| 0 <= j < |scanned| && scanned[j] == y;
      }
    }
  }

  /** A batch of rows under one threshold: the admitted lanes are appended, the others dropped. */
  lemma HoldsAfterBatch(held: seq<DistanceEstimate>, scanned: seq<DistanceEstimate>, t: Threshold, r: nat,
                        batch: seq<DistanceEstimate>)
    requires Holds(held, scanned, t, r) && DistinctIds(scanned + batch)
    ensures Holds(held + Filter(AdmittedBy(t), batch), scanned + batch, t, r)
  {
    var f := Filter(AdmittedBy(t), batch);
    forall x ensures x in f <==> x in batch && Admits(t, x) {
      FilterMembers(AdmittedBy(t), batch, x);
    }
    var all := scanned + batch;
    BatchDistinct(scanned, batch);
    FilterDistinct(AdmittedBy(t), batch);
    forall i, j | 0 <= i < j < |held + f| ensures (held + f)[i].id != (held + f)[j].id {
      if i < |held| <= j {
        assert held[i] in scanned && f[j - |held|] in batch by { assert held[i] in held && f[j - |held|] in f; }
      }
    }
  }

  function AdmittedBy(t: Threshold): DistanceEstimate -> bool {
    (e: DistanceEstimate) => Admits(t, e)
  }

  lemma BatchDistinct(a: seq<DistanceEstimate>, b: seq<DistanceEstimate>)
    requires DistinctIds(a + b)
    ensures DistinctIds(a) && DistinctIds(b)
    ensures forall x, y :: x in a && y in b ==> x.id != y.id
  {
    var c := a + b;
    forall i, j | 0 <= i < j < |a| ensures a[i].id != a[j].id { assert c[i].id != c[j].id; }
    forall i, j | 0 <= i < j < |b| ensures b[i].id != b[j].id { assert c[|a| + i].id != c[|a| + j].id; }
    forall x, y | x in a && y in b ensures x.id != y.id {
      var i :| 0 <= i < |a| && a[i] == x;
      var j :| 0 <= j < |b| && b[j] == y;
      assert c[i].id != c[|a| + j].id;
    }
  }

  // ---------------------------------------------------------------- fuzzy shrink

  function KeptUnder(t: FuzzyRankThreshold): DistanceEstimate -> bool {
    (e: DistanceEstimate) => Keeps(t, e.estimate, e.id)
  }

  lemma ShorterFilterDrops<T>(p: T -> bool, s: seq<T>)
    requires |Filter(p, s)| < |s|
    ensures exists x :: x in s && !p(x)
  {
    FilterLength(p, s);
    if forall x :: x in s ==> p(x) {
      CountAll(p, s);
    }
  }

  /** Cutting the held rows at an earlier rank keeps the separation, under the new threshold. */
  lemma HoldsAfterFuzzyShrink(held: seq<DistanceEstimate>, scanned: seq<DistanceEstimate>, t: Threshold, r: nat,
                              cut: FuzzyRankThreshold)
    requires Holds(held, scanned, t, r) && 0 < r
    requires cut.equalToKeep == 0 ==> cut.id == 0
    requires r <= |Filter(KeptUnder(cut), held)| < |held|
    ensures Holds(Filter(KeptUnder(cut), held), scanned, At(cut.estimate, cut.id), r)
  {
    var f := Filter(KeptUnder(cut), held);
    var t' := At(cut.estimate, cut.id);
    FilterDistinct(KeptUnder(cut), held);
    forall x ensures x in f <==> x in held && Keeps(cut, x.estimate, x.id) {
      FilterMembers(KeptUnder(cut), held, x);
    }
    ShorterFilterDrops(KeptUnder(cut), held);
    var w :| w in held && !KeptUnder(cut)(w);
    forall y | y in scanned && y !in f ensures !Admits(t', y) {
      if y !in held {
        assert AtOrBefore(t, w) && !Admits(t, y);
      }
    }
  }

  // ---------------------------------------------------------------- exact shrink

  function Keys(rows: seq<DistanceEstimate>): (keys: seq<nat>)
    ensures |keys| == |rows|
  {
    seq(|rows|, i requires 0 <= i < |rows| => RankKey(rows[i].estimate, rows[i].id))
  }

  predicate KeyLess(a: nat, b: nat) { a < b }

  function WithinThreshold(t: Threshold): DistanceEstimate -> bool {
    (e: DistanceEstimate) => AtOrBefore(t, e)
  }

  /** The threshold read back out of a rank key: the high word as a float, the low word as the ID. */
  function ThresholdOf(key: nat): Threshold
    requires key < 0x1_0000_0000_0000_0000
    requires !IsNaN(FloatFromOrderedKey(key / 0x1_0000_0000))
  {
    At(FloatFromOrderedKey(key / 0x1_0000_0000), key % 0x1_0000_0000)
  }

  /** Reading a threshold back from a key loses only the sign of a zero, so it cuts at the key's rank. */
  lemma ThresholdOfKey(w: DistanceEstimate, e: DistanceEstimate)
    ensures var key := RankKey(w.estimate, w.id);
      && key < 0x1_0000_0000_0000_0000
      && !IsNaN(FloatFromOrderedKey(key / 0x1_0000_0000))
      && (AtOrBefore(ThresholdOf(key), e) <==> RankKey(e.estimate, e.id) <= key)
      && (Admits(ThresholdOf(key), e) <==> RankKey(e.estimate, e.id) < key)
  {
    KeyRoundTrip(w.estimate);
    KeyOrder(e.estimate, w.estimate);
    var key := RankKey(w.estimate, w.id);
    assert key / 0x1_0000_0000 == OrderedFloatKey(w.estimate) && key % 0x1_0000_0000 == w.id;
  }

  lemma {:induction false} KeyCount(rows: seq<DistanceEstimate>, w: DistanceEstimate)
    requires ThresholdOf.requires(RankKey(w.estimate, w.id))
    ensures Count(WithinThreshold(ThresholdOf(RankKey(w.estimate, w.id))), rows)
         == Count(AtMost(KeyLess, RankKey(w.estimate, w.id)), Keys(rows))
  {
    if rows != [] {
      var n := |rows| - 1;
      assert Keys(rows)[..n] == Keys(rows[..n]);
      KeyCount(rows[..n], w);
      ThresholdOfKey(w, rows[n]);
      assert AtMost(KeyLess, RankKey(w.estimate, w.id))(Keys(rows)[n])
        <==> !KeyLess(RankKey(w.estimate, w.id), Keys(rows)[n]);
    }
  }

  lemma KeysUntied(rows: seq<DistanceEstimate>)
    requires DistinctIds(rows)
    ensures Untied(KeyLess, Keys(rows))
  {
    var keys := Keys(rows);
    forall i, j | 0 <= i < j < |keys| ensures KeyLess(keys[i], keys[j]) || KeyLess(keys[j], keys[i]) {
      assert rows[i].id != rows[j].id;
      assert keys[i] % 0x1_0000_0000 == rows[i].id && keys[j] % 0x1_0000_0000 == rows[j].id;
    }
  }

  lemma WithinIsPrefix(rows: seq<DistanceEstimate>, t: Threshold)
    requires DistinctIds(rows) && t.At?
    ensures RankPrefix(Filter(WithinThreshold(t), rows), rows)
  {
    forall x ensures x in Filter(WithinThreshold(t), rows) <==> x in rows && AtOrBefore(t, x) {
      FilterMembers(WithinThreshold(t), rows, x);
    }
  }

  /** Cutting at the `keep`-th smallest key keeps exactly the first `keep` rows in rank order. */
  lemma ExactCut(rows: seq<DistanceEstimate>, keep: nat)
    requires DistinctIds(rows) && 0 < keep <= |rows|
    ensures var key := Sort(KeyLess, Keys(rows))[keep - 1];
      && key < 0x1_0000_0000_0000_0000
      && !IsNaN(FloatFromOrderedKey(key / 0x1_0000_0000))
      && |Filter(WithinThreshold(ThresholdOf(key)), rows)| == keep
      && RankPrefix(Filter(WithinThreshold(ThresholdOf(key)), rows), rows)
  {
    var key := Sort(KeyLess, Keys(rows))[keep - 1];
    assert StrictWeakOrder(KeyLess);
    KeysUntied(rows);
    NthCounts(KeyLess, Keys(rows), keep - 1);
    var i :| 0 <= i < |rows| && Keys(rows)[i] == key;
    ThresholdOfKey(rows[i], rows[i]);
    KeyCount(rows, rows[i]);
    FilterLength(WithinThreshold(ThresholdOf(key)), rows);
    WithinIsPrefix(rows, ThresholdOf(key));
  }
}
