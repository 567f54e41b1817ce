/** What the selected candidates are good for: enough of them survive, and none that could matter is lost. */
module SelectionGuarantees {
  import opened Extended
  import opened Sorting
  import opened Float32
  import opened Selection
  import opened ExactTopK

  function Uppers(rows: seq<DistanceEstimate>, z: real): (u: seq<Ext>)
    ensures |u| == |rows|
  {
    seq(|rows|, i requires 0 <= i < |rows| => Upper(rows[i], z))
  }

  function EstimateWithin(t: Ext): DistanceEstimate -> bool {
    (e: DistanceEstimate) => Le(Value(e.estimate), t)
  }

  lemma EndpointsAround(e: DistanceEstimate, z: real)
    requires NonNegative(e) && z >= 0.0
    ensures Le(Lower(e, z), Value(e.estimate)) && Le(Value(e.estimate), Upper(e, z))
  {
    if e.uncertainty.Fin? { assert z * e.uncertainty.r >= 0.0; }
  }

  /** If a row's upper endpoint is within t, so is its estimate. */
  lemma {:induction false} UppersBoundEstimates(rows: seq<DistanceEstimate>, z: real, t: Ext)
    requires z >= 0.0 && forall e :: e in rows ==> NonNegative(e)
    ensures Count(AtMost(Lt, t), Uppers(rows, z)) <= Count(EstimateWithin(t), rows)
  {
    if rows != [] {
      var n := |rows| - 1;
      assert Uppers(rows, z)[..n] == Uppers(rows[..n], z);
      UppersBoundEstimates(rows[..n], z, t);
      assert rows[n] in rows;
      EndpointsAround(rows[n], z);
      assert AtMost(Lt, t)(Uppers(rows, z)[n]) <==> !Lt(t, Upper(rows[n], z));
    }
  }

  lemma EstimateRank(a: DistanceEstimate, b: DistanceEstimate, t: Ext)
    requires Before(a, b) && EstimateWithin(t)(b)
    ensures EstimateWithin(t)(a)
  {
    ValueOrder(a.estimate, b.estimate);
  }

  /** In rank order the rows whose estimates are within t come first. */
  lemma WithinComesFirst(ranked: seq<DistanceEstimate>, t: Ext, i: nat)
    requires StrictlySorted(Before, ranked)
    requires i < Count(EstimateWithin(t), ranked)
    ensures EstimateWithin(t)(ranked[i])
  {
    forall x, y | x in ranked && y in ranked && Before(x, y) && EstimateWithin(t)(y) ensures EstimateWithin(t)(x) {
      EstimateRank(x, y, t);
    }
    DownwardFirst(Before, EstimateWithin(t), ranked, i);
  }

  ghost predicate Scan(rows: seq<DistanceEstimate>, k: nat, z: real, r: nat) {
    && 0 < k <= |rows| && z >= 0.0 && (r == 0 || r >= k)
    && DistinctIds(rows)
    && (forall e :: e in rows ==> NonNegative(e))
  }

  /** The K best point estimates reach the K-th smallest upper endpoint, whatever the radii. */
  lemma BestReach(rows: seq<DistanceEstimate>, k: nat, z: real, i: nat)
    requires Scan(rows, k, z, 0) && i < k
    ensures Reaches(z, KthUpper(Uppers(rows, z), k))(Sort(Before, rows)[i])
    ensures EstimateWithin(KthUpper(Uppers(rows, z), k))(Sort(Before, rows)[i])
  {
    var t, ranked := KthUpper(Uppers(rows, z), k), Sort(Before, rows);
    LtOrder();
    BeforeOrder();
    NthCounts(Lt, Uppers(rows, z), k - 1);
    UppersBoundEstimates(rows, z, t);
    SortMultiset(Before, rows);
    CountMultiset(EstimateWithin(t), rows, ranked);
    DistinctIdsUntied(rows);
    SortStrict(Before, rows);
    WithinComesFirst(ranked, t, i);
    SortMembers(Before, rows, ranked[i]);
    assert ranked[i] in ranked;
    EndpointsAround(ranked[i], z);
  }

  /** On the portable path at least K candidates survive, and they start with the K best estimates. */
  lemma NeverStarves(rows: seq<DistanceEstimate>, k: nat, z: real, r: nat)
    requires Scan(rows, k, z, r)
    ensures var c := Select(false, rows, Uppers(rows, z), k, z, r).candidates;
      |c| >= k && c[..k] == Sort(Before, rows)[..k]
  {
    var t, short := KthUpper(Uppers(rows, z), k), Shortlist(rows, r);
    forall i | 0 <= i < k ensures short[i] == Sort(Before, rows)[i] && Reaches(z, t)(short[i]) {
      BestReach(rows, k, z, i);
    }
    FilterKeepsPrefix(Reaches(z, t), short, k);
  }

  lemma FilterKeepsPrefix<T>(p: T -> bool, s: seq<T>, k: nat)
    requires k <= |s| && forall i :: 0 <= i < k ==> p(s[i])
    ensures |Filter(p, s)| >= k && Filter(p, s)[..k] == s[..k]
  {
    FilterKeepsAll(p, s[..k]);
    assert s == s[..k] + s[k..];
    FilterConcat(p, s[..k], s[k..]);
  }

  lemma {:induction false} FilterKeepsAll<T>(p: T -> bool, s: seq<T>)
    requires forall i :: 0 <= i < |s| ==> p(s[i])
    ensures Filter(p, s) == s
  {
    if s != [] {
      FilterKeepsAll(p, s[..|s| - 1]);
    }
  }

  // ---------------------------------------------------------------- the 16-lane path

  function NotDoublyInfinite(z: real): DistanceEstimate -> bool {
    (e: DistanceEstimate) => !DoublyInfinite(z, e)
  }

  /** On the 16-lane path a single doubly infinite row is enough to return nothing. */
  lemma LanesCanStarve()
    ensures var e := DistanceEstimate(0, POSITIVE_INFINITY, PosInf);
      && Scan([e], 1, 1.0, 0)
      && Select(true, [e], Uppers([e], 1.0), 1, 1.0, 0).candidates == []
      && Select(false, [e], Uppers([e], 1.0), 1, 1.0, 0).candidates == [e]
  {
    var e := DistanceEstimate(0, POSITIVE_INFINITY, PosInf);
    assert Scan([e], 1, 1.0, 0);
    NeverStarves([e], 1, 1.0, 0);
    var t := KthUpper(Uppers([e], 1.0), 1);
    assert Sort(Before, [e]) == [e] by { assert [e][..0] == []; }
    assert DoublyInfinite(1.0, e);
    LowerTestsAgree(e, 1.0, t);
    CountNone(LanesReach(1.0, t), [e]);
    FilterLength(LanesReach(1.0, t), [e]);
  }

  /** The 16-lane path keeps K candidates exactly when K shortlisted rows are not doubly infinite. */
  lemma LanesStarveExactly(rows: seq<DistanceEstimate>, k: nat, z: real, r: nat)
    requires Scan(rows, k, z, r)
    ensures |Select(true, rows, Uppers(rows, z), k, z, r).candidates| >= k
       <==> Count(NotDoublyInfinite(z), Shortlist(rows, r)) >= k
  {
    var t, short := KthUpper(Uppers(rows, z), k), Shortlist(rows, r);
    var lanes := LanesReach(z, t);
    FilterLength(lanes, short);
    forall e | e in short ensures NonNegative(e) { SortMembers(Before, rows, e); }
    forall e | e in short ensures lanes(e) ==> NotDoublyInfinite(z)(e) { LowerTestsAgree(e, z, t); }
    CountMonotone(lanes, NotDoublyInfinite(z), short);
    if t == PosInf {
      forall e | e in short ensures NotDoublyInfinite(z)(e) ==> lanes(e) { LowerTestsAgree(e, z, t); }
      CountMonotone(NotDoublyInfinite(z), lanes, short);
    } else {
      forall i | 0 <= i < k ensures lanes(short[i]) {
        BestReach(rows, k, z, i);
        assert short[i] == Sort(Before, rows)[i] && short[i] in short;
        LowerTestsAgree(short[i], z, t);
      }
      assert short == short[..k] + short[k..];
      CountConcat(lanes, short[..k], short[k..]);
      CountAll(lanes, short[..k]);
    }
  }

  // ---------------------------------------------------------------- lossless search

  function Neighbors(rows: seq<DistanceEstimate>, find: Word -> Neighbor): (n: seq<Neighbor>)
    ensures |n| == |rows|
  {
    seq(|rows|, i requires 0 <= i < |rows| => find(rows[i].id))
  }

  /** The exact distance lies between the two endpoints. */
  ghost predicate IntervalHolds(e: DistanceEstimate, z: real, find: Word -> Neighbor) {
    Le(Lower(e, z), Fin(find(e.id).distance)) && Le(Fin(find(e.id).distance), Upper(e, z))
  }

  function DistanceWithin(t: Ext): Neighbor -> bool {
    (n: Neighbor) => Le(Fin(n.distance), t)
  }

  lemma {:induction false} UppersBoundDistances(rows: seq<DistanceEstimate>, z: real, find: Word -> Neighbor, t: Ext)
    requires forall e :: e in rows ==> IntervalHolds(e, z, find)
    ensures Count(AtMost(Lt, t), Uppers(rows, z)) <= Count(DistanceWithin(t), Neighbors(rows, find))
  {
    if rows != [] {
      var n := |rows| - 1;
      assert Uppers(rows, z)[..n] == Uppers(rows[..n], z);
      assert Neighbors(rows, find)[..n] == Neighbors(rows[..n], find);
      UppersBoundDistances(rows[..n], z, find, t);
      assert rows[n] in rows;
      assert AtMost(Lt, t)(Uppers(rows, z)[n]) <==> !Lt(t, Upper(rows[n], z));
    }
  }

  lemma TopWithin(all: seq<Neighbor>, k: nat, t: Ext, n: Neighbor)
    requires Untied(Nearer, all) && k <= Count(DistanceWithin(t), all)
    requires n in TopK(all, k)
    ensures DistanceWithin(t)(n)
  {
    NearerOrder();
    SortMultiset(Nearer, all);
    CountMultiset(DistanceWithin(t), all, Sort(Nearer, all));
    SortStrict(Nearer, all);
    var i :| 0 <= i < |TopK(all, k)| && TopK(all, k)[i] == n;
    DownwardFirst(Nearer, DistanceWithin(t), Sort(Nearer, all), i);
  }

  /** Every one of the K nearest rows is within the K-th smallest upper endpoint. */
  lemma NearestWithin(rows: seq<DistanceEstimate>, k: nat, z: real, find: Word -> Neighbor, n: Neighbor)
    requires 0 < k <= |rows|
    requires forall e :: e in rows ==> IntervalHolds(e, z, find)
    requires Untied(Nearer, Neighbors(rows, find))
    requires n in TopK(Neighbors(rows, find), k)
    ensures DistanceWithin(KthUpper(Uppers(rows, z), k))(n)
  {
    LtOrder();
    NthCounts(Lt, Uppers(rows, z), k - 1);
    UppersBoundDistances(rows, z, find, KthUpper(Uppers(rows, z), k));
    TopWithin(Neighbors(rows, find), k, KthUpper(Uppers(rows, z), k), n);
  }

  lemma NeighborsDistinct(part: seq<DistanceEstimate>, rows: seq<DistanceEstimate>, find: Word -> Neighbor)
    requires DistinctIds(part) && DistinctIds(rows) && forall e :: e in part ==> e in rows
    requires Untied(Nearer, Neighbors(rows, find))
    ensures Untied(Nearer, Neighbors(part, find))
    ensures forall x :: x in Neighbors(part, find) ==> x in Neighbors(rows, find)
  {
    forall i | 0 <= i < |part| ensures find(part[i].id) in Neighbors(rows, find) {
      assert part[i] in part;
      var a :| 0 <= a < |rows| && rows[a] == part[i];
      assert Neighbors(rows, find)[a] == find(part[i].id);
    }
    forall i, j | 0 <= i < j < |part|
      ensures Nearer(find(part[i].id), find(part[j].id)) || Nearer(find(part[j].id), find(part[i].id))
    {
      assert part[i] in part && part[j] in part;
      assert part[i] in rows && part[j] in rows;
      var a :| 0 <= a < |rows| && rows[a] == part[i];
      var b :| 0 <= b < |rows| && rows[b] == part[j];
      assert part[i].id != part[j].id;
      var n := Neighbors(rows, find);
      assert n[a] == find(part[i].id) && n[b] == find(part[j].id);
      assert if a < b then Nearer(n[a], n[b]) || Nearer(n[b], n[a]) else Nearer(n[b], n[a]) || Nearer(n[a], n[b]);
    }
  }

  lemma CandidateMembers(simd: bool, rows: seq<DistanceEstimate>, k: nat, z: real, r: nat, e: DistanceEstimate)
    requires DistinctIds(rows) && 0 < k <= |rows| && (r == 0 || |rows| <= r)
    ensures var c := Select(simd, rows, Uppers(rows, z), k, z, r).candidates;
      DistinctIds(c) &&
      (e in c <==> e in rows && LowerTest(simd, z, KthUpper(Uppers(rows, z), k))(e))
  {
    var test := LowerTest(simd, z, KthUpper(Uppers(rows, z), k));
    assert Shortlist(rows, r) == Sort(Before, rows);
    SortedDistinct(rows);
    FilterDistinct(test, Sort(Before, rows));
    FilterMembers(test, Sort(Before, rows), e);
    SortMembers(Before, rows, e);
  }

  /** A row that is among the K nearest passes the lower test. */
  lemma NearestSelected(simd: bool, rows: seq<DistanceEstimate>, k: nat, z: real, r: nat, find: Word -> Neighbor, n: Neighbor)
    requires Scan(rows, k, z, r) && (r == 0 || |rows| <= r)
    requires forall e :: e in rows ==> IntervalHolds(e, z, find)
    requires simd ==> forall e :: e in rows ==> !DoublyInfinite(z, e)
    requires Untied(Nearer, Neighbors(rows, find))
    requires n in TopK(Neighbors(rows, find), k)
    ensures n in Neighbors(Select(simd, rows, Uppers(rows, z), k, z, r).candidates, find)
  {
    var t, c := KthUpper(Uppers(rows, z), k), Select(simd, rows, Uppers(rows, z), k, z, r).candidates;
    NearestWithin(rows, k, z, find, n);
    SortMembers(Nearer, Neighbors(rows, find), n);
    var a :| 0 <= a < |rows| && Neighbors(rows, find)[a] == n;
    var e := rows[a];
    assert e in rows;
    LowerTestsAgree(e, z, t);
    CandidateMembers(simd, rows, k, z, r, e);
    MemberFound(c, find, e);
  }

  lemma MemberFound(c: seq<DistanceEstimate>, find: Word -> Neighbor, e: DistanceEstimate)
    requires e in c
    ensures find(e.id) in Neighbors(c, find)
  {
    var b :| 0 <= b < |c| && c[b] == e;
    assert Neighbors(c, find)[b] == find(e.id);
  }

  /**
   If every exact distance lies in its interval and the shortlist is not truncated, refining only the
   selected candidates finds the same K nearest pairs as refining every scanned row, ties included.
   */
  lemma Lossless(simd: bool, rows: seq<DistanceEstimate>, k: nat, z: real, r: nat, find: Word -> Neighbor)
    requires Scan(rows, k, z, r) && (r == 0 || |rows| <= r)
    requires forall e :: e in rows ==> IntervalHolds(e, z, find)
    requires simd ==> forall e :: e in rows ==> !DoublyInfinite(z, e)
    requires Untied(Nearer, Neighbors(rows, find))
    ensures TopK(Neighbors(Select(simd, rows, Uppers(rows, z), k, z, r).candidates, find), k)
         == TopK(Neighbors(rows, find), k)
  {
    var c := Select(simd, rows, Uppers(rows, z), k, z, r).candidates;
    CandidateMembers(simd, rows, k, z, r, rows[0]);
    forall e | e in c ensures e in rows { CandidateMembers(simd, rows, k, z, r, e); }
    NeighborsDistinct(c, rows, find);
    forall n | n in TopK(Neighbors(rows, find), k) ensures n in Neighbors(c, find) {
      NearestSelected(simd, rows, k, z, r, find, n);
    }
    TopKOfPart(Neighbors(c, find), Neighbors(rows, find), k);
  }

  lemma SortedDistinct(rows: seq<DistanceEstimate>)
    requires DistinctIds(rows)
    ensures DistinctIds(Sort(Before, rows))
  {
    BeforeOrder();
    DistinctIdsUntied(rows);
    SortStrict(Before, rows);
    var s := Sort(Before, rows);
    forall i, j | 0 <= i < j < |s| ensures s[i].id != s[j].id {
      SortMembers(Before, rows, s[i]);
      SortMembers(Before, rows, s[j]);
      assert s[i] in s && s[j] in s && Before(s[i], s[j]);
      var a :| 0 <= a < |rows| && rows[a] == s[i];
      var b :| 0 <= b < |rows| && rows[b] == s[j];
      assert a != b;
    }
  }
}
