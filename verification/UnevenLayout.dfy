/** Buckets of equal-width groups (`build_buckets` and `validate_layout` of src/uneven_product_quantizer.cpp). */
module UnevenLayout {
  import opened Outcomes
  import opened Permutations
  import opened DimensionAssignment

  datatype Bucket = Bucket(subspaceDimension: nat, subspaceCount: nat, firstSubspace: nat, codeOffset: nat,
                           bucketDimension: nat, bucketCodeSize: nat, dimensions: seq<nat>)

  /** A bucket holds the groups [first, end), all of one width, and their whole bytes of the code. */
  ghost predicate Holds(b: Bucket, groups: seq<seq<nat>>, first: nat, end: nat) {
    && first < end <= |groups| && first % 2 == 0 && end % 2 == 0
    && b.firstSubspace == first && b.subspaceCount == end - first
    && b.codeOffset == first / 2 && b.bucketCodeSize == b.subspaceCount / 2
    && (forall g :: first <= g < end ==> |groups[g]| == b.subspaceDimension)
    && b.bucketDimension == b.subspaceDimension * b.subspaceCount
    && b.dimensions == Members(groups[first..end])
  }

  /** The buckets are consecutive runs of groups from 0 up to `end`. */
  ghost predicate Tiling(buckets: seq<Bucket>, groups: seq<seq<nat>>, end: nat)
    decreases |buckets|
  {
    if buckets == [] then end == 0
    else
      var b := buckets[|buckets| - 1];
      Holds(b, groups, b.firstSubspace, end) && Tiling(buckets[..|buckets| - 1], groups, b.firstSubspace)
  }

  /** Groups 2i and 2i+1 are of one width. */
  ghost predicate Paired(groups: seq<seq<nat>>) {
    |groups| % 2 == 0 && forall i: nat :: PairedAt(groups, i)
  }

  ghost predicate PairedAt(groups: seq<seq<nat>>, i: nat) {
    i % 2 == 0 && i + 1 < |groups| ==> |groups[i]| == |groups[i + 1]|
  }

  function RunEnd(groups: seq<seq<nat>>, first: nat, end: nat): (r: nat)
    requires first < end <= |groups| && forall g :: first <= g < end ==> |groups[g]| == |groups[first]|
    ensures end <= r <= |groups|
    ensures forall g :: first <= g < r ==> |groups[g]| == |groups[first]|
    ensures r < |groups| ==> |groups[r]| != |groups[first]|
    decreases |groups| - end
  {
    if end < |groups| && |groups[end]| == |groups[first]| then RunEnd(groups, first, end + 1) else end
  }

  /** Paired widths make every run even. */
  lemma RunParity(groups: seq<seq<nat>>, first: nat, end: nat)
    requires first % 2 == 0 && first < end <= |groups|
    requires forall g :: first <= g < end ==> |groups[g]| == |groups[first]|
    requires end < |groups| ==> |groups[end]| != |groups[first]|
    ensures (end - first) % 2 == 0 <==> end % 2 == 0
    ensures Paired(groups) ==> end % 2 == 0
  {
    assert Paired(groups) ==> PairedAt(groups, end - 1);
  }

  function NewBucket(groups: seq<seq<nat>>, first: nat, end: nat): Bucket
    requires first < end <= |groups|
  {
    var (width, count) := (|groups[first]|, end - first);
    Bucket(width, count, first, first / 2, width * count, count / 2, Members(groups[first..end]))
  }

  /** Every tiling pairs its groups: runs start and end at even groups. */
  lemma {:induction false} TilingPairs(buckets: seq<Bucket>, groups: seq<seq<nat>>, end: nat, i: nat)
    requires Tiling(buckets, groups, end) && i < end && i % 2 == 0
    ensures i + 1 < end <= |groups| && |groups[i]| == |groups[i + 1]|
    decreases |buckets|
  {
    var b := buckets[|buckets| - 1];
    if i < b.firstSubspace {
      TilingPairs(buckets[..|buckets| - 1], groups, b.firstSubspace, i);
    }
  }

  /** No run of equal width is split over two buckets. */
  ghost predicate WholeRuns(buckets: seq<Bucket>) {
    forall i :: 0 < i < |buckets| ==> buckets[i].subspaceDimension != buckets[i - 1].subspaceDimension
  }

  /** Runs of equal width become buckets; an odd run is refused, and that happens only if the widths are not paired. */
  method BuildBuckets(groups: seq<seq<nat>>) returns (r: Result<seq<Bucket>>)
    requires |groups| % 2 == 0
    ensures r.Ok? <==> Paired(groups)
    ensures r.Err? ==> r.error == RuntimeError
    ensures r.Ok? ==> Tiling(r.value, groups, |groups|) && WholeRuns(r.value)
  {
    var buckets: seq<Bucket> := [];
    var first := 0;
    while first < |groups|
      invariant first <= |groups| && first % 2 == 0 && Tiling(buckets, groups, first) && WholeRuns(buckets)
      invariant buckets != [] && first < |groups| ==> buckets[|buckets| - 1].subspaceDimension != |groups[first]|
    {
      var end := RunEnd(groups, first, first + 1);
      RunParity(groups, first, end);
      if (end - first) % 2 != 0 {
        return Err(RuntimeError);
      }
      TilingNext(buckets, groups, first, end);
      buckets := buckets + [NewBucket(groups, first, end)];
      first := end;
    }
    TilingIsPaired(buckets, groups);
    return Ok(buckets);
  }

  lemma TilingNext(buckets: seq<Bucket>, groups: seq<seq<nat>>, first: nat, end: nat)
    requires Tiling(buckets, groups, first) && first < end <= |groups| && first % 2 == 0 && end % 2 == 0
    requires forall g :: first <= g < end ==> |groups[g]| == |groups[first]|
    ensures Tiling(buckets + [NewBucket(groups, first, end)], groups, end)
  {
    assert (buckets + [NewBucket(groups, first, end)])[..|buckets|] == buckets;
  }

  lemma TilingIsPaired(buckets: seq<Bucket>, groups: seq<seq<nat>>)
    requires Tiling(buckets, groups, |groups|) && |groups| % 2 == 0
    ensures Paired(groups)
  {
    forall i: nat ensures PairedAt(groups, i) {
      if i < |groups| && i % 2 == 0 { TilingPairs(buckets, groups, |groups|, i); }
    }
  }

  // ---------------------------------------------------------------- validation

  function DimensionsOf(b: Bucket): seq<nat> {
    b.dimensions
  }

  function AllDimensions(buckets: seq<Bucket>): seq<nat> {
    FlatMap(DimensionsOf, buckets)
  }

  /** Counts accumulated over the buckets: groups, coordinates, bytes. */
  datatype Extent = Extent(groups: nat, dimensions: nat, bytes: nat)

  function ExtentOf(buckets: seq<Bucket>): Extent {
    if buckets == [] then Extent(0, 0, 0) else
      var rest, b := ExtentOf(buckets[..|buckets| - 1]), buckets[|buckets| - 1];
      Extent(rest.groups + b.subspaceCount, rest.dimensions + b.bucketDimension, rest.bytes + b.bucketCodeSize)
  }

  /** Even counts, contiguous group offsets, whole-byte code offsets. */
  predicate Contiguous(buckets: seq<Bucket>) {
    buckets == [] ||
      var rest, b := buckets[..|buckets| - 1], buckets[|buckets| - 1];
      && Contiguous(rest) && b.subspaceCount % 2 == 0
      && b.firstSubspace == ExtentOf(rest).groups && b.codeOffset == ExtentOf(rest).groups / 2
  }

  ghost predicate AllDistinct(s: seq<nat>, d: nat) {
    (forall i :: 0 <= i < |s| ==> s[i] < d) && forall i, j :: 0 <= i < j < |s| ==> s[i] != s[j]
  }

  /** The checks of `validate_layout`: contiguous ranges, each coordinate once, no byte to spare. */
  ghost predicate ValidLayout(buckets: seq<Bucket>, groups: nat, d: nat, m: nat) {
    && groups == m && Contiguous(buckets) && AllDistinct(AllDimensions(buckets), d)
    && ExtentOf(buckets) == Extent(m, d, m / 2)
  }

  /** What has been ticked off is exactly what has been read. */
  ghost predicate Seen(seen: seq<bool>, s: seq<nat>) {
    AllDistinct(s, |seen|) && forall k :: 0 <= k < |seen| ==> (seen[k] <==> k in s)
  }

  lemma SeenNext(seen: seq<bool>, s: seq<nat>, x: nat)
    requires Seen(seen, s)
    ensures x < |seen| && !seen[x] ==> Seen(seen[x := true], s + [x])
    ensures !(x < |seen| && !seen[x]) ==> forall tail :: !AllDistinct(s + [x] + tail, |seen|)
  {
    if x < |seen| && !seen[x] {
      forall i | 0 <= i < |s| ensures s[i] != x { assert s[i] in s; }
    } else {
      forall tail: seq<nat> ensures !AllDistinct(s + [x] + tail, |seen|) {
        var all := s + [x] + tail;
        assert all[|s|] == x;
        if x < |seen| {
          var i :| 0 <= i < |s| && s[i] == x;
          assert all[i] == x;
        }
      }
    }
  }

  /** Ticks off one bucket's coordinates; a coordinate out of range or already seen is refused. */
  method TickOff(seen0: seq<bool>, b: Bucket, ghost s: seq<nat>) returns (ok: bool, seen: seq<bool>)
    requires Seen(seen0, s)
    ensures ok ==> |seen| == |seen0| && Seen(seen, s + b.dimensions)
    ensures !ok ==> forall tail :: !AllDistinct(s + b.dimensions + tail, |seen0|)
  {
    seen := seen0;
    assert s + b.dimensions[..0] == s;
    for i := 0 to |b.dimensions|
      invariant |seen| == |seen0| && Seen(seen, s + b.dimensions[..i])
    {
      var x := b.dimensions[i];
      ghost var front := s + b.dimensions[..i];
      SeenNext(seen, front, x);
      assert front + [x] == s + b.dimensions[..i + 1];
      if x >= |seen| || seen[x] {
        forall tail ensures !AllDistinct(s + b.dimensions + tail, |seen0|) {
          assert s + b.dimensions + tail == front + [x] + (b.dimensions[i + 1..] + tail);
        }
        return false, seen;
      }
      seen := seen[x := true];
    }
    assert b.dimensions[..|b.dimensions|] == b.dimensions;
    return true, seen;
  }

  lemma {:induction false} ContiguousPrefix(buckets: seq<Bucket>, n: nat)
    requires n <= |buckets| && Contiguous(buckets)
    ensures Contiguous(buckets[..n])
    decreases |buckets|
  {
    if n < |buckets| {
      ContiguousPrefix(buckets[..|buckets| - 1], n);
      assert buckets[..|buckets| - 1][..n] == buckets[..n];
    } else {
      assert buckets[..n] == buckets;
    }
  }

  lemma PrefixDimensions(buckets: seq<Bucket>, i: nat) returns (tail: seq<nat>)
    requires i < |buckets|
    ensures AllDimensions(buckets) == AllDimensions(buckets[..i]) + buckets[i].dimensions + tail
  {
    FlatMapNext(DimensionsOf, buckets, i);
    assert buckets == buckets[..i + 1] + buckets[i + 1..];
    FlatMapConcat(DimensionsOf, buckets[..i + 1], buckets[i + 1..]);
    tail := FlatMap(DimensionsOf, buckets[i + 1..]);
  }

  method ValidateLayout(buckets: seq<Bucket>, groups: nat, d: nat, m: nat) returns (r: Result<()>)
    ensures r.Ok? <==> ValidLayout(buckets, groups, d, m)
    ensures r.Err? ==> r.error == RuntimeError
  {
    if groups != m {
      return Err(RuntimeError);
    }
    var seen := seq(d, _ => false);
    var extent := Extent(0, 0, 0);
    for i := 0 to |buckets|
      invariant |seen| == d && Seen(seen, AllDimensions(buckets[..i]))
      invariant Contiguous(buckets[..i]) && extent == ExtentOf(buckets[..i])
    {
      var b := buckets[i];
      assert buckets[..i + 1][..i] == buckets[..i];
      if b.subspaceCount % 2 != 0 || b.firstSubspace != extent.groups || b.codeOffset != extent.groups / 2 {
        if Contiguous(buckets) { ContiguousPrefix(buckets, i + 1); }
        return Err(RuntimeError);
      }
      extent := Extent(extent.groups + b.subspaceCount, extent.dimensions + b.bucketDimension, extent.bytes + b.bucketCodeSize);
      ghost var tail := PrefixDimensions(buckets, i);
      FlatMapNext(DimensionsOf, buckets, i);
      var ok;
      ok, seen := TickOff(seen, b, AllDimensions(buckets[..i]));
      if !ok {
        assert !AllDistinct(AllDimensions(buckets[..i]) + b.dimensions + tail, d);
        return Err(RuntimeError);
      }
    }
    assert buckets[..|buckets|] == buckets;
    if extent != Extent(m, d, m / 2) {
      return Err(RuntimeError);
    }
    return Ok(());
  }

  // ---------------------------------------------------------------- built layouts are valid

  lemma {:induction false} TilingDimensions(buckets: seq<Bucket>, groups: seq<seq<nat>>, end: nat)
    requires Tiling(buckets, groups, end)
    ensures end <= |groups| && AllDimensions(buckets) == Members(groups[..end])
    decreases |buckets|
  {
    if buckets == [] {
      assert groups[..0] == [];
    } else {
      var b := buckets[|buckets| - 1];
      TilingDimensions(buckets[..|buckets| - 1], groups, b.firstSubspace);
      assert groups[..end] == groups[..b.firstSubspace] + groups[b.firstSubspace..end];
      FlatMapConcat(Whole, groups[..b.firstSubspace], groups[b.firstSubspace..end]);
      assert DimensionsOf(b) == Members(groups[b.firstSubspace..end]);
    }
  }

  lemma {:induction false} EqualWidths(groups: seq<seq<nat>>, width: nat)
    requires forall g :: 0 <= g < |groups| ==> |groups[g]| == width
    ensures |Members(groups)| == width * |groups|
  {
    if groups != [] {
      EqualWidths(groups[..|groups| - 1], width);
      assert |Whole(groups[|groups| - 1])| == width;
      assert width * |groups| == width * (|groups| - 1) + width;
    }
  }

  lemma {:induction false} TilingExtent(buckets: seq<Bucket>, groups: seq<seq<nat>>, end: nat)
    requires Tiling(buckets, groups, end)
    ensures end % 2 == 0 && Contiguous(buckets)
    ensures ExtentOf(buckets) == Extent(end, |AllDimensions(buckets)|, end / 2)
    decreases |buckets|
  {
    if buckets != [] {
      var b := buckets[|buckets| - 1];
      TilingExtent(buckets[..|buckets| - 1], groups, b.firstSubspace);
      HoldsExtent(b, groups, b.firstSubspace, end);
    }
  }

  lemma HoldsExtent(b: Bucket, groups: seq<seq<nat>>, first: nat, end: nat)
    requires Holds(b, groups, first, end)
    ensures |DimensionsOf(b)| == b.bucketDimension
    ensures b.subspaceCount % 2 == 0 && first + b.subspaceCount == end && first / 2 + b.bucketCodeSize == end / 2
  {
    EqualWidths(groups[first..end], b.subspaceDimension);
  }

  /** Buckets built from a partition of the coordinates into paired groups always pass validation. */
  lemma BuiltLayoutValid(buckets: seq<Bucket>, groups: seq<seq<nat>>, d: nat)
    requires Tiling(buckets, groups, |groups|) && multiset(Members(groups)) == multiset(UpTo(d))
    ensures ValidLayout(buckets, |groups|, d, |groups|)
  {
    TilingDimensions(buckets, groups, |groups|);
    TilingExtent(buckets, groups, |groups|);
    assert groups[..|groups|] == groups;
    PermutationDistinct(Members(groups), d);
  }

  lemma PermutationDistinct(s: seq<nat>, d: nat)
    requires multiset(s) == multiset(UpTo(d))
    ensures AllDistinct(s, d) && |s| == d
  {
    var all := UpTo(d);
    assert |multiset(s)| == |multiset(all)|;
    forall x: nat ensures multiset(s)[x] <= 1 && (x in s ==> x < d) {
      UpToOnce(d, x);
      assert x in s ==> x in multiset(s);
    }
    forall i | 0 <= i < |s| ensures s[i] < d { assert s[i] in s; }
    forall i, j | 0 <= i < j < |s| ensures s[i] != s[j] {
      if s[i] == s[j] { TwiceCounted(s, i, j); }
    }
  }

  lemma {:induction false} UpToOnce(d: nat, x: nat)
    ensures multiset(UpTo(d))[x] == if x < d then 1 else 0
  {
    if d > 0 {
      UpToOnce(d - 1, x);
      assert UpTo(d) == UpTo(d - 1) + [d - 1];
    }
  }

  lemma TwiceCounted(s: seq<nat>, i: nat, j: nat)
    requires i < j < |s| && s[i] == s[j]
    ensures multiset(s)[s[i]] >= 2
  {
    assert s == s[..j] + [s[j]] + s[j + 1..];
    assert s[i] in s[..j];
  }

  /** A complete assignment of a planned profile pairs its widths, so building its buckets cannot fail. */
  lemma CompleteIsPaired(a: Assignment, pairs: seq<nat>, budgets: seq<real>)
    requires CapacityPlanner.Ordered(pairs)
    requires Complete(a, GroupCapacities(pairs), budgets)
    ensures Paired(a.dimensions)
  {
    CapacityPlanner.DoubledSorted(pairs);
    PairedWidths(a.dimensions, pairs);
  }

  lemma PairedWidths(groups: seq<seq<nat>>, pairs: seq<nat>)
    requires |groups| == 2 * |pairs| && forall g :: 0 <= g < |groups| ==> |groups[g]| == CapacityPlanner.Doubled(pairs)[g]
    ensures Paired(groups)
  {
    forall i: nat ensures PairedAt(groups, i) {
      if i % 2 == 0 && i + 1 < |groups| { DoubledPair(pairs, i / 2); }
    }
  }

  lemma DoubledPair(pairs: seq<nat>, k: nat)
    requires k < |pairs|
    ensures CapacityPlanner.Doubled(pairs)[2 * k] == CapacityPlanner.Doubled(pairs)[2 * k + 1]
  {
    CapacityPlanner.DoubledAt(pairs, k);
  }
}
