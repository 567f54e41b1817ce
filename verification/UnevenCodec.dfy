/**
 Encoding, decoding and lookup tables of the uneven quantizer: through byte ranges of buckets and a scattered
 permutation of the coordinates (src/uneven_product_quantizer.cpp).
 */
module UnevenCodec {
  import opened Arithmetic
  import opened Permutations
  import opened Pq4Layout
  import opened PostingPacking
  import opened DimensionAssignment
  import opened UnevenLayout

  /** A bucket's sixteen centroids per subspace, by (subspace, code, coordinate). */
  type Codebook = (nat, nat, nat) -> real

  datatype Quantizer = Quantizer(groups: seq<seq<nat>>, buckets: seq<Bucket>, books: seq<Codebook>, dimension: nat)

  ghost predicate Trained(q: Quantizer) {
    && |q.books| == |q.buckets|
    && Tiling(q.buckets, q.groups, |q.groups|)
    && multiset(Members(q.groups)) == multiset(UpTo(q.dimension))
  }

  // ---------------------------------------------------------------- sums over positions

  function SumTo(f: nat -> real, n: nat): real {
    if n == 0 then 0.0 else SumTo(f, n - 1) + f(n - 1)
  }

  lemma {:induction false} SumToEqual(f: nat -> real, g: nat -> real, n: nat)
    requires forall i: nat :: i < n ==> f(i) == g(i)
    ensures SumTo(f, n) == SumTo(g, n)
  {
    if n > 0 { SumToEqual(f, g, n - 1); }
  }

  function Shifted(f: nat -> real, start: nat): nat -> real {
    (i: nat) => f(start + i)
  }

  lemma {:induction false} SumToSplit(f: nat -> real, a: nat, b: nat)
    ensures SumTo(f, a + b) == SumTo(f, a) + SumTo(Shifted(f, a), b)
  {
    if b > 0 { SumToSplit(f, a, b - 1); }
  }

  function At(f: nat -> real, s: seq<nat>): nat -> real {
    (i: nat) => if i < |s| then f(s[i]) else 0.0
  }

  lemma {:induction false} SumIsSumTo(f: nat -> real, s: seq<nat>)
    ensures Sum(f, s) == SumTo(At(f, s), |s|)
  {
    if s != [] {
      var n := |s| - 1;
      SumIsSumTo(f, s[..n]);
      SumToEqual(At(f, s[..n]), At(f, s), n);
    }
  }

  // ---------------------------------------------------------------- buckets and groups

  /** The bucket that holds group `g`. */
  function BucketIndex(buckets: seq<Bucket>, g: nat): (i: nat)
    ensures buckets != [] ==> i < |buckets|
  {
    if |buckets| <= 1 then 0
    else if g >= buckets[|buckets| - 1].firstSubspace then |buckets| - 1
    else BucketIndex(buckets[..|buckets| - 1], g)
  }

  ghost predicate InBucket(b: Bucket, g: nat) {
    b.firstSubspace <= g < b.firstSubspace + b.subspaceCount
  }

  lemma {:induction false} BucketHolds(buckets: seq<Bucket>, groups: seq<seq<nat>>, end: nat, i: nat)
    requires Tiling(buckets, groups, end) && i < |buckets|
    ensures var b := buckets[i]; Holds(b, groups, b.firstSubspace, b.firstSubspace + b.subspaceCount) && b.firstSubspace + b.subspaceCount <= end
    decreases |buckets|
  {
    if i < |buckets| - 1 {
      BucketHolds(buckets[..|buckets| - 1], groups, buckets[|buckets| - 1].firstSubspace, i);
    }
  }

  lemma {:induction false} GroupInBucket(buckets: seq<Bucket>, groups: seq<seq<nat>>, end: nat, g: nat)
    requires Tiling(buckets, groups, end) && g < end
    ensures buckets != [] && InBucket(buckets[BucketIndex(buckets, g)], g)
    decreases |buckets|
  {
    var last := buckets[|buckets| - 1];
    if g < last.firstSubspace {
      GroupInBucket(buckets[..|buckets| - 1], groups, last.firstSubspace, g);
    }
  }

  /** Every group of a bucket is found there. */
  lemma {:induction false} BucketIndexIs(buckets: seq<Bucket>, groups: seq<seq<nat>>, end: nat, i: nat, g: nat)
    requires Tiling(buckets, groups, end) && i < |buckets| && InBucket(buckets[i], g)
    ensures BucketIndex(buckets, g) == i && g < end
    decreases |buckets|
  {
    var last := buckets[|buckets| - 1];
    if i < |buckets| - 1 {
      BucketIndexIs(buckets[..|buckets| - 1], groups, last.firstSubspace, i, g);
    }
  }

  /** Where a group's coordinates lie in its bucket. */
  lemma {:induction false} MemberPosition(groups: seq<seq<nat>>, width: nat, m: nat, t: nat)
    requires (forall g :: 0 <= g < |groups| ==> |groups[g]| == width) && m < |groups| && t < width
    ensures m * width + t < |Members(groups)| && Members(groups)[m * width + t] == groups[m][t]
  {
    var n := |groups| - 1;
    EqualWidths(groups, width);
    EqualWidths(groups[..n], width);
    assert Members(groups) == Members(groups[..n]) + Whole(groups[n]);
    if m < n {
      MemberPosition(groups[..n], width, m, t);
    } else {
      assert n * width == width * n;
    }
  }

  lemma BucketPosition(b: Bucket, groups: seq<seq<nat>>, m: nat, t: nat)
    requires Holds(b, groups, b.firstSubspace, b.firstSubspace + b.subspaceCount) && m < b.subspaceCount && t < b.subspaceDimension
    ensures m * b.subspaceDimension + t < |b.dimensions|
    ensures b.dimensions[m * b.subspaceDimension + t] == groups[b.firstSubspace + m][t]
  {
    var own := groups[b.firstSubspace..b.firstSubspace + b.subspaceCount];
    MemberPosition(own, b.subspaceDimension, m, t);
  }

  /** A bucket's byte range holds its groups' nibbles. */
  lemma NibbleOfRange(code: seq<Byte>, offset: nat, size: nat, m: nat)
    requires offset + size <= |code| && m < 2 * size
    ensures FlatNibble(code[offset..offset + size], m) == FlatNibble(code, 2 * offset + m)
  {
    assert (2 * offset + m) / 2 == offset + m / 2 && (2 * offset + m) % 2 == m % 2;
  }

  // ---------------------------------------------------------------- gather and scatter

  function Coordinate(x: seq<real>, i: nat): real {
    if i < |x| then x[i] else 0.0
  }

  /** The bucket's coordinates, in the order its quantizer expects. */
  function Gather(b: Bucket, x: seq<real>): (g: seq<real>)
    ensures |g| == |b.dimensions|
  {
    seq(|b.dimensions|, j requires 0 <= j < |b.dimensions| => Coordinate(x, b.dimensions[j]))
  }

  method GatherBucket(b: Bucket, x: seq<real>) returns (gathered: seq<real>)
    requires forall j :: 0 <= j < |b.dimensions| ==> b.dimensions[j] < |x|
    ensures gathered == Gather(b, x)
  {
    gathered := [];
    for j := 0 to |b.dimensions|
      invariant |gathered| == j && forall i :: 0 <= i < j ==> gathered[i] == x[b.dimensions[i]]
    {
      gathered := gathered + [x[b.dimensions[j]]];
    }
  }

  /** The bucket's values sit at its coordinates. */
  ghost predicate Scattered(x: seq<real>, b: Bucket, values: seq<real>) {
    |values| == |b.dimensions| && forall j :: 0 <= j < |values| ==> Coordinate(x, b.dimensions[j]) == values[j]
  }

  method ScatterBucket(b: Bucket, values: seq<real>, x0: seq<real>) returns (x: seq<real>)
    requires |values| == |b.dimensions| && AllDistinct(b.dimensions, |x0|)
    ensures |x| == |x0| && Scattered(x, b, values)
    ensures forall i :: 0 <= i < |x0| && i !in b.dimensions ==> x[i] == x0[i]
  {
    x := x0;
    for j := 0 to |values|
      invariant |x| == |x0|
      invariant forall i :: 0 <= i < j ==> x[b.dimensions[i]] == values[i]
      invariant forall i :: 0 <= i < |x0| && i !in b.dimensions ==> x[i] == x0[i]
    {
      assert b.dimensions[j] in b.dimensions;
      x := x[b.dimensions[j] := values[j]];
    }
  }

  // ---------------------------------------------------------------- decoding

  function NibbleIndex(code: seq<Byte>, g: nat): (k: nat)
    ensures k < 16
  {
    FlatNibbleRange(code, g);
    FlatNibble(code, g) as nat
  }

  /** The centroids a bucket's share of a code stands for, subspace after subspace. */
  function Reconstruct(b: Bucket, book: Codebook, code: seq<Byte>): (values: seq<real>)
    ensures |values| == |b.dimensions|
  {
    seq(|b.dimensions|, j requires 0 <= j =>
      if b.subspaceDimension == 0 then 0.0 else
        book(j / b.subspaceDimension, NibbleIndex(code, b.firstSubspace + j / b.subspaceDimension), j % b.subspaceDimension))
  }

  /** The same, read from the bucket's own byte range. */
  function ReconstructRange(b: Bucket, book: Codebook, bytes: seq<Byte>): (values: seq<real>)
    ensures |values| == |b.dimensions|
  {
    seq(|b.dimensions|, j requires 0 <= j =>
      if b.subspaceDimension == 0 then 0.0 else
        book(j / b.subspaceDimension, NibbleIndex(bytes, j / b.subspaceDimension), j % b.subspaceDimension))
  }

  /** Whole bytes: a bucket's groups start and end on byte boundaries. */
  lemma BucketParity(b: Bucket, groups: seq<seq<nat>>)
    requires Holds(b, groups, b.firstSubspace, b.firstSubspace + b.subspaceCount)
    ensures b.firstSubspace == 2 * b.codeOffset && b.subspaceCount == 2 * b.bucketCodeSize
  {
    EvenHalf(b.firstSubspace);
    EvenHalf(b.subspaceCount);
  }

  lemma EvenHalf(n: nat)
    requires n % 2 == 0
    ensures n == 2 * (n / 2)
  {
  }

  lemma RangeEntry(b: Bucket, groups: seq<seq<nat>>, code: seq<Byte>, m: nat)
    requires Holds(b, groups, b.firstSubspace, b.firstSubspace + b.subspaceCount)
    requires b.codeOffset + b.bucketCodeSize <= |code| && m < b.subspaceCount
    ensures NibbleIndex(code[b.codeOffset..b.codeOffset + b.bucketCodeSize], m) == NibbleIndex(code, b.firstSubspace + m)
  {
    BucketParity(b, groups);
    NibbleOfRange(code, b.codeOffset, b.bucketCodeSize, m);
  }

  lemma RangeReconstructs(b: Bucket, groups: seq<seq<nat>>, book: Codebook, code: seq<Byte>)
    requires Holds(b, groups, b.firstSubspace, b.firstSubspace + b.subspaceCount)
    requires b.codeOffset + b.bucketCodeSize <= |code|
    ensures ReconstructRange(b, book, code[b.codeOffset..b.codeOffset + b.bucketCodeSize]) == Reconstruct(b, book, code)
  {
    var bytes := code[b.codeOffset..b.codeOffset + b.bucketCodeSize];
    HoldsExtent(b, groups, b.firstSubspace, b.firstSubspace + b.subspaceCount);
    forall j | 0 <= j < |b.dimensions|
      ensures ReconstructRange(b, book, bytes)[j] == Reconstruct(b, book, code)[j]
    {
      PositionGroup(j, b.subspaceDimension, b.subspaceCount);
      QuotientNat(j, b.subspaceDimension);
      RangeEntry(b, groups, code, j / b.subspaceDimension);
    }
  }

  lemma PositionGroup(j: nat, width: nat, count: nat)
    requires j < width * count
    ensures width > 0 && j / width < count
  {
    QuotientParts(j, width);
    if count <= j / width { MulMonotone(count, j / width, width); }
  }

  lemma CodeRangeFits(q: Quantizer, i: nat)
    requires Trained(q) && i < |q.buckets|
    ensures q.buckets[i].codeOffset + q.buckets[i].bucketCodeSize <= |q.groups| / 2
    ensures AllDistinct(q.buckets[i].dimensions, q.dimension)
  {
    BucketHolds(q.buckets, q.groups, |q.groups|, i);
    TilingDimensions(q.buckets, q.groups, |q.groups|);
    assert q.groups[..|q.groups|] == q.groups;
    PermutationDistinct(Members(q.groups), q.dimension);
    var tail := PrefixDimensions(q.buckets, i);
    var all := AllDimensions(q.buckets);
    PartDistinct(AllDimensions(q.buckets[..i]), q.buckets[i].dimensions, tail, q.dimension);
  }

  lemma PartDistinct(a: seq<nat>, b: seq<nat>, c: seq<nat>, d: nat)
    requires AllDistinct(a + b + c, d)
    ensures AllDistinct(b, d) && forall x :: x in b ==> x !in a
  {
    var all := a + b + c;
    forall i | 0 <= i < |b| ensures b[i] < d { assert all[|a| + i] == b[i]; }
    forall i, j | 0 <= i < j < |b| ensures b[i] != b[j] { assert all[|a| + i] == b[i] && all[|a| + j] == b[j]; }
    forall i, j | 0 <= i < |a| && 0 <= j < |b| ensures a[i] != b[j] { assert all[i] == a[i] && all[|a| + j] == b[j]; }
  }

  /** The vector holds the code's centroids at the coordinates of the first `n` buckets. */
  ghost predicate DecodedUpTo(q: Quantizer, code: seq<Byte>, x: seq<real>, n: nat)
    requires n <= |q.buckets| == |q.books|
  {
    |x| == q.dimension && forall i :: 0 <= i < n ==> Scattered(x, q.buckets[i], Reconstruct(q.buckets[i], q.books[i], code))
  }

  lemma BucketsApart(q: Quantizer, i: nat, j: nat)
    requires Trained(q) && i < j < |q.buckets|
    ensures forall x :: x in q.buckets[i].dimensions ==> x !in q.buckets[j].dimensions
  {
    TilingDimensions(q.buckets, q.groups, |q.groups|);
    assert q.groups[..|q.groups|] == q.groups;
    PermutationDistinct(Members(q.groups), q.dimension);
    var tail := PrefixDimensions(q.buckets, j);
    PartDistinct(AllDimensions(q.buckets[..j]), q.buckets[j].dimensions, tail, q.dimension);
    forall x | x in q.buckets[i].dimensions ensures x in AllDimensions(q.buckets[..j]) {
      var rest := PrefixDimensions(q.buckets[..j], i);
    }
  }

  lemma StillScattered(q: Quantizer, before: seq<real>, after: seq<real>, i: nat, j: nat, values: seq<real>)
    requires Trained(q) && i < j < |q.buckets| && |before| == |after| == q.dimension
    requires Scattered(before, q.buckets[i], values)
    requires forall k :: 0 <= k < q.dimension && k !in q.buckets[j].dimensions ==> after[k] == before[k]
    ensures Scattered(after, q.buckets[i], values)
  {
    BucketsApart(q, i, j);
    CodeRangeFits(q, i);
    var d := q.buckets[i].dimensions;
    forall k | 0 <= k < |values| ensures Coordinate(after, d[k]) == values[k] {
      assert d[k] in d;
    }
  }

  /** The code number of a group: the low half of its byte for an even group, the high half for an odd one. */
  ghost predicate CodeIs(code: seq<Byte>, g: nat, k: nat) {
    g / 2 < |code| && k == (if g % 2 == 0 then code[g / 2] & 0x0f else code[g / 2] >> 4) as nat
  }

  /** The t-th coordinate of the m-th group of bucket i is that of the centroid the code names for the group. */
  ghost predicate CoordinateDecoded(q: Quantizer, code: seq<Byte>, x: seq<real>, i: nat, m: nat, t: nat) {
    GroupOf(q, i, m) ==>
      var g := q.buckets[i].firstSubspace + m;
      t < |q.groups[g]| ==> forall k: nat :: CodeIs(code, g, k) ==> q.groups[g][t] < |x| && x[q.groups[g][t]] == q.books[i](m, k, t)
  }

  /** The m-th group of bucket i. */
  ghost predicate GroupOf(q: Quantizer, i: nat, m: nat) {
    && i < |q.buckets| && i < |q.books| && m < q.buckets[i].subspaceCount
    && q.buckets[i].firstSubspace + m < |q.groups|
  }

  ghost predicate Decodes(q: Quantizer, code: seq<Byte>, x: seq<real>) {
    forall i: nat, m: nat, t: nat :: CoordinateDecoded(q, code, x, i, m, t)
  }

  lemma CodeIsNibble(code: seq<Byte>, g: nat)
    requires g / 2 < |code|
    ensures CodeIs(code, g, NibbleIndex(code, g))
  {
  }

  lemma BucketDecoded(q: Quantizer, code: seq<Byte>, x: seq<real>, i: nat, m: nat, t: nat)
    requires Trained(q) && |code| == |q.groups| / 2 && DecodedUpTo(q, code, x, |q.buckets|)
    ensures CoordinateDecoded(q, code, x, i, m, t)
  {
    if GroupOf(q, i, m) && t < |q.groups[q.buckets[i].firstSubspace + m]| {
      GroupDecoded(q, code, x, i, m, t);
    }
  }

  lemma GroupDecoded(q: Quantizer, code: seq<Byte>, x: seq<real>, i: nat, m: nat, t: nat)
    requires Trained(q) && |code| == |q.groups| / 2 && DecodedUpTo(q, code, x, |q.buckets|)
    requires GroupOf(q, i, m) && t < |q.groups[q.buckets[i].firstSubspace + m]|
    ensures var g := q.buckets[i].firstSubspace + m;
      && CodeIs(code, g, NibbleIndex(code, g))
      && q.groups[g][t] < |x| && x[q.groups[g][t]] == q.books[i](m, NibbleIndex(code, g), t)
  {
    var b := q.buckets[i];
    BucketHolds(q.buckets, q.groups, |q.groups|, i);
    BucketsEven(q);
    CodeIsNibble(code, b.firstSubspace + m);
    var j := BucketPlace(b, q.groups, m, t);
    PositionDecoded(q, code, x, i, j, m, t);
  }

  /** Where the t-th coordinate of a bucket's m-th group lies. */
  lemma BucketPlace(b: Bucket, groups: seq<seq<nat>>, m: nat, t: nat) returns (j: nat)
    requires Holds(b, groups, b.firstSubspace, b.firstSubspace + b.subspaceCount) && m < b.subspaceCount && t < b.subspaceDimension
    ensures j < |b.dimensions| && b.dimensions[j] == groups[b.firstSubspace + m][t]
    ensures j / b.subspaceDimension == m && j % b.subspaceDimension == t
  {
    j := m * b.subspaceDimension + t;
    BucketPosition(b, groups, m, t);
    PlaceParts(m, t, b.subspaceDimension, j);
  }

  lemma PositionDecoded(q: Quantizer, code: seq<Byte>, x: seq<real>, i: nat, j: nat, m: nat, t: nat)
    requires Trained(q) && DecodedUpTo(q, code, x, |q.buckets|) && i < |q.buckets|
    requires q.buckets[i].subspaceDimension > 0 && j < |q.buckets[i].dimensions|
    requires j / q.buckets[i].subspaceDimension == m && j % q.buckets[i].subspaceDimension == t
    ensures q.buckets[i].dimensions[j] < |x|
    ensures x[q.buckets[i].dimensions[j]] == q.books[i](m, NibbleIndex(code, q.buckets[i].firstSubspace + m), t)
  {
    var b := q.buckets[i];
    CodeRangeFits(q, i);
    assert Scattered(x, b, Reconstruct(b, q.books[i], code));
    assert Coordinate(x, b.dimensions[j]) == Reconstruct(b, q.books[i], code)[j];
  }

  lemma PlaceParts(m: nat, t: nat, width: nat, j: nat)
    requires t < width && j == m * width + t
    ensures j / width == m && j % width == t
  {
    QuotientOf(m, t, width);
  }

  /** Every bucket's byte range, decoded and scattered back to the bucket's coordinates. */
  method Decode(q: Quantizer, code: seq<Byte>) returns (x: seq<real>)
    requires Trained(q) && |code| == |q.groups| / 2
    ensures DecodedUpTo(q, code, x, |q.buckets|) && Decodes(q, code, x)
  {
    x := seq(q.dimension, _ => 0.0);
    for i := 0 to |q.buckets|
      invariant DecodedUpTo(q, code, x, i)
    {
      var b := q.buckets[i];
      CodeRangeFits(q, i);
      BucketHolds(q.buckets, q.groups, |q.groups|, i);
      RangeReconstructs(b, q.groups, q.books[i], code);
      var bytes := code[b.codeOffset..b.codeOffset + b.bucketCodeSize];
      ghost var before := x;
      x := ScatterBucket(b, ReconstructRange(b, q.books[i], bytes), x);
      forall k | 0 <= k < i ensures Scattered(x, q.buckets[k], Reconstruct(q.buckets[k], q.books[k], code)) {
        StillScattered(q, before, x, k, i, Reconstruct(q.buckets[k], q.books[k], code));
      }
    }
    forall i: nat, m: nat, t: nat ensures CoordinateDecoded(q, code, x, i, m, t) { BucketDecoded(q, code, x, i, m, t); }
  }

  // ---------------------------------------------------------------- lookup tables

  function Term(b: Bucket, book: Codebook, gathered: seq<real>, m: nat, k: nat): nat -> real {
    (t: nat) => Coordinate(gathered, m * b.subspaceDimension + t) * book(m, k, t)
  }

  /** The inner product of one subspace of the query with one centroid. */
  function Entry(b: Bucket, book: Codebook, gathered: seq<real>, m: nat, k: nat): real {
    SumTo(Term(b, book, gathered, m, k), b.subspaceDimension)
  }

  function BucketTable(b: Bucket, book: Codebook, gathered: seq<real>): (table: seq<real>)
    ensures |table| == b.subspaceCount * 16
  {
    seq(b.subspaceCount * 16, i requires 0 <= i => Entry(b, book, gathered, i / 16, i % 16))
  }

  /** What entry `k` of group `g` must be. */
  function EntryOf(q: Quantizer, query: seq<real>, g: nat, k: nat): real
    requires |q.books| == |q.buckets|
  {
    var i := BucketIndex(q.buckets, g);
    if i < |q.buckets| && q.buckets[i].firstSubspace <= g then
      Entry(q.buckets[i], q.books[i], Gather(q.buckets[i], query), g - q.buckets[i].firstSubspace, k)
    else 0.0
  }

  ghost predicate EntryHolds(q: Quantizer, query: seq<real>, table: seq<real>, g: nat, k: nat)
    requires |q.books| == |q.buckets|
  {
    g * 16 + k < |table| && table[g * 16 + k] == EntryOf(q, query, g, k)
  }

  ghost predicate TableUpTo(q: Quantizer, query: seq<real>, table: seq<real>, groups: nat)
    requires |q.books| == |q.buckets|
  {
    forall g: nat, k: nat :: g < groups && k < 16 ==> EntryHolds(q, query, table, g, k)
  }

  function SpliceTable(table: seq<real>, at: nat, part: seq<real>): (r: seq<real>)
    requires at + |part| <= |table|
    ensures |r| == |table|
    ensures forall i :: 0 <= i < |table| ==> r[i] == if at <= i < at + |part| then part[i - at] else table[i]
  {
    table[..at] + part + table[at + |part|..]
  }

  lemma TableStep(q: Quantizer, query: seq<real>, table: seq<real>, i: nat)
    requires Trained(q) && i < |q.buckets| && |table| == |q.groups| * 16
    requires TableUpTo(q, query, table, q.buckets[i].firstSubspace)
    ensures var b := q.buckets[i];
      && b.firstSubspace * 16 + b.subspaceCount * 16 <= |table|
      && TableUpTo(q, query, SpliceTable(table, b.firstSubspace * 16, BucketTable(b, q.books[i], Gather(b, query))),
                   b.firstSubspace + b.subspaceCount)
  {
    var b := q.buckets[i];
    BucketHolds(q.buckets, q.groups, |q.groups|, i);
    var next := SpliceTable(table, b.firstSubspace * 16, BucketTable(b, q.books[i], Gather(b, query)));
    forall g: nat, k: nat | g < b.firstSubspace + b.subspaceCount && k < 16 ensures EntryHolds(q, query, next, g, k) {
      if g < b.firstSubspace {
        assert EntryHolds(q, query, table, g, k);
      } else {
        BucketIndexIs(q.buckets, q.groups, |q.groups|, i, g);
        EntryPosition(g - b.firstSubspace, k);
      }
    }
  }

  lemma EntryPosition(m: nat, k: nat)
    requires k < 16
    ensures (m * 16 + k) / 16 == m && (m * 16 + k) % 16 == k
  {
  }

  /** Buckets follow one another. */
  lemma {:induction false} NextFirst(buckets: seq<Bucket>, groups: seq<seq<nat>>, end: nat, i: nat)
    requires Tiling(buckets, groups, end) && i < |buckets|
    ensures i == 0 ==> buckets[i].firstSubspace == 0
    ensures i > 0 ==> buckets[i].firstSubspace == buckets[i - 1].firstSubspace + buckets[i - 1].subspaceCount
    ensures i == |buckets| - 1 ==> buckets[i].firstSubspace + buckets[i].subspaceCount == end
    decreases |buckets|
  {
    if i < |buckets| - 1 {
      NextFirst(buckets[..|buckets| - 1], groups, buckets[|buckets| - 1].firstSubspace, i);
    } else if i > 0 {
      NextFirst(buckets[..|buckets| - 1], groups, buckets[|buckets| - 1].firstSubspace, i - 1);
    }
  }

  /** A table entry is the inner product of the query's coordinates of a group with a centroid. */
  ghost predicate EntryIs(q: Quantizer, query: seq<real>, table: seq<real>, i: nat, m: nat, k: nat) {
    GroupOf(q, i, m) && k < 16 ==>
      var g := q.buckets[i].firstSubspace + m;
      g * 16 + k < |table| && table[g * 16 + k] == Inner(q.groups[g], query, (t: nat) => q.books[i](m, k, t), |q.groups[g]|)
  }

  /** Adding up query[group[t]] * centroid(t). */
  ghost function Inner(group: seq<nat>, query: seq<real>, centroid: nat -> real, n: nat): real
    requires n <= |group|
  {
    if n == 0 then 0.0
    else Inner(group, query, centroid, n - 1) + (if group[n - 1] < |query| then query[group[n - 1]] * centroid(n - 1) else 0.0)
  }

  ghost predicate InnerProducts(q: Quantizer, query: seq<real>, table: seq<real>) {
    |table| == 16 * |q.groups| && forall i: nat, m: nat, k: nat :: EntryIs(q, query, table, i, m, k)
  }

  ghost predicate InRange(group: seq<nat>, d: nat) {
    forall t :: 0 <= t < |group| ==> group[t] < d
  }

  lemma TermOfGroup(b: Bucket, groups: seq<seq<nat>>, book: Codebook, query: seq<real>, m: nat, k: nat, group: seq<nat>,
                    centroid: nat -> real, t: nat)
    requires centroid(t) == book(m, k, t)
    requires Holds(b, groups, b.firstSubspace, b.firstSubspace + b.subspaceCount) && m < b.subspaceCount
    requires group == groups[b.firstSubspace + m] && InRange(group, |query|) && t < b.subspaceDimension
    ensures t < |group| && Term(b, book, Gather(b, query), m, k)(t) == query[group[t]] * centroid(t)
  {
    SubvectorEntry(b, groups, query, m, t, m * b.subspaceDimension + t);
  }

  ghost predicate TermsAre(f: nat -> real, group: seq<nat>, query: seq<real>, centroid: nat -> real) {
    forall t: nat :: t < |group| ==> group[t] < |query| && f(t) == query[group[t]] * centroid(t)
  }

  lemma {:induction false} InnerIsSum(group: seq<nat>, query: seq<real>, centroid: nat -> real, f: nat -> real, n: nat)
    requires n <= |group| && TermsAre(f, group, query, centroid)
    ensures Inner(group, query, centroid, n) == SumTo(f, n)
  {
    if n > 0 { InnerIsSum(group, query, centroid, f, n - 1); }
  }

  lemma InnerIsEntry(b: Bucket, groups: seq<seq<nat>>, book: Codebook, query: seq<real>, m: nat, k: nat, group: seq<nat>, centroid: nat -> real)
    requires Holds(b, groups, b.firstSubspace, b.firstSubspace + b.subspaceCount) && m < b.subspaceCount
    requires group == groups[b.firstSubspace + m] && InRange(group, |query|) && forall t: nat :: centroid(t) == book(m, k, t)
    ensures Inner(group, query, centroid, |group|) == Entry(b, book, Gather(b, query), m, k)
  {
    var f := Term(b, book, Gather(b, query), m, k);
    forall t: nat | t < |group| ensures group[t] < |query| && f(t) == query[group[t]] * centroid(t) {
      TermOfGroup(b, groups, book, query, m, k, group, centroid, t);
    }
    InnerIsSum(group, query, centroid, f, |group|);
  }

  lemma GroupsInRange(q: Quantizer, g: nat)
    requires Trained(q) && g < |q.groups|
    ensures InRange(q.groups[g], q.dimension)
  {
    var group := q.groups[g];
    assert Whole(group) == group && group in q.groups;
    forall t | 0 <= t < |group| ensures group[t] < q.dimension {
      InFlatMap<seq<nat>, nat>(Whole, q.groups, group, group[t]);
      assert group[t] in multiset(Members(q.groups));
      assert group[t] in UpTo(q.dimension);
    }
  }

  lemma TableEntryIs(q: Quantizer, query: seq<real>, table: seq<real>, i: nat, m: nat, k: nat)
    requires Trained(q) && |query| == q.dimension && TableUpTo(q, query, table, |q.groups|)
    ensures EntryIs(q, query, table, i, m, k)
  {
    if GroupOf(q, i, m) && k < 16 {
      var b := q.buckets[i];
      var g := b.firstSubspace + m;
      BucketHolds(q.buckets, q.groups, |q.groups|, i);
      BucketIndexIs(q.buckets, q.groups, |q.groups|, i, g);
      GroupsInRange(q, g);
      InnerIsEntry(b, q.groups, q.books[i], query, m, k, q.groups[g], (t: nat) => q.books[i](m, k, t));
      assert EntryHolds(q, query, table, g, k);
    }
  }

  /** Each bucket fills its own stretch of the table. */
  method ComputeInnerProductTable(q: Quantizer, query: seq<real>) returns (table: seq<real>)
    requires Trained(q) && |query| == q.dimension
    ensures |table| == |q.groups| * 16 && TableUpTo(q, query, table, |q.groups|)
    ensures InnerProducts(q, query, table)
  {
    table := seq(|q.groups| * 16, _ => 0.0);
    if |q.buckets| > 0 { NextFirst(q.buckets, q.groups, |q.groups|, 0); }
    for i := 0 to |q.buckets|
      invariant |table| == |q.groups| * 16
      invariant i < |q.buckets| ==> TableUpTo(q, query, table, q.buckets[i].firstSubspace)
      invariant i == |q.buckets| ==> TableUpTo(q, query, table, |q.groups|)
    {
      var b := q.buckets[i];
      CodeRangeFits(q, i);
      NextFirst(q.buckets, q.groups, |q.groups|, i);
      if i + 1 < |q.buckets| { NextFirst(q.buckets, q.groups, |q.groups|, i + 1); }
      TableStep(q, query, table, i);
      var gathered := GatherBucket(b, query);
      table := SpliceTable(table, b.firstSubspace * 16, BucketTable(b, q.books[i], gathered));
    }
    forall i: nat, m: nat, k: nat ensures EntryIs(q, query, table, i, m, k) { TableEntryIs(q, query, table, i, m, k); }
  }

  // ---------------------------------------------------------------- the identity

  function Product(query: seq<real>, x: seq<real>): nat -> real {
    (i: nat) => Coordinate(query, i) * Coordinate(x, i)
  }

  /** The real dot product. */
  function Dot(query: seq<real>, x: seq<real>, d: nat): real {
    Sum(Product(query, x), UpTo(d))
  }

  /** Sum over i < d of query[i] * x[i]. */
  ghost function DotProduct(query: seq<real>, x: seq<real>, d: nat): real
    requires d <= |query| && d <= |x|
  {
    if d == 0 then 0.0 else DotProduct(query, x, d - 1) + query[d - 1] * x[d - 1]
  }

  lemma {:induction false} DotIs(query: seq<real>, x: seq<real>, d: nat)
    requires d <= |query| && d <= |x|
    ensures Dot(query, x, d) == DotProduct(query, x, d)
  {
    if d > 0 {
      DotIs(query, x, d - 1);
      assert UpTo(d)[..d - 1] == UpTo(d - 1);
    }
  }

  /** What the code picks from the table for group `g`. */
  function Lookup(table: seq<real>, code: seq<Byte>): nat -> real {
    (g: nat) => Coordinate(table, g * 16 + NibbleIndex(code, g))
  }

  function BucketLookup(b: Bucket, book: Codebook, query: seq<real>, code: seq<Byte>): nat -> real {
    (m: nat) => Entry(b, book, Gather(b, query), m, NibbleIndex(code, b.firstSubspace + m))
  }

  lemma TermIsProduct(b: Bucket, groups: seq<seq<nat>>, book: Codebook, query: seq<real>, code: seq<Byte>, x: seq<real>,
                      m: nat, t: nat, j: nat)
    requires Holds(b, groups, b.firstSubspace, b.firstSubspace + b.subspaceCount)
    requires Scattered(x, b, Reconstruct(b, book, code)) && m < b.subspaceCount && t < b.subspaceDimension
    requires j == m * b.subspaceDimension + t
    ensures At(Product(query, x), b.dimensions)(j)
         == Term(b, book, Gather(b, query), m, NibbleIndex(code, b.firstSubspace + m))(t)
  {
    BucketPosition(b, groups, m, t);
    QuotientOf(m, t, b.subspaceDimension);
    assert Coordinate(x, b.dimensions[j]) == Reconstruct(b, book, code)[j];
    assert Gather(b, query)[j] == Coordinate(query, b.dimensions[j]);
  }

  /** One subspace: its lookup is the products at its coordinates. */
  lemma SubspaceSum(b: Bucket, groups: seq<seq<nat>>, book: Codebook, query: seq<real>, code: seq<Byte>, x: seq<real>, m: nat, at: nat)
    requires Holds(b, groups, b.firstSubspace, b.firstSubspace + b.subspaceCount)
    requires Scattered(x, b, Reconstruct(b, book, code)) && m < b.subspaceCount && at == m * b.subspaceDimension
    ensures SumTo(At(Product(query, x), b.dimensions), at + b.subspaceDimension)
         == SumTo(At(Product(query, x), b.dimensions), at) + BucketLookup(b, book, query, code)(m)
  {
    var w, f := b.subspaceDimension, At(Product(query, x), b.dimensions);
    var term := Term(b, book, Gather(b, query), m, NibbleIndex(code, b.firstSubspace + m));
    forall t: nat | t < w ensures SameAt(f, at, term, t) {
      TermIsProduct(b, groups, book, query, code, x, m, t, at + t);
    }
    SumBlock(f, at, term, w);
    LookupIsSum(b, book, query, code, m);
  }

  predicate SameAt(f: nat -> real, at: nat, term: nat -> real, t: nat) {
    f(at + t) == term(t)
  }

  /** A block of a sum, term by term. */
  lemma SumBlock(f: nat -> real, at: nat, term: nat -> real, w: nat)
    requires forall t: nat :: t < w ==> SameAt(f, at, term, t)
    ensures SumTo(f, at + w) == SumTo(f, at) + SumTo(term, w)
  {
    forall t: nat | t < w ensures Shifted(f, at)(t) == term(t) { assert SameAt(f, at, term, t); }
    SumToEqual(Shifted(f, at), term, w);
    SumToSplit(f, at, w);
  }

  lemma LookupIsSum(b: Bucket, book: Codebook, query: seq<real>, code: seq<Byte>, m: nat)
    ensures BucketLookup(b, book, query, code)(m)
         == SumTo(Term(b, book, Gather(b, query), m, NibbleIndex(code, b.firstSubspace + m)), b.subspaceDimension)
  {
  }

  /** The first `m` subspaces of a bucket. */
  lemma {:induction false} SubspacesSum(b: Bucket, groups: seq<seq<nat>>, book: Codebook, query: seq<real>, code: seq<Byte>, x: seq<real>, m: nat)
    requires Holds(b, groups, b.firstSubspace, b.firstSubspace + b.subspaceCount)
    requires Scattered(x, b, Reconstruct(b, book, code)) && m <= b.subspaceCount
    ensures SumTo(BucketLookup(b, book, query, code), m) == SumTo(At(Product(query, x), b.dimensions), m * b.subspaceDimension)
  {
    if m > 0 {
      SubspacesSum(b, groups, book, query, code, x, m - 1);
      var at := (m - 1) * b.subspaceDimension;
      SubspaceSum(b, groups, book, query, code, x, m - 1, at);
      NextMultiple(m, b.subspaceDimension);
    }
  }

  lemma NextMultiple(m: nat, w: nat)
    requires m > 0
    ensures m * w == (m - 1) * w + w
  {
  }

  /** One bucket: its lookups are the products at its coordinates. */
  lemma BucketSum(b: Bucket, groups: seq<seq<nat>>, book: Codebook, query: seq<real>, code: seq<Byte>, x: seq<real>)
    requires Holds(b, groups, b.firstSubspace, b.firstSubspace + b.subspaceCount)
    requires Scattered(x, b, Reconstruct(b, book, code))
    ensures SumTo(BucketLookup(b, book, query, code), b.subspaceCount) == Sum(Product(query, x), b.dimensions)
  {
    SubspacesSum(b, groups, book, query, code, x, b.subspaceCount);
    HoldsExtent(b, groups, b.firstSubspace, b.firstSubspace + b.subspaceCount);
    SumIsSumTo(Product(query, x), b.dimensions);
    assert b.subspaceCount * b.subspaceDimension == |b.dimensions|;
  }

  lemma LookupOfGroup(q: Quantizer, query: seq<real>, table: seq<real>, code: seq<Byte>, i: nat, m: nat, g: nat)
    requires Trained(q) && i < |q.buckets| && TableUpTo(q, query, table, |q.groups|)
    requires m < q.buckets[i].subspaceCount && g == q.buckets[i].firstSubspace + m
    ensures Shifted(Lookup(table, code), q.buckets[i].firstSubspace)(m) == BucketLookup(q.buckets[i], q.books[i], query, code)(m)
  {
    BucketIndexIs(q.buckets, q.groups, |q.groups|, i, g);
    assert EntryHolds(q, query, table, g, NibbleIndex(code, g));
    assert Lookup(table, code)(g) == EntryOf(q, query, g, NibbleIndex(code, g));
  }

  lemma LookupsOfBucket(q: Quantizer, query: seq<real>, table: seq<real>, code: seq<Byte>, i: nat)
    requires Trained(q) && i < |q.buckets| && TableUpTo(q, query, table, |q.groups|)
    ensures var b := q.buckets[i];
      SumTo(Shifted(Lookup(table, code), b.firstSubspace), b.subspaceCount)
      == SumTo(BucketLookup(b, q.books[i], query, code), b.subspaceCount)
  {
    var b := q.buckets[i];
    BucketHolds(q.buckets, q.groups, |q.groups|, i);
    forall m: nat | m < b.subspaceCount
      ensures Shifted(Lookup(table, code), b.firstSubspace)(m) == BucketLookup(b, q.books[i], query, code)(m)
    {
      LookupOfGroup(q, query, table, code, i, m, b.firstSubspace + m);
    }
    SumToEqual(Shifted(Lookup(table, code), b.firstSubspace), BucketLookup(b, q.books[i], query, code), b.subspaceCount);
  }

  /** One more bucket. */
  lemma BucketsStep(q: Quantizer, query: seq<real>, table: seq<real>, code: seq<Byte>, x: seq<real>, i: nat)
    requires Trained(q) && i < |q.buckets| && TableUpTo(q, query, table, |q.groups|)
    requires DecodedUpTo(q, code, x, |q.buckets|)
    ensures SumTo(Lookup(table, code), q.buckets[i].firstSubspace + q.buckets[i].subspaceCount)
         == SumTo(Lookup(table, code), q.buckets[i].firstSubspace) + Sum(Product(query, x), q.buckets[i].dimensions)
  {
    var b := q.buckets[i];
    SumToSplit(Lookup(table, code), b.firstSubspace, b.subspaceCount);
    BucketProducts(q, query, table, code, x, i);
  }

  lemma BucketProducts(q: Quantizer, query: seq<real>, table: seq<real>, code: seq<Byte>, x: seq<real>, i: nat)
    requires Trained(q) && i < |q.buckets| && TableUpTo(q, query, table, |q.groups|)
    requires DecodedUpTo(q, code, x, |q.buckets|)
    ensures SumTo(Shifted(Lookup(table, code), q.buckets[i].firstSubspace), q.buckets[i].subspaceCount)
         == Sum(Product(query, x), q.buckets[i].dimensions)
  {
    BucketHolds(q.buckets, q.groups, |q.groups|, i);
    LookupsOfBucket(q, query, table, code, i);
    BucketSum(q.buckets[i], q.groups, q.books[i], query, code, x);
  }

  lemma DimensionsStep(f: nat -> real, buckets: seq<Bucket>, i: nat)
    requires i < |buckets|
    ensures Sum(f, AllDimensions(buckets[..i + 1])) == Sum(f, AllDimensions(buckets[..i])) + Sum(f, buckets[i].dimensions)
  {
    FlatMapNext(DimensionsOf, buckets, i);
    SumConcat(f, AllDimensions(buckets[..i]), buckets[i].dimensions);
  }

  /** The lookups of the groups before `end` are the products at the coordinates of the first `n` buckets. */
  ghost predicate SumsAgree(q: Quantizer, query: seq<real>, table: seq<real>, code: seq<Byte>, x: seq<real>, n: nat, end: nat)
    requires n <= |q.buckets|
  {
    SumTo(Lookup(table, code), end) == Sum(Product(query, x), AllDimensions(q.buckets[..n]))
  }

  lemma SumsNext(q: Quantizer, query: seq<real>, table: seq<real>, code: seq<Byte>, x: seq<real>, i: nat)
    requires Trained(q) && i < |q.buckets| && TableUpTo(q, query, table, |q.groups|)
    requires DecodedUpTo(q, code, x, |q.buckets|) && SumsAgree(q, query, table, code, x, i, q.buckets[i].firstSubspace)
    ensures SumsAgree(q, query, table, code, x, i + 1, q.buckets[i].firstSubspace + q.buckets[i].subspaceCount)
  {
    BucketsStep(q, query, table, code, x, i);
    DimensionsStep(Product(query, x), q.buckets, i);
  }

  lemma {:induction false} BucketsSum(q: Quantizer, query: seq<real>, table: seq<real>, code: seq<Byte>, x: seq<real>, i: nat)
    requires Trained(q) && i < |q.buckets| && TableUpTo(q, query, table, |q.groups|)
    requires DecodedUpTo(q, code, x, |q.buckets|)
    ensures SumsAgree(q, query, table, code, x, i + 1, q.buckets[i].firstSubspace + q.buckets[i].subspaceCount)
  {
    NextFirst(q.buckets, q.groups, |q.groups|, i);
    if i > 0 {
      BucketsSum(q, query, table, code, x, i - 1);
    } else {
      assert q.buckets[..0] == [];
    }
    SumsNext(q, query, table, code, x, i);
  }

  /** For every query and code, adding up the code's table entries is the dot product with the decoded vector. */
  lemma LookupIdentity(q: Quantizer, query: seq<real>, table: seq<real>, code: seq<Byte>, x: seq<real>)
    requires Trained(q) && TableUpTo(q, query, table, |q.groups|) && DecodedUpTo(q, code, x, |q.buckets|)
    ensures SumTo(Lookup(table, code), |q.groups|) == Dot(query, x, q.dimension)
    ensures |query| == q.dimension ==> Dot(query, x, q.dimension) == DotProduct(query, x, q.dimension)
  {
    if |query| == q.dimension { DotIs(query, x, q.dimension); }
    BucketsCover(q);
    if |q.buckets| > 0 {
      BucketsSum(q, query, table, code, x, |q.buckets| - 1);
    }
    SumPermuted(Product(query, x), Members(q.groups), UpTo(q.dimension));
  }

  /** The buckets hold all coordinates, and end where the groups end. */
  lemma BucketsCover(q: Quantizer)
    requires Trained(q)
    ensures AllDimensions(q.buckets) == Members(q.groups) && q.buckets[..|q.buckets|] == q.buckets
    ensures q.buckets == [] ==> |q.groups| == 0
    ensures q.buckets != [] ==> var b := q.buckets[|q.buckets| - 1]; b.firstSubspace + b.subspaceCount == |q.groups|
  {
    TilingDimensions(q.buckets, q.groups, |q.groups|);
    assert q.groups[..|q.groups|] == q.groups;
    if q.buckets != [] { NextFirst(q.buckets, q.groups, |q.groups|, |q.buckets| - 1); }
  }

  // ---------------------------------------------------------------- encoding

  /** The nibble a bucket's quantizer chooses for the coordinates of one of its subspaces. */
  type Encoder = (nat, nat, seq<real>) -> Byte

  ghost predicate Nibbles(encoder: Encoder) {
    forall i: nat, m: nat, v: seq<real> :: encoder(i, m, v) < 16
  }

  function Subvector(gathered: seq<real>, m: nat, width: nat): (v: seq<real>)
    ensures |v| == width
  {
    seq(width, t requires 0 <= t => Coordinate(gathered, m * width + t))
  }

  function Chosen(encoder: Encoder, i: nat, b: Bucket, gathered: seq<real>, m: nat): Byte {
    encoder(i, m, Subvector(gathered, m, b.subspaceDimension))
  }

  /** The bytes of one bucket: two subspaces a byte, the even one low. */
  function BucketCode(encoder: Encoder, i: nat, b: Bucket, gathered: seq<real>): (bytes: seq<Byte>)
    ensures |bytes| == b.bucketCodeSize
  {
    seq(b.bucketCodeSize, k requires 0 <= k =>
      JoinNibbles(Chosen(encoder, i, b, gathered, 2 * k), Chosen(encoder, i, b, gathered, 2 * k + 1)))
  }

  lemma BucketCodeNibble(encoder: Encoder, i: nat, b: Bucket, gathered: seq<real>, m: nat)
    requires Nibbles(encoder) && m < 2 * b.bucketCodeSize
    ensures FlatNibble(BucketCode(encoder, i, b, gathered), m) == Chosen(encoder, i, b, gathered, m)
  {
    var k := m / 2;
    var low, high := Chosen(encoder, i, b, gathered, 2 * k), Chosen(encoder, i, b, gathered, 2 * k + 1);
    JoinSplit(low, high);
    assert BucketCode(encoder, i, b, gathered)[k] == JoinNibbles(low, high);
  }

  /** What group `g` of the code must be. */
  function Choice(q: Quantizer, encoder: Encoder, x: seq<real>, g: nat): Byte {
    var i := BucketIndex(q.buckets, g);
    if i < |q.buckets| && q.buckets[i].firstSubspace <= g
    then Chosen(encoder, i, q.buckets[i], Gather(q.buckets[i], x), g - q.buckets[i].firstSubspace)
    else 0
  }

  ghost predicate ChoiceHolds(q: Quantizer, encoder: Encoder, x: seq<real>, code: seq<Byte>, g: nat) {
    FlatNibble(code, g) == Choice(q, encoder, x, g)
  }

  ghost predicate EncodedUpTo(q: Quantizer, encoder: Encoder, x: seq<real>, code: seq<Byte>, groups: nat) {
    forall g: nat :: g < groups ==> ChoiceHolds(q, encoder, x, code, g)
  }

  function SpliceBytes(code: seq<Byte>, at: nat, part: seq<Byte>): (r: seq<Byte>)
    requires at + |part| <= |code|
    ensures |r| == |code|
    ensures forall i :: 0 <= i < |code| ==> r[i] == if at <= i < at + |part| then part[i - at] else code[i]
  {
    code[..at] + part + code[at + |part|..]
  }

  lemma SplicedNibble(code: seq<Byte>, at: nat, part: seq<Byte>, g: nat)
    requires at + |part| <= |code|
    ensures g < 2 * at ==> FlatNibble(SpliceBytes(code, at, part), g) == FlatNibble(code, g)
    ensures 2 * at <= g < 2 * at + 2 * |part| ==> FlatNibble(SpliceBytes(code, at, part), g) == FlatNibble(part, g - 2 * at)
  {
    if 2 * at <= g < 2 * at + 2 * |part| {
      assert g / 2 == at + (g - 2 * at) / 2 && g % 2 == (g - 2 * at) % 2;
    }
  }

  lemma EncodeStep(q: Quantizer, encoder: Encoder, x: seq<real>, code: seq<Byte>, i: nat)
    requires Trained(q) && Nibbles(encoder) && i < |q.buckets| && |code| == |q.groups| / 2
    requires EncodedUpTo(q, encoder, x, code, q.buckets[i].firstSubspace)
    ensures var b := q.buckets[i];
      && b.codeOffset + b.bucketCodeSize <= |code|
      && EncodedUpTo(q, encoder, x, SpliceBytes(code, b.codeOffset, BucketCode(encoder, i, b, Gather(b, x))),
                     b.firstSubspace + b.subspaceCount)
  {
    var b := q.buckets[i];
    CodeRangeFits(q, i);
    BucketHolds(q.buckets, q.groups, |q.groups|, i);
    BucketParity(b, q.groups);
    var part := BucketCode(encoder, i, b, Gather(b, x));
    var next := SpliceBytes(code, b.codeOffset, part);
    forall g: nat | g < b.firstSubspace + b.subspaceCount ensures ChoiceHolds(q, encoder, x, next, g) {
      if g < b.firstSubspace {
        assert ChoiceHolds(q, encoder, x, code, g);
        SplicedNibble(code, b.codeOffset, part, g);
      } else {
        SplicedChoice(q, encoder, x, code, i, g, part);
      }
    }
  }

  lemma SplicedChoice(q: Quantizer, encoder: Encoder, x: seq<real>, code: seq<Byte>, i: nat, g: nat, part: seq<Byte>)
    requires Trained(q) && Nibbles(encoder) && i < |q.buckets| && InBucket(q.buckets[i], g)
    requires part == BucketCode(encoder, i, q.buckets[i], Gather(q.buckets[i], x))
    requires q.buckets[i].codeOffset + |part| <= |code| && q.buckets[i].firstSubspace == 2 * q.buckets[i].codeOffset
    ensures ChoiceHolds(q, encoder, x, SpliceBytes(code, q.buckets[i].codeOffset, part), g)
  {
    NewChoice(q, encoder, x, i, g, part);
    SplicedNibble(code, q.buckets[i].codeOffset, part, g);
  }

  lemma NewChoice(q: Quantizer, encoder: Encoder, x: seq<real>, i: nat, g: nat, part: seq<Byte>)
    requires Trained(q) && Nibbles(encoder) && i < |q.buckets| && InBucket(q.buckets[i], g)
    requires part == BucketCode(encoder, i, q.buckets[i], Gather(q.buckets[i], x))
    ensures g - q.buckets[i].firstSubspace < 2 * |part|
    ensures FlatNibble(part, g - q.buckets[i].firstSubspace) == Choice(q, encoder, x, g)
  {
    var b := q.buckets[i];
    ChoiceIs(q, encoder, x, i, g);
    GroupOfCode(q, i, g);
    BucketCodeNibble(encoder, i, b, Gather(b, x), g - b.firstSubspace);
  }

  lemma ChoiceIs(q: Quantizer, encoder: Encoder, x: seq<real>, i: nat, g: nat)
    requires Trained(q) && i < |q.buckets| && InBucket(q.buckets[i], g)
    ensures Choice(q, encoder, x, g) == Chosen(encoder, i, q.buckets[i], Gather(q.buckets[i], x), g - q.buckets[i].firstSubspace)
  {
    BucketIndexIs(q.buckets, q.groups, |q.groups|, i, g);
  }

  lemma GroupOfCode(q: Quantizer, i: nat, g: nat)
    requires Trained(q) && i < |q.buckets| && InBucket(q.buckets[i], g)
    ensures g - q.buckets[i].firstSubspace < 2 * q.buckets[i].bucketCodeSize
  {
    BucketHolds(q.buckets, q.groups, |q.groups|, i);
    BucketParity(q.buckets[i], q.groups);
  }

  /** Every bucket's whole bytes spliced in: nibble g of the code is the choice for group g. */
  method ComputeCode(q: Quantizer, encoder: Encoder, x: seq<real>) returns (code: seq<Byte>)
    requires Trained(q) && Nibbles(encoder) && |x| == q.dimension
    ensures |code| == |q.groups| / 2 && EncodedUpTo(q, encoder, x, code, |q.groups|)
    ensures forall i: nat, m: nat :: GroupEncoded(q, encoder, x, code, i, m)
  {
    code := seq(|q.groups| / 2, _ => 0);
    BucketsCover(q);
    if |q.buckets| > 0 { NextFirst(q.buckets, q.groups, |q.groups|, 0); }
    for i := 0 to |q.buckets|
      invariant |code| == |q.groups| / 2
      invariant i < |q.buckets| ==> EncodedUpTo(q, encoder, x, code, q.buckets[i].firstSubspace)
      invariant i == |q.buckets| ==> EncodedUpTo(q, encoder, x, code, |q.groups|)
    {
      var b := q.buckets[i];
      CodeRangeFits(q, i);
      if i + 1 < |q.buckets| { NextFirst(q.buckets, q.groups, |q.groups|, i + 1); }
      EncodeStep(q, encoder, x, code, i);
      var gathered := GatherBucket(b, x);
      code := SpliceBytes(code, b.codeOffset, BucketCode(encoder, i, b, gathered));
    }
    forall i: nat, m: nat ensures GroupEncoded(q, encoder, x, code, i, m) { CodeNames(q, encoder, x, code, i, m); }
  }

  /** The code names for a group what the bucket's quantizer makes of the vector's coordinates in the group. */
  ghost predicate GroupEncoded(q: Quantizer, encoder: Encoder, x: seq<real>, code: seq<Byte>, i: nat, m: nat) {
    GroupOf(q, i, m) ==>
      var g := q.buckets[i].firstSubspace + m;
      forall v :: IsPart(v, q.groups[g], x) ==> CodeIs(code, g, encoder(i, m, v) as nat)
  }

  ghost predicate IsPart(v: seq<real>, group: seq<nat>, x: seq<real>) {
    |v| == |group| && forall t :: 0 <= t < |v| ==> group[t] < |x| && v[t] == x[group[t]]
  }

  lemma CodeNames(q: Quantizer, encoder: Encoder, x: seq<real>, code: seq<Byte>, i: nat, m: nat)
    requires Trained(q) && |x| == q.dimension && |code| == |q.groups| / 2 && EncodedUpTo(q, encoder, x, code, |q.groups|)
    ensures GroupEncoded(q, encoder, x, code, i, m)
  {
    if GroupOf(q, i, m) {
      var b := q.buckets[i];
      var g := b.firstSubspace + m;
      BucketHolds(q.buckets, q.groups, |q.groups|, i);
      BucketParity(b, q.groups);
      BucketIndexIs(q.buckets, q.groups, |q.groups|, i, g);
      BucketsEven(q);
      ChoiceSeesGroup(q, encoder, x, g);
      CodeIsNibble(code, g);
      assert ChoiceHolds(q, encoder, x, code, g);
      forall v | IsPart(v, q.groups[g], x) ensures CodeIs(code, g, encoder(i, m, v) as nat) {
        assert v == GroupVector(q.groups[g], x);
      }
    }
  }

  lemma BucketsEven(q: Quantizer)
    requires Trained(q)
    ensures |q.groups| % 2 == 0
  {
    BucketsCover(q);
    if q.buckets != [] { BucketHolds(q.buckets, q.groups, |q.groups|, |q.buckets| - 1); }
  }

  /** A vector's coordinates that were assigned to a group, in the group's order. */
  function GroupVector(group: seq<nat>, x: seq<real>): (v: seq<real>)
    ensures |v| == |group|
  {
    seq(|group|, t requires 0 <= t < |group| => Coordinate(x, group[t]))
  }

  lemma SubvectorEntry(b: Bucket, groups: seq<seq<nat>>, x: seq<real>, m: nat, t: nat, j: nat)
    requires Holds(b, groups, b.firstSubspace, b.firstSubspace + b.subspaceCount)
    requires m < b.subspaceCount && t < b.subspaceDimension && j == m * b.subspaceDimension + t
    ensures t < |groups[b.firstSubspace + m]|
    ensures Coordinate(Gather(b, x), j) == Coordinate(x, groups[b.firstSubspace + m][t])
  {
    BucketPosition(b, groups, m, t);
    assert Gather(b, x)[j] == Coordinate(x, b.dimensions[j]);
  }

  lemma SubvectorIsGroup(b: Bucket, groups: seq<seq<nat>>, x: seq<real>, m: nat)
    requires Holds(b, groups, b.firstSubspace, b.firstSubspace + b.subspaceCount) && m < b.subspaceCount
    ensures Subvector(Gather(b, x), m, b.subspaceDimension) == GroupVector(groups[b.firstSubspace + m], x)
  {
    var v, w := Subvector(Gather(b, x), m, b.subspaceDimension), GroupVector(groups[b.firstSubspace + m], x);
    forall t | 0 <= t < |v| ensures v[t] == w[t] {
      SubvectorEntry(b, groups, x, m, t, m * b.subspaceDimension + t);
    }
  }

  /** Which subspace of its bucket a group is. */
  function PlaceInBucket(buckets: seq<Bucket>, g: nat): nat {
    var i := BucketIndex(buckets, g);
    if i < |buckets| && buckets[i].firstSubspace <= g then g - buckets[i].firstSubspace else 0
  }

  /** A group's choice is made on exactly the vector's coordinates that were assigned to the group. */
  lemma ChoiceSeesGroup(q: Quantizer, encoder: Encoder, x: seq<real>, g: nat)
    requires Trained(q) && g < |q.groups|
    ensures Choice(q, encoder, x, g) == encoder(BucketIndex(q.buckets, g), PlaceInBucket(q.buckets, g), GroupVector(q.groups[g], x))
  {
    var i := BucketIndex(q.buckets, g);
    GroupInBucket(q.buckets, q.groups, |q.groups|, g);
    BucketHolds(q.buckets, q.groups, |q.groups|, i);
    SubvectorIsGroup(q.buckets[i], q.groups, x, g - q.buckets[i].firstSubspace);
  }

  // ---------------------------------------------------------------- the round trip

  function Row(book: Codebook, m: nat, k: nat, width: nat): (v: seq<real>)
    ensures |v| == width
  {
    seq(width, t requires 0 <= t => book(m, k, t))
  }

  /** Every centroid is encoded as itself. */
  ghost predicate SelfConsistent(q: Quantizer, encoder: Encoder)
    requires |q.books| == |q.buckets|
  {
    forall i: nat, m: nat, k: Byte :: i < |q.buckets| && m < q.buckets[i].subspaceCount && k < 16 ==> RowChosen(q, encoder, i, m, k)
  }

  ghost predicate RowChosen(q: Quantizer, encoder: Encoder, i: nat, m: nat, k: Byte)
    requires i < |q.books| == |q.buckets|
  {
    encoder(i, m, Row(q.books[i], m, k as nat, q.buckets[i].subspaceDimension)) == k
  }

  lemma DecodedRow(b: Bucket, groups: seq<seq<nat>>, book: Codebook, code: seq<Byte>, x: seq<real>, m: nat)
    requires Holds(b, groups, b.firstSubspace, b.firstSubspace + b.subspaceCount)
    requires Scattered(x, b, Reconstruct(b, book, code)) && m < b.subspaceCount
    ensures Subvector(Gather(b, x), m, b.subspaceDimension)
         == Row(book, m, NibbleIndex(code, b.firstSubspace + m), b.subspaceDimension)
  {
    var w := b.subspaceDimension;
    var v, row := Subvector(Gather(b, x), m, w), Row(book, m, NibbleIndex(code, b.firstSubspace + m), w);
    forall t | 0 <= t < w ensures v[t] == row[t] {
      DecodedTerm(b, groups, book, code, x, m, t, m * w + t);
    }
  }

  lemma DecodedTerm(b: Bucket, groups: seq<seq<nat>>, book: Codebook, code: seq<Byte>, x: seq<real>, m: nat, t: nat, j: nat)
    requires Holds(b, groups, b.firstSubspace, b.firstSubspace + b.subspaceCount)
    requires Scattered(x, b, Reconstruct(b, book, code)) && m < b.subspaceCount && t < b.subspaceDimension
    requires j == m * b.subspaceDimension + t
    ensures Coordinate(Gather(b, x), j) == book(m, NibbleIndex(code, b.firstSubspace + m), t)
  {
    BucketPosition(b, groups, m, t);
    QuotientOf(m, t, b.subspaceDimension);
    assert Coordinate(x, b.dimensions[j]) == Reconstruct(b, book, code)[j];
    assert Gather(b, x)[j] == Coordinate(x, b.dimensions[j]);
  }

  /** Re-encoding a decoded vector gives the code back, when every centroid is encoded as itself. */
  lemma ReencodeRoundTrip(q: Quantizer, encoder: Encoder, code: seq<Byte>, x: seq<real>, again: seq<Byte>)
    requires Trained(q) && SelfConsistent(q, encoder)
    requires |code| == |again| == |q.groups| / 2
    requires DecodedUpTo(q, code, x, |q.buckets|) && EncodedUpTo(q, encoder, x, again, |q.groups|)
    ensures again == code
  {
    forall g: nat | g < |q.groups| ensures FlatNibble(again, g) == FlatNibble(code, g) {
      GroupRoundTrip(q, encoder, code, x, g);
      assert ChoiceHolds(q, encoder, x, again, g);
    }
    forall k | 0 <= k < |code| ensures again[k] == code[k] {
      assert FlatNibble(again, 2 * k) == FlatNibble(code, 2 * k) && FlatNibble(again, 2 * k + 1) == FlatNibble(code, 2 * k + 1);
      FlatNibblePair(code, k);
      FlatNibblePair(again, k);
    }
  }

  lemma GroupRoundTrip(q: Quantizer, encoder: Encoder, code: seq<Byte>, x: seq<real>, g: nat)
    requires Trained(q) && SelfConsistent(q, encoder) && DecodedUpTo(q, code, x, |q.buckets|) && g < |q.groups|
    ensures Choice(q, encoder, x, g) == FlatNibble(code, g)
  {
    var i := BucketIndex(q.buckets, g);
    GroupInBucket(q.buckets, q.groups, |q.groups|, g);
    BucketHolds(q.buckets, q.groups, |q.groups|, i);
    var b := q.buckets[i];
    ChoiceIs(q, encoder, x, i, g);
    DecodedRow(b, q.groups, q.books[i], code, x, g - b.firstSubspace);
    FlatNibbleRange(code, g);
    assert RowChosen(q, encoder, i, g - b.firstSubspace, FlatNibble(code, g));
  }
}
