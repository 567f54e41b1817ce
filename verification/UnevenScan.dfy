/** The exact scan of packed rows with the uneven quantizer's tables: what the kernel adds up per row. */
module UnevenScan {
  import opened Outcomes
  import opened Pq4Layout
  import opened PostingPacking
  import opened Pq4Kernel
  import opened UnevenCodec

  function RealAdd(): (real, real) -> real {
    (a: real, b: real) => a + b
  }

  lemma {:induction false} SumsPick(element: Accessor, pick: nat -> real, table: seq<real>, row: nat, m: nat)
    requires m * 16 <= |table| && forall r, c :: element(r, c) < 16
    requires forall c: nat :: c < m ==> table[c * 16 + element(row, c)] == pick(c)
    ensures AccessedSum(RealAdd(), 0.0, element, table, row, m) == SumTo(pick, m)
  {
    if m > 0 { SumsPick(element, pick, table, row, m - 1); }
  }

  lemma Picked(packed: seq<Byte>, groups: nat, table: seq<real>, row: nat, code: seq<Byte>, m: nat)
    requires RowIs(packed, groups, row, code) && m < groups && |table| == groups * 16
    ensures table[m * 16 + Element32(packed, groups)(row, m)] == Lookup(table, code)(m)
  {
    SameIndex(packed, groups, row, code, m);
  }

  /** A packed row's kernel sum picks the table entries of the row's flat code. */
  lemma KernelLooksUp(packed: seq<Byte>, groups: nat, table: seq<real>, row: nat, code: seq<Byte>)
    requires RowIs(packed, groups, row, code) && |table| == groups * 16
    ensures AccessedSum(RealAdd(), 0.0, Element32(packed, groups), table, row, groups) == SumTo(Lookup(table, code), groups)
  {
    forall m: nat | m < groups ensures table[m * 16 + Element32(packed, groups)(row, m)] == Lookup(table, code)(m) {
      Picked(packed, groups, table, row, code, m);
    }
    SumsPick(Element32(packed, groups), Lookup(table, code), table, row, groups);
  }

  lemma SameIndex(packed: seq<Byte>, groups: nat, row: nat, code: seq<Byte>, m: nat)
    requires RowIs(packed, groups, row, code) && m < groups
    ensures Element32(packed, groups)(row, m) == NibbleIndex(code, m)
  {
    SameNibble(Element(packed, groups, row, m), FlatNibble(code, m), Code(packed, groups, row, m), NibbleIndex(code, m));
  }

  lemma SameNibble(a: Byte, b: Byte, m: nat, n: nat)
    requires a == b && m == a as nat && n == b as nat
    ensures m == n
  {
  }

  /** For every row of a packed list, the kernel's sum is the dot product of the query with the decoded row. */
  lemma KernelComputesDot(q: Quantizer, query: seq<real>, table: seq<real>, packed: seq<Byte>, row: nat, code: seq<Byte>, x: seq<real>)
    requires Trained(q) && |table| == |q.groups| * 16 && TableUpTo(q, query, table, |q.groups|)
    requires RowIs(packed, |q.groups|, row, code) && DecodedUpTo(q, code, x, |q.buckets|)
    ensures AccessedSum(RealAdd(), 0.0, Element32(packed, |q.groups|), table, row, |q.groups|) == Dot(query, x, q.dimension)
  {
    KernelLooksUp(packed, |q.groups|, table, row, code);
    LookupIdentity(q, query, table, code, x);
  }

  /** The row holds the code, and the code decodes to the vector. */
  ghost predicate StandsFor(q: Quantizer, packed: seq<Byte>, row: nat, code: seq<Byte>, x: seq<real>) {
    Trained(q) && RowIs(packed, |q.groups|, row, code) && DecodedUpTo(q, code, x, |q.buckets|)
  }

  /** One query's table, then the kernel over whole tiles: the estimates' dot products, exactly. */
  method ScanDots(q: Quantizer, query: seq<real>, packed: seq<Byte>, paddedSize: nat) returns (r: Result<seq<real>>)
    requires Trained(q) && |query| == q.dimension && paddedSize % 32 == 0
    requires |packed| == paddedSize / 32 * BlockStride(|q.groups|)
    ensures r.Ok? <==> |q.groups| != 0 && |q.groups| % 2 == 0
    ensures r.Ok? ==> |r.value| == paddedSize && forall row, code, x ::
      0 <= row < paddedSize && StandsFor(q, packed, row, code, x) ==> r.value[row] == Dot(query, x, q.dimension)
  {
    var table := ComputeInnerProductTable(q, query);
    r := AccumulateRegisters(RealAdd(), 0.0, paddedSize, 32, |q.groups|, packed, table);
    if r.Ok? {
      forall row, code, x | 0 <= row < paddedSize && StandsFor(q, packed, row, code, x) ensures r.value[row] == Dot(query, x, q.dimension) {
        KernelComputesDot(q, query, table, packed, row, code, x);
      }
    }
  }
}
