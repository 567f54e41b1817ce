/**
 The two accumulation kernels of src/exact_pq4.cpp over an arbitrary addition, which need be neither
 associative nor commutative: equality of the results includes the order of the terms.
 */
module Pq4Kernel {
  import opened Arithmetic
  import opened Pq4Layout
  import opened Outcomes

  /** The row's lookup sum over the first `m` subquantizers, added left to right. */
  function RowSum<F>(add: (F, F) -> F, zero: F, packed: seq<Byte>, subquantizers: nat, lut: seq<F>, row: nat, m: nat): F
    requires m * 16 <= |lut|
  {
    if m == 0 then zero else
      add(RowSum(add, zero, packed, subquantizers, lut, row, m - 1),
          lut[(m - 1) * 16 + Code(packed, subquantizers, row, m - 1)])
  }

  /** An accessor for the elements of a packed buffer, by row and subquantizer. */
  type Accessor = (nat, nat) -> nat

  /** The same sum over what an accessor yields. */
  function AccessedSum<F>(add: (F, F) -> F, zero: F, element: Accessor, lut: seq<F>, row: nat, m: nat): F
    requires m * 16 <= |lut| && forall r, c :: element(r, c) < 16
  {
    if m == 0 then zero else
      add(AccessedSum(add, zero, element, lut, row, m - 1), lut[(m - 1) * 16 + element(row, m - 1)])
  }

  /** Faiss's accessor for blocks of 32 rows. */
  function Element32(packed: seq<Byte>, subquantizers: nat): Accessor {
    (row: nat, m: nat) => Code(packed, subquantizers, row, m)
  }

  lemma {:induction false} AccessedSum32<F>(add: (F, F) -> F, zero: F, packed: seq<Byte>, subquantizers: nat, lut: seq<F>, row: nat, m: nat)
    requires m * 16 <= |lut|
    ensures AccessedSum(add, zero, Element32(packed, subquantizers), lut, row, m)
         == RowSum(add, zero, packed, subquantizers, lut, row, m)
  {
    if m > 0 { AccessedSum32(add, zero, packed, subquantizers, lut, row, m - 1); }
  }

  /**
   The scalar reference, for any block size and its accessor: rows below `count` are accumulated one by one, the
   rest read zero.
   */
  method AccumulateScalar<F>(add: (F, F) -> F, zero: F, count: nat, paddedSize: nat, blockSize: nat, subquantizers: nat,
                             element: Accessor, lut: seq<F>) returns (r: Result<seq<F>>)
    requires |lut| == subquantizers * 16 && forall row, m :: element(row, m) < 16
    ensures r.Ok? <==> count <= paddedSize && blockSize != 0 && paddedSize % blockSize == 0 && subquantizers != 0 && subquantizers % 2 == 0
    ensures r.Err? ==> r.error == InvalidArgument
    ensures r.Ok? ==> |r.value| == paddedSize && forall i :: 0 <= i < paddedSize ==>
      r.value[i] == if i < count then AccessedSum(add, zero, element, lut, i, subquantizers) else zero
  {
    if count > paddedSize || blockSize == 0 || paddedSize % blockSize != 0 || subquantizers == 0 || subquantizers % 2 != 0 {
      return Err(InvalidArgument);
    }
    var output := seq(paddedSize, _ => zero);
    for i := 0 to count
      invariant |output| == paddedSize
      invariant forall j :: 0 <= j < i ==> output[j] == AccessedSum(add, zero, element, lut, j, subquantizers)
      invariant forall j :: i <= j < paddedSize ==> output[j] == zero
    {
      var sum := zero;
      for m := 0 to subquantizers
        invariant sum == AccessedSum(add, zero, element, lut, i, m)
      {
        sum := add(sum, lut[m * 16 + element(i, m)]);
      }
      output := output[i := sum];
    }
    return Ok(output);
  }

  // ---------------------------------------------------------------- registers of sixteen lanes

  type Bytes16 = s: seq<Byte> | |s| == 16 witness seq(16, _ => 0)

  function AndMask(a: Bytes16): (r: Bytes16) {
    seq(16, i requires 0 <= i < 16 => a[i] & 0x0f)
  }

  /** One 16-bit lane, low byte first, shifted right by four and cut back into its two bytes. */
  function ShiftWord(lo: Byte, hi: Byte): (Byte, Byte) {
    var word: bv16 := ((hi as bv16) << 8) | (lo as bv16);
    (((word >> 4) & 0xff) as Byte, ((word >> 4) >> 8) as Byte)
  }

  function ShiftWords(a: Bytes16): (r: Bytes16) {
    seq(16, i requires 0 <= i < 16 =>
      var shifted := ShiftWord(a[i / 2 * 2], a[i / 2 * 2 + 1]);
      if i % 2 == 0 then shifted.0 else shifted.1)
  }

  /** A table lookup per lane; the index counts modulo sixteen. */
  function PermuteLanes<F>(index: seq<nat>, table: seq<F>): (r: seq<F>)
    requires |index| == 16 && |table| == 16
    ensures |r| == 16
  {
    seq(16, i requires 0 <= i < 16 => table[index[i] % 16])
  }

  function Widen(a: Bytes16): (r: seq<nat>)
    ensures |r| == 16
  {
    seq(16, i requires 0 <= i < 16 => a[i] as nat)
  }

  function AddLanes<F>(add: (F, F) -> F, a: seq<F>, b: seq<F>): (r: seq<F>)
    requires |a| == 16 && |b| == 16
    ensures |r| == 16
  {
    seq(16, i requires 0 <= i < 16 => add(a[i], b[i]))
  }

  const SEQUENTIAL_ORDER: seq<nat> := [0, 2, 4, 6, 8, 10, 12, 14, 1, 3, 5, 7, 9, 11, 13, 15]

  lemma SequentialOrder(i: nat)
    requires i < 16
    ensures SEQUENTIAL_ORDER[i] == LanePosition(i)
  {
  }

  /** Bits shifted in from the neighbouring byte are masked away. */
  lemma ShiftAndMask(lo: Byte, hi: Byte)
    ensures ShiftWord(lo, hi).0 & 0x0f == lo >> 4
    ensures ShiftWord(lo, hi).1 & 0x0f == hi >> 4
  {
  }

  lemma UnpackNibbles(a: Bytes16)
    ensures forall i :: 0 <= i < 16 ==> AndMask(a)[i] == Nibble(a[i], false)
    ensures forall i :: 0 <= i < 16 ==> AndMask(ShiftWords(a))[i] == Nibble(a[i], true)
  {
    forall i | 0 <= i < 16 ensures AndMask(ShiftWords(a))[i] == Nibble(a[i], true) {
      ShiftAndMask(a[i / 2 * 2], a[i / 2 * 2 + 1]);
    }
  }

  // ---------------------------------------------------------------- the register kernel

  /** The row accumulated in register lane `j`. */
  function LaneRow(block: nat, high: bool, j: nat): nat
    requires j < 16
  {
    block * 32 + (if high then 16 else 0) + PositionLane(j)
  }

  lemma LaneRowParts(block: nat, high: bool, j: nat)
    requires j < 16
    ensures LaneRow(block, high, j) / 32 == block
    ensures LaneRow(block, high, j) % 16 == PositionLane(j)
    ensures HighHalf(LaneRow(block, high, j)) == high
  {
  }

  /** A register holds the partial sums of its sixteen rows. */
  ghost predicate Lanes<F>(add: (F, F) -> F, zero: F, packed: seq<Byte>, subquantizers: nat, lut: seq<F>,
                           sums: seq<F>, block: nat, high: bool, m: nat)
    requires m * 16 <= |lut|
  {
    |sums| == 16 && forall j :: 0 <= j < 16 ==>
      sums[j] == RowSum(add, zero, packed, subquantizers, lut, LaneRow(block, high, j), m)
  }

  /** The sixteen nibbles of one subquantizer, in register order. */
  function Nibbles(bytes: Bytes16, high: bool): Bytes16 {
    if high then AndMask(ShiftWords(bytes)) else AndMask(bytes)
  }

  /** The nibbles widened to lane indices. */
  function LaneCodes(bytes: Bytes16, high: bool): (c: seq<nat>)
    ensures |c| == 16
  {
    Widen(Nibbles(bytes, high))
  }

  function AddRow<F>(add: (F, F) -> F, sums: seq<F>, codes: seq<nat>, row: seq<F>): (r: seq<F>)
    requires |sums| == 16 && |codes| == 16 && |row| == 16
    ensures |r| == 16
  {
    AddLanes(add, sums, PermuteLanes(codes, row))
  }

  /** The sixteen bytes of subquantizer `m` in tile `block` start here. */
  function RowBytes(block: nat, subquantizers: nat, m: nat): nat {
    block * BlockStride(subquantizers) + m * 16
  }

  lemma LaneAddress(subquantizers: nat, block: nat, high: bool, m: nat, j: nat)
    requires j < 16
    ensures Address(subquantizers, LaneRow(block, high, j), m) == RowBytes(block, subquantizers, m) + j
  {
    LaneRowParts(block, high, j);
    LanePositionInverse(j);
  }

  lemma NibbleOfLane(packed: seq<Byte>, at: nat, high: bool, j: nat)
    requires j < 16 && at + 16 <= |packed|
    ensures Nibbles(packed[at..at + 16], high)[j] == Nibble(packed[at + j], high)
  {
    UnpackNibbles(packed[at..at + 16]);
    assert packed[at..at + 16][j] == packed[at + j];
  }

  lemma CodeOfLane(packed: seq<Byte>, subquantizers: nat, block: nat, high: bool, m: nat, j: nat)
    requires j < 16 && RowBytes(block, subquantizers, m) + 16 <= |packed|
    ensures var at := RowBytes(block, subquantizers, m);
      LaneCodes(packed[at..at + 16], high)[j] == Code(packed, subquantizers, LaneRow(block, high, j), m)
  {
    LaneAddress(subquantizers, block, high, m, j);
    LaneRowParts(block, high, j);
    NibbleOfLane(packed, RowBytes(block, subquantizers, m), high, j);
  }

  lemma AddRowLane<F>(add: (F, F) -> F, sums: seq<F>, codes: seq<nat>, lut: seq<F>, m: nat, j: nat)
    requires |sums| == 16 && |codes| == 16 && (m + 1) * 16 <= |lut| && j < 16 && codes[j] < 16
    ensures AddRow(add, sums, codes, lut[m * 16..m * 16 + 16])[j] == add(sums[j], lut[m * 16 + codes[j]])
  {
  }

  lemma LaneStep<F>(add: (F, F) -> F, zero: F, packed: seq<Byte>, subquantizers: nat, lut: seq<F>,
                    sums: seq<F>, codes: seq<nat>, block: nat, high: bool, m: nat, j: nat)
    requires (m + 1) * 16 <= |lut| && |sums| == 16 && |codes| == 16 && j < 16
    requires codes[j] == Code(packed, subquantizers, LaneRow(block, high, j), m)
    requires sums[j] == RowSum(add, zero, packed, subquantizers, lut, LaneRow(block, high, j), m)
    ensures AddRow(add, sums, codes, lut[m * 16..m * 16 + 16])[j]
         == RowSum(add, zero, packed, subquantizers, lut, LaneRow(block, high, j), m + 1)
  {
    AddRowLane(add, sums, codes, lut, m, j);
  }

  /** One lookup row advances every lane by one subquantizer. */
  lemma RowStep<F>(add: (F, F) -> F, zero: F, packed: seq<Byte>, subquantizers: nat, lut: seq<F>,
                   sums: seq<F>, block: nat, high: bool, m: nat)
    requires (m + 1) * 16 <= |lut| && RowBytes(block, subquantizers, m) + 16 <= |packed|
    requires Lanes(add, zero, packed, subquantizers, lut, sums, block, high, m)
    ensures var at := RowBytes(block, subquantizers, m);
      Lanes(add, zero, packed, subquantizers, lut,
            AddRow(add, sums, LaneCodes(packed[at..at + 16], high), lut[m * 16..m * 16 + 16]), block, high, m + 1)
  {
    var at := RowBytes(block, subquantizers, m);
    var next := AddRow(add, sums, LaneCodes(packed[at..at + 16], high), lut[m * 16..m * 16 + 16]);
    forall j | 0 <= j < 16
      ensures next[j] == RowSum(add, zero, packed, subquantizers, lut, LaneRow(block, high, j), m + 1)
    {
      CodeOfLane(packed, subquantizers, block, high, m, j);
      LaneStep(add, zero, packed, subquantizers, lut, sums, LaneCodes(packed[at..at + 16], high), block, high, m, j);
    }
  }

  function RestoredRow(block: nat, high: bool, i: nat): nat {
    block * 32 + if high then 16 + i else i
  }

  lemma RestoredLane(block: nat, high: bool, i: nat)
    requires i < 16
    ensures LaneRow(block, high, LanePosition(i)) == RestoredRow(block, high, i)
  {
    LanePositionInverse(i);
  }

  lemma PermutedLane<F>(sums: seq<F>, i: nat)
    requires |sums| == 16 && i < 16
    ensures PermuteLanes(SEQUENTIAL_ORDER, sums)[i] == sums[LanePosition(i)]
  {
    SequentialOrder(i);
  }

  /** The closing permutation puts lane sums back in row order. */
  lemma Restore<F>(add: (F, F) -> F, zero: F, packed: seq<Byte>, subquantizers: nat, lut: seq<F>,
                   sums: seq<F>, block: nat, high: bool, m: nat, i: nat)
    requires m * 16 <= |lut| && i < 16
    requires Lanes(add, zero, packed, subquantizers, lut, sums, block, high, m)
    ensures PermuteLanes(SEQUENTIAL_ORDER, sums)[i]
         == RowSum(add, zero, packed, subquantizers, lut, RestoredRow(block, high, i), m)
  {
    PermutedLane(sums, i);
    RestoredLane(block, high, i);
    assert sums[LanePosition(i)]
        == RowSum(add, zero, packed, subquantizers, lut, LaneRow(block, high, LanePosition(i)), m);
  }

  lemma RestoreTile<F>(add: (F, F) -> F, zero: F, packed: seq<Byte>, subquantizers: nat, lut: seq<F>,
                       low: seq<F>, high: seq<F>, block: nat, m: nat)
    requires m * 16 <= |lut|
    requires Lanes(add, zero, packed, subquantizers, lut, low, block, false, m)
    requires Lanes(add, zero, packed, subquantizers, lut, high, block, true, m)
    ensures var output := PermuteLanes(SEQUENTIAL_ORDER, low) + PermuteLanes(SEQUENTIAL_ORDER, high);
      |output| == 32 && forall i :: 0 <= i < 32 ==>
        output[i] == RowSum(add, zero, packed, subquantizers, lut, block * 32 + i, m)
  {
    var output := PermuteLanes(SEQUENTIAL_ORDER, low) + PermuteLanes(SEQUENTIAL_ORDER, high);
    forall i | 0 <= i < 32
      ensures output[i] == RowSum(add, zero, packed, subquantizers, lut, block * 32 + i, m)
    {
      if i < 16 {
        Restore(add, zero, packed, subquantizers, lut, low, block, false, m, i);
      } else {
        Restore(add, zero, packed, subquantizers, lut, high, block, true, m, i - 16);
      }
    }
  }

  lemma PairBytes(subquantizers: nat, block: nat, m: nat, size: nat)
    requires m % 2 == 0 && m + 1 < subquantizers && subquantizers % 2 == 0
    requires block * BlockStride(subquantizers) + BlockStride(subquantizers) <= size
    ensures block * BlockStride(subquantizers) + m / 2 * 32 == RowBytes(block, subquantizers, m)
    ensures RowBytes(block, subquantizers, m) + 16 == RowBytes(block, subquantizers, m + 1)
    ensures RowBytes(block, subquantizers, m + 1) + 16 <= size
  {
  }

  /** One lookup row into one register. */
  method AccumulateRow<F>(add: (F, F) -> F, ghost zero: F, ghost block: nat, ghost subquantizers: nat,
                          packed: seq<Byte>, lut: seq<F>, m: nat, at: nat, high: bool, sums: seq<F>)
    returns (next: seq<F>)
    requires (m + 1) * 16 <= |lut| && at + 16 <= |packed| && at == RowBytes(block, subquantizers, m)
    requires Lanes(add, zero, packed, subquantizers, lut, sums, block, high, m)
    ensures Lanes(add, zero, packed, subquantizers, lut, next, block, high, m + 1)
  {
    RowStep(add, zero, packed, subquantizers, lut, sums, block, high, m);
    next := AddRow(add, sums, LaneCodes(packed[at..at + 16], high), lut[m * 16..m * 16 + 16]);
  }

  /** Two lookup rows into both registers. */
  method AccumulatePair<F>(add: (F, F) -> F, ghost zero: F, ghost block: nat, ghost subquantizers: nat,
                           packed: seq<Byte>, lut: seq<F>, m: nat, pair: nat, low0: seq<F>, high0: seq<F>)
    returns (low: seq<F>, high: seq<F>)
    requires (m + 2) * 16 <= |lut| && pair + 32 <= |packed|
    requires pair == RowBytes(block, subquantizers, m) && pair + 16 == RowBytes(block, subquantizers, m + 1)
    requires Lanes(add, zero, packed, subquantizers, lut, low0, block, false, m)
    requires Lanes(add, zero, packed, subquantizers, lut, high0, block, true, m)
    ensures Lanes(add, zero, packed, subquantizers, lut, low, block, false, m + 2)
    ensures Lanes(add, zero, packed, subquantizers, lut, high, block, true, m + 2)
  {
    low := AccumulateRow(add, zero, block, subquantizers, packed, lut, m, pair, false, low0);
    low := AccumulateRow(add, zero, block, subquantizers, packed, lut, m + 1, pair + 16, false, low);
    high := AccumulateRow(add, zero, block, subquantizers, packed, lut, m, pair, true, high0);
    high := AccumulateRow(add, zero, block, subquantizers, packed, lut, m + 1, pair + 16, true, high);
  }

  /** One 32-row tile in two registers. */
  method AccumulateTile<F>(add: (F, F) -> F, zero: F, block: nat, subquantizers: nat, packed: seq<Byte>, lut: seq<F>)
    returns (output: seq<F>)
    requires subquantizers % 2 == 0 && |lut| == subquantizers * 16
    requires block * BlockStride(subquantizers) + BlockStride(subquantizers) <= |packed|
    ensures |output| == 32 && forall i :: 0 <= i < 32 ==>
      output[i] == RowSum(add, zero, packed, subquantizers, lut, block * 32 + i, subquantizers)
  {
    var tile := block * BlockStride(subquantizers);
    var lowSums, highSums := seq(16, _ => zero), seq(16, _ => zero);
    var m := 0;
    while m < subquantizers
      invariant m <= subquantizers && m % 2 == 0
      invariant Lanes(add, zero, packed, subquantizers, lut, lowSums, block, false, m)
      invariant Lanes(add, zero, packed, subquantizers, lut, highSums, block, true, m)
    {
      var pair := tile + m / 2 * 32;
      PairBytes(subquantizers, block, m, |packed|);
      lowSums, highSums := AccumulatePair(add, zero, block, subquantizers, packed, lut, m, pair, lowSums, highSums);
      m := m + 2;
    }
    output := PermuteLanes(SEQUENTIAL_ORDER, lowSums) + PermuteLanes(SEQUENTIAL_ORDER, highSums);
    RestoreTile(add, zero, packed, subquantizers, lut, lowSums, highSums, block, subquantizers);
  }

  /** The register kernel gives every row, padding rows included, the value of the scalar reference for blocks of 32. */
  method AccumulateRegisters<F>(add: (F, F) -> F, zero: F, paddedSize: nat, blockSize: nat, subquantizers: nat,
                                packed: seq<Byte>, lut: seq<F>) returns (r: Result<seq<F>>)
    requires |lut| == subquantizers * 16
    requires subquantizers % 2 == 0 && paddedSize % 32 == 0 ==> |packed| == paddedSize / 32 * BlockStride(subquantizers)
    ensures r.Ok? <==> blockSize == 32 && paddedSize % 32 == 0 && subquantizers != 0 && subquantizers % 2 == 0
    ensures r.Err? ==> r.error == InvalidArgument
    ensures r.Ok? ==> |r.value| == paddedSize && forall i :: 0 <= i < paddedSize ==>
      r.value[i] == AccessedSum(add, zero, Element32(packed, subquantizers), lut, i, subquantizers)
  {
    if blockSize != 32 || paddedSize % 32 != 0 || subquantizers == 0 || subquantizers % 2 != 0 {
      return Err(InvalidArgument);
    }
    var output := AccumulateTiles(add, zero, paddedSize / 32, subquantizers, packed, lut);
    forall i | 0 <= i < paddedSize
      ensures output[i] == AccessedSum(add, zero, Element32(packed, subquantizers), lut, i, subquantizers)
    {
      AccessedSum32(add, zero, packed, subquantizers, lut, i, subquantizers);
    }
    return Ok(output);
  }

  method AccumulateTiles<F>(add: (F, F) -> F, zero: F, blocks: nat, subquantizers: nat, packed: seq<Byte>, lut: seq<F>)
    returns (output: seq<F>)
    requires |lut| == subquantizers * 16 && subquantizers % 2 == 0 && |packed| == blocks * BlockStride(subquantizers)
    ensures |output| == blocks * 32 && forall i :: 0 <= i < blocks * 32 ==>
      output[i] == RowSum(add, zero, packed, subquantizers, lut, i, subquantizers)
  {
    output := [];
    for block := 0 to blocks
      invariant |output| == block * 32
      invariant forall i :: 0 <= i < block * 32 ==>
        output[i] == RowSum(add, zero, packed, subquantizers, lut, i, subquantizers)
    {
      MulMonotone(block + 1, blocks, BlockStride(subquantizers));
      assert (block + 1) * BlockStride(subquantizers) == block * BlockStride(subquantizers) + BlockStride(subquantizers);
      var tile := AccumulateTile(add, zero, block, subquantizers, packed, lut);
      forall i | block * 32 <= i < block * 32 + 32
        ensures (output + tile)[i] == RowSum(add, zero, packed, subquantizers, lut, i, subquantizers)
      {
        assert (output + tile)[i] == tile[i - block * 32];
      }
      output := output + tile;
    }
  }
}
