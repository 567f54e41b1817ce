/**
 The bbs=32 layout of packed PQ4 codes: 32 rows a tile, 32 bytes for every pair of subquantizers,
 rows 0..15 in the low nibbles and rows 16..31 in the high nibbles, lanes permuted 0, 8, 1, 9, ...
 */
module Pq4Layout {
  import opened Arithmetic

  type Byte = bv8

  /** Where row `lane` (of 16) sits within the 16 bytes of one subquantizer. */
  function LanePosition(lane: nat): (p: nat)
    requires lane < 16
    ensures p < 16
  {
    if lane < 8 then 2 * lane else 2 * (lane - 8) + 1
  }

  /** The row at a byte position: the inverse permutation. */
  function PositionLane(p: nat): (lane: nat)
    requires p < 16
    ensures lane < 16
  {
    if p % 2 == 0 then p / 2 else 8 + p / 2
  }

  lemma LanePositionInverse(lane: nat)
    requires lane < 16
    ensures PositionLane(LanePosition(lane)) == lane
    ensures LanePosition(PositionLane(lane)) == lane
  {
  }

  function BlockStride(subquantizers: nat): nat {
    subquantizers / 2 * 32
  }

  /** The byte within the tile. */
  function Offset(row: nat, m: nat): (o: nat)
    ensures o == m * 16 + LanePosition(row % 16)
  {
    m / 2 * 32 + m % 2 * 16 + LanePosition(row % 16)
  }

  /** The byte of (row, subquantizer). */
  function Address(subquantizers: nat, row: nat, m: nat): nat {
    row / 32 * BlockStride(subquantizers) + Offset(row, m)
  }

  /** Rows 16..31 of a tile live in the high nibble. */
  predicate HighHalf(row: nat) {
    row % 32 >= 16
  }

  function Nibble(b: Byte, high: bool): Byte {
    if high then b >> 4 else b & 0x0f
  }

  function SetNibble(b: Byte, high: bool, v: Byte): Byte {
    if high then (b & 0x0f) | (v << 4) else (b & 0xf0) | (v & 0x0f)
  }

  lemma AddressInBlock(subquantizers: nat, row: nat, m: nat, blocks: nat)
    requires subquantizers % 2 == 0 && m < subquantizers && row / 32 < blocks
    ensures Address(subquantizers, row, m) < blocks * BlockStride(subquantizers)
    ensures Offset(row, m) < BlockStride(subquantizers)
  {
    var s := BlockStride(subquantizers);
    assert (row / 32 + 1) * s <= blocks * s by { MulMonotone(row / 32 + 1, blocks, s); }
  }

  /** One nibble has one (row, subquantizer). */
  lemma AddressInjective(subquantizers: nat, row: nat, m: nat, row': nat, m': nat)
    requires subquantizers % 2 == 0 && m < subquantizers && m' < subquantizers
    requires Address(subquantizers, row, m) == Address(subquantizers, row', m')
    requires HighHalf(row) == HighHalf(row')
    ensures row == row' && m == m'
  {
    AddressInBlock(subquantizers, row, m, row / 32 + 1);
    AddressInBlock(subquantizers, row', m', row' / 32 + 1);
    QuotientUnique(BlockStride(subquantizers), row / 32, Offset(row, m), row' / 32, Offset(row', m'));
    QuotientUnique(16, m, LanePosition(row % 16), m', LanePosition(row' % 16));
    LanePositionInverse(row % 16);
    LanePositionInverse(row' % 16);
    RowParts(row);
    RowParts(row');
  }

  lemma RowParts(row: nat)
    ensures row == row / 32 * 32 + (if HighHalf(row) then 16 else 0) + row % 16
  {
  }

  /** `packed` holds whole tiles. */
  ghost predicate Tiles(packed: seq<Byte>, subquantizers: nat, blocks: nat) {
    subquantizers > 0 && subquantizers % 2 == 0 && |packed| == blocks * BlockStride(subquantizers)
  }

  /** Faiss's accessor for one element of a packed buffer; beyond the buffer it is given as 0. */
  function Element(packed: seq<Byte>, subquantizers: nat, row: nat, m: nat): Byte {
    if Address(subquantizers, row, m) < |packed|
    then Nibble(packed[Address(subquantizers, row, m)], HighHalf(row)) else 0
  }

  /** The element as a centroid number. */
  function Code(packed: seq<Byte>, subquantizers: nat, row: nat, m: nat): (c: nat)
    ensures c < 16
  {
    ElementRange(packed, subquantizers, row, m);
    Element(packed, subquantizers, row, m) as nat
  }

  lemma ElementRange(packed: seq<Byte>, subquantizers: nat, row: nat, m: nat)
    ensures Element(packed, subquantizers, row, m) < 16
    ensures (Element(packed, subquantizers, row, m) as nat) < 16
  {
    if Address(subquantizers, row, m) < |packed| {
      NibbleRange(packed[Address(subquantizers, row, m)]);
    }
  }

  lemma NibbleRange(b: Byte)
    ensures Nibble(b, false) < 16 && Nibble(b, true) < 16
  {
  }

  lemma SetLow(b: Byte, v: Byte)
    requires v < 16
    ensures Nibble(SetNibble(b, false, v), false) == v && Nibble(SetNibble(b, false, v), true) == Nibble(b, true)
  {
  }

  lemma SetHigh(b: Byte, v: Byte)
    requires v < 16
    ensures Nibble(SetNibble(b, true, v), true) == v && Nibble(SetNibble(b, true, v), false) == Nibble(b, false)
  {
  }

  /** OR-ing into an empty nibble writes it. */
  lemma OrIntoEmpty(b: Byte, high: bool, v: Byte)
    requires v < 16 && Nibble(b, high) == 0
    ensures b | (if high then v << 4 else v) == SetNibble(b, high, v)
  {
  }
}
