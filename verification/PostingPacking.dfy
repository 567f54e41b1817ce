/** Appending to, unpacking and rewriting packed posting tiles (adapters/pq4_update_packing.cpp). */
module PostingPacking {
  import opened Arithmetic
  import opened Pq4Layout
  import opened Outcomes

  /** Nibble `m` of a flat code: byte m/2 holds even groups low and odd groups high. */
  function FlatNibble(flat: seq<Byte>, m: nat): Byte {
    if m / 2 < |flat| then Nibble(flat[m / 2], m % 2 == 1) else 0
  }

  function JoinNibbles(low: Byte, high: Byte): Byte {
    low | (high << 4)
  }

  lemma JoinSplit(low: Byte, high: Byte)
    requires low < 16 && high < 16
    ensures Nibble(JoinNibbles(low, high), false) == low && Nibble(JoinNibbles(low, high), true) == high
  {
  }

  lemma SplitJoin(b: Byte)
    ensures JoinNibbles(Nibble(b, false), Nibble(b, true)) == b
  {
  }

  /** A row of a packed buffer as its flat code. */
  function UnpackRow(packed: seq<Byte>, subquantizers: nat, row: nat): (flat: seq<Byte>)
    ensures |flat| == subquantizers / 2
  {
    seq(subquantizers / 2, k requires 0 <= k =>
      JoinNibbles(Element(packed, subquantizers, row, 2 * k), Element(packed, subquantizers, row, 2 * k + 1)))
  }

  ghost predicate RowIs(packed: seq<Byte>, subquantizers: nat, row: nat, flat: seq<Byte>) {
    forall m :: 0 <= m < subquantizers ==> Element(packed, subquantizers, row, m) == FlatNibble(flat, m)
  }

  ghost predicate SameRow(packed: seq<Byte>, packed': seq<Byte>, subquantizers: nat, row: nat) {
    forall m :: 0 <= m < subquantizers ==>
      Element(packed, subquantizers, row, m) == Element(packed', subquantizers, row, m)
  }

  lemma UnpackedNibble(packed: seq<Byte>, subquantizers: nat, row: nat, m: nat)
    requires m < subquantizers && subquantizers % 2 == 0
    ensures FlatNibble(UnpackRow(packed, subquantizers, row), m) == Element(packed, subquantizers, row, m)
  {
    var k := m / 2;
    ElementRange(packed, subquantizers, row, 2 * k);
    ElementRange(packed, subquantizers, row, 2 * k + 1);
    JoinSplit(Element(packed, subquantizers, row, 2 * k), Element(packed, subquantizers, row, 2 * k + 1));
    assert UnpackRow(packed, subquantizers, row)[k]
        == JoinNibbles(Element(packed, subquantizers, row, 2 * k), Element(packed, subquantizers, row, 2 * k + 1));
  }

  /** The nibbles of a row determine its flat code. */
  lemma RowIsUnpacked(packed: seq<Byte>, subquantizers: nat, row: nat, flat: seq<Byte>)
    requires |flat| == subquantizers / 2 && RowIs(packed, subquantizers, row, flat)
    ensures UnpackRow(packed, subquantizers, row) == flat
  {
    forall k | 0 <= k < |flat| ensures UnpackRow(packed, subquantizers, row)[k] == flat[k] {
      var low, high := 2 * k, 2 * k + 1;
      assert Element(packed, subquantizers, row, low) == FlatNibble(flat, low);
      assert Element(packed, subquantizers, row, high) == FlatNibble(flat, high);
      FlatNibblePair(flat, k);
    }
  }

  lemma FlatNibblePair(flat: seq<Byte>, k: nat)
    requires k < |flat|
    ensures JoinNibbles(FlatNibble(flat, 2 * k), FlatNibble(flat, 2 * k + 1)) == flat[k]
  {
    assert 2 * k / 2 == k && (2 * k + 1) / 2 == k && 2 * k % 2 == 0 && (2 * k + 1) % 2 == 1;
    SplitJoin(flat[k]);
  }

  lemma SameRowUnpacked(packed: seq<Byte>, packed': seq<Byte>, subquantizers: nat, row: nat)
    requires SameRow(packed, packed', subquantizers, row)
    ensures UnpackRow(packed, subquantizers, row) == UnpackRow(packed', subquantizers, row)
  {
    forall k | 0 <= k < subquantizers / 2
      ensures UnpackRow(packed, subquantizers, row)[k] == UnpackRow(packed', subquantizers, row)[k]
    {
      assert Element(packed, subquantizers, row, 2 * k) == Element(packed', subquantizers, row, 2 * k);
      assert Element(packed, subquantizers, row, 2 * k + 1) == Element(packed', subquantizers, row, 2 * k + 1);
    }
  }

  // ---------------------------------------------------------------- single elements

  /** Overwriting one element, as Faiss's setter does. */
  function SetElement(packed: seq<Byte>, subquantizers: nat, row: nat, m: nat, v: Byte): (r: seq<Byte>)
    requires Address(subquantizers, row, m) < |packed|
    ensures |r| == |packed|
  {
    var at := Address(subquantizers, row, m);
    packed[at := SetNibble(packed[at], HighHalf(row), v)]
  }

  /** OR-ing one element in, as Faiss's range packer does. */
  function OrElement(packed: seq<Byte>, subquantizers: nat, row: nat, m: nat, v: Byte): (r: seq<Byte>)
    requires Address(subquantizers, row, m) < |packed|
    ensures |r| == |packed|
  {
    var at := Address(subquantizers, row, m);
    packed[at := packed[at] | (if HighHalf(row) then v << 4 else v)]
  }

  lemma SetNibbleHalves(b: Byte, high: bool, v: Byte)
    requires v < 16
    ensures Nibble(SetNibble(b, high, v), high) == v
    ensures Nibble(SetNibble(b, high, v), !high) == Nibble(b, !high)
  {
    if high { SetHigh(b, v); } else { SetLow(b, v); }
  }

  lemma SetElementHere(packed: seq<Byte>, subquantizers: nat, row: nat, m: nat, v: Byte)
    requires Address(subquantizers, row, m) < |packed| && v < 16
    ensures Element(SetElement(packed, subquantizers, row, m, v), subquantizers, row, m) == v
  {
    SetNibbleHalves(packed[Address(subquantizers, row, m)], HighHalf(row), v);
  }

  lemma SetElementElsewhere(packed: seq<Byte>, subquantizers: nat, row: nat, m: nat, v: Byte, row': nat, m': nat)
    requires Address(subquantizers, row, m) < |packed| && v < 16
    requires subquantizers % 2 == 0 && m < subquantizers && m' < subquantizers
    requires row != row' || m != m'
    ensures Element(SetElement(packed, subquantizers, row, m, v), subquantizers, row', m')
         == Element(packed, subquantizers, row', m')
  {
    if Address(subquantizers, row, m) == Address(subquantizers, row', m') {
      if HighHalf(row) == HighHalf(row') {
        AddressInjective(subquantizers, row, m, row', m');
        assert false;
      }
      SetNibbleHalves(packed[Address(subquantizers, row, m)], HighHalf(row), v);
    }
  }

  /** Into an empty lane, OR-ing is overwriting. */
  lemma OrElementIsSet(packed: seq<Byte>, subquantizers: nat, row: nat, m: nat, v: Byte)
    requires Address(subquantizers, row, m) < |packed| && v < 16
    requires Element(packed, subquantizers, row, m) == 0
    ensures OrElement(packed, subquantizers, row, m, v) == SetElement(packed, subquantizers, row, m, v)
  {
    OrIntoEmpty(packed[Address(subquantizers, row, m)], HighHalf(row), v);
  }

  // ---------------------------------------------------------------- rows

  ghost predicate RowEmpty(packed: seq<Byte>, subquantizers: nat, row: nat) {
    forall m :: 0 <= m < subquantizers ==> Element(packed, subquantizers, row, m) == 0
  }

  /** Nibbles [0, m) of the row are written, the others and all other rows are as before. */
  ghost predicate RowProgress(before: seq<Byte>, after: seq<Byte>, subquantizers: nat, row: nat, flat: seq<Byte>, m: nat) {
    && |after| == |before|
    && (forall row': nat, m': nat :: m' < subquantizers && (row' != row || m <= m') ==>
          Element(after, subquantizers, row', m') == Element(before, subquantizers, row', m'))
    && (forall m' :: 0 <= m' < m ==> Element(after, subquantizers, row, m') == FlatNibble(flat, m'))
  }

  lemma RowProgressStep(before: seq<Byte>, after: seq<Byte>, subquantizers: nat, row: nat, flat: seq<Byte>, m: nat)
    requires RowProgress(before, after, subquantizers, row, flat, m)
    requires m < subquantizers && subquantizers % 2 == 0 && Address(subquantizers, row, m) < |before|
    ensures FlatNibble(flat, m) < 16
    ensures RowProgress(before, SetElement(after, subquantizers, row, m, FlatNibble(flat, m)), subquantizers, row, flat, m + 1)
  {
    FlatNibbleRange(flat, m);
    var v := FlatNibble(flat, m);
    var next := SetElement(after, subquantizers, row, m, v);
    SetElementHere(after, subquantizers, row, m, v);
    forall row': nat, m': nat | m' < subquantizers && (row' != row || m' != m)
      ensures Element(next, subquantizers, row', m') == Element(after, subquantizers, row', m')
    {
      SetElementElsewhere(after, subquantizers, row, m, v, row', m');
    }
  }

  lemma FlatNibbleRange(flat: seq<Byte>, m: nat)
    ensures FlatNibble(flat, m) < 16
  {
    if m / 2 < |flat| { NibbleRange(flat[m / 2]); }
  }

  /** All rows but those in [begin, end) are as before. */
  ghost predicate OtherRowsSame(packed: seq<Byte>, packed': seq<Byte>, subquantizers: nat, begin: nat, end: nat) {
    forall row: nat :: row < begin || end <= row ==> SameRow(packed, packed', subquantizers, row)
  }

  /** One row of Faiss's block packer: every nibble overwritten. */
  method SetRow(packed: seq<Byte>, subquantizers: nat, row: nat, flat: seq<Byte>) returns (r: seq<Byte>)
    requires subquantizers % 2 == 0
    requires forall m :: 0 <= m < subquantizers ==> Address(subquantizers, row, m) < |packed|
    ensures |r| == |packed| && RowIs(r, subquantizers, row, flat)
    ensures OtherRowsSame(packed, r, subquantizers, row, row + 1)
  {
    r := packed;
    for m := 0 to subquantizers
      invariant RowProgress(packed, r, subquantizers, row, flat, m)
    {
      RowProgressStep(packed, r, subquantizers, row, flat, m);
      r := SetElement(r, subquantizers, row, m, FlatNibble(flat, m));
    }
  }

  /** One row of Faiss's range packer: every nibble OR-ed into a lane that is empty. */
  method OrRow(packed: seq<Byte>, subquantizers: nat, row: nat, flat: seq<Byte>) returns (r: seq<Byte>)
    requires subquantizers % 2 == 0 && RowEmpty(packed, subquantizers, row)
    requires forall m :: 0 <= m < subquantizers ==> Address(subquantizers, row, m) < |packed|
    ensures |r| == |packed| && RowIs(r, subquantizers, row, flat)
    ensures OtherRowsSame(packed, r, subquantizers, row, row + 1)
  {
    r := packed;
    for m := 0 to subquantizers
      invariant RowProgress(packed, r, subquantizers, row, flat, m)
    {
      RowProgressStep(packed, r, subquantizers, row, flat, m);
      OrElementIsSet(r, subquantizers, row, m, FlatNibble(flat, m));
      r := OrElement(r, subquantizers, row, m, FlatNibble(flat, m));
    }
  }

  // ---------------------------------------------------------------- code ranges

  lemma RowFits(packed: seq<Byte>, subquantizers: nat, blocks: nat, row: nat, m: nat)
    requires subquantizers % 2 == 0 && m < subquantizers && row < blocks * 32
    requires blocks * BlockStride(subquantizers) <= |packed|
    ensures Address(subquantizers, row, m) < |packed|
  {
    AddressInBlock(subquantizers, row, m, blocks);
  }

  function BlocksFor(rows: nat): nat {
    (rows + 31) / 32
  }

  ghost predicate Appendable(packed: seq<Byte>, subquantizers: nat, begin: nat, end: nat) {
    && BlocksFor(end) * BlockStride(subquantizers) <= |packed|
    && forall row :: begin <= row < end ==> RowEmpty(packed, subquantizers, row)
  }

  /** The destination rows of an append must read zero; anything else is refused before the first write. */
  method ValidateEmptyCodes(subquantizers: nat, begin: nat, end: nat, packed: seq<Byte>) returns (r: Result<()>)
    ensures r.Ok? <==>
      && subquantizers != 0 && subquantizers % 2 == 0 && begin <= end
      && (begin < end ==> Appendable(packed, subquantizers, begin, end))
    ensures r.Err? ==> r.error == InvalidArgument || r.error == LogicError
  {
    if subquantizers == 0 || subquantizers % 2 != 0 || begin > end {
      return Err(InvalidArgument);
    }
    if begin == end {
      return Ok(());
    }
    if |packed| < BlocksFor(end) * BlockStride(subquantizers) {
      return Err(InvalidArgument);
    }
    for row := begin to end
      invariant forall i :: begin <= i < row ==> RowEmpty(packed, subquantizers, i)
    {
      for m := 0 to subquantizers
        invariant forall k :: 0 <= k < m ==> Element(packed, subquantizers, row, k) == 0
      {
        if Element(packed, subquantizers, row, m) != 0 {
          assert !RowEmpty(packed, subquantizers, row);
          return Err(LogicError);
        }
      }
    }
    return Ok(());
  }

  /**
   The element in its byte: 16 bytes a subquantizer in every tile of 32 rows, rows in the order 0, 8, 1, 9, .., 7, 15,
   the first sixteen rows in the low halves and the others in the high ones.
   */
  ghost predicate ElementIs(packed: seq<Byte>, subquantizers: nat, row: nat, m: nat, v: Byte) {
    var lane := if row % 16 < 8 then 2 * (row % 16) else 2 * (row % 16) - 15;
    var at := row / 32 * (subquantizers * 16) + m * 16 + lane;
    at < |packed| && (if row % 32 < 16 then packed[at] & 0x0f else packed[at] >> 4) == v
  }

  /** The packed row holds the flat code: even subquantizers in the low halves of its bytes, odd ones in the high halves. */
  ghost predicate PacksRow(packed: seq<Byte>, subquantizers: nat, row: nat, flat: seq<Byte>) {
    subquantizers == 2 * |flat| && forall m: nat :: m < subquantizers ==>
      ElementIs(packed, subquantizers, row, m, if m % 2 == 0 then flat[m / 2] & 0x0f else flat[m / 2] >> 4)
  }

  lemma ElementPlaced(packed: seq<Byte>, subquantizers: nat, row: nat, m: nat)
    requires subquantizers % 2 == 0 && Address(subquantizers, row, m) < |packed|
    ensures ElementIs(packed, subquantizers, row, m, Element(packed, subquantizers, row, m))
  {
    assert BlockStride(subquantizers) == subquantizers * 16;
  }

  lemma RowPlaced(packed: seq<Byte>, subquantizers: nat, blocks: nat, row: nat, flat: seq<Byte>)
    requires subquantizers == 2 * |flat| && row < blocks * 32 && blocks * BlockStride(subquantizers) <= |packed|
    requires UnpackRow(packed, subquantizers, row) == flat
    ensures PacksRow(packed, subquantizers, row, flat)
  {
    forall m: nat | m < subquantizers
      ensures ElementIs(packed, subquantizers, row, m, if m % 2 == 0 then flat[m / 2] & 0x0f else flat[m / 2] >> 4)
    {
      RowFits(packed, subquantizers, blocks, row, m);
      ElementPlaced(packed, subquantizers, row, m);
      UnpackedNibble(packed, subquantizers, row, m);
    }
  }

  /** Appending flat codes: the new rows read back as given, every other row is unchanged. */
  method AppendFlatCodes(flat: seq<seq<Byte>>, subquantizers: nat, begin: nat, packed: seq<Byte>)
    returns (r: Result<seq<Byte>>)
    requires forall i :: 0 <= i < |flat| ==> |flat[i]| == subquantizers / 2
    ensures subquantizers != 0 && subquantizers % 2 == 0 ==>
      (r.Ok? <==> (flat == [] || Appendable(packed, subquantizers, begin, begin + |flat|)))
    ensures r.Ok? ==> |r.value| == |packed|
    ensures r.Ok? ==> forall i :: 0 <= i < |flat| ==> UnpackRow(r.value, subquantizers, begin + i) == flat[i]
    ensures r.Ok? ==> forall i :: 0 <= i < |flat| ==> PacksRow(r.value, subquantizers, begin + i, flat[i])
    ensures r.Ok? ==> OtherRowsSame(packed, r.value, subquantizers, begin, begin + |flat|)
  {
    if subquantizers == 0 || subquantizers % 2 != 0 {
      return Err(InvalidArgument);
    }
    if |flat| == 0 {
      return Ok(packed);
    }
    var valid := ValidateEmptyCodes(subquantizers, begin, begin + |flat|, packed);
    if valid.Err? {
      return Err(valid.error);
    }
    var output := AppendRows(flat, subquantizers, begin, packed);
    forall i | 0 <= i < |flat| ensures PacksRow(output, subquantizers, begin + i, flat[i]) {
      RowPlaced(output, subquantizers, BlocksFor(begin + |flat|), begin + i, flat[i]);
    }
    return Ok(output);
  }

  /** The rows of an append, OR-ed into lanes that were found empty. */
  method AppendRows(flat: seq<seq<Byte>>, subquantizers: nat, begin: nat, packed: seq<Byte>) returns (output: seq<Byte>)
    requires subquantizers % 2 == 0 && Appendable(packed, subquantizers, begin, begin + |flat|)
    requires forall i :: 0 <= i < |flat| ==> |flat[i]| == subquantizers / 2
    ensures |output| == |packed| && OtherRowsSame(packed, output, subquantizers, begin, begin + |flat|)
    ensures forall i :: 0 <= i < |flat| ==> UnpackRow(output, subquantizers, begin + i) == flat[i]
  {
    output := packed;
    for i := 0 to |flat|
      invariant |output| == |packed| && RowsAre(output, subquantizers, begin, flat, i)
      invariant OtherRowsSame(packed, output, subquantizers, begin, begin + i)
    {
      output := AppendRow(flat, subquantizers, begin, packed, i, output);
    }
    RowsUnpacked(output, subquantizers, begin, flat);
  }

  method AppendRow(flat: seq<seq<Byte>>, subquantizers: nat, begin: nat, ghost packed: seq<Byte>, i: nat, before: seq<Byte>)
    returns (output: seq<Byte>)
    requires subquantizers % 2 == 0 && Appendable(packed, subquantizers, begin, begin + |flat|) && i < |flat|
    requires |before| == |packed| && RowsAre(before, subquantizers, begin, flat, i)
    requires OtherRowsSame(packed, before, subquantizers, begin, begin + i)
    ensures |output| == |packed| && RowsAre(output, subquantizers, begin, flat, i + 1)
    ensures OtherRowsSame(packed, output, subquantizers, begin, begin + i + 1)
  {
    var row := begin + i;
    RowHasSpace(before, subquantizers, begin + |flat|, row);
    EmptyStays(packed, before, subquantizers, row);
    output := OrRow(before, subquantizers, row, flat[i]);
    RowsNext(before, output, subquantizers, begin, flat, i);
    OthersCompose(packed, before, output, subquantizers, begin, row);
  }

  /** The first `n` appended rows are in place. */
  ghost predicate RowsAre(packed: seq<Byte>, subquantizers: nat, begin: nat, flat: seq<seq<Byte>>, n: nat)
    requires n <= |flat|
  {
    forall j :: 0 <= j < n ==> RowIs(packed, subquantizers, begin + j, flat[j])
  }

  lemma RowsNext(before: seq<Byte>, after: seq<Byte>, subquantizers: nat, begin: nat, flat: seq<seq<Byte>>, i: nat)
    requires i < |flat| && RowsAre(before, subquantizers, begin, flat, i)
    requires RowIs(after, subquantizers, begin + i, flat[i])
    requires OtherRowsSame(before, after, subquantizers, begin + i, begin + i + 1)
    ensures RowsAre(after, subquantizers, begin, flat, i + 1)
  {
    forall j | 0 <= j < i ensures RowIs(after, subquantizers, begin + j, flat[j]) {
      RowStays(before, after, subquantizers, begin + j, flat[j]);
    }
  }

  lemma RowsUnpacked(packed: seq<Byte>, subquantizers: nat, begin: nat, flat: seq<seq<Byte>>)
    requires RowsAre(packed, subquantizers, begin, flat, |flat|)
    requires forall i :: 0 <= i < |flat| ==> |flat[i]| == subquantizers / 2
    ensures forall i :: 0 <= i < |flat| ==> UnpackRow(packed, subquantizers, begin + i) == flat[i]
  {
    forall i | 0 <= i < |flat| ensures UnpackRow(packed, subquantizers, begin + i) == flat[i] {
      RowIsUnpacked(packed, subquantizers, begin + i, flat[i]);
    }
  }

  lemma RowHasSpace(packed: seq<Byte>, subquantizers: nat, end: nat, row: nat)
    requires subquantizers % 2 == 0 && row < end && BlocksFor(end) * BlockStride(subquantizers) <= |packed|
    ensures forall m :: 0 <= m < subquantizers ==> Address(subquantizers, row, m) < |packed|
  {
    forall m | 0 <= m < subquantizers ensures Address(subquantizers, row, m) < |packed| {
      RowFits(packed, subquantizers, BlocksFor(end), row, m);
    }
  }

  lemma EmptyStays(packed: seq<Byte>, packed': seq<Byte>, subquantizers: nat, row: nat)
    requires SameRow(packed, packed', subquantizers, row) && RowEmpty(packed, subquantizers, row)
    ensures RowEmpty(packed', subquantizers, row)
  {
  }

  lemma RowStays(packed: seq<Byte>, packed': seq<Byte>, subquantizers: nat, row: nat, flat: seq<Byte>)
    requires SameRow(packed, packed', subquantizers, row) && RowIs(packed, subquantizers, row, flat)
    ensures RowIs(packed', subquantizers, row, flat)
  {
  }

  lemma OthersCompose(a: seq<Byte>, b: seq<Byte>, c: seq<Byte>, subquantizers: nat, begin: nat, row: nat)
    requires begin <= row
    requires OtherRowsSame(a, b, subquantizers, begin, row) && OtherRowsSame(b, c, subquantizers, row, row + 1)
    ensures OtherRowsSame(a, c, subquantizers, begin, row + 1)
  {
    forall r: nat | r < begin || row + 1 <= r ensures SameRow(a, c, subquantizers, r) {
      assert SameRow(a, b, subquantizers, r) && SameRow(b, c, subquantizers, r);
    }
  }

  // ---------------------------------------------------------------- whole tiles

  /** The 32 flat codes of one tile. */
  function UnpackBlock(tile: seq<Byte>, subquantizers: nat): (flat: seq<seq<Byte>>)
    ensures |flat| == 32
  {
    seq(32, row requires 0 <= row => UnpackRow(tile, subquantizers, row))
  }

  /** Rewriting a tile from 32 flat codes; unpacking it gives them back. */
  method RewriteBlock(flat: seq<seq<Byte>>, subquantizers: nat, tile: seq<Byte>) returns (r: seq<Byte>)
    requires subquantizers % 2 == 0 && |flat| == 32 && |tile| == BlockStride(subquantizers)
    requires forall i :: 0 <= i < 32 ==> |flat[i]| == subquantizers / 2
    ensures |r| == |tile| && UnpackBlock(r, subquantizers) == flat
    ensures forall i :: 0 <= i < 32 ==> PacksRow(r, subquantizers, i, flat[i])
  {
    r := tile;
    for i := 0 to 32
      invariant |r| == |tile|
      invariant forall j :: 0 <= j < i ==> RowIs(r, subquantizers, j, flat[j])
    {
      forall m | 0 <= m < subquantizers ensures Address(subquantizers, i, m) < |r| {
        RowFits(r, subquantizers, 1, i, m);
      }
      ghost var before := r;
      r := SetRow(r, subquantizers, i, flat[i]);
      forall j | 0 <= j < i ensures RowIs(r, subquantizers, j, flat[j]) {
        RowStays(before, r, subquantizers, j, flat[j]);
      }
    }
    forall i | 0 <= i < 32 ensures UnpackRow(r, subquantizers, i) == flat[i] && PacksRow(r, subquantizers, i, flat[i]) {
      RowIsUnpacked(r, subquantizers, i, flat[i]);
      RowPlaced(r, subquantizers, 1, i, flat[i]);
    }
  }

  lemma UnpackEqual(a: seq<Byte>, row: nat, b: seq<Byte>, row': nat, subquantizers: nat)
    requires forall m :: 0 <= m < subquantizers ==> Element(a, subquantizers, row, m) == Element(b, subquantizers, row', m)
    ensures UnpackRow(a, subquantizers, row) == UnpackRow(b, subquantizers, row')
  {
    forall k | 0 <= k < subquantizers / 2 ensures UnpackRow(a, subquantizers, row)[k] == UnpackRow(b, subquantizers, row')[k] {
      assert Element(a, subquantizers, row, 2 * k) == Element(b, subquantizers, row', 2 * k);
      assert Element(a, subquantizers, row, 2 * k + 1) == Element(b, subquantizers, row', 2 * k + 1);
    }
  }

  /** A row of a list is a row of one of its tiles. */
  lemma RowOfTile(packed: seq<Byte>, subquantizers: nat, block: nat, at: nat, row: nat, lane: nat, tile: seq<Byte>)
    requires subquantizers % 2 == 0 && lane < 32 && row == block * 32 + lane
    requires at == block * BlockStride(subquantizers) && at + BlockStride(subquantizers) <= |packed|
    requires tile == packed[at..at + BlockStride(subquantizers)]
    ensures UnpackRow(packed, subquantizers, row) == UnpackRow(tile, subquantizers, lane)
  {
    forall m | 0 <= m < subquantizers
      ensures Element(packed, subquantizers, row, m) == Element(tile, subquantizers, lane, m)
    {
      ElementOfTile(packed, subquantizers, block, at, lane, m);
    }
    UnpackEqual(packed, row, tile, lane, subquantizers);
  }

  lemma ElementOfTile(packed: seq<Byte>, subquantizers: nat, block: nat, at: nat, lane: nat, m: nat)
    requires subquantizers % 2 == 0 && lane < 32 && m < subquantizers
    requires at == block * BlockStride(subquantizers) && at + BlockStride(subquantizers) <= |packed|
    ensures Element(packed, subquantizers, block * 32 + lane, m)
         == Element(packed[at..at + BlockStride(subquantizers)], subquantizers, lane, m)
  {
    TileAddress(subquantizers, block, lane, m);
    AddressInBlock(subquantizers, lane, m, 1);
    assert packed[at..at + BlockStride(subquantizers)][Offset(lane, m)] == packed[at + Offset(lane, m)];
  }

  lemma TileAddress(subquantizers: nat, block: nat, lane: nat, m: nat)
    requires lane < 32
    ensures Address(subquantizers, block * 32 + lane, m) == block * BlockStride(subquantizers) + Offset(lane, m)
    ensures Address(subquantizers, lane, m) == Offset(lane, m)
    ensures HighHalf(block * 32 + lane) == HighHalf(lane)
  {
    TileRowParts(block, lane);
  }

  lemma TileRowParts(block: nat, lane: nat)
    requires lane < 32
    ensures (block * 32 + lane) / 32 == block && (block * 32 + lane) % 32 == lane && (block * 32 + lane) % 16 == lane % 16
  {
    QuotientOf(block, lane, 32);
    HalfParts(block, lane / 16, lane % 16, lane);
  }

  lemma HalfParts(block: nat, half: nat, rest: nat, lane: nat)
    requires lane == half * 16 + rest && rest < 16
    ensures (block * 32 + lane) % 16 == rest
  {
    assert block * 32 + lane == (2 * block + half) * 16 + rest;
    QuotientOf(2 * block + half, rest, 16);
  }

  // ---------------------------------------------------------------- metadata planes

  datatype Metadata = Metadata(norm: Byte, scale: Byte, error: Byte)

  const EMPTY_METADATA := Metadata(255, 255, 255)
  const METADATA_BLOCK: nat := 96

  /** The norm byte of a row; scale and error follow 32 and 64 bytes later. */
  function MetadataAddress(row: nat): nat {
    row / 32 * METADATA_BLOCK + row % 32
  }

  function ByteOr255(packed: seq<Byte>, at: nat): Byte {
    if at < |packed| then packed[at] else 255
  }

  function MetadataAt(packed: seq<Byte>, row: nat): Metadata {
    var at := MetadataAddress(row);
    Metadata(ByteOr255(packed, at), ByteOr255(packed, at + 32), ByteOr255(packed, at + 64))
  }

  function PutMetadata(packed: seq<Byte>, row: nat, m: Metadata): (r: seq<Byte>)
    requires MetadataAddress(row) + 64 < |packed|
    ensures |r| == |packed|
  {
    var at := MetadataAddress(row);
    packed[at := m.norm][at + 32 := m.scale][at + 64 := m.error]
  }

  /** The three planes of one row are disjoint from those of every other row. */
  lemma PutMetadataRows(packed: seq<Byte>, row: nat, m: Metadata, row': nat)
    requires MetadataAddress(row) + 64 < |packed|
    ensures MetadataAt(PutMetadata(packed, row, m), row') == if row' == row then m else MetadataAt(packed, row')
  {
    var a, a' := MetadataAddress(row), MetadataAddress(row');
    if row != row' {
      assert a != a' && a != a' + 32 && a != a' + 64 && a' != a + 32 && a' != a + 64;
    }
  }

  method ValidateEmptyMetadata(begin: nat, end: nat, packed: seq<Byte>) returns (r: Result<()>)
    ensures r.Ok? <==>
      && begin <= end
      && (begin < end ==> BlocksFor(end) * METADATA_BLOCK <= |packed|)
      && (forall row :: begin <= row < end ==> MetadataAt(packed, row) == EMPTY_METADATA)
    ensures r.Err? ==> r.error == InvalidArgument || r.error == LogicError
  {
    if begin > end {
      return Err(InvalidArgument);
    }
    if begin == end {
      return Ok(());
    }
    if |packed| < BlocksFor(end) * METADATA_BLOCK {
      return Err(InvalidArgument);
    }
    for row := begin to end
      invariant forall i :: begin <= i < row ==> MetadataAt(packed, i) == EMPTY_METADATA
    {
      if MetadataAt(packed, row) != EMPTY_METADATA {
        return Err(LogicError);
      }
    }
    return Ok(());
  }

  /** Writing a range of records: they read back as given, every other row is unchanged. */
  method WriteMetadataRange(metadata: seq<Metadata>, begin: nat, packed: seq<Byte>) returns (r: Result<seq<Byte>>)
    ensures r.Ok? <==> (metadata == [] || (
      && BlocksFor(begin + |metadata|) * METADATA_BLOCK <= |packed|
      && forall row :: begin <= row < begin + |metadata| ==> MetadataAt(packed, row) == EMPTY_METADATA))
    ensures r.Ok? ==> |r.value| == |packed|
    ensures r.Ok? ==> forall row: nat ::
      MetadataAt(r.value, row) == (if begin <= row < begin + |metadata| then metadata[row - begin] else MetadataAt(packed, row))
  {
    if |metadata| == 0 {
      return Ok(packed);
    }
    var valid := ValidateEmptyMetadata(begin, begin + |metadata|, packed);
    if valid.Err? {
      return Err(valid.error);
    }
    var output := packed;
    for i := 0 to |metadata|
      invariant |output| == |packed|
      invariant forall row: nat ::
        MetadataAt(output, row) == (if begin <= row < begin + i then metadata[row - begin] else MetadataAt(packed, row))
    {
      var at := begin + i;
      assert at / 32 < BlocksFor(begin + |metadata|);
      forall row: nat ensures MetadataAt(PutMetadata(output, at, metadata[i]), row)
        == if row == at then metadata[i] else MetadataAt(output, row)
      {
        PutMetadataRows(output, at, metadata[i], row);
      }
      output := PutMetadata(output, at, metadata[i]);
    }
    return Ok(output);
  }

  /** The three bytes of a row: 96 bytes a tile, with the norms first, then the scales, then the errors. */
  ghost predicate InPlanes(packed: seq<Byte>, row: nat, m: Metadata) {
    && row / 32 * 96 + row % 32 + 64 < |packed|
    && packed[row / 32 * 96 + row % 32] == m.norm
    && packed[row / 32 * 96 + 32 + row % 32] == m.scale
    && packed[row / 32 * 96 + 64 + row % 32] == m.error
  }

  lemma PlanesHold(packed: seq<Byte>, row: nat, m: Metadata, blocks: nat)
    requires |packed| == blocks * METADATA_BLOCK && row < blocks * 32 && MetadataAt(packed, row) == m
    ensures InPlanes(packed, row, m)
  {
    assert row / 32 < blocks;
  }

  /** Transposing records into planes; rows beyond them read 255. */
  method PackMetadata(metadata: seq<Metadata>, blocks: nat) returns (r: Result<seq<Byte>>)
    ensures r.Ok? <==> |metadata| <= blocks * 32
    ensures r.Ok? ==> |r.value| == blocks * METADATA_BLOCK
    ensures r.Ok? ==> forall row: nat ::
      MetadataAt(r.value, row) == if row < |metadata| then metadata[row] else EMPTY_METADATA
    ensures r.Ok? ==> forall row: nat :: row < blocks * 32 ==>
      InPlanes(r.value, row, if row < |metadata| then metadata[row] else Metadata(255, 255, 255))
  {
    if |metadata| > blocks * 32 {
      return Err(InvalidArgument);
    }
    var output: seq<Byte> := seq(blocks * METADATA_BLOCK, _ => 255);
    for i := 0 to |metadata|
      invariant |output| == blocks * METADATA_BLOCK
      invariant forall row: nat :: MetadataAt(output, row) == if row < i then metadata[row] else EMPTY_METADATA
    {
      assert i / 32 < blocks;
      forall row: nat ensures MetadataAt(PutMetadata(output, i, metadata[i]), row)
        == if row == i then metadata[i] else MetadataAt(output, row)
      {
        PutMetadataRows(output, i, metadata[i], row);
      }
      output := PutMetadata(output, i, metadata[i]);
    }
    forall row: nat | row < blocks * 32
      ensures InPlanes(output, row, if row < |metadata| then metadata[row] else Metadata(255, 255, 255))
    {
      PlanesHold(output, row, if row < |metadata| then metadata[row] else Metadata(255, 255, 255), blocks);
    }
    return Ok(output);
  }

  /** The 32 records of one tile. */
  function UnpackMetadataBlock(tile: seq<Byte>): (m: seq<Metadata>)
    ensures |m| == 32
  {
    seq(32, row requires 0 <= row => MetadataAt(tile, row))
  }

  /** Rewriting a metadata tile from 32 records; unpacking it gives them back. */
  method RewriteMetadataBlock(metadata: seq<Metadata>) returns (r: seq<Byte>)
    requires |metadata| == 32
    ensures |r| == METADATA_BLOCK && UnpackMetadataBlock(r) == metadata
  {
    var packed := PackMetadata(metadata, 1);
    return packed.value;
  }
}
