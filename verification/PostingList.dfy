/** One list's resident postings: packed codes and metadata that read back as its rows, and empty lanes behind them. */
module PostingList {
  import opened Pq4Layout
  import opened PostingPacking
  import opened Outcomes

  datatype Posting = Posting(code: seq<Byte>, metadata: Metadata)

  datatype MemoryList = MemoryList(packedCodes: seq<Byte>, packedMetadata: seq<Byte>, logicalSize: nat, paddedSize: nat)

  function PostingAt(list: MemoryList, subquantizers: nat, row: nat): Posting {
    Posting(UnpackRow(list.packedCodes, subquantizers, row), MetadataAt(list.packedMetadata, row))
  }

  /** The buffers hold `blocks` whole tiles each. */
  ghost predicate Buffers(list: MemoryList, subquantizers: nat, blocks: nat) {
    && subquantizers > 0 && subquantizers % 2 == 0
    && |list.packedCodes| == blocks * BlockStride(subquantizers)
    && |list.packedMetadata| == blocks * METADATA_BLOCK
  }

  ghost predicate EmptyFrom(list: MemoryList, subquantizers: nat, first: nat) {
    forall row: nat :: first <= row ==>
      RowEmpty(list.packedCodes, subquantizers, row) && MetadataAt(list.packedMetadata, row) == EMPTY_METADATA
  }

  ghost predicate Postings(list: MemoryList, subquantizers: nat, blocks: nat, rows: seq<Posting>) {
    && Buffers(list, subquantizers, blocks)
    && list.logicalSize == |rows| && list.paddedSize == BlocksFor(|rows|) * 32 && BlocksFor(|rows|) <= blocks
    && (forall o :: 0 <= o < |rows| ==> PostingAt(list, subquantizers, o) == rows[o])
    && EmptyFrom(list, subquantizers, |rows|)
  }

  // ---------------------------------------------------------------- making room

  /** A resize keeps the common prefix and fills the rest. */
  function Resize(buffer: seq<Byte>, size: nat, fill: Byte): (r: seq<Byte>)
    ensures |r| == size
  {
    if size <= |buffer| then buffer[..size] else buffer + seq(size - |buffer|, _ => fill)
  }

  lemma ResizedElement(packed: seq<Byte>, subquantizers: nat, size: nat, row: nat, m: nat)
    ensures Element(Resize(packed, size, 0), subquantizers, row, m)
         == if Address(subquantizers, row, m) < size then Element(packed, subquantizers, row, m) else 0
  {
    assert Nibble(0, HighHalf(row)) == 0;
  }

  lemma ResizedRow(packed: seq<Byte>, subquantizers: nat, blocks: nat, row: nat)
    requires subquantizers % 2 == 0
    ensures row < blocks * 32 ==> SameRow(packed, Resize(packed, blocks * BlockStride(subquantizers), 0), subquantizers, row)
    ensures RowEmpty(packed, subquantizers, row) ==>
      RowEmpty(Resize(packed, blocks * BlockStride(subquantizers), 0), subquantizers, row)
  {
    var size := blocks * BlockStride(subquantizers);
    forall m | 0 <= m < subquantizers
      ensures row < blocks * 32 || Element(packed, subquantizers, row, m) == 0 ==>
        Element(Resize(packed, size, 0), subquantizers, row, m) == Element(packed, subquantizers, row, m)
    {
      ResizedElement(packed, subquantizers, size, row, m);
      if row < blocks * 32 { AddressInBlock(subquantizers, row, m, blocks); }
    }
  }

  lemma ResizedMetadata(packed: seq<Byte>, blocks: nat, row: nat)
    ensures row < blocks * 32 || MetadataAt(packed, row) == EMPTY_METADATA ==>
      MetadataAt(Resize(packed, blocks * METADATA_BLOCK, 255), row) == MetadataAt(packed, row)
  {
  }

  /** Growing or shrinking the buffers to `blocks` tiles keeps every row and leaves the rest empty. */
  lemma ResizedPostings(list: MemoryList, subquantizers: nat, was: nat, blocks: nat, rows: seq<Posting>)
    requires Postings(list, subquantizers, was, rows) && BlocksFor(|rows|) <= blocks
    ensures Postings(list.(packedCodes := Resize(list.packedCodes, blocks * BlockStride(subquantizers), 0),
                           packedMetadata := Resize(list.packedMetadata, blocks * METADATA_BLOCK, 255)),
                     subquantizers, blocks, rows)
  {
    var next := list.(packedCodes := Resize(list.packedCodes, blocks * BlockStride(subquantizers), 0),
                      packedMetadata := Resize(list.packedMetadata, blocks * METADATA_BLOCK, 255));
    forall o | 0 <= o < |rows| ensures PostingAt(next, subquantizers, o) == rows[o] {
      ResizedRow(list.packedCodes, subquantizers, blocks, o);
      SameRowUnpacked(list.packedCodes, next.packedCodes, subquantizers, o);
      ResizedMetadata(list.packedMetadata, blocks, o);
      assert PostingAt(list, subquantizers, o) == rows[o];
    }
    forall row: nat | |rows| <= row
      ensures RowEmpty(next.packedCodes, subquantizers, row) && MetadataAt(next.packedMetadata, row) == EMPTY_METADATA
    {
      ResizedRow(list.packedCodes, subquantizers, blocks, row);
      ResizedMetadata(list.packedMetadata, blocks, row);
    }
  }

  /** Reserving room for an append. The destination lanes are always found empty. */
  method PrepareAppend(list: MemoryList, subquantizers: nat, newSize: nat, ghost was: nat, ghost rows: seq<Posting>)
    returns (r: MemoryList)
    requires Postings(list, subquantizers, was, rows) && |rows| <= newSize
    ensures Postings(r, subquantizers, BlocksFor(newSize), rows)
  {
    var blocks := BlocksFor(newSize);
    ResizedPostings(list, subquantizers, was, blocks, rows);
    r := list.(packedCodes := Resize(list.packedCodes, blocks * BlockStride(subquantizers), 0),
               packedMetadata := Resize(list.packedMetadata, blocks * METADATA_BLOCK, 255));
    var codes := ValidateEmptyCodes(subquantizers, list.logicalSize, newSize, r.packedCodes);
    var metadata := ValidateEmptyMetadata(list.logicalSize, newSize, r.packedMetadata);
    // Neither validation error can occur.
    assert codes.Ok? && metadata.Ok?;
  }

  function Codes(rows: seq<Posting>): (c: seq<seq<Byte>>)
    ensures |c| == |rows|
  {
    seq(|rows|, i requires 0 <= i < |rows| => rows[i].code)
  }

  function Metadatas(rows: seq<Posting>): (m: seq<Metadata>)
    ensures |m| == |rows|
  {
    seq(|rows|, i requires 0 <= i < |rows| => rows[i].metadata)
  }

  /** Appending into reserved lanes. */
  method Append(list: MemoryList, subquantizers: nat, newRows: seq<Posting>, ghost rows: seq<Posting>)
    returns (r: MemoryList)
    requires Postings(list, subquantizers, BlocksFor(|rows| + |newRows|), rows)
    requires forall i :: 0 <= i < |newRows| ==> |newRows[i].code| == subquantizers / 2
    ensures Postings(r, subquantizers, BlocksFor(|rows| + |newRows|), rows + newRows)
  {
    var newSize := list.logicalSize + |newRows|;
    Appendables(list, subquantizers, BlocksFor(newSize), |rows|, newSize);
    var codes := AppendCodes(Codes(newRows), subquantizers, list.logicalSize, list.packedCodes);
    var metadata := AppendMetadata(Metadatas(newRows), list.logicalSize, list.packedMetadata);
    r := MemoryList(codes, metadata, newSize, BlocksFor(newSize) * 32);
    AppendedPostings(list, r, subquantizers, rows, newRows);
  }

  /** The new codes behind the first `size` rows, every other row as before. */
  ghost predicate CodesAppended(packed: seq<Byte>, packed': seq<Byte>, subquantizers: nat, size: nat, codes: seq<seq<Byte>>) {
    && |packed'| == |packed| && OtherRowsSame(packed, packed', subquantizers, size, size + |codes|)
    && forall i :: 0 <= i < |codes| ==> UnpackRow(packed', subquantizers, size + i) == codes[i]
  }

  ghost predicate MetadataAppended(packed: seq<Byte>, packed': seq<Byte>, size: nat, metadata: seq<Metadata>) {
    |packed'| == |packed| && forall row: nat ::
      MetadataAt(packed', row) == (if size <= row < size + |metadata| then metadata[row - size] else MetadataAt(packed, row))
  }

  /** Into lanes known to be empty, appending codes cannot fail. */
  method AppendCodes(codes: seq<seq<Byte>>, subquantizers: nat, begin: nat, packed: seq<Byte>) returns (r: seq<Byte>)
    requires subquantizers > 0 && subquantizers % 2 == 0 && Appendable(packed, subquantizers, begin, begin + |codes|)
    requires forall i :: 0 <= i < |codes| ==> |codes[i]| == subquantizers / 2
    ensures CodesAppended(packed, r, subquantizers, begin, codes)
  {
    var appended := AppendFlatCodes(codes, subquantizers, begin, packed);
    return appended.value;
  }

  method AppendMetadata(metadata: seq<Metadata>, begin: nat, packed: seq<Byte>) returns (r: seq<Byte>)
    requires BlocksFor(begin + |metadata|) * METADATA_BLOCK <= |packed|
    requires forall row :: begin <= row < begin + |metadata| ==> MetadataAt(packed, row) == EMPTY_METADATA
    ensures MetadataAppended(packed, r, begin, metadata)
  {
    var written := WriteMetadataRange(metadata, begin, packed);
    return written.value;
  }

  lemma Appendables(list: MemoryList, subquantizers: nat, blocks: nat, begin: nat, end: nat)
    requires Buffers(list, subquantizers, blocks) && EmptyFrom(list, subquantizers, begin) && blocks == BlocksFor(end)
    ensures Appendable(list.packedCodes, subquantizers, begin, end)
    ensures BlocksFor(end) * METADATA_BLOCK <= |list.packedMetadata|
    ensures forall row :: begin <= row < end ==> MetadataAt(list.packedMetadata, row) == EMPTY_METADATA
  {
  }

  lemma AppendedPostings(list: MemoryList, next: MemoryList, subquantizers: nat, rows: seq<Posting>, newRows: seq<Posting>)
    requires Postings(list, subquantizers, BlocksFor(|rows| + |newRows|), rows)
    requires next.logicalSize == |rows| + |newRows| && next.paddedSize == BlocksFor(|rows| + |newRows|) * 32
    requires CodesAppended(list.packedCodes, next.packedCodes, subquantizers, |rows|, Codes(newRows))
    requires MetadataAppended(list.packedMetadata, next.packedMetadata, |rows|, Metadatas(newRows))
    ensures Postings(next, subquantizers, BlocksFor(|rows| + |newRows|), rows + newRows)
  {
    var all := rows + newRows;
    forall o | 0 <= o < |all| ensures PostingAt(next, subquantizers, o) == all[o] {
      if o < |rows| {
        SameRowUnpacked(list.packedCodes, next.packedCodes, subquantizers, o);
        assert PostingAt(list, subquantizers, o) == rows[o];
      } else {
        assert UnpackRow(next.packedCodes, subquantizers, |rows| + (o - |rows|)) == Codes(newRows)[o - |rows|];
      }
    }
    forall row: nat | |all| <= row
      ensures RowEmpty(next.packedCodes, subquantizers, row) && MetadataAt(next.packedMetadata, row) == EMPTY_METADATA
    {
      assert SameRow(list.packedCodes, next.packedCodes, subquantizers, row);
      EmptyStays(list.packedCodes, next.packedCodes, subquantizers, row);
    }
  }
}
