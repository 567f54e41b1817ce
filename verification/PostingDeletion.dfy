/** Swap-with-last deletion on packed postings: affected tiles are unpacked, edited as rows and rewritten. */
module PostingDeletion {
  import opened Arithmetic
  import opened Pq4Layout
  import opened PostingPacking
  import opened PostingList
  import opened RecordDeletion

  /** The flat copies of one tile: what was read, and what will be written. */
  datatype BlockScratch = BlockScratch(original: seq<Posting>, updated: seq<Posting>)

  type Scratch = map<nat, BlockScratch>

  function EmptyPosting(subquantizers: nat): Posting {
    Posting(seq(subquantizers / 2, _ => 0), EMPTY_METADATA)
  }

  /** Every row the buffers have room for. */
  function AllRows(list: MemoryList, subquantizers: nat, blocks: nat): (rows: seq<Posting>)
    ensures |rows| == blocks * 32
  {
    seq(blocks * 32, o requires 0 <= o => PostingAt(list, subquantizers, o))
  }

  /** What a row is after the deletion. */
  function Target(all: seq<Posting>, moves: seq<RecordMove>, newSize: nat, oldSize: nat, empty: Posting, o: nat): Posting
    requires o < |all| && forall i :: 0 <= i < |moves| ==> moves[i].source < |all|
  {
    if newSize <= o < oldSize then empty else MovedRow(all, moves, o)
  }

  predicate Affected(moves: seq<RecordMove>, newSize: nat, oldSize: nat, block: nat) {
    || (exists i :: 0 <= i < |moves| && moves[i].destination / 32 == block)
    || (newSize < oldSize && newSize / 32 <= block <= (oldSize - 1) / 32)
  }

  function TileOf(list: MemoryList, subquantizers: nat, block: nat): (rows: seq<Posting>)
    ensures |rows| == 32
  {
    seq(32, lane requires 0 <= lane => PostingAt(list, subquantizers, block * 32 + lane))
  }

  ghost predicate Covers(scratch: Scratch, moves: seq<RecordMove>, newSize: nat, oldSize: nat, blocks: nat) {
    forall b: nat :: b in scratch <==> b < blocks && Affected(moves, newSize, oldSize, b)
  }

  /** Original copies are the list's rows; updated copies are those rows after the given moves. */
  ghost predicate Moved(scratch: Scratch, all: seq<Posting>, moves: seq<RecordMove>)
    requires forall i :: 0 <= i < |moves| ==> moves[i].source < |all|
  {
    forall b :: b in scratch ==> TileMoved(scratch[b], all, moves, b)
  }

  ghost predicate TileMoved(tile: BlockScratch, all: seq<Posting>, moves: seq<RecordMove>, b: nat)
    requires forall i :: 0 <= i < |moves| ==> moves[i].source < |all|
  {
    && |tile.original| == 32 && |tile.updated| == 32 && b * 32 + 32 <= |all|
    && (forall lane :: 0 <= lane < 32 ==>
          && tile.original[lane] == all[b * 32 + lane]
          && tile.updated[lane] == MovedRow(all, moves, b * 32 + lane))
  }

  lemma UnpackedTile(list: MemoryList, subquantizers: nat, blocks: nat, b: nat)
    requires b < blocks
    ensures var tile := TileOf(list, subquantizers, b);
      TileMoved(BlockScratch(tile, tile), AllRows(list, subquantizers, blocks), [], b)
  {
    var tile, all := TileOf(list, subquantizers, b), AllRows(list, subquantizers, blocks);
    forall lane | 0 <= lane < 32
      ensures tile[lane] == all[b * 32 + lane]
      ensures MovedRow(all, [], b * 32 + lane) == all[b * 32 + lane]
    {
    }
  }

  method UnpackAffected(list: MemoryList, subquantizers: nat, blocks: nat, moves: seq<RecordMove>, newSize: nat, oldSize: nat)
    returns (scratch: Scratch)
    ensures Covers(scratch, moves, newSize, oldSize, blocks)
    ensures Moved(scratch, AllRows(list, subquantizers, blocks), [])
  {
    scratch := map[];
    for b := 0 to blocks
      invariant Covers(scratch, moves, newSize, oldSize, b)
      invariant Moved(scratch, AllRows(list, subquantizers, blocks), [])
    {
      if Affected(moves, newSize, oldSize, b) {
        var tile := TileOf(list, subquantizers, b);
        UnpackedTile(list, subquantizers, blocks, b);
        scratch := scratch[b := BlockScratch(tile, tile)];
      }
    }
  }

  lemma MoveStep(scratch: Scratch, all: seq<Posting>, moves: seq<RecordMove>, i: nat)
    requires forall j :: 0 <= j < |moves| ==> moves[j].source < |all|
    requires i < |moves| && Moved(scratch, all, moves[..i])
    requires moves[i].destination / 32 in scratch && moves[i].source / 32 in scratch
    ensures var (d, s) := (moves[i].destination, moves[i].source);
      && |scratch[d / 32].updated| == 32 && |scratch[s / 32].original| == 32
      && Moved(scratch[d / 32 := scratch[d / 32].(updated :=
                 scratch[d / 32].updated[d % 32 := scratch[s / 32].original[s % 32]])], all, moves[..i + 1])
  {
    var d, s := moves[i].destination, moves[i].source;
    assert TileMoved(scratch[d / 32], all, moves[..i], d / 32);
    assert TileMoved(scratch[s / 32], all, moves[..i], s / 32);
    assert moves[..i + 1][..i] == moves[..i];
    assert scratch[s / 32].original[s % 32] == all[s];
    forall b | b in scratch && b != d / 32 ensures TileMoved(scratch[b], all, moves[..i + 1], b) {
      assert TileMoved(scratch[b], all, moves[..i], b);
    }
  }

  /** Copying moves from the original copies, so that no move reads what another wrote. */
  method CopyMoves(scratch0: Scratch, ghost all: seq<Posting>, moves: seq<RecordMove>) returns (scratch: Scratch)
    requires Moved(scratch0, all, [])
    requires forall j :: 0 <= j < |moves| ==>
      moves[j].source < |all| && moves[j].destination / 32 in scratch0 && moves[j].source / 32 in scratch0
    ensures scratch.Keys == scratch0.Keys && Moved(scratch, all, moves)
  {
    scratch := scratch0;
    for i := 0 to |moves|
      invariant scratch.Keys == scratch0.Keys && Moved(scratch, all, moves[..i])
    {
      MoveStep(scratch, all, moves, i);
      var d, s := moves[i].destination, moves[i].source;
      var posting := scratch[s / 32].original[s % 32];
      scratch := scratch[d / 32 := scratch[d / 32].(updated := scratch[d / 32].updated[d % 32 := posting])];
    }
    assert moves[..|moves|] == moves;
  }

  ghost predicate TileIs(updated: seq<Posting>, all: seq<Posting>, moves: seq<RecordMove>, newSize: nat, oldSize: nat,
                         empty: Posting, b: nat)
    requires forall i :: 0 <= i < |moves| ==> moves[i].source < |all|
  {
    |updated| == 32 && b * 32 + 32 <= |all| && forall lane :: 0 <= lane < 32 ==>
      updated[lane] == Target(all, moves, newSize, oldSize, empty, b * 32 + lane)
  }

  /** Lanes between the new and the old size are cleared. */
  method ClearLanes(scratch0: Scratch, ghost all: seq<Posting>, ghost moves: seq<RecordMove>, newSize: nat, oldSize: nat,
                    empty: Posting)
    returns (scratch: Scratch)
    requires forall i :: 0 <= i < |moves| ==> moves[i].source < |all|
    requires Moved(scratch0, all, moves) && newSize <= oldSize
    requires forall o: nat :: newSize <= o < oldSize ==> o / 32 in scratch0
    ensures scratch.Keys == scratch0.Keys
    ensures forall b :: b in scratch ==> TileIs(scratch[b].updated, all, moves, newSize, oldSize, empty, b)
  {
    scratch := scratch0;
    forall b | b in scratch ensures TileIs(scratch[b].updated, all, moves, newSize, newSize, empty, b) {
      assert TileMoved(scratch[b], all, moves, b);
    }
    for offset := newSize to oldSize
      invariant scratch.Keys == scratch0.Keys
      invariant forall b :: b in scratch ==> TileIs(scratch[b].updated, all, moves, newSize, offset, empty, b)
    {
      var b := offset / 32;
      ClearStep(scratch, all, moves, newSize, offset, empty);
      scratch := scratch[b := scratch[b].(updated := scratch[b].updated[offset % 32 := empty])];
    }
  }

  lemma ClearStep(scratch: Scratch, all: seq<Posting>, moves: seq<RecordMove>, newSize: nat, offset: nat, empty: Posting)
    requires forall i :: 0 <= i < |moves| ==> moves[i].source < |all|
    requires newSize <= offset && offset / 32 in scratch
    requires forall b :: b in scratch ==> TileIs(scratch[b].updated, all, moves, newSize, offset, empty, b)
    ensures |scratch[offset / 32].updated| == 32
    ensures var b := offset / 32;
      var next := scratch[b := scratch[b].(updated := scratch[b].updated[offset % 32 := empty])];
      forall c :: c in next ==> TileIs(next[c].updated, all, moves, newSize, offset + 1, empty, c)
  {
    var b := offset / 32;
    assert TileIs(scratch[b].updated, all, moves, newSize, offset, empty, b);
    var next := scratch[b := scratch[b].(updated := scratch[b].updated[offset % 32 := empty])];
    forall c | c in next ensures TileIs(next[c].updated, all, moves, newSize, offset + 1, empty, c) {
      assert TileIs(scratch[c].updated, all, moves, newSize, offset, empty, c);
    }
  }

  // ---------------------------------------------------------------- rewriting

  /** Overwriting the bytes from `at`. */
  function Splice(buffer: seq<Byte>, at: nat, tile: seq<Byte>): (r: seq<Byte>)
    requires at + |tile| <= |buffer|
    ensures |r| == |buffer|
  {
    buffer[..at] + tile + buffer[at + |tile|..]
  }

  lemma SpliceSlice(buffer: seq<Byte>, at: nat, tile: seq<Byte>, from: nat)
    requires from == at && at + |tile| <= |buffer|
    ensures Splice(buffer, at, tile)[from..from + |tile|] == tile
  {
  }

  lemma SpliceElsewhere(buffer: seq<Byte>, at: nat, tile: seq<Byte>, from: nat)
    requires at + |tile| <= |buffer| && from + |tile| <= |buffer|
    requires from + |tile| <= at || at + |tile| <= from
    ensures Splice(buffer, at, tile)[from..from + |tile|] == buffer[from..from + |tile|]
  {
  }

  /** Tiles neither overlap nor leave the buffer. */
  lemma TileOffsets(blocks: nat, size: nat, b: nat, c: nat, length: nat)
    requires b < blocks && c < blocks && length == blocks * size
    ensures b * size + size <= length && c * size + size <= length
    ensures b == c || b * size + size <= c * size || c * size + size <= b * size
  {
    assert (b + 1) * size == b * size + size && (c + 1) * size == c * size + size;
    MulMonotone(b + 1, blocks, size);
    MulMonotone(c + 1, blocks, size);
    if b < c { MulMonotone(b + 1, c, size); } else if c < b { MulMonotone(c + 1, b, size); }
  }

  lemma SplicedTile(packed: seq<Byte>, subquantizers: nat, b: nat, at: nat, tile: seq<Byte>, row: nat, lane: nat)
    requires subquantizers % 2 == 0 && lane < 32 && |tile| == BlockStride(subquantizers) && row == b * 32 + lane
    requires at == b * BlockStride(subquantizers) && at + |tile| <= |packed|
    ensures UnpackRow(Splice(packed, at, tile), subquantizers, row) == UnpackRow(tile, subquantizers, lane)
  {
    SpliceSlice(packed, at, tile, at);
    RowOfTile(Splice(packed, at, tile), subquantizers, b, at, row, lane, tile);
  }

  lemma SplicedElsewhere(packed: seq<Byte>, subquantizers: nat, at: nat, tile: seq<Byte>, c: nat, from: nat, row: nat, lane: nat)
    requires subquantizers % 2 == 0 && lane < 32 && |tile| == BlockStride(subquantizers) && row == c * 32 + lane
    requires from == c * BlockStride(subquantizers) && at + |tile| <= |packed| && from + |tile| <= |packed|
    requires from + |tile| <= at || at + |tile| <= from
    ensures UnpackRow(Splice(packed, at, tile), subquantizers, row) == UnpackRow(packed, subquantizers, row)
  {
    SpliceElsewhere(packed, at, tile, from);
    var own := packed[from..from + |tile|];
    RowOfTile(Splice(packed, at, tile), subquantizers, c, from, row, lane, own);
    RowOfTile(packed, subquantizers, c, from, row, lane, own);
  }

  lemma SplicedMetadata(packed: seq<Byte>, blocks: nat, b: nat, tile: seq<Byte>, row: nat)
    requires b < blocks && row < blocks * 32 && |packed| == blocks * METADATA_BLOCK && |tile| == METADATA_BLOCK
    ensures b * METADATA_BLOCK + METADATA_BLOCK <= |packed|
    ensures MetadataAt(Splice(packed, b * METADATA_BLOCK, tile), row)
         == if row / 32 == b then UnpackMetadataBlock(tile)[row % 32] else MetadataAt(packed, row)
  {
  }

  /** Each tile in the scratch is rewritten; every other row stays as it was. */
  ghost predicate Rewritten(list: MemoryList, next: MemoryList, subquantizers: nat, blocks: nat, scratch: Scratch, b: nat) {
    && Buffers(next, subquantizers, blocks)
    && (forall row: nat :: row < blocks * 32 ==>
          PostingAt(next, subquantizers, row)
          == if row / 32 < b && row / 32 in scratch && row % 32 < |scratch[row / 32].updated|
             then scratch[row / 32].updated[row % 32] else PostingAt(list, subquantizers, row))
  }

  method RewriteTile(list: MemoryList, subquantizers: nat, ghost blocks: nat, b: nat, rows: seq<Posting>) returns (next: MemoryList)
    requires Buffers(list, subquantizers, blocks) && b < blocks && |rows| == 32
    requires forall i :: 0 <= i < 32 ==> |rows[i].code| == subquantizers / 2
    ensures Buffers(next, subquantizers, blocks)
    ensures next.logicalSize == list.logicalSize && next.paddedSize == list.paddedSize
    ensures forall row: nat :: row < blocks * 32 ==>
      PostingAt(next, subquantizers, row) == if row / 32 == b then rows[row % 32] else PostingAt(list, subquantizers, row)
  {
    var s := BlockStride(subquantizers);
    var at := b * s;
    TileOffsets(blocks, s, b, b, |list.packedCodes|);
    var codes := RewriteBlock(Codes(rows), subquantizers, list.packedCodes[at..at + s]);
    var metadata := RewriteMetadataBlock(Metadatas(rows));
    next := list.(packedCodes := Splice(list.packedCodes, at, codes),
                  packedMetadata := Splice(list.packedMetadata, b * METADATA_BLOCK, metadata));
    forall row: nat | row < blocks * 32
      ensures PostingAt(next, subquantizers, row)
           == if row / 32 == b then rows[row % 32] else PostingAt(list, subquantizers, row)
    {
      RewrittenRow(list, next, subquantizers, blocks, b, at, codes, metadata, rows, row);
    }
  }

  lemma RewrittenRow(list: MemoryList, next: MemoryList, subquantizers: nat, blocks: nat, b: nat, at: nat,
                     codes: seq<Byte>, metadata: seq<Byte>, rows: seq<Posting>, row: nat)
    requires Buffers(list, subquantizers, blocks) && b < blocks && |rows| == 32 && row < blocks * 32
    requires at == b * BlockStride(subquantizers) && at + |codes| <= |list.packedCodes|
    requires |codes| == BlockStride(subquantizers) && UnpackBlock(codes, subquantizers) == Codes(rows)
    requires b * METADATA_BLOCK + METADATA_BLOCK <= |list.packedMetadata|
    requires |metadata| == METADATA_BLOCK && UnpackMetadataBlock(metadata) == Metadatas(rows)
    requires next.packedCodes == Splice(list.packedCodes, at, codes)
    requires next.packedMetadata == Splice(list.packedMetadata, b * METADATA_BLOCK, metadata)
    ensures PostingAt(next, subquantizers, row)
         == if row / 32 == b then rows[row % 32] else PostingAt(list, subquantizers, row)
  {
    RewrittenCode(list.packedCodes, subquantizers, blocks, b, at, codes, rows, row);
    RewrittenMetadata(list.packedMetadata, blocks, b, metadata, rows, row);
  }

  lemma RewrittenMetadata(packed: seq<Byte>, blocks: nat, b: nat, metadata: seq<Byte>, rows: seq<Posting>, row: nat)
    requires b < blocks && row < blocks * 32 && |packed| == blocks * METADATA_BLOCK && |rows| == 32
    requires |metadata| == METADATA_BLOCK && UnpackMetadataBlock(metadata) == Metadatas(rows)
    ensures b * METADATA_BLOCK + METADATA_BLOCK <= |packed|
    ensures MetadataAt(Splice(packed, b * METADATA_BLOCK, metadata), row)
         == if row / 32 == b then rows[row % 32].metadata else MetadataAt(packed, row)
  {
    SplicedMetadata(packed, blocks, b, metadata, row);
    if row / 32 == b {
      assert UnpackMetadataBlock(metadata)[row % 32] == Metadatas(rows)[row % 32];
    }
  }

  lemma RewrittenCode(packed: seq<Byte>, subquantizers: nat, blocks: nat, b: nat, at: nat, codes: seq<Byte>,
                      rows: seq<Posting>, row: nat)
    requires subquantizers % 2 == 0 && b < blocks && row < blocks * 32 && |rows| == 32
    requires |packed| == blocks * BlockStride(subquantizers) && |codes| == BlockStride(subquantizers)
    requires at == b * BlockStride(subquantizers) && at + |codes| <= |packed|
    requires UnpackBlock(codes, subquantizers) == Codes(rows)
    ensures row / 32 == b ==> UnpackRow(Splice(packed, at, codes), subquantizers, row) == rows[row % 32].code
    ensures row / 32 != b ==> UnpackRow(Splice(packed, at, codes), subquantizers, row) == UnpackRow(packed, subquantizers, row)
  {
    if row / 32 == b {
      CodeInTile(packed, subquantizers, b, at, codes, rows, row, row % 32);
    } else {
      CodeElsewhere(packed, subquantizers, blocks, b, at, codes, row, row / 32, row % 32);
    }
  }

  lemma CodeInTile(packed: seq<Byte>, subquantizers: nat, b: nat, at: nat, codes: seq<Byte>, rows: seq<Posting>, row: nat, lane: nat)
    requires subquantizers % 2 == 0 && lane < 32 && row == b * 32 + lane && |rows| == 32
    requires |codes| == BlockStride(subquantizers) && at == b * BlockStride(subquantizers) && at + |codes| <= |packed|
    requires UnpackBlock(codes, subquantizers) == Codes(rows)
    ensures UnpackRow(Splice(packed, at, codes), subquantizers, row) == rows[lane].code
  {
    SplicedTile(packed, subquantizers, b, at, codes, row, lane);
    UnpackedLane(codes, subquantizers, rows, lane);
  }

  lemma UnpackedLane(codes: seq<Byte>, subquantizers: nat, rows: seq<Posting>, lane: nat)
    requires |rows| == 32 && lane < 32 && UnpackBlock(codes, subquantizers) == Codes(rows)
    ensures UnpackRow(codes, subquantizers, lane) == rows[lane].code
  {
    assert UnpackBlock(codes, subquantizers)[lane] == Codes(rows)[lane];
  }

  lemma CodeElsewhere(packed: seq<Byte>, subquantizers: nat, blocks: nat, b: nat, at: nat, codes: seq<Byte>, row: nat, c: nat, lane: nat)
    requires subquantizers % 2 == 0 && b < blocks && c < blocks && c != b && lane < 32 && row == c * 32 + lane
    requires |packed| == blocks * BlockStride(subquantizers) && |codes| == BlockStride(subquantizers)
    requires at == b * BlockStride(subquantizers) && at + |codes| <= |packed|
    ensures UnpackRow(Splice(packed, at, codes), subquantizers, row) == UnpackRow(packed, subquantizers, row)
  {
    TileOffsets(blocks, BlockStride(subquantizers), b, c, |packed|);
    SplicedElsewhere(packed, subquantizers, at, codes, c, c * BlockStride(subquantizers), row, lane);
  }

  method RewriteTiles(list: MemoryList, subquantizers: nat, blocks: nat, scratch: Scratch) returns (next: MemoryList)
    requires Buffers(list, subquantizers, blocks)
    requires forall b :: b in scratch ==> |scratch[b].updated| == 32
    requires forall b, i :: b in scratch && 0 <= i < 32 ==> |scratch[b].updated[i].code| == subquantizers / 2
    ensures Rewritten(list, next, subquantizers, blocks, scratch, blocks)
  {
    next := list;
    for b := 0 to blocks
      invariant Rewritten(list, next, subquantizers, blocks, scratch, b)
    {
      if b in scratch {
        ghost var before := next;
        next := RewriteTile(next, subquantizers, blocks, b, scratch[b].updated);
        RewriteStep(list, before, next, subquantizers, blocks, scratch, b);
      } else {
        RewriteSkip(list, next, subquantizers, blocks, scratch, b);
      }
    }
  }

  lemma RewriteStep(list: MemoryList, before: MemoryList, next: MemoryList, subquantizers: nat, blocks: nat, scratch: Scratch, b: nat)
    requires Rewritten(list, before, subquantizers, blocks, scratch, b) && Buffers(next, subquantizers, blocks)
    requires b in scratch && |scratch[b].updated| == 32
    requires forall row: nat :: row < blocks * 32 ==>
      PostingAt(next, subquantizers, row)
      == if row / 32 == b then scratch[b].updated[row % 32] else PostingAt(before, subquantizers, row)
    ensures Rewritten(list, next, subquantizers, blocks, scratch, b + 1)
  {
  }

  lemma RewriteSkip(list: MemoryList, next: MemoryList, subquantizers: nat, blocks: nat, scratch: Scratch, b: nat)
    requires Rewritten(list, next, subquantizers, blocks, scratch, b) && b !in scratch
    ensures Rewritten(list, next, subquantizers, blocks, scratch, b + 1)
  {
  }

  // ---------------------------------------------------------------- the whole deletion

  /** The scratch of a deletion, ready to be written. */
  ghost predicate ReadyTiles(scratch: Scratch, list: MemoryList, subquantizers: nat, blocks: nat, moves: seq<RecordMove>,
                             newSize: nat, oldSize: nat)
    requires forall i :: 0 <= i < |moves| ==> moves[i].source < blocks * 32
  {
    && Covers(scratch, moves, newSize, oldSize, blocks)
    && (forall b :: b in scratch ==>
          TileIs(scratch[b].updated, AllRows(list, subquantizers, blocks), moves, newSize, oldSize,
                 EmptyPosting(subquantizers), b))
  }

  /** Both ends of every move and every cleared lane lie on affected tiles. */
  lemma AffectedTiles(moves: seq<RecordMove>, newSize: nat, oldSize: nat, blocks: nat)
    requires ValidMoves(moves, oldSize, newSize) && oldSize <= blocks * 32
    ensures forall j :: 0 <= j < |moves| ==>
      && moves[j].destination / 32 < blocks && Affected(moves, newSize, oldSize, moves[j].destination / 32)
      && moves[j].source / 32 < blocks && Affected(moves, newSize, oldSize, moves[j].source / 32)
    ensures forall o: nat :: newSize <= o < oldSize ==> o / 32 < blocks && Affected(moves, newSize, oldSize, o / 32)
  {
  }

  /** Everything that can fail is done on copies; the list is only read. */
  method PrepareDeletion(list: MemoryList, subquantizers: nat, moves: seq<RecordMove>, newSize: nat,
                         ghost blocks: nat, ghost rows: seq<Posting>)
    returns (scratch: Scratch)
    requires Postings(list, subquantizers, blocks, rows) && newSize <= |rows| && ValidMoves(moves, |rows|, newSize)
    ensures |rows| <= blocks * 32
    ensures ReadyTiles(scratch, list, subquantizers, blocks, moves, newSize, |rows|)
  {
    var capacity := |list.packedMetadata| / METADATA_BLOCK;
    assert capacity == blocks;
    var oldSize := list.logicalSize;
    AffectedTiles(moves, newSize, oldSize, blocks);
    ghost var all := AllRows(list, subquantizers, blocks);
    scratch := UnpackAffected(list, subquantizers, capacity, moves, newSize, oldSize);
    scratch := CopyMoves(scratch, all, moves);
    scratch := ClearLanes(scratch, all, moves, newSize, oldSize, EmptyPosting(subquantizers));
  }

  /** Writing the prepared tiles leaves the moved rows, and empty lanes behind them. */
  method CommitDeletion(list: MemoryList, subquantizers: nat, scratch: Scratch, newSize: nat,
                        ghost moves: seq<RecordMove>, ghost blocks: nat, ghost rows: seq<Posting>)
    returns (next: MemoryList)
    requires Postings(list, subquantizers, blocks, rows) && newSize <= |rows| && ValidMoves(moves, |rows|, newSize)
    requires |rows| <= blocks * 32 && ReadyTiles(scratch, list, subquantizers, blocks, moves, newSize, |rows|)
    ensures Postings(next, subquantizers, blocks, MovedRows(rows, moves, newSize))
  {
    var capacity := |list.packedMetadata| / METADATA_BLOCK;
    assert capacity == blocks;
    ReadyCodes(scratch, list, subquantizers, blocks, moves, newSize, |rows|);
    next := RewriteTiles(list, subquantizers, capacity, scratch);
    ghost var written := next;
    next := next.(logicalSize := newSize, paddedSize := BlocksFor(newSize) * 32);
    forall row: nat | row < blocks * 32
      ensures PostingAt(next, subquantizers, row)
           == Target(AllRows(list, subquantizers, blocks), moves, newSize, |rows|, EmptyPosting(subquantizers), row)
    {
      WrittenTarget(list, written, subquantizers, blocks, scratch, moves, newSize, |rows|, row);
    }
    DeletedPostings(list, next, subquantizers, blocks, moves, newSize, rows);
  }

  lemma {:induction false} MovedCode(all: seq<Posting>, moves: seq<RecordMove>, o: nat, length: nat)
    requires o < |all| && forall i :: 0 <= i < |moves| ==> moves[i].source < |all|
    requires forall p :: p in all ==> |p.code| == length
    ensures |MovedRow(all, moves, o).code| == length
  {
    if moves != [] { MovedCode(all, moves[..|moves| - 1], o, length); }
  }

  lemma ReadyCodes(scratch: Scratch, list: MemoryList, subquantizers: nat, blocks: nat, moves: seq<RecordMove>,
                   newSize: nat, oldSize: nat)
    requires forall i :: 0 <= i < |moves| ==> moves[i].source < blocks * 32
    requires ReadyTiles(scratch, list, subquantizers, blocks, moves, newSize, oldSize)
    ensures forall b :: b in scratch ==> |scratch[b].updated| == 32
    ensures forall b, i :: b in scratch && 0 <= i < 32 ==> |scratch[b].updated[i].code| == subquantizers / 2
  {
    var all := AllRows(list, subquantizers, blocks);
    forall b | b in scratch
      ensures |scratch[b].updated| == 32 && forall i :: 0 <= i < 32 ==> |scratch[b].updated[i].code| == subquantizers / 2
    {
      assert TileIs(scratch[b].updated, all, moves, newSize, oldSize, EmptyPosting(subquantizers), b);
      forall i | 0 <= i < 32 ensures |scratch[b].updated[i].code| == subquantizers / 2 {
        MovedCode(all, moves, b * 32 + i, subquantizers / 2);
      }
    }
  }

  lemma {:induction false} UnaffectedRow(all: seq<Posting>, moves: seq<RecordMove>, o: nat)
    requires o < |all| && forall i :: 0 <= i < |moves| ==> moves[i].source < |all| && moves[i].destination != o
    ensures MovedRow(all, moves, o) == all[o]
  {
    if moves != [] { UnaffectedRow(all, moves[..|moves| - 1], o); }
  }

  /** A row of a tile that needs no scratch image stays as it is. */
  lemma UnaffectedTarget(all: seq<Posting>, moves: seq<RecordMove>, newSize: nat, oldSize: nat, empty: Posting, row: nat, b: nat)
    requires (forall i :: 0 <= i < |moves| ==> moves[i].source < |all|) && row < |all| && b == row / 32
    requires !Affected(moves, newSize, oldSize, b)
    ensures Target(all, moves, newSize, oldSize, empty, row) == all[row]
  {
    forall i | 0 <= i < |moves| ensures moves[i].destination != row { assert moves[i].destination / 32 != b; }
    UnaffectedRow(all, moves, row);
  }

  lemma WrittenTarget(list: MemoryList, written: MemoryList, subquantizers: nat, blocks: nat, scratch: Scratch,
                      moves: seq<RecordMove>, newSize: nat, oldSize: nat, row: nat)
    requires forall i :: 0 <= i < |moves| ==> moves[i].source < blocks * 32
    requires ReadyTiles(scratch, list, subquantizers, blocks, moves, newSize, oldSize)
    requires Rewritten(list, written, subquantizers, blocks, scratch, blocks) && row < blocks * 32
    ensures PostingAt(written, subquantizers, row)
         == Target(AllRows(list, subquantizers, blocks), moves, newSize, oldSize, EmptyPosting(subquantizers), row)
  {
    var all, b := AllRows(list, subquantizers, blocks), row / 32;
    if b in scratch {
      assert TileIs(scratch[b].updated, all, moves, newSize, oldSize, EmptyPosting(subquantizers), b);
    } else {
      UnaffectedTarget(all, moves, newSize, oldSize, EmptyPosting(subquantizers), row, b);
    }
  }

  /** An unpacked row is all zero bytes exactly when its lane is empty. */
  lemma EmptyRowCode(packed: seq<Byte>, subquantizers: nat, row: nat)
    requires subquantizers % 2 == 0
    ensures UnpackRow(packed, subquantizers, row) == EmptyPosting(subquantizers).code <==> RowEmpty(packed, subquantizers, row)
  {
    var zeros := EmptyPosting(subquantizers).code;
    assert forall m :: 0 <= m < subquantizers ==> FlatNibble(zeros, m) == 0;
    if UnpackRow(packed, subquantizers, row) == zeros {
      forall m | 0 <= m < subquantizers ensures Element(packed, subquantizers, row, m) == 0 {
        UnpackedNibble(packed, subquantizers, row, m);
      }
    }
    if RowEmpty(packed, subquantizers, row) {
      RowIsUnpacked(packed, subquantizers, row, zeros);
    }
  }

  lemma {:induction false} MovedPrefix(all: seq<Posting>, rows: seq<Posting>, moves: seq<RecordMove>, o: nat)
    requires |rows| <= |all| && (forall k :: 0 <= k < |rows| ==> all[k] == rows[k])
    requires o < |rows| && forall i :: 0 <= i < |moves| ==> moves[i].source < |rows|
    ensures MovedRow(all, moves, o) == MovedRow(rows, moves, o)
  {
    if moves != [] { MovedPrefix(all, rows, moves[..|moves| - 1], o); }
  }

  lemma BeyondBuffers(list: MemoryList, subquantizers: nat, blocks: nat, row: nat)
    requires Buffers(list, subquantizers, blocks) && blocks * 32 <= row
    ensures RowEmpty(list.packedCodes, subquantizers, row) && MetadataAt(list.packedMetadata, row) == EMPTY_METADATA
  {
    MulMonotone(blocks, row / 32, BlockStride(subquantizers));
  }

  lemma DeletedLane(list: MemoryList, next: MemoryList, subquantizers: nat, blocks: nat, moves: seq<RecordMove>,
                    newSize: nat, rows: seq<Posting>, row: nat)
    requires Postings(list, subquantizers, blocks, rows) && newSize <= |rows| && ValidMoves(moves, |rows|, newSize)
    requires |rows| <= blocks * 32 && newSize <= row < blocks * 32
    requires PostingAt(next, subquantizers, row)
          == Target(AllRows(list, subquantizers, blocks), moves, newSize, |rows|, EmptyPosting(subquantizers), row)
    ensures RowEmpty(next.packedCodes, subquantizers, row) && MetadataAt(next.packedMetadata, row) == EMPTY_METADATA
  {
    EmptyRowCode(next.packedCodes, subquantizers, row);
    if |rows| <= row {
      UnaffectedRow(AllRows(list, subquantizers, blocks), moves, row);
      EmptyRowCode(list.packedCodes, subquantizers, row);
    }
  }

  lemma DeletedPostings(list: MemoryList, next: MemoryList, subquantizers: nat, blocks: nat, moves: seq<RecordMove>,
                        newSize: nat, rows: seq<Posting>)
    requires Postings(list, subquantizers, blocks, rows) && newSize <= |rows| && ValidMoves(moves, |rows|, newSize)
    requires |rows| <= blocks * 32 && Buffers(next, subquantizers, blocks)
    requires next.logicalSize == newSize && next.paddedSize == BlocksFor(newSize) * 32
    requires forall row: nat :: row < blocks * 32 ==>
      PostingAt(next, subquantizers, row)
      == Target(AllRows(list, subquantizers, blocks), moves, newSize, |rows|, EmptyPosting(subquantizers), row)
    ensures Postings(next, subquantizers, blocks, MovedRows(rows, moves, newSize))
  {
    var all, moved := AllRows(list, subquantizers, blocks), MovedRows(rows, moves, newSize);
    forall o | 0 <= o < newSize ensures PostingAt(next, subquantizers, o) == moved[o] {
      MovedPrefix(all, rows, moves, o);
    }
    forall row: nat | newSize <= row
      ensures RowEmpty(next.packedCodes, subquantizers, row) && MetadataAt(next.packedMetadata, row) == EMPTY_METADATA
    {
      if row < blocks * 32 {
        DeletedLane(list, next, subquantizers, blocks, moves, newSize, rows, row);
      } else {
        BeyondBuffers(next, subquantizers, blocks, row);
      }
    }
  }
}
