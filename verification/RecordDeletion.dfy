/** Swap-with-last deletion on a list file: prepared page images, and every state of their commit. */
module RecordDeletion {
  import opened Arithmetic
  import opened Sorting
  import opened RecordPages

  datatype RecordMove = RecordMove(destination: nat, source: nat)

  ghost predicate ValidMoves(moves: seq<RecordMove>, oldSize: nat, newSize: nat) {
    forall i :: 0 <= i < |moves| ==> moves[i].destination < newSize <= moves[i].source < oldSize
  }

  ghost predicate DistinctDestinations(moves: seq<RecordMove>) {
    forall i, j :: 0 <= i < j < |moves| ==> moves[i].destination != moves[j].destination
  }

  // ---------------------------------------------------------------- what the list becomes

  /** The record at offset `o` once the moves are applied; the last move to an offset counts. */
  function MovedRow<T>(rows: seq<T>, moves: seq<RecordMove>, o: nat): T
    requires o < |rows|
    requires forall i :: 0 <= i < |moves| ==> moves[i].source < |rows|
  {
    if moves == [] then rows[o]
    else if moves[|moves| - 1].destination == o then rows[moves[|moves| - 1].source]
    else MovedRow(rows, moves[..|moves| - 1], o)
  }

  function MovedRows<T>(rows: seq<T>, moves: seq<RecordMove>, newSize: nat): (r: seq<T>)
    requires newSize <= |rows|
    requires forall i :: 0 <= i < |moves| ==> moves[i].source < |rows|
    ensures |r| == newSize
  {
    seq(newSize, o requires 0 <= o < newSize && newSize <= |rows|
                   && forall i :: 0 <= i < |moves| ==> moves[i].source < |rows| => MovedRow(rows, moves, o))
  }

  /** No later move overwrites this one's destination. */
  ghost predicate Lasting(moves: seq<RecordMove>, i: nat) {
    i < |moves| && forall j :: i < j < |moves| ==> moves[j].destination != moves[i].destination
  }

  lemma DistinctLast(moves: seq<RecordMove>)
    requires DistinctDestinations(moves)
    ensures forall i :: 0 <= i < |moves| ==> Lasting(moves, i)
  {
  }

  /** A destination holds the source of its last move, and every other row is unmoved. */
  lemma {:induction false} MovedRowMeaning<T>(rows: seq<T>, moves: seq<RecordMove>, o: nat)
    requires o < |rows| && forall i :: 0 <= i < |moves| ==> moves[i].source < |rows|
    ensures forall i :: 0 <= i < |moves| && Lasting(moves, i) && moves[i].destination == o ==> MovedRow(rows, moves, o) == rows[moves[i].source]
    ensures (forall i :: 0 <= i < |moves| ==> moves[i].destination != o) ==> MovedRow(rows, moves, o) == rows[o]
  {
    if moves != [] {
      var front := moves[..|moves| - 1];
      MovedRowMeaning(rows, front, o);
      forall i | 0 <= i < |moves| && Lasting(moves, i) && moves[i].destination == o ensures MovedRow(rows, moves, o) == rows[moves[i].source] {
        if i < |front| { assert Lasting(front, i); }
      }
    }
  }

  lemma MovedRowDistinct<T>(rows: seq<T>, moves: seq<RecordMove>, o: nat)
    requires o < |rows| && (forall i :: 0 <= i < |moves| ==> moves[i].source < |rows|) && DistinctDestinations(moves)
    ensures forall i :: 0 <= i < |moves| && moves[i].destination == o ==> MovedRow(rows, moves, o) == rows[moves[i].source]
    ensures (forall i :: 0 <= i < |moves| ==> moves[i].destination != o) ==> MovedRow(rows, moves, o) == rows[o]
  {
    DistinctLast(moves);
    MovedRowMeaning(rows, moves, o);
  }

  // ---------------------------------------------------------------- page images

  /** The lane of a page image after the moves were copied in from the snapshots. */
  function MovedLane(pages: seq<Page>, perPage: nat, moves: seq<RecordMove>, p: nat, lane: nat): Slot
    requires perPage > 0
  {
    if moves == [] then LaneAt(pages, p, lane) else
      var last := moves[|moves| - 1];
      if last.destination / perPage == p && last.destination % perPage == lane
      then SlotAt(pages, perPage, last.source)
      else MovedLane(pages, perPage, moves[..|moves| - 1], p, lane)
  }

  /** Lanes of the retained tail page that no longer belong to the list. */
  predicate StaleLane(perPage: nat, newSize: nat, p: nat, lane: nat)
    requires perPage > 0
  {
    newSize % perPage != 0 && p == newSize / perPage && newSize % perPage <= lane
  }

  ghost predicate ImageOf(image: Page, pages: seq<Page>, perPage: nat, moves: seq<RecordMove>, newSize: nat,
                          blank: Record, p: nat)
    requires perPage > 0
  {
    |image| == perPage && forall lane :: 0 <= lane < perPage ==>
      Holds(image[lane])
      == if StaleLane(perPage, newSize, p, lane) then Holds(blank) else MovedLane(pages, perPage, moves, p, lane)
  }

  predicate MustWrite(perPage: nat, moves: seq<RecordMove>, newSize: nat, p: nat)
    requires perPage > 0
  {
    || (exists i :: 0 <= i < |moves| && moves[i].destination / perPage == p)
    || (newSize % perPage != 0 && p == newSize / perPage)
  }

  datatype Prepared = Prepared(oldPages: nat, newPages: nat, images: map<nat, Page>, writePages: seq<nat>, observedIds: seq<nat>)

  lemma AscendingIndex(s: seq<nat>, i: nat, j: nat)
    requires Ascending(s) && i < |s| && j < |s| && s[i] <= s[j]
    ensures i <= j
  {
  }

  /** What `prepare_moves_and_truncate` promises about its result. */
  ghost predicate Prepares(m: Prepared, pages: seq<Page>, perPage: nat, oldSize: nat, newSize: nat,
                           moves: seq<RecordMove>, blank: Record)
    requires perPage > 0
  {
    && m.oldPages == PageCount(oldSize, perPage) == |pages| && m.newPages == PageCount(newSize, perPage)
    && Ascending(m.writePages)
    && (forall p: nat :: p in m.writePages <==> MustWrite(perPage, moves, newSize, p))
    && (forall p :: p in m.writePages ==>
          p in m.images && ImageOf(m.images[p], pages, perPage, moves, newSize, blank, p))
  }

  /** The file after the first `k` page writes of a commit. */
  function AfterWrites(m: Prepared, pages: seq<Page>, k: nat): (r: seq<Page>)
    requires k <= |m.writePages|
    requires forall p :: p in m.writePages ==> p in m.images && p < |pages|
    ensures |r| == |pages|
  {
    if k == 0 then pages
    else WritePage(AfterWrites(m, pages, k - 1), m.writePages[k - 1], m.images[m.writePages[k - 1]])
  }

  lemma {:induction false} AfterWritesPages(m: Prepared, pages: seq<Page>, k: nat, p: nat)
    requires k <= |m.writePages| && p < |pages|
    requires forall q :: q in m.writePages ==> q in m.images && q < |pages|
    ensures AfterWrites(m, pages, k)[p] == if p in m.writePages[..k] then m.images[p] else pages[p]
  {
    if k > 0 {
      AfterWritesPages(m, pages, k - 1, p);
      assert m.writePages[..k] == m.writePages[..k - 1] + [m.writePages[k - 1]];
    }
  }

  /** Pages to be written are kept by the truncation. */
  lemma WrittenPagesKept(perPage: nat, moves: seq<RecordMove>, oldSize: nat, newSize: nat, p: nat)
    requires perPage > 0 && ValidMoves(moves, oldSize, newSize) && newSize <= oldSize
    requires MustWrite(perPage, moves, newSize, p)
    ensures p < PageCount(newSize, perPage) <= PageCount(oldSize, perPage)
    ensures p <= newSize / perPage
  {
    PageCountMonotone(newSize, oldSize, perPage);
    PageCountBounds(newSize, perPage);
    if i :| 0 <= i < |moves| && moves[i].destination / perPage == p {
      RowPage(moves[i].destination, newSize, perPage);
      QuotientMonotone(moves[i].destination, newSize, perPage);
    }
  }

  // ---------------------------------------------------------------- what a commit never loses

  /** Every surviving record is intact: unmoved ones in place, moved ones at their source or, unless overwritten, their destination. */
  ghost predicate NothingLost(pages: seq<Page>, perPage: nat, rows: seq<Record>, newSize: nat, moves: seq<RecordMove>)
    requires perPage > 0 && newSize <= |rows| && ValidMoves(moves, |rows|, newSize)
  {
    && (forall o :: 0 <= o < newSize && (forall i :: 0 <= i < |moves| ==> moves[i].destination != o) ==>
          SlotAt(pages, perPage, o) == Holds(rows[o]))
    && (forall i :: 0 <= i < |moves| && Lasting(moves, i) ==>
          || SlotAt(pages, perPage, moves[i].source) == Holds(rows[moves[i].source])
          || SlotAt(pages, perPage, moves[i].destination) == Holds(rows[moves[i].source]))
  }

  /** A lane below the new size is not stale, and holds the moved row. */
  lemma {:induction false} MovedLaneRow(pages: seq<Page>, perPage: nat, rows: seq<Record>, moves: seq<RecordMove>, o: nat)
    requires perPage > 0 && Published(pages, perPage, rows) && o < |rows|
    requires forall i :: 0 <= i < |moves| ==> moves[i].source < |rows|
    ensures MovedLane(pages, perPage, moves, o / perPage, o % perPage) == Holds(MovedRow(rows, moves, o))
  {
    if moves == [] {
      assert SlotAt(pages, perPage, o) == Holds(rows[o]);
    } else {
      var last := moves[|moves| - 1];
      MovedLaneRow(pages, perPage, rows, moves[..|moves| - 1], o);
      assert SlotAt(pages, perPage, last.source) == Holds(rows[last.source]);
      if last.destination / perPage == o / perPage && last.destination % perPage == o % perPage {
        QuotientInjective(last.destination, o, perPage);
      }
    }
  }

  lemma NotStale(perPage: nat, newSize: nat, o: nat)
    requires perPage > 0 && o < newSize
    ensures !StaleLane(perPage, newSize, o / perPage, o % perPage)
  {
    QuotientMonotone(o, newSize, perPage);
  }

  /** A written page holds the moved rows below the new size. */
  lemma WrittenSlot(m: Prepared, pages: seq<Page>, perPage: nat, rows: seq<Record>, newSize: nat, moves: seq<RecordMove>,
                    blank: Record, k: nat, o: nat)
    requires perPage > 0 && newSize <= |rows| && ValidMoves(moves, |rows|, newSize) && o < newSize
    requires ListFile(pages, perPage, rows) && Prepares(m, pages, perPage, |rows|, newSize, moves, blank)
    requires k <= |m.writePages| && o / perPage in m.writePages[..k]
    requires forall q :: q in m.writePages ==> q in m.images && q < |pages|
    ensures SlotAt(AfterWrites(m, pages, k), perPage, o) == Holds(MovedRow(rows, moves, o))
  {
    var p := o / perPage;
    RowPage(o, |rows|, perPage);
    AfterWritesPages(m, pages, k, p);
    NotStale(perPage, newSize, o);
    MovedLaneRow(pages, perPage, rows, moves, o);
    assert p in m.writePages;
    assert ImageOf(m.images[p], pages, perPage, moves, newSize, blank, p);
    QuotientParts(o, perPage);
  }

  lemma UnwrittenSlot(m: Prepared, pages: seq<Page>, perPage: nat, rows: seq<Record>, k: nat, o: nat)
    requires perPage > 0 && Published(pages, perPage, rows) && o < |rows|
    requires k <= |m.writePages| && o / perPage !in m.writePages[..k]
    requires forall q :: q in m.writePages ==> q in m.images && q < |pages|
    ensures SlotAt(AfterWrites(m, pages, k), perPage, o) == Holds(rows[o])
  {
    RowHasPage(pages, perPage, rows, o);
    AfterWritesPages(m, pages, k, o / perPage);
  }

  lemma WritesInFile(m: Prepared, pages: seq<Page>, perPage: nat, oldSize: nat, newSize: nat, moves: seq<RecordMove>, blank: Record)
    requires perPage > 0 && newSize <= oldSize && ValidMoves(moves, oldSize, newSize)
    requires Prepares(m, pages, perPage, oldSize, newSize, moves, blank)
    ensures forall q :: q in m.writePages ==> q in m.images && q < |pages| && q < m.newPages && q <= newSize / perPage
  {
    forall q | q in m.writePages ensures q in m.images && q < |pages| && q < m.newPages && q <= newSize / perPage {
      WrittenPagesKept(perPage, moves, oldSize, newSize, q);
    }
  }

  /** If a page holding a source is written, it is the tail page, and it is written last. */
  lemma SourcePageIsLast(m: Prepared, pages: seq<Page>, perPage: nat, oldSize: nat, newSize: nat,
                         moves: seq<RecordMove>, blank: Record, k: nat, source: nat, p: nat)
    requires perPage > 0 && newSize <= oldSize && ValidMoves(moves, oldSize, newSize)
    requires Prepares(m, pages, perPage, oldSize, newSize, moves, blank)
    requires k <= |m.writePages| && newSize <= source && source / perPage in m.writePages[..k]
    requires p in m.writePages
    ensures source / perPage == newSize / perPage && newSize % perPage != 0
    ensures p in m.writePages[..k]
  {
    WritesInFile(m, pages, perPage, oldSize, newSize, moves, blank);
    var t := source / perPage;
    QuotientMonotone(newSize, source, perPage);
    assert t in m.writePages;
    PageCountBounds(newSize, perPage);
    var j :| 0 <= j < k && m.writePages[j] == t;
    var i :| 0 <= i < |m.writePages| && m.writePages[i] == p;
    assert p <= t;
    AscendingIndex(m.writePages, i, j);
    assert m.writePages[..k][i] == p;
  }

  lemma UnmovedIntact(m: Prepared, pages: seq<Page>, perPage: nat, rows: seq<Record>, newSize: nat,
                      moves: seq<RecordMove>, blank: Record, k: nat, o: nat)
    requires perPage > 0 && newSize <= |rows| && ValidMoves(moves, |rows|, newSize)
    requires ListFile(pages, perPage, rows) && Prepares(m, pages, perPage, |rows|, newSize, moves, blank)
    requires k <= |m.writePages| && forall q :: q in m.writePages ==> q in m.images && q < |pages|
    requires o < newSize && forall i :: 0 <= i < |moves| ==> moves[i].destination != o
    ensures SlotAt(AfterWrites(m, pages, k), perPage, o) == Holds(rows[o])
  {
    if o / perPage in m.writePages[..k] {
      MovedRowMeaning(rows, moves, o);
      WrittenSlot(m, pages, perPage, rows, newSize, moves, blank, k, o);
    } else {
      UnwrittenSlot(m, pages, perPage, rows, k, o);
    }
  }

  lemma MovedIntact(m: Prepared, pages: seq<Page>, perPage: nat, rows: seq<Record>, newSize: nat,
                    moves: seq<RecordMove>, blank: Record, k: nat, i: nat)
    requires perPage > 0 && newSize <= |rows| && ValidMoves(moves, |rows|, newSize)
    requires ListFile(pages, perPage, rows) && Prepares(m, pages, perPage, |rows|, newSize, moves, blank)
    requires k <= |m.writePages| && forall q :: q in m.writePages ==> q in m.images && q < |pages|
    requires i < |moves| && Lasting(moves, i)
    ensures || SlotAt(AfterWrites(m, pages, k), perPage, moves[i].source) == Holds(rows[moves[i].source])
            || SlotAt(AfterWrites(m, pages, k), perPage, moves[i].destination) == Holds(rows[moves[i].source])
  {
    if moves[i].source / perPage in m.writePages[..k] {
      DestinationWritten(m, pages, perPage, rows, newSize, moves, blank, k, i);
    } else {
      UnwrittenSlot(m, pages, perPage, rows, k, moves[i].source);
    }
  }

  /** Once a source's page has been written, so has its destination's. */
  lemma DestinationWritten(m: Prepared, pages: seq<Page>, perPage: nat, rows: seq<Record>, newSize: nat,
                           moves: seq<RecordMove>, blank: Record, k: nat, i: nat)
    requires perPage > 0 && newSize <= |rows| && ValidMoves(moves, |rows|, newSize)
    requires ListFile(pages, perPage, rows) && Prepares(m, pages, perPage, |rows|, newSize, moves, blank)
    requires k <= |m.writePages| && forall q :: q in m.writePages ==> q in m.images && q < |pages|
    requires i < |moves| && Lasting(moves, i) && moves[i].source / perPage in m.writePages[..k]
    ensures SlotAt(AfterWrites(m, pages, k), perPage, moves[i].destination) == Holds(rows[moves[i].source])
  {
    var d := moves[i].destination;
    assert MustWrite(perPage, moves, newSize, d / perPage);
    SourcePageIsLast(m, pages, perPage, |rows|, newSize, moves, blank, k, moves[i].source, d / perPage);
    DestinationRow(rows, moves, i);
    WrittenSlot(m, pages, perPage, rows, newSize, moves, blank, k, d);
  }

  lemma DestinationRow<T>(rows: seq<T>, moves: seq<RecordMove>, i: nat)
    requires forall j :: 0 <= j < |moves| ==> moves[j].source < |rows|
    requires i < |moves| && Lasting(moves, i) && moves[i].destination < |rows|
    ensures MovedRow(rows, moves, moves[i].destination) == rows[moves[i].source]
  {
    MovedRowMeaning(rows, moves, moves[i].destination);
  }

  /** Between any two page writes of a commit every surviving record can still be read. */
  lemma CommitLosesNothing(m: Prepared, pages: seq<Page>, perPage: nat, rows: seq<Record>, newSize: nat,
                           moves: seq<RecordMove>, blank: Record, k: nat)
    requires perPage > 0 && newSize <= |rows| && ValidMoves(moves, |rows|, newSize)
    requires ListFile(pages, perPage, rows) && Prepares(m, pages, perPage, |rows|, newSize, moves, blank)
    requires k <= |m.writePages|
    ensures forall q :: q in m.writePages ==> q in m.images && q < |pages|
    ensures NothingLost(AfterWrites(m, pages, k), perPage, rows, newSize, moves)
  {
    WritesInFile(m, pages, perPage, |rows|, newSize, moves, blank);
    var state := AfterWrites(m, pages, k);
    forall o | 0 <= o < newSize && (forall i :: 0 <= i < |moves| ==> moves[i].destination != o)
      ensures SlotAt(state, perPage, o) == Holds(rows[o])
    {
      UnmovedIntact(m, pages, perPage, rows, newSize, moves, blank, k, o);
    }
    forall i | 0 <= i < |moves| && Lasting(moves, i)
      ensures || SlotAt(state, perPage, moves[i].source) == Holds(rows[moves[i].source])
              || SlotAt(state, perPage, moves[i].destination) == Holds(rows[moves[i].source])
    {
      MovedIntact(m, pages, perPage, rows, newSize, moves, blank, k, i);
    }
  }

  lemma AfterWritesUniform(m: Prepared, pages: seq<Page>, perPage: nat, k: nat)
    requires Uniform(pages, perPage) && k <= |m.writePages|
    requires forall q :: q in m.writePages ==> q in m.images && q < |pages| && |m.images[q]| == perPage
    ensures Uniform(AfterWrites(m, pages, k), perPage)
  {
    forall p | 0 <= p < |pages| ensures |AfterWrites(m, pages, k)[p]| == perPage {
      AfterWritesPages(m, pages, k, p);
      if p in m.writePages[..k] { assert p in m.writePages; }
    }
  }

  lemma UnwrittenRowUnmoved(m: Prepared, pages: seq<Page>, perPage: nat, rows: seq<Record>, newSize: nat,
                            moves: seq<RecordMove>, blank: Record, o: nat)
    requires perPage > 0 && newSize <= |rows| && ValidMoves(moves, |rows|, newSize) && o < newSize
    requires Prepares(m, pages, perPage, |rows|, newSize, moves, blank)
    requires o / perPage !in m.writePages
    ensures MovedRow(rows, moves, o) == rows[o]
  {
    var p := o / perPage;
    assert !MustWrite(perPage, moves, newSize, p);
    UnwrittenUntouched(perPage, moves, newSize, p);
    UntouchedRow(rows, moves, o, perPage, p);
  }

  lemma FinalSlot(m: Prepared, pages: seq<Page>, perPage: nat, rows: seq<Record>, newSize: nat,
                  moves: seq<RecordMove>, blank: Record, k: nat, o: nat)
    requires perPage > 0 && newSize <= |rows| && ValidMoves(moves, |rows|, newSize) && o < newSize
    requires ListFile(pages, perPage, rows) && Prepares(m, pages, perPage, |rows|, newSize, moves, blank)
    requires forall q :: q in m.writePages ==> q in m.images && q < |pages|
    requires k <= |m.writePages| && m.writePages[..k] == m.writePages
    ensures SlotAt(AfterWrites(m, pages, k), perPage, o) == Holds(MovedRow(rows, moves, o))
  {
    if o / perPage in m.writePages {
      WrittenSlot(m, pages, perPage, rows, newSize, moves, blank, k, o);
    } else {
      UnwrittenSlot(m, pages, perPage, rows, k, o);
      UnwrittenRowUnmoved(m, pages, perPage, rows, newSize, moves, blank, o);
    }
  }

  /** All writes and the truncation leave exactly the moved rows. */
  lemma CommitResult(m: Prepared, pages: seq<Page>, perPage: nat, rows: seq<Record>, newSize: nat,
                     moves: seq<RecordMove>, blank: Record)
    requires perPage > 0 && newSize <= |rows| && ValidMoves(moves, |rows|, newSize)
    requires ListFile(pages, perPage, rows) && Prepares(m, pages, perPage, |rows|, newSize, moves, blank)
    ensures forall q :: q in m.writePages ==> q in m.images && q < |pages|
    ensures m.newPages <= |pages|
    ensures ListFile(AfterWrites(m, pages, |m.writePages|)[..m.newPages], perPage, MovedRows(rows, moves, newSize))
  {
    WritesInFile(m, pages, perPage, |rows|, newSize, moves, blank);
    PageCountMonotone(newSize, |rows|, perPage);
    var state, moved := AfterWrites(m, pages, |m.writePages|), MovedRows(rows, moves, newSize);
    AfterWritesUniform(m, pages, perPage, |m.writePages|);
    assert m.writePages[..|m.writePages|] == m.writePages;
    forall o | 0 <= o < newSize ensures SlotAt(state, perPage, o) == Holds(moved[o]) {
      FinalSlot(m, pages, perPage, rows, newSize, moves, blank, |m.writePages|, o);
    }
    TruncateKeeps(state, perPage, moved);
  }

  /** In the retained tail page no lane behind the list keeps an old record. */
  ghost predicate TailBlank(pages: seq<Page>, perPage: nat, newSize: nat, blank: Record)
    requires perPage > 0
  {
    newSize % perPage != 0 ==>
      newSize / perPage < |pages| && forall lane :: newSize % perPage <= lane < |pages[newSize / perPage]| ==>
        pages[newSize / perPage][lane] == blank
  }

  /** All writes leave the lanes behind the list blank. */
  lemma CommitClears(m: Prepared, pages: seq<Page>, perPage: nat, rows: seq<Record>, newSize: nat, moves: seq<RecordMove>, blank: Record)
    requires perPage > 0 && newSize <= |rows| && ValidMoves(moves, |rows|, newSize)
    requires ListFile(pages, perPage, rows) && Prepares(m, pages, perPage, |rows|, newSize, moves, blank)
    ensures forall q :: q in m.writePages ==> q in m.images && q < |pages|
    ensures m.newPages <= |pages| && TailBlank(AfterWrites(m, pages, |m.writePages|)[..m.newPages], perPage, newSize, blank)
  {
    WritesInFile(m, pages, perPage, |rows|, newSize, moves, blank);
    PageCountMonotone(newSize, |rows|, perPage);
    if newSize % perPage != 0 {
      var p := newSize / perPage;
      assert MustWrite(perPage, moves, newSize, p);
      WrittenPagesKept(perPage, moves, |rows|, newSize, p);
      assert p in m.writePages && m.writePages[..|m.writePages|] == m.writePages;
      AfterWritesPages(m, pages, |m.writePages|, p);
      assert ImageOf(m.images[p], pages, perPage, moves, newSize, blank, p);
    }
  }

  lemma UnwrittenUntouched(perPage: nat, moves: seq<RecordMove>, newSize: nat, p: nat)
    requires perPage > 0 && !MustWrite(perPage, moves, newSize, p)
    ensures forall i :: 0 <= i < |moves| ==> moves[i].destination / perPage != p
  {
  }

  lemma {:induction false} UntouchedRow(rows: seq<Record>, moves: seq<RecordMove>, o: nat, perPage: nat, p: nat)
    requires perPage > 0 && o < |rows| && forall i :: 0 <= i < |moves| ==> moves[i].source < |rows|
    requires p == o / perPage && forall i :: 0 <= i < |moves| ==> moves[i].destination / perPage != p
    ensures MovedRow(rows, moves, o) == rows[o]
  {
    if moves != [] {
      UntouchedRow(rows, moves[..|moves| - 1], o, perPage, p);
    }
  }
}
