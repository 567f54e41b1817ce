/** The list-file record store: append, deletion in two phases, and reads, over pages that can fail to be written. */
module RecordStore {
  import opened Arithmetic
  import opened Sorting
  import opened RecordPages
  import opened RecordAppend
  import opened RecordDeletion
  import opened Outcomes

  // ---------------------------------------------------------------- preparing a deletion

  predicate ObservedPage(perPage: nat, observed: seq<nat>, p: nat)
    requires perPage > 0
  {
    exists i :: 0 <= i < |observed| && observed[i] / perPage == p
  }

  predicate SourcePage(perPage: nat, moves: seq<RecordMove>, p: nat)
    requires perPage > 0
  {
    exists i :: 0 <= i < |moves| && moves[i].source / perPage == p
  }

  predicate DestinationPage(perPage: nat, moves: seq<RecordMove>, p: nat)
    requires perPage > 0
  {
    exists i :: 0 <= i < |moves| && moves[i].destination / perPage == p
  }

  predicate Needed(perPage: nat, moves: seq<RecordMove>, observed: seq<nat>, newSize: nat, p: nat)
    requires perPage > 0
  {
    ObservedPage(perPage, observed, p) || SourcePage(perPage, moves, p) || MustWrite(perPage, moves, newSize, p)
  }

  /** Insertion into an ordered set of pages. */
  function WithPage(pages: seq<nat>, p: nat): (r: seq<nat>)
    requires Ascending(pages)
    ensures Ascending(r) && forall q :: q in r <==> q in pages || q == p
  {
    if pages == [] then [p] else
      var front, last := pages[..|pages| - 1], pages[|pages| - 1];
      assert pages == front + [last] && last in pages;
      if last < p then
        assert forall i :: 0 <= i < |pages| ==> pages[i] <= last;
        pages + [p]
      else if last == p then pages
      else
        var lower := WithPage(front, p);
        FrontBelow(pages);
        LastAbove(lower, last);
        lower + [last]
  }

  lemma FrontBelow(pages: seq<nat>)
    requires Ascending(pages) && pages != []
    ensures var (front, last) := (pages[..|pages| - 1], pages[|pages| - 1]); forall q :: q in front ==> q < last
  {
  }

  lemma LastAbove(lower: seq<nat>, last: nat)
    requires Ascending(lower) && forall q :: q in lower ==> q < last
    ensures Ascending(lower + [last])
  {
    forall i | 0 <= i < |lower| ensures lower[i] < last { assert lower[i] in lower; }
  }

  /** The collected pages after some of the observed offsets and some of the moves. */
  ghost predicate Collected(perPage: nat, moves: seq<RecordMove>, observed: seq<nat>, needed: seq<nat>, written: seq<nat>)
    requires perPage > 0
  {
    && Ascending(needed) && Ascending(written)
    && (forall p: nat :: p in needed <==>
          ObservedPage(perPage, observed, p) || SourcePage(perPage, moves, p) || DestinationPage(perPage, moves, p))
    && (forall p: nat :: p in written <==> DestinationPage(perPage, moves, p))
  }

  lemma ObservedNext(perPage: nat, observed: seq<nat>, i: nat, p: nat)
    requires perPage > 0 && i < |observed|
    ensures ObservedPage(perPage, observed[..i + 1], p) <==> ObservedPage(perPage, observed[..i], p) || p == observed[i] / perPage
  {
    var was, now := observed[..i], observed[..i + 1];
    assert now[i] == observed[i];
    if k :| 0 <= k < |was| && was[k] / perPage == p { assert now[k] == was[k]; }
    if k :| 0 <= k < |now| && now[k] / perPage == p { assert k < i ==> was[k] == now[k]; }
  }

  lemma SourceNext(perPage: nat, moves: seq<RecordMove>, i: nat, p: nat)
    requires perPage > 0 && i < |moves|
    ensures SourcePage(perPage, moves[..i + 1], p) <==> SourcePage(perPage, moves[..i], p) || p == moves[i].source / perPage
  {
    var was, now := moves[..i], moves[..i + 1];
    assert now[i] == moves[i];
    if k :| 0 <= k < |was| && was[k].source / perPage == p { assert now[k] == was[k]; }
    if k :| 0 <= k < |now| && now[k].source / perPage == p { assert k < i ==> was[k] == now[k]; }
  }

  lemma DestinationNext(perPage: nat, moves: seq<RecordMove>, i: nat, p: nat)
    requires perPage > 0 && i < |moves|
    ensures DestinationPage(perPage, moves[..i + 1], p) <==> DestinationPage(perPage, moves[..i], p) || p == moves[i].destination / perPage
  {
    var was, now := moves[..i], moves[..i + 1];
    assert now[i] == moves[i];
    if k :| 0 <= k < |was| && was[k].destination / perPage == p { assert now[k] == was[k]; }
    if k :| 0 <= k < |now| && now[k].destination / perPage == p { assert k < i ==> was[k] == now[k]; }
  }

  lemma ObservedCollected(perPage: nat, observed: seq<nat>, i: nat, needed: seq<nat>, page: nat)
    requires perPage > 0 && i < |observed| && Collected(perPage, [], observed[..i], needed, []) && page == observed[i] / perPage
    ensures Collected(perPage, [], observed[..i + 1], WithPage(needed, page), [])
  {
    forall p: nat ensures ObservedPage(perPage, observed[..i + 1], p) <==> ObservedPage(perPage, observed[..i], p) || p == page {
      ObservedNext(perPage, observed, i, p);
    }
  }

  lemma MoveCollected(perPage: nat, moves: seq<RecordMove>, observed: seq<nat>, i: nat, needed: seq<nat>, written: seq<nat>,
                      destination: nat, source: nat)
    requires perPage > 0 && i < |moves| && Collected(perPage, moves[..i], observed, needed, written)
    requires destination == moves[i].destination / perPage && source == moves[i].source / perPage
    ensures Collected(perPage, moves[..i + 1], observed, WithPage(WithPage(needed, destination), source), WithPage(written, destination))
  {
    forall p: nat
      ensures SourcePage(perPage, moves[..i + 1], p) <==> SourcePage(perPage, moves[..i], p) || p == source
      ensures DestinationPage(perPage, moves[..i + 1], p) <==> DestinationPage(perPage, moves[..i], p) || p == destination
    {
      SourceNext(perPage, moves, i, p);
      DestinationNext(perPage, moves, i, p);
    }
  }

  lemma TailCollected(perPage: nat, moves: seq<RecordMove>, newSize: nat, tail: nat)
    requires perPage > 0 && tail == newSize / perPage
    ensures forall p: nat :: MustWrite(perPage, moves, newSize, p) <==>
      DestinationPage(perPage, moves, p) || (newSize % perPage != 0 && p == tail)
  {
  }

  /** The ordered sets of the pages a deletion must read and of those it must write. */
  method CollectPages(perPage: nat, moves: seq<RecordMove>, observed: seq<nat>, newSize: nat)
    returns (needed: seq<nat>, written: seq<nat>)
    requires perPage > 0
    ensures Ascending(needed) && forall p: nat :: p in needed <==> Needed(perPage, moves, observed, newSize, p)
    ensures Ascending(written) && forall p: nat :: p in written <==> MustWrite(perPage, moves, newSize, p)
  {
    needed, written := [], [];
    for i := 0 to |observed|
      invariant Collected(perPage, [], observed[..i], needed, [])
    {
      QuotientNat(observed[i], perPage);
      ObservedCollected(perPage, observed, i, needed, observed[i] / perPage);
      needed := WithPage(needed, observed[i] / perPage);
    }
    assert observed[..|observed|] == observed && moves[..0] == [];
    for i := 0 to |moves|
      invariant Collected(perPage, moves[..i], observed, needed, written)
    {
      QuotientNat(moves[i].destination, perPage);
      QuotientNat(moves[i].source, perPage);
      var destination, source := moves[i].destination / perPage, moves[i].source / perPage;
      MoveCollected(perPage, moves, observed, i, needed, written, destination, source);
      needed := WithPage(WithPage(needed, destination), source);
      written := WithPage(written, destination);
    }
    assert moves[..|moves|] == moves;
    QuotientNat(newSize, perPage);
    TailCollected(perPage, moves, newSize, newSize / perPage);
    if newSize != 0 && newSize % perPage != 0 {
      needed := WithPage(needed, newSize / perPage);
      written := WithPage(written, newSize / perPage);
    }
  }

  /** The pages to write that the truncation keeps; it keeps all of them. */
  method RetainedPages(written: seq<nat>, newPages: nat) returns (kept: seq<nat>)
    requires forall p :: p in written ==> p < newPages
    ensures kept == written
  {
    kept := [];
    for i := 0 to |written|
      invariant kept == written[..i]
    {
      assert written[i] in written;
      if written[i] < newPages {
        kept := kept + [written[i]];
      }
    }
  }

  /** Every needed page is read once, before anything is changed. */
  method ReadImages(pages: seq<Page>, needed: seq<nat>) returns (images: map<nat, Page>)
    requires forall p :: p in needed ==> p < |pages|
    ensures forall p :: p in images <==> p in needed
    ensures forall p :: p in images ==> p < |pages| && images[p] == pages[p]
  {
    images := map[];
    for i := 0 to |needed|
      invariant forall p :: p in images <==> p in needed[..i]
      invariant forall p :: p in images ==> p < |pages| && images[p] == pages[p]
    {
      assert needed[i] in needed && needed[..i + 1] == needed[..i] + [needed[i]];
      images := images[needed[i] := pages[needed[i]]];
    }
    assert needed[..|needed|] == needed;
  }

  /** The needed pages, read, and the numbers of those to be written. */
  method ReadNeeded(pages: seq<Page>, perPage: nat, newSize: nat, moves: seq<RecordMove>, observed: seq<nat>, ghost rows: seq<Record>)
    returns (images: map<nat, Page>, writePages: seq<nat>)
    requires perPage > 0 && newSize <= |rows| && ValidMoves(moves, |rows|, newSize) && ListFile(pages, perPage, rows)
    requires forall i :: 0 <= i < |observed| ==> observed[i] < |rows|
    ensures Ascending(writePages) && forall p: nat :: p in writePages <==> MustWrite(perPage, moves, newSize, p)
    ensures forall p :: p in images ==> p < |pages| && images[p] == pages[p]
    ensures forall k: int :: 0 <= k < |observed| ==> observed[k] / perPage in images
    ensures forall k: int :: 0 <= k < |moves| ==> moves[k].source / perPage in images && moves[k].destination / perPage in images
    ensures forall p: nat :: MustWrite(perPage, moves, newSize, p) ==> p in images
    ensures newSize % perPage != 0 ==> newSize / perPage in images
  {
    var needed, written := CollectPages(perPage, moves, observed, newSize);
    NeededInFile(pages, perPage, moves, observed, rows, newSize);
    writePages := RetainedPages(written, PageCount(newSize, perPage));
    images := ReadImages(pages, needed);
    NeededPagesRead(images, pages, perPage, moves, observed, rows, newSize);
  }

  /** The images while the moves are being copied in. */
  ghost predicate Copied(images: map<nat, Page>, pages: seq<Page>, perPage: nat, moves: seq<RecordMove>)
    requires perPage > 0
  {
    forall p :: p in images ==> |images[p]| == perPage && forall lane :: 0 <= lane < perPage ==>
      Holds(images[p][lane]) == MovedLane(pages, perPage, moves, p, lane)
  }

  lemma CopiedStep(images: map<nat, Page>, pages: seq<Page>, perPage: nat, moves: seq<RecordMove>, i: nat, snapshot: Record)
    requires perPage > 0 && i < |moves| && Copied(images, pages, perPage, moves[..i])
    requires SlotAt(pages, perPage, moves[i].source) == Holds(snapshot)
    requires moves[i].destination / perPage in images
    ensures var (p, lane) := (moves[i].destination / perPage, moves[i].destination % perPage);
      |images[p]| == perPage && Copied(images[p := images[p][lane := snapshot]], pages, perPage, moves[..i + 1])
  {
    var p, lane := moves[i].destination / perPage, moves[i].destination % perPage;
    assert moves[..i + 1][..i] == moves[..i];
    var next := images[p := images[p][lane := snapshot]];
    forall q, l | q in next && 0 <= l < perPage
      ensures Holds(next[q][l]) == MovedLane(pages, perPage, moves[..i + 1], q, l)
    {
      assert Holds(images[q][l]) == MovedLane(pages, perPage, moves[..i], q, l);
    }
  }

  /** Sources are snapshotted before any destination is overwritten. */
  method CopyMoves(images0: map<nat, Page>, ghost pages: seq<Page>, perPage: nat, moves: seq<RecordMove>, ghost rows: seq<Record>)
    returns (images: map<nat, Page>)
    requires perPage > 0 && ListFile(pages, perPage, rows)
    requires forall p :: p in images0 ==> p < |pages| && images0[p] == pages[p]
    requires forall i :: 0 <= i < |moves| ==>
      && moves[i].source < |rows|
      && moves[i].source / perPage in images0 && moves[i].destination / perPage in images0
    ensures images.Keys == images0.Keys && Copied(images, pages, perPage, moves)
  {
    var snapshots: seq<Record> := [];
    for i := 0 to |moves|
      invariant |snapshots| == i
      invariant forall j :: 0 <= j < i ==> SlotAt(pages, perPage, moves[j].source) == Holds(snapshots[j])
    {
      RowHasPage(pages, perPage, rows, moves[i].source);
      snapshots := snapshots + [images0[moves[i].source / perPage][moves[i].source % perPage]];
    }
    images := images0;
    for i := 0 to |moves|
      invariant images.Keys == images0.Keys
      invariant Copied(images, pages, perPage, moves[..i])
    {
      var p, lane := moves[i].destination / perPage, moves[i].destination % perPage;
      CopiedStep(images, pages, perPage, moves, i, snapshots[i]);
      images := images[p := images[p][lane := snapshots[i]]];
    }
    assert moves[..|moves|] == moves;
  }

  /** The stale lanes of the retained tail page are zeroed. */
  method ClearTail(images0: map<nat, Page>, ghost pages: seq<Page>, perPage: nat, moves: seq<RecordMove>, newSize: nat, blank: Record)
    returns (images: map<nat, Page>)
    requires perPage > 0 && Copied(images0, pages, perPage, moves)
    requires newSize % perPage != 0 ==> newSize / perPage in images0
    ensures images.Keys == images0.Keys
    ensures forall p :: p in images ==> ImageOf(images[p], pages, perPage, moves, newSize, blank, p)
  {
    images := images0;
    if newSize != 0 && newSize % perPage != 0 {
      var tail, firstStale := newSize / perPage, newSize % perPage;
      assert |images[tail]| == perPage;
      images := images[tail := images[tail][..firstStale] + seq(perPage - firstStale, _ => blank)];
    }
  }

  /** All list files; a file change can fail at any point. */
  class ListFileRecordStore {
    const nlist: nat
    const perPage: nat
    const blank: Record
    var files: seq<seq<Page>>

    ghost predicate Valid()
      reads this
    {
      perPage > 0 && |files| == nlist
    }

    constructor (nlist: nat, perPage: nat, blank: Record)
      requires perPage > 0
      ensures Valid() && this.nlist == nlist && this.perPage == perPage && this.blank == blank
      ensures forall l :: 0 <= l < nlist ==> files[l] == []
    {
      this.nlist, this.perPage, this.blank := nlist, perPage, blank;
      files := seq(nlist, _ => []);
    }

    twostate predicate OtherFilesSame(list: nat)
      reads this
    {
      |files| == |old(files)| && forall l :: 0 <= l < |files| && l != list ==> files[l] == old(files)[l]
    }

    /**
     Appends `records` at `oldSize`. `io` is the number of file changes that succeed before one fails.
     Whatever an earlier failed append left behind is overwritten, and no failure disturbs a published row.
     */
    method AppendRecords(list: nat, oldSize: nat, records: seq<Record>, io: nat, ghost rows: seq<Record>)
      returns (r: Result<()>)
      requires Valid() && |rows| == oldSize
      requires list < nlist && |files[list]| >= PageCount(oldSize, perPage) ==> Published(files[list], perPage, rows)
      modifies this
      ensures Valid() && OtherFilesSame(list)
      ensures r.Err? ==> r.error in {InvalidArgument, OutOfRange, RuntimeError}
      ensures records == [] ==> r.Ok? && files == old(files)
      ensures r.Ok? && records != [] ==> list < nlist && ListFile(files[list], perPage, rows + records)
      ensures r.Err? && list < nlist ==>
        if |old(files)[list]| >= PageCount(oldSize, perPage) then Published(files[list], perPage, rows)
        else files == old(files)
      ensures (list < nlist && |old(files)[list]| >= PageCount(oldSize, perPage) && oldSize + |records| <= UINT32_MAX
               && io >= PageCount(oldSize + |records|, perPage) + 2) ==> r.Ok?
    {
      if |records| == 0 {
        return Ok(());
      }
      if oldSize + |records| > UINT32_MAX {
        return Err(InvalidArgument);
      }
      if list >= nlist {
        return Err(OutOfRange);
      }
      var oldPages := PageCount(oldSize, perPage);
      if |files[list]| < oldPages {
        return Err(RuntimeError);
      }
      var left := io;
      if |files[list]| > oldPages {
        if left == 0 {
          return Err(RuntimeError);
        }
        left := left - 1;
        TruncateKeeps(files[list], perPage, rows);
        files := files[list := files[list][..oldPages]];
      }
      r := WriteAppendPages(list, oldSize, records, left, rows);
    }

    method WriteAppendPages(list: nat, oldSize: nat, records: seq<Record>, io: nat, ghost rows: seq<Record>)
      returns (r: Result<()>)
      requires Valid() && |rows| == oldSize && list < nlist && records != []
      requires Published(files[list], perPage, rows) && |files[list]| == PageCount(oldSize, perPage)
      modifies this
      ensures Valid() && OtherFilesSame(list)
      ensures r.Ok? ==> ListFile(files[list], perPage, rows + records)
      ensures r.Err? ==> Published(files[list], perPage, rows) && r.error == RuntimeError
      ensures io >= PageCount(oldSize + |records|, perPage) + 1 ==> r.Ok?
    {
      var oldPages, newPages := PageCount(oldSize, perPage), PageCount(oldSize + |records|, perPage);
      var left, pageId := io, oldSize / perPage;
      AppendStart(files[list], perPage, rows, records);
      PageCountBounds(oldSize, perPage);
      PageCountBounds(oldSize + |records|, perPage);
      QuotientMonotone(oldSize, oldSize + |records|, perPage);
      while pageId < newPages
        invariant oldSize / perPage <= pageId <= newPages
        invariant Valid() && OtherFilesSame(list)
        invariant |files[list]| == if pageId < oldPages then oldPages else pageId
        invariant AppendProgress(files[list], perPage, rows, records, pageId)
        invariant left + pageId == io + oldSize / perPage
      {
        var page := if pageId < oldPages then files[list][pageId] else BlankPage(perPage, blank);
        var image := AppendImage(page, perPage, pageId, oldSize, records);
        if left == 0 {
          return Err(RuntimeError);
        }
        left := left - 1;
        AppendStep(files[list], perPage, rows, records, pageId, page);
        files := files[list := WritePage(files[list], pageId, image)];
        pageId := pageId + 1;
      }
      if left == 0 {
        return Err(RuntimeError);
      }
      AppendDone(files[list], perPage, rows, records);
      files := files[list := files[list][..newPages]];
      return Ok(());
    }

    /** Whether the arguments of a deletion pass the store's checks. */
    ghost predicate AcceptsDeletion(list: nat, oldSize: nat, newSize: nat, moves: seq<RecordMove>, observed: seq<nat>)
      requires Valid()
      reads this
    {
      && newSize <= oldSize
      && ValidMoves(moves, oldSize, newSize)
      && (forall i :: 0 <= i < |observed| ==> observed[i] < oldSize)
      && list < nlist && |files[list]| == PageCount(oldSize, perPage)
    }

    /** Reads every needed page once and prepares all page images; nothing is changed. */
    method PrepareMovesAndTruncate(list: nat, oldSize: nat, newSize: nat, moves: seq<RecordMove>, observed: seq<nat>,
                                   ghost rows: seq<Record>)
      returns (r: Result<Prepared>)
      requires Valid() && |rows| == oldSize
      requires list < nlist && |files[list]| == PageCount(oldSize, perPage) ==> ListFile(files[list], perPage, rows)
      ensures r.Ok? <==> AcceptsDeletion(list, oldSize, newSize, moves, observed)
      ensures r.Err? ==> r.error in {InvalidArgument, OutOfRange, RuntimeError}
      ensures r.Ok? ==> Prepares(r.value, files[list], perPage, oldSize, newSize, moves, blank)
      ensures r.Ok? ==> Observes(r.value.observedIds, rows, observed)
    {
      if newSize > oldSize {
        return Err(InvalidArgument);
      }
      for i := 0 to |moves|
        invariant ValidMoves(moves[..i], oldSize, newSize)
      {
        if moves[i].destination >= newSize || moves[i].source < newSize || moves[i].source >= oldSize {
          return Err(InvalidArgument);
        }
      }
      assert moves[..|moves|] == moves;
      for i := 0 to |observed|
        invariant forall j :: 0 <= j < i ==> observed[j] < oldSize
      {
        if observed[i] >= oldSize {
          return Err(InvalidArgument);
        }
      }
      if list >= nlist {
        return Err(OutOfRange);
      }
      if |files[list]| != PageCount(oldSize, perPage) {
        return Err(RuntimeError);
      }
      var prepared := BuildMutation(files[list], oldSize, newSize, moves, observed, rows);
      return Ok(prepared);
    }

    method BuildMutation(pages: seq<Page>, oldSize: nat, newSize: nat, moves: seq<RecordMove>, observed: seq<nat>,
                         ghost rows: seq<Record>)
      returns (m: Prepared)
      requires Valid() && |rows| == oldSize && newSize <= oldSize && ValidMoves(moves, oldSize, newSize)
      requires ListFile(pages, perPage, rows)
      requires forall i :: 0 <= i < |observed| ==> observed[i] < oldSize
      ensures Prepares(m, pages, perPage, oldSize, newSize, moves, blank)
      ensures Observes(m.observedIds, rows, observed)
    {
      var images: map<nat, Page>, writePages: seq<nat> := ReadNeeded(pages, perPage, newSize, moves, observed, rows);
      var observedIds: seq<nat> := [];
      for i := 0 to |observed|
        invariant |observedIds| == i
        invariant forall j :: 0 <= j < i ==> observedIds[j] == rows[observed[j]].id
      {
        RowHasPage(pages, perPage, rows, observed[i]);
        observedIds := observedIds + [images[observed[i] / perPage][observed[i] % perPage].id];
      }
      images := CopyMoves(images, pages, perPage, moves, rows);
      images := ClearTail(images, pages, perPage, moves, newSize, blank);
      m := Prepared(PageCount(oldSize, perPage), PageCount(newSize, perPage), images, writePages, observedIds);
    }

    /** Writes the prepared pages in ascending order, then truncates; a failure part way loses no record. */
    method CommitPreparedMutation(list: nat, m: Prepared, io: nat, ghost rows: seq<Record>, ghost newSize: nat,
                                  ghost moves: seq<RecordMove>)
      returns (r: Result<()>)
      requires Valid() && list < nlist && newSize <= |rows|
      requires ValidMoves(moves, |rows|, newSize)
      requires |files[list]| == m.oldPages ==>
        ListFile(files[list], perPage, rows) && Prepares(m, files[list], perPage, |rows|, newSize, moves, blank)
      modifies this
      ensures Valid() && OtherFilesSame(list)
      ensures |old(files)[list]| != m.oldPages ==> r.Err? && files == old(files)
      ensures r.Ok? ==> ListFile(files[list], perPage, MovedRows(rows, moves, newSize)) && TailBlank(files[list], perPage, newSize, blank)
      ensures r.Err? && |old(files)[list]| == m.oldPages ==> NothingLost(files[list], perPage, rows, newSize, moves)
      ensures |old(files)[list]| == m.oldPages && io > |m.writePages| ==> r.Ok?
      ensures r.Err? ==> r.error == RuntimeError
    {
      if |files[list]| != m.oldPages {
        return Err(RuntimeError);
      }
      ghost var pages := files[list];
      CommitLosesNothing(m, pages, perPage, rows, newSize, moves, blank, 0);
      CommitResult(m, pages, perPage, rows, newSize, moves, blank);
      CommitClears(m, pages, perPage, rows, newSize, moves, blank);
      for k := 0 to |m.writePages|
        invariant Valid() && OtherFilesSame(list)
        invariant files[list] == AfterWrites(m, pages, k)
        invariant k <= io
      {
        if k == io {
          CommitLosesNothing(m, pages, perPage, rows, newSize, moves, blank, k);
          return Err(RuntimeError);
        }
        var p := m.writePages[k];
        files := files[list := WritePage(files[list], p, m.images[p])];
      }
      if |m.writePages| == io {
        CommitLosesNothing(m, pages, perPage, rows, newSize, moves, blank, |m.writePages|);
        return Err(RuntimeError);
      }
      files := files[list := files[list][..m.newPages]];
      return Ok(());
    }
  }

  /** The IDs found at the observed offsets, in input order. */
  ghost predicate Observes(ids: seq<nat>, rows: seq<Record>, observed: seq<nat>) {
    |ids| == |observed| && forall i :: 0 <= i < |observed| ==> observed[i] < |rows| && ids[i] == rows[observed[i]].id
  }

  /** Every page the preparation touches was read. */
  lemma NeededPagesRead(images: map<nat, Page>, pages: seq<Page>, perPage: nat, moves: seq<RecordMove>, observed: seq<nat>,
                        rows: seq<Record>, newSize: nat)
    requires perPage > 0 && newSize <= |rows| && ValidMoves(moves, |rows|, newSize) && ListFile(pages, perPage, rows)
    requires forall i :: 0 <= i < |observed| ==> observed[i] < |rows|
    requires forall p: nat :: p < |pages| && Needed(perPage, moves, observed, newSize, p) ==> p in images
    ensures forall i :: 0 <= i < |observed| ==> observed[i] / perPage in images
    ensures forall i :: 0 <= i < |moves| ==> moves[i].source / perPage in images && moves[i].destination / perPage in images
    ensures forall p: nat :: MustWrite(perPage, moves, newSize, p) ==> p in images
    ensures newSize % perPage != 0 ==> newSize / perPage in images
  {
    ObservedPagesRead(images, pages, perPage, moves, observed, rows, newSize);
    forall p: nat | MustWrite(perPage, moves, newSize, p) ensures p in images {
      WrittenNeeded(pages, perPage, moves, observed, rows, newSize, p);
    }
    MovePagesRead(images, pages, perPage, moves, observed, rows, newSize);
    TailPageRead(images, perPage, moves, newSize);
  }

  lemma ObservedPagesRead(images: map<nat, Page>, pages: seq<Page>, perPage: nat, moves: seq<RecordMove>, observed: seq<nat>,
                          rows: seq<Record>, newSize: nat)
    requires perPage > 0 && ListFile(pages, perPage, rows) && forall i :: 0 <= i < |observed| ==> observed[i] < |rows|
    requires forall p: nat :: p < |pages| && Needed(perPage, moves, observed, newSize, p) ==> p in images
    ensures forall i :: 0 <= i < |observed| ==> observed[i] / perPage in images
  {
    forall i | 0 <= i < |observed| ensures observed[i] / perPage in images {
      ObservedNeeded(pages, perPage, moves, observed, rows, newSize, i, observed[i] / perPage);
    }
  }

  lemma MovePagesRead(images: map<nat, Page>, pages: seq<Page>, perPage: nat, moves: seq<RecordMove>, observed: seq<nat>,
                      rows: seq<Record>, newSize: nat)
    requires perPage > 0 && newSize <= |rows| && ValidMoves(moves, |rows|, newSize) && ListFile(pages, perPage, rows)
    requires forall p: nat :: p < |pages| && Needed(perPage, moves, observed, newSize, p) ==> p in images
    requires forall p: nat :: MustWrite(perPage, moves, newSize, p) ==> p in images
    ensures forall i :: 0 <= i < |moves| ==> moves[i].source / perPage in images && moves[i].destination / perPage in images
  {
    forall i | 0 <= i < |moves|
      ensures moves[i].source / perPage in images && moves[i].destination / perPage in images
    {
      MoveNeeded(pages, perPage, moves, observed, rows, newSize, i, moves[i].source / perPage, moves[i].destination / perPage);
    }
  }

  lemma TailPageRead(images: map<nat, Page>, perPage: nat, moves: seq<RecordMove>, newSize: nat)
    requires perPage > 0 && forall p: nat :: MustWrite(perPage, moves, newSize, p) ==> p in images
    ensures newSize % perPage != 0 ==> newSize / perPage in images
  {
    QuotientNat(newSize, perPage);
    if newSize % perPage != 0 { assert MustWrite(perPage, moves, newSize, newSize / perPage); }
  }

  /** Needed pages lie in the file, and those to be written in what remains of it. */
  lemma NeededInFile(pages: seq<Page>, perPage: nat, moves: seq<RecordMove>, observed: seq<nat>, rows: seq<Record>, newSize: nat)
    requires perPage > 0 && newSize <= |rows| && ValidMoves(moves, |rows|, newSize) && ListFile(pages, perPage, rows)
    requires forall i :: 0 <= i < |observed| ==> observed[i] < |rows|
    ensures forall p: nat :: Needed(perPage, moves, observed, newSize, p) ==> p < |pages|
    ensures forall p: nat :: MustWrite(perPage, moves, newSize, p) ==> p < PageCount(newSize, perPage)
  {
    forall p: nat | MustWrite(perPage, moves, newSize, p) ensures p < PageCount(newSize, perPage) <= |pages| {
      WrittenPagesKept(perPage, moves, |rows|, newSize, p);
    }
    forall p: nat | Needed(perPage, moves, observed, newSize, p) ensures p < |pages| {
      if i :| 0 <= i < |observed| && observed[i] / perPage == p { RowPage(observed[i], |rows|, perPage); }
      if i :| 0 <= i < |moves| && moves[i].source / perPage == p { RowPage(moves[i].source, |rows|, perPage); }
    }
  }

  lemma ObservedNeeded(pages: seq<Page>, perPage: nat, moves: seq<RecordMove>, observed: seq<nat>, rows: seq<Record>,
                       newSize: nat, i: nat, p: nat)
    requires perPage > 0 && ListFile(pages, perPage, rows) && i < |observed| && observed[i] < |rows| && p == observed[i] / perPage
    ensures p < |pages| && Needed(perPage, moves, observed, newSize, p)
  {
    RowPage(observed[i], |rows|, perPage);
  }

  lemma WrittenNeeded(pages: seq<Page>, perPage: nat, moves: seq<RecordMove>, observed: seq<nat>, rows: seq<Record>,
                      newSize: nat, p: nat)
    requires perPage > 0 && newSize <= |rows| && ValidMoves(moves, |rows|, newSize) && ListFile(pages, perPage, rows)
    requires MustWrite(perPage, moves, newSize, p)
    ensures p < |pages| && Needed(perPage, moves, observed, newSize, p)
  {
    WrittenPagesKept(perPage, moves, |rows|, newSize, p);
  }

  lemma MoveNeeded(pages: seq<Page>, perPage: nat, moves: seq<RecordMove>, observed: seq<nat>, rows: seq<Record>,
                   newSize: nat, i: nat, p: nat, q: nat)
    requires perPage > 0 && newSize <= |rows| && ValidMoves(moves, |rows|, newSize) && ListFile(pages, perPage, rows)
    requires i < |moves| && p == moves[i].source / perPage && q == moves[i].destination / perPage
    ensures p < |pages| && Needed(perPage, moves, observed, newSize, p) && MustWrite(perPage, moves, newSize, q)
  {
    RowPage(moves[i].source, |rows|, perPage);
  }
}
