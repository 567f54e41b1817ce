/** The record files and the directory of the index: the loops that write them, as seen by the rows. */
module IndexFiles {
  import opened Arithmetic
  import opened Outcomes
  import opened PostingList
  import opened RecordPages
  import opened RecordStore
  import opened BatchPlan
  import opened LocationDirectory
  import opened IndexRows
  import opened IndexInsert
  import opened IndexLists
  import D = DirectoryPages

  /**
   Everything the index keeps: resident lists, record files, directory pages, the rows they stand for, counters.
   Interrupted insertions may have left directory entries for `pending` IDs from the next one on.
   */
  datatype IndexState = IndexState(lists: seq<MemoryList>, files: seq<seq<Page>>, pages: seq<D.DirectoryPage>,
                                   rows: seq<seq<Row>>, nextId: nat, activeCount: nat, pending: nat)

  datatype Shape = Shape(subquantizers: nat, recordsPerPage: nat, idsPerPage: nat)

  ghost predicate WellShaped(shape: Shape) {
    shape.subquantizers > 0 && shape.subquantizers % 2 == 0 && shape.recordsPerPage > 0 && shape.idsPerPage > 0
  }

  ghost predicate DirectoryHolds(pages: seq<D.DirectoryPage>, idsPerPage: nat, rows: seq<seq<Row>>, nextId: nat, pending: nat)
    requires idsPerPage > 0
  {
    && Uniform(pages, idsPerPage)
    && PageCount(nextId, idsPerPage) <= |pages| <= PageCount(nextId + pending, idsPerPage)
    && Agrees(View(pages, idsPerPage, nextId), rows, nextId)
    && Unassigned(pages, idsPerPage, nextId + pending)
  }

  ghost predicate Counted(rows: seq<seq<Row>>, nextId: nat, activeCount: nat) {
    |rows| < D.NO_LOCATION && activeCount == RowTotal(rows, |rows|) <= nextId <= UINT32_MAX
  }

  /** The three stores agree on the rows. */
  ghost predicate Consistent(shape: Shape, s: IndexState) {
    && WellShaped(shape)
    && ListsHold(s.lists, shape.subquantizers, s.rows)
    && FilesHold(s.files, shape.recordsPerPage, s.rows)
    && DirectoryHolds(s.pages, shape.idsPerPage, s.rows, s.nextId, s.pending)
    && Counted(s.rows, s.nextId, s.activeCount)
  }

  /** The map from Logical IDs to vectors that the three stores represent. */
  ghost function Represented(shape: Shape, s: IndexState): map<nat, Vector> {
    Contents(View(s.pages, shape.idsPerPage, s.nextId), s.rows, s.nextId)
  }

  ghost predicate FilesHold(files: seq<seq<Page>>, perPage: nat, rows: seq<seq<Row>>)
    requires perPage > 0
  {
    |files| == |rows| && forall l :: 0 <= l < |rows| ==> Published(files[l], perPage, Records(rows[l]))
  }

  /** No file carries pages beyond its rows: no earlier append was interrupted. */
  ghost predicate FilesComplete(files: seq<seq<Page>>, perPage: nat, rows: seq<seq<Row>>)
    requires perPage > 0
  {
    |files| == |rows| && forall l :: 0 <= l < |rows| ==> |files[l]| == PageCount(|rows[l]|, perPage)
  }

  ghost predicate FileAppended(file: seq<Page>, perPage: nat, rows: seq<Row>, more: seq<Row>, visited: bool)
    requires perPage > 0
  {
    if visited then ListFile(file, perPage, Records(rows + more)) else Published(file, perPage, Records(rows))
  }

  lemma AppendedStillPublished(file: seq<Page>, perPage: nat, rows: seq<Row>, more: seq<Row>, visited: bool)
    requires perPage > 0 && FileAppended(file, perPage, rows, more, visited)
    ensures Published(file, perPage, Records(rows))
  {
    if visited {
      PublishedPrefix(file, perPage, Records(rows + more), |rows|);
      assert Records(rows + more)[..|rows|] == Records(rows);
    }
  }

  lemma FileInserted(file: seq<Page>, perPage: nat, rows: seq<seq<Row>>, assignments: seq<nat>, inputs: seq<Encoded>,
                     nextId: nat, touched: seq<nat>, l: nat)
    requires perPage > 0 && l < |rows| && Batch(assignments, inputs, |rows|) && Touched(touched, assignments, |rows|)
    requires FileAppended(file, perPage, rows[l], NewRows(assignments, inputs, nextId, l), l in touched)
    ensures Published(file, perPage, Records(Inserted(rows, assignments, inputs, nextId)[l]))
    ensures l in touched ==> |file| == PageCount(|Inserted(rows, assignments, inputs, nextId)[l]|, perPage)
    ensures l !in touched ==> Inserted(rows, assignments, inputs, nextId)[l] == rows[l]
  {
    if l !in touched {
      assert Positions(assignments, l) == [];
    }
  }

  /** Files that hold the batch hold the old rows. */
  lemma FilesHoldPrefix(files: seq<seq<Page>>, perPage: nat, rows: seq<seq<Row>>, assignments: seq<nat>, inputs: seq<Encoded>, nextId: nat)
    requires perPage > 0 && |assignments| == |inputs|
    requires FilesHold(files, perPage, Inserted(rows, assignments, inputs, nextId))
    ensures FilesHold(files, perPage, rows)
  {
    var next := Inserted(rows, assignments, inputs, nextId);
    forall l | 0 <= l < |rows| ensures Published(files[l], perPage, Records(rows[l])) {
      assert Published(files[l], perPage, Records(next[l]));
      PublishedPrefix(files[l], perPage, Records(next[l]), |rows[l]|);
      assert Records(next[l])[..|rows[l]|] == Records(rows[l]);
    }
  }

  lemma FilesInserted(files: seq<seq<Page>>, before: seq<seq<Page>>, perPage: nat, rows: seq<seq<Row>>,
                      assignments: seq<nat>, inputs: seq<Encoded>, nextId: nat, touched: seq<nat>)
    requires perPage > 0 && |files| == |rows| == |before| && Batch(assignments, inputs, |rows|) && Touched(touched, assignments, |rows|)
    requires forall l: nat :: l < |rows| ==>
      FileAppended(files[l], perPage, rows[l], NewRows(assignments, inputs, nextId, l), l in touched)
    requires forall l: nat :: l < |rows| && l !in touched ==> files[l] == before[l]
    ensures FilesHold(files, perPage, Inserted(rows, assignments, inputs, nextId))
    ensures FilesHold(files, perPage, rows)
    ensures FilesComplete(before, perPage, rows) ==> FilesComplete(files, perPage, Inserted(rows, assignments, inputs, nextId))
  {
    forall l: nat | l < |rows|
      ensures Published(files[l], perPage, Records(Inserted(rows, assignments, inputs, nextId)[l]))
      ensures l in touched ==> |files[l]| == PageCount(|Inserted(rows, assignments, inputs, nextId)[l]|, perPage)
      ensures l !in touched ==> Inserted(rows, assignments, inputs, nextId)[l] == rows[l]
    {
      FileInserted(files[l], perPage, rows, assignments, inputs, nextId, touched, l);
    }
    FilesHoldPrefix(files, perPage, rows, assignments, inputs, nextId);
  }

  /** Every list's file can be written often enough to append `count` rows to it. */
  ghost predicate AmpleToInsert(io: nat -> nat, rows: seq<seq<Row>>, count: nat, perPage: nat)
    requires perPage > 0
  {
    forall l :: 0 <= l < |rows| ==> io(l) >= PageCount(|rows[l]| + count, perPage) + 2
  }

  /** Every list's file can be written often enough to commit any deletion from it. */
  ghost predicate AmpleToErase(io: nat -> nat, rows: seq<seq<Row>>, perPage: nat)
    requires perPage > 0
  {
    forall l :: 0 <= l < |rows| ==> io(l) > PageCount(|rows[l]|, perPage)
  }

  /** One list's slice; the old rows stay readable whatever happens. */
  method AppendFile(store: ListFileRecordStore, l: nat, oldSize: nat, slice: seq<Row>, io: nat, ghost rows: seq<Row>, ghost count: nat)
    returns (r: Result<()>)
    requires store.Valid() && l < store.nlist && oldSize == |rows| && slice != [] && |slice| <= count && |rows| + count <= UINT32_MAX
    requires Published(store.files[l], store.perPage, Records(rows))
    modifies store
    ensures store.Valid() && store.OtherFilesSame(l)
    ensures r.Ok? ==> ListFile(store.files[l], store.perPage, Records(rows + slice))
    ensures r.Err? ==> Published(store.files[l], store.perPage, Records(rows)) && r.error in {InvalidArgument, OutOfRange, RuntimeError}
    ensures io >= PageCount(|rows| + count, store.perPage) + 2 ==> r.Ok?
  {
    PageCountMonotone(|rows| + |slice|, |rows| + count, store.perPage);
    r := store.AppendRecords(l, oldSize, Records(slice), io, Records(rows));
    ConcatRows(rows, slice);
  }

  /** Appends every touched list's slice to its file. Whatever fails, the old rows stay readable. */
  method AppendRecordFiles(store: ListFileRecordStore, lists: seq<MemoryList>, plan: ListBatchPlan, grouped: seq<Row>, io: nat -> nat,
                           ghost assignments: seq<nat>, ghost inputs: seq<Encoded>, ghost nextId: nat, ghost rows: seq<seq<Row>>)
    returns (r: Result<()>)
    requires store.Valid() && |rows| == store.nlist == |lists| && Batch(assignments, inputs, |rows|)
    requires Touched(plan.touchedLists, assignments, |rows|)
    requires forall l: nat :: l < |rows| ==> GroupRows(plan, grouped, assignments, inputs, nextId, l)
    requires forall l :: 0 <= l < |rows| ==> lists[l].logicalSize == |rows[l]| && |rows[l]| + |inputs| <= UINT32_MAX
    requires FilesHold(store.files, store.perPage, rows)
    modifies store
    ensures store.Valid() && |store.files| == |rows|
    ensures r.Ok? ==> FilesHold(store.files, store.perPage, Inserted(rows, assignments, inputs, nextId))
    ensures r.Ok? && old(FilesComplete(store.files, store.perPage, rows)) ==>
      FilesComplete(store.files, store.perPage, Inserted(rows, assignments, inputs, nextId))
    ensures FilesHold(store.files, store.perPage, rows)
    ensures AmpleToInsert(io, rows, |inputs|, store.perPage) ==> r.Ok?
    ensures r.Err? ==> r.error in {InvalidArgument, OutOfRange, RuntimeError}
  {
    var touched := plan.touchedLists;
    for t := 0 to |touched|
      invariant store.Valid()
      invariant forall l: nat :: l < |rows| ==>
        FileAppended(store.files[l], store.perPage, rows[l], NewRows(assignments, inputs, nextId, l), l in touched[..t])
      invariant forall l: nat :: l < |rows| && l !in touched[..t] ==> store.files[l] == old(store.files)[l]
    {
      var l := touched[t];
      assert l in touched;
      TouchedEarlier(touched, t);
      ghost var more := NewRows(assignments, inputs, nextId, l);
      assert FileAppended(store.files[l], store.perPage, rows[l], more, false);
      assert GroupRows(plan, grouped, assignments, inputs, nextId, l);
      var slice := grouped[plan.offsets[l]..plan.offsets[l + 1]];
      ghost var before := store.files;
      r := AppendFile(store, l, lists[l].logicalSize, slice, io(l), rows[l], |inputs|);
      if r.Err? {
        forall k: nat | k < |rows| ensures Published(store.files[k], store.perPage, Records(rows[k])) {
          if k != l {
            AppendedStillPublished(store.files[k], store.perPage, rows[k], NewRows(assignments, inputs, nextId, k), k in touched[..t]);
          }
        }
        return;
      }
      forall k: nat ensures k in touched[..t + 1] <==> k in touched[..t] || k == l { TouchedNext(touched, t, k); }
    }
    assert touched[..|touched|] == touched;
    FilesInserted(store.files, old(store.files), store.perPage, rows, assignments, inputs, nextId, touched);
    return Ok(());
  }

  /** The directory learns where every new row is; no other ID changes. */
  method WriteInsertUpdates(directory: ExternalLocationDirectory, updates: seq<D.Update>, io: nat, ghost assignments: seq<nat>,
                            ghost inputs: seq<Encoded>, ghost nextId: nat, ghost rows: seq<seq<Row>>, ghost pending: nat)
    returns (r: Result<()>)
    requires directory.Valid() && Batch(assignments, inputs, |rows|)
    requires updates == InsertUpdates(rows, assignments, nextId)
    requires DirectoryHolds(directory.pages, directory.perPage, rows, nextId, pending) && Addressable(rows, |inputs|)
    modifies directory
    ensures directory.Valid()
    ensures r.Ok? ==>
      && DirectoryHolds(directory.pages, directory.perPage, Inserted(rows, assignments, inputs, nextId), nextId + |inputs|,
                        Max(pending, |inputs|) - |inputs|)
      && Contents(View(directory.pages, directory.perPage, nextId + |inputs|), Inserted(rows, assignments, inputs, nextId), nextId + |inputs|)
         == Contents(View(old(directory.pages), directory.perPage, nextId), rows, nextId) + Fresh(assignments, inputs, nextId)
    ensures r.Err? ==> r.error == RuntimeError && Stopped(directory.pages, old(directory.pages), directory.perPage, nextId)
    ensures r.Err? ==> DirectoryHolds(directory.pages, directory.perPage, rows, nextId, Max(pending, |inputs|))
    ensures io > PageCount(nextId + Max(pending, |inputs|), directory.perPage) ==> r.Ok?
  {
    ghost var pages := directory.pages;
    InsertKeysDistinct(rows, assignments, nextId);
    InsertDense(rows, assignments, nextId);
    DenseIdsLeaveNoGap(|pages|, directory.perPage, updates, nextId, |inputs|);
    PageCountMonotone(nextId + pending, nextId + Max(pending, |inputs|), directory.perPage);
    PageCountMonotone(nextId + |inputs|, nextId + Max(pending, |inputs|), directory.perPage);
    ghost var done;
    r, done := directory.WriteBatch(updates, io);
    if r.Ok? {
      InsertWritten(pages, directory.pages, directory.perPage, rows, nextId, pending, assignments, inputs);
    } else {
      var n := LeadingDense(done, updates, nextId, |inputs|);
      InsertStopped(pages, directory.pages, directory.perPage, rows, nextId, pending, done, n, |inputs|);
    }
  }

  /** The entries of all IDs handed out so far are as they were. */
  ghost predicate Stopped(pages: seq<D.DirectoryPage>, was: seq<D.DirectoryPage>, perPage: nat, nextId: nat)
    requires perPage > 0
  {
    forall id: nat :: id < nextId ==> D.EntryAt(pages, perPage, id) == D.EntryAt(was, perPage, id)
  }

  lemma InsertWritten(pages: seq<D.DirectoryPage>, pages': seq<D.DirectoryPage>, perPage: nat, rows: seq<seq<Row>>, nextId: nat,
                      pending: nat, assignments: seq<nat>, inputs: seq<Encoded>)
    requires perPage > 0 && Batch(assignments, inputs, |rows|) && Addressable(rows, |inputs|)
    requires DirectoryHolds(pages, perPage, rows, nextId, pending)
    requires D.Reflects(pages', pages, perPage, InsertUpdates(rows, assignments, nextId))
    ensures DirectoryHolds(pages', perPage, Inserted(rows, assignments, inputs, nextId), nextId + |inputs|, Max(pending, |inputs|) - |inputs|)
    ensures Contents(View(pages', perPage, nextId + |inputs|), Inserted(rows, assignments, inputs, nextId), nextId + |inputs|)
         == Contents(View(pages, perPage, nextId), rows, nextId) + Fresh(assignments, inputs, nextId)
  {
    var updates, end := InsertUpdates(rows, assignments, nextId), nextId + |inputs|;
    var dir, dir' := View(pages, perPage, nextId), View(pages', perPage, end);
    InsertDense(rows, assignments, nextId);
    DenseIdsLeaveNoGap(|pages|, perPage, updates, nextId, |inputs|);
    forall id: nat ensures QuietWrite(dir, dir', updates, id) {
      NoGapIsQuiet(pages, pages', perPage, updates, nextId, end, id);
    }
    InsertAgrees(dir, dir', rows, nextId, assignments, inputs);
    InsertContents(dir, dir', rows, nextId, assignments, inputs);
    StaysUnassigned(pages, pages', perPage, updates, nextId + Max(pending, |inputs|));
    PageCountMonotone(nextId + pending, nextId + Max(pending, |inputs|), perPage);
    PageCountMonotone(end, nextId + Max(pending, |inputs|), perPage);
  }

  /** An insertion that stops while writing the directory leaves every known entry alone. */
  lemma InsertStopped(pages: seq<D.DirectoryPage>, pages': seq<D.DirectoryPage>, perPage: nat, rows: seq<seq<Row>>, nextId: nat,
                      pending: nat, done: seq<D.Update>, n: nat, count: nat)
    requires perPage > 0 && DirectoryHolds(pages, perPage, rows, nextId, pending)
    requires DenseKeys(done, nextId, n) && n <= count && D.Reflects(pages', pages, perPage, done)
    ensures Stopped(pages', pages, perPage, nextId)
    ensures DirectoryHolds(pages', perPage, rows, nextId, Max(pending, count))
  {
    DenseIdsLeaveNoGap(|pages|, perPage, done, nextId, n);
    forall id: nat | id < nextId ensures D.EntryAt(pages', perPage, id) == D.EntryAt(pages, perPage, id) {
      assert D.EntryAt(pages', perPage, id) == D.WrittenEntry(pages, perPage, done, id);
      assert Grounded(View(pages, perPage, nextId), rows, nextId, id);
      QuotientNat(id, perPage);
    }
    SameAgreement(View(pages, perPage, nextId), View(pages', perPage, nextId), rows, nextId);
    StaysUnassigned(pages, pages', perPage, done, nextId + Max(pending, count));
    PageCountMonotone(nextId + pending, nextId + Max(pending, count), perPage);
    PageCountMonotone(nextId + n, nextId + Max(pending, count), perPage);
  }

  lemma SameAgreement(dir: Directory, dir': Directory, rows: seq<seq<Row>>, nextId: nat)
    requires Agrees(dir, rows, nextId) && forall id: nat :: dir'(id) == dir(id)
    ensures Agrees(dir', rows, nextId)
    ensures Contents(dir', rows, nextId) == Contents(dir, rows, nextId)
  {
    forall l: nat, o: nat ensures Located(dir', rows, nextId, l, o) { assert Located(dir, rows, nextId, l, o); }
    forall id: nat ensures Grounded(dir', rows, nextId, id) { assert Grounded(dir, rows, nextId, id); }
  }

  /** Stopped writes do not show in the represented map. */
  lemma StoppedContents(pages: seq<D.DirectoryPage>, was: seq<D.DirectoryPage>, perPage: nat, rows: seq<seq<Row>>, nextId: nat)
    requires perPage > 0 && Stopped(pages, was, perPage, nextId) && Agrees(View(was, perPage, nextId), rows, nextId)
    ensures Contents(View(pages, perPage, nextId), rows, nextId) == Contents(View(was, perPage, nextId), rows, nextId)
  {
    SameAgreement(View(was, perPage, nextId), View(pages, perPage, nextId), rows, nextId);
  }
}
