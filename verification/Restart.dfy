/** What the index is after a restart: a checkpoint loaded over the record files and the directory left in place. */
module Restart {
  import opened Arithmetic
  import opened Outcomes
  import P = Permutations
  import opened Pq4Layout
  import opened PostingPacking
  import opened PostingList
  import opened BatchPlan
  import opened RecordPages
  import opened RecordStore
  import opened LocationDirectory
  import opened IndexRows
  import opened IndexLists
  import opened IndexInsert
  import opened IndexFiles
  import opened PostingFile
  import opened ExternalListIndex
  import C = Checkpoint

  function SnapshotOf(s: IndexState): C.Snapshot {
    C.Snapshot(s.lists, s.nextId, s.activeCount)
  }

  lemma {:induction false} SizesAreTotal(rows: seq<seq<Row>>, sizes: seq<nat>, lists: nat)
    requires |sizes| == |rows| && lists <= |rows| && forall l :: 0 <= l < |rows| ==> sizes[l] == |rows[l]|
    ensures P.Total(sizes[..lists]) == RowTotal(rows, lists)
  {
    if lists > 0 {
      SizesAreTotal(rows, sizes, lists - 1);
      assert sizes[..lists][..lists - 1] == sizes[..lists - 1];
    } else {
      assert sizes[..0] == [];
    }
  }

  /** Files of the sizes at the checkpoint pass every check of a load. */
  lemma SameSizesLoad(shape: Shape, s: IndexState, files: seq<seq<Page>>)
    requires Consistent(shape, s)
    ensures C.Loadable(SnapshotOf(s), files, shape.recordsPerPage) <==> FilesComplete(files, shape.recordsPerPage, s.rows)
  {
    ListSizes(s.lists, shape.subquantizers, s.rows);
    var sizes := SizesOf(s.lists);
    SizesAreTotal(s.rows, sizes, |s.rows|);
    assert sizes[..|s.rows|] == sizes;
  }

  // ---------------------------------------------------------------- when a load is consistent

  function RowRead(slot: Slot, posting: Posting): Row {
    match slot
    case Holds(record) => Row(record.id, record.payload, posting)
    case NoSlot => Row(0, [], posting)
  }

  /** One list as a load finds it: records from the file, postings from the checkpoint, size from the checkpoint. */
  function ListRead(list: MemoryList, subquantizers: nat, file: seq<Page>, perPage: nat): (rows: seq<Row>)
    requires perPage > 0
    ensures |rows| == list.logicalSize
  {
    seq(list.logicalSize, o requires 0 <= o => RowRead(SlotAt(file, perPage, o), PostingAt(list, subquantizers, o)))
  }

  function RowsRead(lists: seq<MemoryList>, subquantizers: nat, files: seq<seq<Page>>, perPage: nat): (rows: seq<seq<Row>>)
    requires perPage > 0 && |files| == |lists|
    ensures |rows| == |lists|
  {
    seq(|lists|, l requires 0 <= l < |lists| => ListRead(lists[l], subquantizers, files[l], perPage))
  }

  /** The index after a load over these files, for the rows it is taken to stand for. */
  function LoadedState(s: C.Snapshot, subquantizers: nat, files: seq<seq<Page>>, pages: seq<D.DirectoryPage>,
                       rows: seq<seq<Row>>, pending: nat): IndexState
    requires AllCovered(s.lists, subquantizers)
  {
    IndexState(TrimmedAll(s.lists, subquantizers), files, pages, rows, s.nextId, s.activeCount, pending)
  }

  /** List files consist of whole pages. */
  ghost predicate WholePages(files: seq<seq<Page>>, perPage: nat) {
    forall l :: 0 <= l < |files| ==> Uniform(files[l], perPage)
  }

  lemma TrimmedKeep(shape: Shape, s: IndexState)
    requires Consistent(shape, s) && AllCovered(s.lists, shape.subquantizers)
    ensures ListsHold(TrimmedAll(s.lists, shape.subquantizers), shape.subquantizers, s.rows)
  {
    var trimmed := TrimmedAll(s.lists, shape.subquantizers);
    forall l | 0 <= l < |s.rows| ensures ListHolds(trimmed[l], shape.subquantizers, s.rows[l]) {
      assert ListHolds(s.lists[l], shape.subquantizers, s.rows[l]);
      TrimmedHolds(s.lists[l], shape.subquantizers, s.rows[l]);
    }
  }

  /** A checkpoint finds no list shorter than its logical tiles. */
  lemma AlwaysCovered(shape: Shape, s: IndexState)
    requires Consistent(shape, s)
    ensures AllCovered(s.lists, shape.subquantizers)
  {
    forall l | 0 <= l < |s.rows| ensures Covered(s.lists[l], shape.subquantizers) {
      assert ListHolds(s.lists[l], shape.subquantizers, s.rows[l]);
      MulMonotone(BlocksFor(|s.rows[l]|), BlocksOf(s.lists[l]), BlockStride(shape.subquantizers));
    }
  }

  lemma SlotOfRow(file: seq<Page>, perPage: nat, rows: seq<Row>, o: nat)
    requires perPage > 0 && Published(file, perPage, Records(rows)) && o < |rows|
    ensures SlotAt(file, perPage, o) == Holds(RecordOf(rows[o]))
  {
    assert Records(rows)[o] == RecordOf(rows[o]);
  }

  lemma PostingOfRow(list: MemoryList, subquantizers: nat, rows: seq<Row>, o: nat)
    requires ListHolds(list, subquantizers, rows) && o < |rows|
    ensures PostingAt(list, subquantizers, o) == rows[o].posting
  {
    assert PostingsOf(rows)[o] == rows[o].posting;
  }

  lemma PostingsRead(list: MemoryList, subquantizers: nat, file: seq<Page>, perPage: nat, was: seq<Row>)
    requires ListHolds(list, subquantizers, was) && perPage > 0
    ensures PostingsOf(ListRead(list, subquantizers, file, perPage)) == PostingsOf(was)
  {
    var read := ListRead(list, subquantizers, file, perPage);
    forall o | 0 <= o < |was| ensures read[o].posting == was[o].posting {
      PostingOfRow(list, subquantizers, was, o);
    }
  }

  lemma RecordsRead(list: MemoryList, subquantizers: nat, file: seq<Page>, perPage: nat)
    requires perPage > 0 && Uniform(file, perPage) && |file| == PageCount(list.logicalSize, perPage)
    ensures Published(file, perPage, Records(ListRead(list, subquantizers, file, perPage)))
  {
    var read := ListRead(list, subquantizers, file, perPage);
    forall o | 0 <= o < |read| ensures SlotAt(file, perPage, o) == Holds(Records(read)[o]) {
      RowPage(o, |read|, perPage);
    }
  }

  /** The postings of the checkpoint and a file that fits it hold the rows read back. */
  lemma ReadHolds(list: MemoryList, trimmed: MemoryList, subquantizers: nat, file: seq<Page>, perPage: nat, was: seq<Row>)
    requires ListHolds(list, subquantizers, was) && ListHolds(trimmed, subquantizers, was)
    requires perPage > 0 && Uniform(file, perPage) && |file| == PageCount(list.logicalSize, perPage)
    ensures ListHolds(trimmed, subquantizers, ListRead(list, subquantizers, file, perPage))
    ensures Published(file, perPage, Records(ListRead(list, subquantizers, file, perPage)))
  {
    PostingsRead(list, subquantizers, file, perPage, was);
    RecordsRead(list, subquantizers, file, perPage);
  }

  /** They hold no others. */
  lemma OnlyRead(list: MemoryList, trimmed: MemoryList, subquantizers: nat, file: seq<Page>, perPage: nat, was: seq<Row>, rows: seq<Row>)
    requires ListHolds(list, subquantizers, was) && ListHolds(trimmed, subquantizers, was)
    requires perPage > 0 && ListHolds(trimmed, subquantizers, rows) && Published(file, perPage, Records(rows))
    ensures rows == ListRead(list, subquantizers, file, perPage)
  {
    var read := ListRead(list, subquantizers, file, perPage);
    assert |rows| == |was|;
    forall o | 0 <= o < |rows| ensures rows[o] == read[o] {
      PostingOfRow(list, subquantizers, was, o);
      PostingOfRow(trimmed, subquantizers, was, o);
      PostingOfRow(trimmed, subquantizers, rows, o);
      SlotOfRow(file, perPage, rows, o);
    }
  }

  lemma ListsAreRead(shape: Shape, s: IndexState, files: seq<seq<Page>>, rows: seq<seq<Row>>)
    requires Consistent(shape, s) && AllCovered(s.lists, shape.subquantizers) && WholePages(files, shape.recordsPerPage)
    requires C.FilesFit(files, shape.recordsPerPage, SizesOf(s.lists))
    ensures ListsHold(TrimmedAll(s.lists, shape.subquantizers), shape.subquantizers, rows) && FilesHold(files, shape.recordsPerPage, rows)
       <==> rows == RowsRead(s.lists, shape.subquantizers, files, shape.recordsPerPage)
  {
    TrimmedKeep(shape, s);
    var trimmed := TrimmedAll(s.lists, shape.subquantizers);
    var read := RowsRead(s.lists, shape.subquantizers, files, shape.recordsPerPage);
    if |rows| == |files| {
      forall l | 0 <= l < |files|
        ensures ListHolds(trimmed[l], shape.subquantizers, rows[l]) && Published(files[l], shape.recordsPerPage, Records(rows[l]))
           <==> rows[l] == read[l]
      {
        assert ListHolds(s.lists[l], shape.subquantizers, s.rows[l]) && SizesOf(s.lists)[l] == s.lists[l].logicalSize;
        ReadHolds(s.lists[l], trimmed[l], shape.subquantizers, files[l], shape.recordsPerPage, s.rows[l]);
        if ListHolds(trimmed[l], shape.subquantizers, rows[l]) && Published(files[l], shape.recordsPerPage, Records(rows[l])) {
          OnlyRead(s.lists[l], trimmed[l], shape.subquantizers, files[l], shape.recordsPerPage, s.rows[l], rows[l]);
        }
      }
    }
  }

  /**
   An accepted load is consistent exactly if the directory agrees with the rows read back, and it stands for no
   others; these are the rows at the checkpoint exactly if the record files still hold them.
   */
  lemma LoadConsistent(shape: Shape, s: IndexState, files: seq<seq<Page>>, pages: seq<D.DirectoryPage>, rows: seq<seq<Row>>, pending: nat)
    requires Consistent(shape, s) && AllCovered(s.lists, shape.subquantizers) && WholePages(files, shape.recordsPerPage)
    requires C.Loadable(SnapshotOf(s), files, shape.recordsPerPage)
    ensures Consistent(shape, LoadedState(SnapshotOf(s), shape.subquantizers, files, pages, rows, pending)) <==>
      rows == RowsRead(s.lists, shape.subquantizers, files, shape.recordsPerPage)
      && DirectoryHolds(pages, shape.idsPerPage, rows, s.nextId, pending)
    ensures RowsRead(s.lists, shape.subquantizers, files, shape.recordsPerPage) == s.rows <==> FilesHold(files, shape.recordsPerPage, s.rows)
  {
    TrimmedKeep(shape, s);
    ListsAreRead(shape, s, files, s.rows);
    ListsAreRead(shape, s, files, rows);
    var sizes := SizesOf(s.lists);
    if rows == RowsRead(s.lists, shape.subquantizers, files, shape.recordsPerPage) {
      SizesAreTotal(rows, sizes, |rows|);
      assert sizes[..|rows|] == sizes;
    }
  }

  /** Two directories that agree with the same rows represent the same map. */
  lemma SameRowsSameMap(dir: Directory, dir': Directory, rows: seq<seq<Row>>, nextId: nat)
    requires Agrees(dir, rows, nextId) && Agrees(dir', rows, nextId) && Addressable(rows, 0)
    ensures Contents(dir, rows, nextId) == Contents(dir', rows, nextId)
  {
    ContentsAreRows(dir, rows, nextId);
    ContentsAreRows(dir', rows, nextId);
    forall id | id in Contents(dir, rows, nextId) || id in Contents(dir', rows, nextId)
      ensures id in Contents(dir, rows, nextId) && id in Contents(dir', rows, nextId)
      ensures Contents(dir, rows, nextId)[id] == Contents(dir', rows, nextId)[id]
    {
      var at := if id in Contents(dir, rows, nextId) then dir(id).location else dir'(id).location;
      assert RowAt(rows, at, id);
    }
  }

  /** Files and directory still stand for the rows of the checkpoint: whatever was tried since then left them alone. */
  ghost predicate Undisturbed(shape: Shape, s: IndexState, files: seq<seq<Page>>, pages: seq<D.DirectoryPage>, pending: nat) {
    && shape.recordsPerPage > 0 && shape.idsPerPage > 0
    && FilesHold(files, shape.recordsPerPage, s.rows) && DirectoryHolds(pages, shape.idsPerPage, s.rows, s.nextId, pending)
  }

  /** Over undisturbed files a loaded state is consistent and represents the same map. */
  lemma LoadRestores(shape: Shape, s: IndexState, files: seq<seq<Page>>, pages: seq<D.DirectoryPage>, pending: nat)
    requires Consistent(shape, s) && AllCovered(s.lists, shape.subquantizers) && Undisturbed(shape, s, files, pages, pending)
    ensures var loaded := LoadedState(SnapshotOf(s), shape.subquantizers, files, pages, s.rows, pending);
      Consistent(shape, loaded) && SameMap(shape, s, loaded)
  {
    TrimmedKeep(shape, s);
    RowsAddressable(s, 0);
    SameRowsSameMap(View(s.pages, shape.idsPerPage, s.nextId), View(pages, shape.idsPerPage, s.nextId), s.rows, s.nextId);
  }

  /** Insertions that stopped part way do not disturb. */
  lemma StoppedUndisturbed(shape: Shape, s: IndexState, now: IndexState, count: nat)
    requires Consistent(shape, s) && Consistent(shape, now) && LeftAlone(shape, s, now, count)
    ensures Undisturbed(shape, s, now.files, now.pages, now.pending)
  {
  }

  // ---------------------------------------------------------------- an accepted load that is not consistent

  /** Consistent files carry known IDs only. */
  lemma HeldIsKnown(shape: Shape, s: IndexState, l: nat, o: nat)
    requires Consistent(shape, s) && l < |s.rows| && o < |s.rows[l]|
    ensures SlotAt(s.files[l], shape.recordsPerPage, o).Holds? && SlotAt(s.files[l], shape.recordsPerPage, o).record.id < s.nextId
  {
    SlotOfRow(s.files[l], shape.recordsPerPage, s.rows[l], o);
    assert Located(View(s.pages, shape.idsPerPage, s.nextId), s.rows, s.nextId, l, o);
  }

  /**
   Deleting rows and inserting as many into the same lists after the checkpoint goes unnoticed by a load, and what
   it restores is inconsistent whatever rows it is taken to stand for.
   */
  lemma ReplacedRowsAccepted(shape: Shape, s: IndexState, now: IndexState, l: nat, o: nat, rows: seq<seq<Row>>, pending: nat)
    requires Consistent(shape, s) && AllCovered(s.lists, shape.subquantizers)
    requires Consistent(shape, now) && FilesComplete(now.files, shape.recordsPerPage, now.rows)
    requires |now.rows| == |s.rows| && forall k :: 0 <= k < |s.rows| ==> |now.rows[k]| == |s.rows[k]|
    requires l < |now.rows| && o < |now.rows[l]| && s.nextId <= now.rows[l][o].id
    ensures C.Loadable(SnapshotOf(s), now.files, shape.recordsPerPage)
    ensures !FilesHold(now.files, shape.recordsPerPage, s.rows)
    ensures !Consistent(shape, LoadedState(SnapshotOf(s), shape.subquantizers, now.files, now.pages, rows, pending))
  {
    SameSizesLoad(shape, s, now.files);
    SlotOfRow(now.files[l], shape.recordsPerPage, now.rows[l], o);
    if FilesHold(now.files, shape.recordsPerPage, s.rows) {
      HeldIsKnown(shape, s.(files := now.files), l, o);
      assert false;
    }
    var loaded := LoadedState(SnapshotOf(s), shape.subquantizers, now.files, now.pages, rows, pending);
    if Consistent(shape, loaded) {
      LoadedSize(shape, s, loaded, l);
      HeldIsKnown(shape, loaded, l, o);
      assert false;
    }
  }

  lemma LoadedSize(shape: Shape, s: IndexState, loaded: IndexState, l: nat)
    requires Consistent(shape, s) && Consistent(shape, loaded) && AllCovered(s.lists, shape.subquantizers)
    requires loaded.lists == TrimmedAll(s.lists, shape.subquantizers) && l < |s.rows|
    ensures l < |loaded.rows| && |loaded.rows[l]| == |s.rows[l]|
  {
    assert ListHolds(s.lists[l], shape.subquantizers, s.rows[l]) && ListHolds(loaded.lists[l], shape.subquantizers, loaded.rows[l]);
  }

  /** A one-list index without rows, IDs and leftovers beyond `nextId`, with one row and one ID to a page. */
  ghost predicate OneEmptyList(shape: Shape, s: IndexState, nextId: nat) {
    && Consistent(shape, s) && shape == Shape(2, 1, 1) && s.rows == [[]] && s.nextId == nextId < 2 && s.pending == 0
    && FilesComplete(s.files, 1, s.rows)
  }

  ghost predicate OneRow(shape: Shape, s: IndexState, id: nat) {
    && Consistent(shape, s) && shape == Shape(2, 1, 1) && s.nextId == id + 1 && s.pending == 0
    && |s.rows| == 1 && |s.rows[0]| == 1 && s.rows[0][0].id == id && FilesComplete(s.files, 1, s.rows)
    && id in Represented(shape, s)
  }

  lemma OneGained(shape: Shape, was: IndexState, now: IndexState, input: Encoded)
    requires OneEmptyList(shape, was, was.nextId) && GainsBatch(shape, was, now, [0], [input])
    requires Consistent(shape, now) && FilesComplete(now.files, 1, now.rows)
    ensures OneRow(shape, now, was.nextId)
  {
    assert Positions([0], 0) == [0];
    assert now.rows[0] == [] + NewRows([0], [input], was.nextId, 0);
    assert was.nextId in Fresh([0], [input], was.nextId);
  }

  lemma OneLost(shape: Shape, was: IndexState, now: IndexState)
    requires OneRow(shape, was, 0) && LosesBatch(shape, was, now, [0])
    requires Consistent(shape, now) && FilesComplete(now.files, 1, now.rows)
    ensures OneEmptyList(shape, now, 1)
  {
    assert RowTotal(was.rows, 1) == RowTotal(was.rows, 0) + |was.rows[0]|;
    assert RowTotal(now.rows, 1) == RowTotal(now.rows, 0) + |now.rows[0]|;
    assert now.rows == [now.rows[0]];
  }

  method InsertOne(index: ExternalListRecastIndex, input: Encoded) returns (r: Result<seq<nat>>)
    requires index.Valid() && OneEmptyList(index.TheShape(), index.State(), index.nextId) && |input.posting.code| == 1
    modifies index, index.store, index.directory
    ensures index.Valid() && OneRow(index.TheShape(), index.State(), old(index.nextId))
  {
    ghost var was := index.State();
    assert AmpleToInsert(_ => 3, was.rows, 1, 1);
    r := index.InsertBatch([0], [input], _ => 3, 5);
    OneGained(index.TheShape(), was, index.State(), input);
  }

  lemma OneErasable(shape: Shape, s: IndexState)
    requires OneRow(shape, s, 0)
    ensures Erasable(Represented(shape, s), [0]) && AmpleToErase(_ => 3, s.rows, 1) && |s.pages| < 3
  {
  }

  method EraseOne(index: ExternalListRecastIndex) returns (r: Result<nat>)
    requires index.Valid() && OneRow(index.TheShape(), index.State(), 0)
    modifies index, index.store, index.directory
    ensures index.Valid() && OneEmptyList(index.TheShape(), index.State(), 1)
  {
    ghost var was := index.State();
    ghost var interrupted: bool;
    OneErasable(index.TheShape(), was);
    r, interrupted := index.EraseBatch([0], _ => 3, 3);
    OneLost(index.TheShape(), was, index.State());
  }

  /** Such a replacement: one row inserted, checkpointed and deleted, and another one inserted. */
  method ReplaceAfterCheckpoint(first: Encoded, second: Encoded, blank: Record)
    returns (index: ExternalListRecastIndex, ghost was: IndexState)
    requires |first.posting.code| == |second.posting.code| == 1
    ensures fresh(index) && OneRow(index.TheShape(), was, 0) && OneRow(index.TheShape(), index.State(), 1)
    ensures C.Loadable(SnapshotOf(was), index.store.files, 1) && AllCovered(was.lists, 2)
    ensures forall rows, pending ::
      !Consistent(index.TheShape(), LoadedState(SnapshotOf(was), 2, index.store.files, index.directory.pages, rows, pending))
  {
    index := new ExternalListRecastIndex(1, 1, 1, 2, blank);
    EmptyIndex(index.TheShape(), index.State());
    var inserted := InsertOne(index, first);
    was := index.State();
    var erased := EraseOne(index);
    inserted := InsertOne(index, second);
    NeitherKept(index.TheShape(), was, index.State());
  }

  lemma EmptyIndex(shape: Shape, s: IndexState)
    requires Consistent(shape, s) && shape == Shape(2, 1, 1) && |s.rows| == 1 && s.nextId == 0 && s.pending == 0
    requires FilesComplete(s.files, 1, s.rows)
    ensures OneEmptyList(shape, s, 0)
  {
    assert RowTotal(s.rows, 1) == RowTotal(s.rows, 0) + |s.rows[0]|;
    assert s.rows == [s.rows[0]];
  }

  lemma NeitherKept(shape: Shape, was: IndexState, now: IndexState)
    requires OneRow(shape, was, 0) && OneRow(shape, now, 1)
    ensures C.Loadable(SnapshotOf(was), now.files, 1) && AllCovered(was.lists, 2)
    ensures forall rows, pending :: !Consistent(shape, LoadedState(SnapshotOf(was), 2, now.files, now.pages, rows, pending))
  {
    AlwaysCovered(shape, was);
    ReplacedRowsAccepted(shape, was, now, 0, 0, now.rows, 0);
    forall rows, pending ensures !Consistent(shape, LoadedState(SnapshotOf(was), 2, now.files, now.pages, rows, pending)) {
      ReplacedRowsAccepted(shape, was, now, 0, 0, rows, pending);
    }
  }

  // ---------------------------------------------------------------- opening an index again

  /**
   The constructor over existing storage. It succeeds exactly if a checkpoint was published and its sizes fit the
   record files. The index then stands for the rows read back, validly so exactly if the directory agrees with
   them; over undisturbed storage it represents the map of the checkpoint.
   */
  method Reopen(subquantizers: nat, files: C.Files, store: ListFileRecordStore, directory: ExternalLocationDirectory,
                ghost generation: nat, ghost was: IndexState, ghost pending: nat)
    returns (r: Result<(C.CheckpointRoot, ExternalListRecastIndex)>)
    requires store.Valid() && directory.Valid() && C.Stands(files, subquantizers, generation, SnapshotOf(was))
    ensures r.Ok? <==> generation != 0 && C.Loadable(SnapshotOf(was), store.files, store.perPage)
    ensures r.Err? ==> r.error == RuntimeError
    ensures r.Ok? ==> fresh(r.value.0) && r.value.0.Valid() && r.value.0.generation == generation && r.value.0.files == files
    ensures r.Ok? ==> fresh(r.value.1) && r.value.1.store == store && r.value.1.directory == directory
    ensures r.Ok? ==> AllCovered(was.lists, subquantizers) && r.value.1.TheShape() == Shape(subquantizers, store.perPage, directory.perPage)
    ensures r.Ok? ==> r.value.1.State() == LoadedState(SnapshotOf(was), subquantizers, store.files, directory.pages,
      RowsRead(was.lists, subquantizers, store.files, store.perPage), pending)
    ensures r.Ok? && Consistent(r.value.1.TheShape(), was) && WholePages(store.files, store.perPage) ==>
      (r.value.1.Valid() <==> DirectoryHolds(directory.pages, directory.perPage, r.value.1.rows, was.nextId, pending))
    ensures r.Ok? && Consistent(r.value.1.TheShape(), was) && Undisturbed(r.value.1.TheShape(), was, store.files, directory.pages, pending) ==>
      r.value.1.Valid() && r.value.1.Complete() && SameMap(r.value.1.TheShape(), was, r.value.1.State())
  {
    var loaded := C.CheckpointRoot.Load(subquantizers, files, store, generation, SnapshotOf(was));
    if loaded.Err? {
      return Err(loaded.error);
    }
    var snapshot := loaded.value.1;
    ghost var rows := RowsRead(was.lists, subquantizers, store.files, store.perPage);
    var index := new ExternalListRecastIndex.Loaded(subquantizers, store, directory, snapshot.lists, snapshot.nextId,
                                                    snapshot.activeCount, rows, pending);
    ReopenedConsistent(index.TheShape(), was, store.files, directory.pages, pending);
    if Consistent(index.TheShape(), was) && Undisturbed(index.TheShape(), was, store.files, directory.pages, pending) {
      ReopenedUndisturbed(index.TheShape(), was, store.files, directory.pages, pending);
    }
    return Ok((loaded.value.0, index));
  }

  /** What the constructor makes of an accepted load. */
  ghost function Reopened(shape: Shape, s: IndexState, files: seq<seq<Page>>, pages: seq<D.DirectoryPage>, pending: nat): IndexState
    requires AllCovered(s.lists, shape.subquantizers) && shape.recordsPerPage > 0 && |files| == |s.lists|
  {
    LoadedState(SnapshotOf(s), shape.subquantizers, files, pages, RowsRead(s.lists, shape.subquantizers, files, shape.recordsPerPage), pending)
  }

  lemma ReopenedConsistent(shape: Shape, s: IndexState, files: seq<seq<Page>>, pages: seq<D.DirectoryPage>, pending: nat)
    requires AllCovered(s.lists, shape.subquantizers) && shape.recordsPerPage > 0 && shape.idsPerPage > 0
    requires C.Loadable(SnapshotOf(s), files, shape.recordsPerPage)
    ensures Consistent(shape, s) && WholePages(files, shape.recordsPerPage) ==>
      (Consistent(shape, Reopened(shape, s, files, pages, pending)) <==>
         DirectoryHolds(pages, shape.idsPerPage, Reopened(shape, s, files, pages, pending).rows, s.nextId, pending))
  {
    if Consistent(shape, s) && WholePages(files, shape.recordsPerPage) {
      LoadConsistent(shape, s, files, pages, RowsRead(s.lists, shape.subquantizers, files, shape.recordsPerPage), pending);
    }
  }

  lemma ReopenedUndisturbed(shape: Shape, s: IndexState, files: seq<seq<Page>>, pages: seq<D.DirectoryPage>, pending: nat)
    requires AllCovered(s.lists, shape.subquantizers) && shape.recordsPerPage > 0 && shape.idsPerPage > 0
    requires C.Loadable(SnapshotOf(s), files, shape.recordsPerPage)
    requires Consistent(shape, s) && Undisturbed(shape, s, files, pages, pending)
    ensures var now := Reopened(shape, s, files, pages, pending);
      Consistent(shape, now) && SameMap(shape, s, now) && FilesComplete(files, shape.recordsPerPage, now.rows)
  {
    ListsAreRead(shape, s, files, s.rows);
    TrimmedKeep(shape, s);
    LoadRestores(shape, s, files, pages, pending);
    ListSizes(s.lists, shape.subquantizers, s.rows);
  }

  /** A checkpoint and a restart: the same map, under the new generation. */
  method CheckpointThenReopen(index: ExternalListRecastIndex, root: C.CheckpointRoot, io: nat)
    returns (r: Result<(C.CheckpointRoot, ExternalListRecastIndex)>)
    requires index.Valid() && index.Complete() && root.Valid() && root.subquantizers == index.subquantizers
    modifies root
    ensures r.Ok? <==> io >= 3 && old(root.generation) < C.UINT64_MAX
    ensures r.Ok? ==> r.value.0.Valid() && r.value.0.generation == old(root.generation) + 1
    ensures r.Ok? ==> r.value.1.Valid() && r.value.1.Complete() && SameMap(index.TheShape(), index.State(), r.value.1.State())
  {
    AlwaysCovered(index.TheShape(), index.State());
    var saved := root.Save(C.Snapshot(index.lists, index.nextId, index.activeCount), io);
    if saved.Err? {
      return Err(saved.error);
    }
    SameSizesLoad(index.TheShape(), index.State(), index.store.files);
    r := Reopen(root.subquantizers, root.files, index.store, index.directory, root.generation, index.State(), index.pending);
  }
}
