/** The phases of a deletion batch: preparation that changes nothing, then record files, directory and resident lists. */
module IndexDeletion {
  import opened Arithmetic
  import opened Outcomes
  import opened Sorting
  import opened PostingList
  import opened RecordPages
  import opened RecordDeletion
  import opened RecordStore
  import opened MovePlan
  import opened BatchPlan
  import opened LocationDirectory
  import opened IndexRows
  import opened IndexErase
  import opened ErasePlan
  import opened IndexLists
  import opened IndexFiles
  import PD = PostingDeletion
  import D = DirectoryPages

  /** One list's share of a deletion, ready to be committed. */
  datatype PreparedDeletion = PreparedDeletion(
    listNo: nat, newSize: nat, deletedIds: seq<nat>, moves: seq<RecordMove>, sourceIds: seq<nat>,
    mutation: Prepared, scratch: PD.Scratch)

  /** The fixed inputs of a batch: IDs, where they were found, and the lists they fall in. */
  datatype Deletion = Deletion(ids: seq<nat>, locations: seq<D.DiskLocation>, assignments: seq<nat>)

  ghost predicate Resolves(d: Deletion, dir: Directory) {
    Distinct(d.ids) && Resolved(dir, d.ids, d.locations, d.assignments)
  }

  function Lost(d: Deletion, lists: nat): (r: seq<seq<nat>>)
    requires |d.locations| == |d.ids| == |d.assignments|
    ensures |r| == lists
  {
    DeletedOffsets(d.ids, d.locations, d.assignments, lists)
  }

  ghost predicate PlannedList(p: PreparedDeletion, rows: seq<Row>, deleted: seq<nat>) {
    && Deletable(deleted, |rows|)
    && p.moves == PlanMoves(deleted, |rows|) && p.newSize == |rows| - |deleted|
    && ValidMoves(p.moves, |rows|, p.newSize) && DistinctDestinations(p.moves)
    && p.sourceIds == SourceIds(rows, p.moves)
  }

  ghost predicate ReadyFile(p: PreparedDeletion, file: seq<Page>, perPage: nat, blank: Record, rows: seq<Row>)
    requires perPage > 0
  {
    ListFile(file, perPage, Records(rows)) && Prepares(p.mutation, file, perPage, |rows|, p.newSize, p.moves, blank)
  }

  ghost predicate ReadyList(p: PreparedDeletion, list: MemoryList, subquantizers: nat, rows: seq<Row>) {
    && |rows| <= BlocksOf(list) * 32 && ValidMoves(p.moves, |rows|, p.newSize)
    && PD.ReadyTiles(p.scratch, list, subquantizers, BlocksOf(list), p.moves, p.newSize, |rows|)
  }

  /** The list's share of the IDs, in input order. */
  ghost predicate BuriesInputs(p: PreparedDeletion, d: Deletion, l: nat)
    requires |d.locations| == |d.ids| == |d.assignments|
  {
    && |p.deletedIds| == |Positions(d.assignments, l)|
    && (forall k :: 0 <= k < |p.deletedIds| ==> (p.deletedIds[k], D.TOMBSTONE) == Burials(d.ids, d.assignments, l)[k])
  }

  /** The list's share of the batch, sorted by offset. */
  method SortDeletedRows(d: Deletion, plan: ListBatchPlan, l: nat) returns (deletedIds: seq<nat>, deleted: seq<DeletedRow>)
    requires |d.locations| == |d.ids| == |d.assignments| && ListGrouped(plan, d.assignments, l)
    ensures deleted == DeletedRows(d.ids, d.locations, d.assignments, l)
    ensures |deletedIds| == |Positions(d.assignments, l)|
    ensures forall k :: 0 <= k < |deletedIds| ==> (deletedIds[k], D.TOMBSTONE) == Burials(d.ids, d.assignments, l)[k]
  {
    var begin, end := plan.offsets[l], plan.offsets[l + 1];
    ghost var inputs, burials := DeletedInputs(d.ids, d.locations, d.assignments, l), Burials(d.ids, d.assignments, l);
    deletedIds := [];
    deleted := [];
    for i := begin to end
      invariant |deletedIds| == i - begin && |deleted| == i - begin
      invariant forall k :: 0 <= k < i - begin ==> (deletedIds[k], D.TOMBSTONE) == burials[k] && deleted[k] == inputs[k]
    {
      InputPlaced(d, plan, l, i - begin, i);
      var input := plan.order[i];
      deletedIds := deletedIds + [d.ids[input]];
      deleted := deleted + [(d.locations[input].offset, d.ids[input])];
    }
    assert deleted == inputs;
    deleted := Sort(DeletedRowLess, deleted);
  }

  lemma InputPlaced(d: Deletion, plan: ListBatchPlan, l: nat, k: nat, i: nat)
    requires |d.locations| == |d.ids| == |d.assignments| && ListGrouped(plan, d.assignments, l)
    requires k < |Positions(d.assignments, l)| && i == plan.offsets[l] + k
    ensures i < |plan.order| && plan.order[i] < |d.ids|
    ensures DeletedInputs(d.ids, d.locations, d.assignments, l)[k] == (d.locations[plan.order[i]].offset, d.ids[plan.order[i]])
    ensures Burials(d.ids, d.assignments, l)[k] == (d.ids[plan.order[i]], D.TOMBSTONE)
  {
    PlacedAt(plan, d.assignments, l, k);
    PositionsMembers(d.assignments, l);
    assert Positions(d.assignments, l)[k] in Positions(d.assignments, l);
  }

  /** Reads the pages a deletion needs, checks the deleted IDs and collects those of the moved rows. */
  method ReadRecords(store: ListFileRecordStore, l: nat, oldSize: nat, deletedRows: seq<DeletedRow>, moves: seq<RecordMove>,
                     ghost rows: seq<Row>)
    returns (r: Result<Prepared>, sourceIds: seq<nat>)
    requires store.Valid() && l < store.nlist && |rows| == oldSize && |deletedRows| <= oldSize
    requires Published(store.files[l], store.perPage, Records(rows))
    requires ValidMoves(moves, oldSize, oldSize - |deletedRows|)
    requires forall i :: 0 <= i < |deletedRows| ==> deletedRows[i].0 < oldSize
    ensures r.Ok? <==> |store.files[l]| == PageCount(oldSize, store.perPage) && CarryIds(deletedRows, rows)
    ensures r.Err? ==> r.error in {InvalidArgument, OutOfRange, RuntimeError} || (r.error == LogicError && !CarryIds(deletedRows, rows))
    ensures r.Err? && |store.files[l]| == PageCount(oldSize, store.perPage) ==> r.error == LogicError
    ensures r.Ok? ==> ListFile(store.files[l], store.perPage, Records(rows)) && sourceIds == SourceIds(rows, moves)
    ensures r.Ok? ==> Prepares(r.value, store.files[l], store.perPage, oldSize, oldSize - |deletedRows|, moves, store.blank)
  {
    var deleted := Offsets(deletedRows);
    var observed := deleted + seq(|moves|, i requires 0 <= i < |moves| => moves[i].source);
    r := store.PrepareMovesAndTruncate(l, oldSize, oldSize - |deleted|, moves, observed, Records(rows));
    if r.Err? {
      return r, [];
    }
    ghost var ids := r.value.observedIds;
    assert forall i :: 0 <= i < |deleted| ==> ids[i] == rows[deletedRows[i].0].id;
    for i := 0 to |deleted|
      invariant forall k :: 0 <= k < i ==> ids[k] == deletedRows[k].1
    {
      if r.value.observedIds[i] != deletedRows[i].1 {
        return Err(LogicError), [];
      }
    }
    sourceIds := r.value.observedIds[|deleted|..];
    assert sourceIds == SourceIds(rows, moves);
  }

  /** Sorts and checks the list's share and plans its moves. */
  method PlanList(d: Deletion, plan: ListBatchPlan, l: nat, oldSize: nat, ghost rows: seq<seq<Row>>)
    returns (r: Result<(seq<nat>, seq<DeletedRow>, seq<RecordMove>)>)
    requires l < |rows| && oldSize == |rows[l]| && |d.ids| == |d.locations| && InLists(rows, d.locations, d.assignments)
    requires ListGrouped(plan, d.assignments, l)
    ensures r.Ok? <==> Deletable(Lost(d, |rows|)[l], oldSize)
    ensures r.Err? ==> r.error == InvalidArgument
    ensures r.Ok? ==> PlanOf(r.value.0, r.value.1, r.value.2, d, l, oldSize)
  {
    var deletedIds, deletedRows := SortDeletedRows(d, plan, l);
    var deleted := Offsets(deletedRows);
    RowsInList(rows, d.ids, d.locations, d.assignments, l);
    SortedOffsetsAscend(d.ids, d.locations, d.assignments, l);
    assert forall k :: 0 <= k < |deletedRows| ==> deletedRows[k] in deletedRows;
    if |deleted| > oldSize {
      return Err(InvalidArgument);
    }
    for i := 0 to |deleted|
      invariant forall k :: 0 < k < i ==> deleted[k - 1] != deleted[k]
    {
      if i != 0 && deleted[i - 1] == deleted[i] {
        return Err(InvalidArgument);
      }
    }
    var moves := BuildMoves(deleted, oldSize);
    PlanEnds(deleted, oldSize);
    PlanDistinct(deleted, oldSize);
    return Ok((deletedIds, deletedRows, moves));
  }

  ghost predicate PlanOf(deletedIds: seq<nat>, deletedRows: seq<DeletedRow>, moves: seq<RecordMove>, d: Deletion, l: nat, oldSize: nat)
    requires |d.ids| == |d.locations| == |d.assignments|
  {
    && deletedRows == DeletedRows(d.ids, d.locations, d.assignments, l) && Deletable(Offsets(deletedRows), oldSize)
    && |deletedIds| == |Positions(d.assignments, l)|
    && (forall k :: 0 <= k < |deletedIds| ==> (deletedIds[k], D.TOMBSTONE) == Burials(d.ids, d.assignments, l)[k])
    && moves == PlanMoves(Offsets(deletedRows), oldSize)
    && ValidMoves(moves, oldSize, oldSize - |deletedRows|) && DistinctDestinations(moves)
  }

  /** The list's share can be deleted: distinct offsets, each carrying the ID that led there. */
  ghost predicate ShareHolds(d: Deletion, rows: seq<seq<Row>>, l: nat)
    requires |d.ids| == |d.locations| == |d.assignments| && l < |rows|
  {
    Deletable(Lost(d, |rows|)[l], |rows[l]|) && CarryIds(DeletedRows(d.ids, d.locations, d.assignments, l), rows[l])
  }

  /** Plans one list, reads its pages and unpacks its tiles; every check that fails refuses the batch. */
  method PrepareList(store: ListFileRecordStore, list: MemoryList, subquantizers: nat, d: Deletion, plan: ListBatchPlan, l: nat,
                     ghost rows: seq<seq<Row>>)
    returns (r: Result<PreparedDeletion>)
    requires store.Valid() && |rows| == store.nlist && l < |rows| && ListGrouped(plan, d.assignments, l)
    requires |d.ids| == |d.locations| && InLists(rows, d.locations, d.assignments)
    requires Published(store.files[l], store.perPage, Records(rows[l])) && ListHolds(list, subquantizers, rows[l])
    ensures r.Ok? <==> |store.files[l]| == PageCount(|rows[l]|, store.perPage) && ShareHolds(d, rows, l)
    ensures r.Err? ==> r.error in {InvalidArgument, OutOfRange, RuntimeError} || (r.error == LogicError && !ShareHolds(d, rows, l))
    ensures r.Err? && |store.files[l]| == PageCount(|rows[l]|, store.perPage) && Deletable(Lost(d, |rows|)[l], |rows[l]|)
      ==> r.error == LogicError
    ensures r.Ok? ==> r.value.listNo == l && PlannedList(r.value, rows[l], Lost(d, |rows|)[l])
    ensures r.Ok? ==> ReadyFile(r.value, store.files[l], store.perPage, store.blank, rows[l])
    ensures r.Ok? ==> ReadyList(r.value, list, subquantizers, rows[l])
    ensures r.Ok? ==> BuriesInputs(r.value, d, l)
  {
    var oldSize := list.logicalSize;
    var planned := PlanList(d, plan, l, oldSize, rows);
    if planned.Err? {
      return Err(planned.error);
    }
    var (deletedIds, deletedRows, moves) := planned.value;
    var newSize := oldSize - |deletedRows|;
    PlannedBelow(deletedIds, deletedRows, moves, d, l, oldSize);
    var read, sourceIds := ReadRecords(store, l, oldSize, deletedRows, moves, rows[l]);
    if read.Err? {
      return Err(read.error);
    }
    var scratch := UnpackList(list, subquantizers, moves, newSize, rows[l]);
    return Ok(PreparedDeletion(l, newSize, deletedIds, moves, sourceIds, read.value, scratch));
  }

  lemma PlannedBelow(deletedIds: seq<nat>, deletedRows: seq<DeletedRow>, moves: seq<RecordMove>, d: Deletion, l: nat, oldSize: nat)
    requires |d.ids| == |d.locations| == |d.assignments| && PlanOf(deletedIds, deletedRows, moves, d, l, oldSize)
    ensures |deletedRows| <= oldSize && forall i :: 0 <= i < |deletedRows| ==> deletedRows[i].0 < oldSize
  {
    assert forall i :: 0 <= i < |deletedRows| ==> Offsets(deletedRows)[i] == deletedRows[i].0;
  }

  method UnpackList(list: MemoryList, subquantizers: nat, moves: seq<RecordMove>, newSize: nat, ghost rows: seq<Row>)
    returns (scratch: PD.Scratch)
    requires ListHolds(list, subquantizers, rows) && newSize <= |rows| && ValidMoves(moves, |rows|, newSize)
    ensures |rows| <= BlocksOf(list) * 32
    ensures PD.ReadyTiles(scratch, list, subquantizers, BlocksOf(list), moves, newSize, |rows|)
  {
    scratch := PD.PrepareDeletion(list, subquantizers, moves, newSize, BlocksOf(list), PostingsOf(rows));
  }

  /** When the directory led to every row, no check can fail. */
  lemma ResolvedShare(d: Deletion, dir: Directory, rows: seq<seq<Row>>, nextId: nat, l: nat)
    requires Agrees(dir, rows, nextId) && Resolves(d, dir) && l < |rows|
    ensures ShareHolds(d, rows, l)
  {
    OffsetsDeletable(dir, rows, nextId, d.ids, d.locations, d.assignments, l);
    var deleted := DeletedRows(d.ids, d.locations, d.assignments, l);
    forall i | 0 <= i < |deleted| ensures deleted[i].0 < |rows[l]| && rows[l][deleted[i].0].id == deleted[i].1 {
      assert deleted[i] in deleted;
      DeletedRowOf(dir, rows, nextId, d.ids, d.locations, d.assignments, l, deleted[i]);
    }
  }

  // ---------------------------------------------------------------- all touched lists

  /** The share of list `l` is ready. */
  ghost predicate ReadyDeletion(p: PreparedDeletion, shape: Shape, s: IndexState, blank: Record, d: Deletion, l: nat)
    requires |d.locations| == |d.ids| == |d.assignments| && shape.recordsPerPage > 0
  {
    && l < |s.rows| && l < |s.files| && l < |s.lists|
    && p.listNo == l && PlannedList(p, s.rows[l], Lost(d, |s.rows|)[l])
    && ReadyFile(p, s.files[l], shape.recordsPerPage, blank, s.rows[l])
    && ReadyList(p, s.lists[l], shape.subquantizers, s.rows[l])
    && BuriesInputs(p, d, l)
  }

  ghost predicate ReadyDeletions(prepared: seq<PreparedDeletion>, shape: Shape, s: IndexState, blank: Record, d: Deletion, touched: seq<nat>)
    requires |d.locations| == |d.ids| == |d.assignments| && shape.recordsPerPage > 0
  {
    |prepared| <= |touched| && forall t :: 0 <= t < |prepared| ==> ReadyDeletion(prepared[t], shape, s, blank, d, touched[t])
  }

  /** Every touched list; success means that the directory led to the named rows. */
  method PrepareAll(store: ListFileRecordStore, lists: seq<MemoryList>, subquantizers: nat, d: Deletion, plan: ListBatchPlan,
                    ghost shape: Shape, ghost s: IndexState)
    returns (r: Result<seq<PreparedDeletion>>)
    requires store.Valid() && |s.rows| == store.nlist && s.files == store.files && s.lists == lists
    requires Consistent(shape, s) && shape.recordsPerPage == store.perPage && shape.subquantizers == subquantizers
    requires Distinct(d.ids) && |d.ids| == |d.locations| && InLists(s.rows, d.locations, d.assignments)
    requires Grouped(plan, d.assignments, |s.rows|) && Touched(plan.touchedLists, d.assignments, |s.rows|)
    ensures FilesComplete(store.files, store.perPage, s.rows) && Resolves(d, View(s.pages, shape.idsPerPage, s.nextId)) ==> r.Ok?
    ensures r.Err? ==> r.error in {InvalidArgument, OutOfRange, RuntimeError, LogicError}
    ensures r == Err(LogicError) ==> !Resolves(d, View(s.pages, shape.idsPerPage, s.nextId))
    ensures FilesComplete(store.files, store.perPage, s.rows) && Apart(d.locations) && r.Err? ==> r.error == LogicError
    ensures r.Ok? ==> Resolves(d, View(s.pages, shape.idsPerPage, s.nextId))
    ensures r.Ok? ==> |r.value| == |plan.touchedLists| && ReadyDeletions(r.value, shape, s, store.blank, d, plan.touchedLists)
  {
    var touched := plan.touchedLists;
    var prepared: seq<PreparedDeletion> := [];
    for t := 0 to |touched|
      invariant |prepared| == t && ReadyDeletions(prepared, shape, s, store.blank, d, touched)
      invariant SharesHold(d, s.rows, touched, t)
    {
      var l := touched[t];
      assert l in touched;
      var one := PrepareOne(store, lists[l], subquantizers, d, plan, l, shape, s);
      if one.Err? {
        return Err(one.error);
      }
      prepared := prepared + [one.value];
    }
    AllShares(d, s.rows, touched, View(s.pages, shape.idsPerPage, s.nextId), s.nextId);
    return Ok(prepared);
  }

  ghost predicate SharesHold(d: Deletion, rows: seq<seq<Row>>, touched: seq<nat>, n: nat)
    requires |d.ids| == |d.locations| == |d.assignments|
  {
    n <= |touched| && forall t :: 0 <= t < n ==> touched[t] < |rows| && ShareHolds(d, rows, touched[t])
  }

  lemma AllShares(d: Deletion, rows: seq<seq<Row>>, touched: seq<nat>, dir: Directory, nextId: nat)
    requires Distinct(d.ids) && |d.ids| == |d.locations| && InLists(rows, d.locations, d.assignments)
    requires Touched(touched, d.assignments, |rows|) && SharesHold(d, rows, touched, |touched|) && Agrees(dir, rows, nextId)
    ensures Resolves(d, dir)
  {
    forall l | 0 <= l < |rows| && Positions(d.assignments, l) != []
      ensures CarryIds(DeletedRows(d.ids, d.locations, d.assignments, l), rows[l])
    {
      assert l in touched;
      var t :| 0 <= t < |touched| && touched[t] == l;
      assert ShareHolds(d, rows, touched[t]);
    }
    CarriedResolved(dir, rows, nextId, d.ids, d.locations, d.assignments);
  }

  method PrepareOne(store: ListFileRecordStore, list: MemoryList, subquantizers: nat, d: Deletion, plan: ListBatchPlan, l: nat,
                    ghost shape: Shape, ghost s: IndexState)
    returns (r: Result<PreparedDeletion>)
    requires store.Valid() && |s.rows| == store.nlist && s.files == store.files && l < |s.lists| && list == s.lists[l]
    requires Consistent(shape, s) && shape.recordsPerPage == store.perPage && shape.subquantizers == subquantizers
    requires Distinct(d.ids) && |d.ids| == |d.locations| && InLists(s.rows, d.locations, d.assignments)
    requires Grouped(plan, d.assignments, |s.rows|)
    ensures FilesComplete(store.files, store.perPage, s.rows) && ShareHolds(d, s.rows, l) ==> r.Ok?
    ensures Resolves(d, View(s.pages, shape.idsPerPage, s.nextId)) ==> ShareHolds(d, s.rows, l)
    ensures r.Err? ==> r.error in {InvalidArgument, OutOfRange, RuntimeError} || (r.error == LogicError && !ShareHolds(d, s.rows, l))
    ensures r.Err? && FilesComplete(store.files, store.perPage, s.rows) && Apart(d.locations) ==> r.error == LogicError
    ensures r.Ok? ==> ShareHolds(d, s.rows, l) && ReadyDeletion(r.value, shape, s, store.blank, d, l)
  {
    assert ListGrouped(plan, d.assignments, l) && ListHolds(list, shape.subquantizers, s.rows[l]);
    ghost var dir := View(s.pages, shape.idsPerPage, s.nextId);
    if Resolves(d, dir) { ResolvedShare(d, dir, s.rows, s.nextId, l); }
    if Apart(d.locations) { ApartDeletable(s.rows, d.ids, d.locations, d.assignments, l); }
    r := PrepareList(store, list, subquantizers, d, plan, l, s.rows);
  }

  ghost predicate SourcesLocatedAll(prepared: seq<PreparedDeletion>, dir: Directory) {
    forall t :: 0 <= t < |prepared| ==> AllLocated(dir, prepared[t].sourceIds, SourceLocations(prepared[t]))
  }

  lemma ReadySources(prepared: seq<PreparedDeletion>, shape: Shape, s: IndexState, blank: Record, d: Deletion, touched: seq<nat>)
    requires Consistent(shape, s) && |d.locations| == |d.ids| == |d.assignments|
    requires ReadyDeletions(prepared, shape, s, blank, d, touched)
    ensures SourcesLocatedAll(prepared, View(s.pages, shape.idsPerPage, s.nextId))
  {
    var dir := View(s.pages, shape.idsPerPage, s.nextId);
    forall t | 0 <= t < |prepared| ensures AllLocated(dir, prepared[t].sourceIds, SourceLocations(prepared[t])) {
      assert ReadyDeletion(prepared[t], shape, s, blank, d, touched[t]);
      SourcesLocated(prepared[t], dir, s.rows, s.nextId, touched[t], Lost(d, |s.rows|)[touched[t]]);
    }
  }

  /** The IDs about to move, and where each of them must still be. */
  method CollectMoveSources(prepared: seq<PreparedDeletion>, ghost dir: Directory)
    returns (movedIds: seq<nat>, expected: seq<D.DiskLocation>)
    requires SourcesLocatedAll(prepared, dir)
    ensures AllLocated(dir, movedIds, expected)
  {
    movedIds, expected := [], [];
    for t := 0 to |prepared|
      invariant AllLocated(dir, movedIds, expected)
    {
      assert AllLocated(dir, prepared[t].sourceIds, SourceLocations(prepared[t]));
      movedIds := movedIds + prepared[t].sourceIds;
      expected := expected + SourceLocations(prepared[t]);
    }
  }

  /** The moving IDs are looked up once more before any file is changed; the directory always agrees. */
  method CheckMoveSources(directory: ExternalLocationDirectory, movedIds: seq<nat>, expected: seq<D.DiskLocation>, ghost nextId: nat)
    returns (agree: bool)
    requires directory.Valid() && AllLocated(View(directory.pages, directory.perPage, nextId), movedIds, expected)
    ensures agree
  {
    var found, pagesRead := directory.ReadBatch(movedIds);
    assert forall i :: 0 <= i < |movedIds| ==> directory.Lookup(movedIds[i]) == D.Present(expected[i]);
    return found.value == expected;
  }

  function SourceLocations(p: PreparedDeletion): (r: seq<D.DiskLocation>)
    ensures |r| == |p.moves|
  {
    seq(|p.moves|, i requires 0 <= i < |p.moves| => D.DiskLocation(p.listNo, p.moves[i].source))
  }

  ghost predicate AllLocated(dir: Directory, ids: seq<nat>, locations: seq<D.DiskLocation>) {
    |ids| == |locations| && forall i :: 0 <= i < |ids| ==> dir(ids[i]) == D.Present(locations[i])
  }

  lemma SourcesLocated(p: PreparedDeletion, dir: Directory, rows: seq<seq<Row>>, nextId: nat, l: nat, deleted: seq<nat>)
    requires Agrees(dir, rows, nextId) && l < |rows| && p.listNo == l && PlannedList(p, rows[l], deleted)
    ensures AllLocated(dir, p.sourceIds, SourceLocations(p))
  {
    forall i | 0 <= i < |p.moves| ensures dir(p.sourceIds[i]) == D.Present(SourceLocations(p)[i]) {
      assert Located(dir, rows, nextId, l, p.moves[i].source);
    }
  }

  // ---------------------------------------------------------------- directory updates

  ghost function Groups(d: Deletion, rows: seq<seq<Row>>): (g: seq<seq<D.Update>>)
    requires |d.locations| == |d.ids| == |d.assignments| && Deletables(rows, Lost(d, |rows|))
    ensures |g| == |rows|
  {
    EraseGroups(rows, d.ids, d.locations, d.assignments)
  }

  lemma UntouchedLoses(d: Deletion, rows: seq<seq<Row>>, touched: seq<nat>, l: nat)
    requires |d.locations| == |d.ids| == |d.assignments| && Deletables(rows, Lost(d, |rows|))
    requires Touched(touched, d.assignments, |rows|) && l < |rows| && l !in touched
    ensures Lost(d, |rows|)[l] == [] && Groups(d, rows)[l] == [] && Erased(rows, Lost(d, |rows|))[l] == rows[l]
  {
    assert Positions(d.assignments, l) == [];
    assert Lost(d, |rows|)[l] == [];
    NothingDeleted(rows[l]);
  }

  lemma NothingDeleted(rows: seq<Row>)
    ensures Deletable([], |rows|) && PlanMoves([], |rows|) == [] && SwapDelete(rows, []) == rows
  {
    NoHoles([], |rows|);
    var moves := PlanMoves([], |rows|);
    assert moves == [];
  }

  lemma NoHoles(none: seq<nat>, bound: nat)
    requires none == []
    ensures HolesBelow(none, bound) == []
  {
  }

  /** Each prepared list yields the group of updates it owes. */
  ghost predicate OwesGroups(prepared: seq<PreparedDeletion>, touched: seq<nat>, groups: seq<seq<D.Update>>) {
    |prepared| == |touched| && forall t :: 0 <= t < |prepared| ==> OwesGroup(prepared[t], groups, touched[t])
  }

  ghost predicate OwesGroup(p: PreparedDeletion, groups: seq<seq<D.Update>>, l: nat) {
    l < |groups| && |p.sourceIds| == |p.moves| && EraseUpdatesOf(p) == groups[l]
  }

  method CollectEraseUpdates(prepared: seq<PreparedDeletion>, ghost touched: seq<nat>, ghost groups: seq<seq<D.Update>>)
    returns (updates: seq<D.Update>)
    requires OwesGroups(prepared, touched, groups) && OnlyTouched(groups, touched)
    requires forall i, j :: 0 <= i < j < |touched| ==> touched[i] < touched[j]
    ensures updates == Flatten(groups)
  {
    ghost var reached: nat := 0;
    updates := [];
    for t := 0 to |prepared|
      invariant Visited(groups, touched, t, reached) && updates == Flatten(groups[..reached])
    {
      assert OwesGroup(prepared[t], groups, touched[t]);
      VisitNext(groups, touched, t, reached);
      updates := updates + EraseUpdatesOf(prepared[t]);
      reached := touched[t] + 1;
    }
    VisitedAll(groups, touched, reached);
  }

  lemma AllOwe(prepared: seq<PreparedDeletion>, shape: Shape, s: IndexState, blank: Record, d: Deletion, touched: seq<nat>)
    requires |d.locations| == |d.ids| == |d.assignments| && Deletables(s.rows, Lost(d, |s.rows|))
    requires shape.recordsPerPage > 0 && |prepared| == |touched| && ReadyDeletions(prepared, shape, s, blank, d, touched)
    ensures OwesGroups(prepared, touched, Groups(d, s.rows))
  {
    forall t | 0 <= t < |prepared| ensures OwesGroup(prepared[t], Groups(d, s.rows), touched[t]) {
      ReadyGroup(prepared, shape, s, blank, d, touched, t);
    }
  }

  lemma GroupsOnlyTouched(d: Deletion, rows: seq<seq<Row>>, touched: seq<nat>)
    requires |d.locations| == |d.ids| == |d.assignments| && Deletables(rows, Lost(d, |rows|))
    requires Touched(touched, d.assignments, |rows|)
    ensures OnlyTouched(Groups(d, rows), touched)
  {
    var groups := Groups(d, rows);
    forall l | 0 <= l < |groups| && l !in touched ensures groups[l] == [] {
      UntouchedLoses(d, rows, touched, l);
    }
  }

  lemma ReadyGroup(prepared: seq<PreparedDeletion>, shape: Shape, s: IndexState, blank: Record, d: Deletion, touched: seq<nat>, t: nat)
    requires |d.locations| == |d.ids| == |d.assignments| && Deletables(s.rows, Lost(d, |s.rows|))
    requires shape.recordsPerPage > 0 && ReadyDeletions(prepared, shape, s, blank, d, touched) && t < |prepared|
    ensures touched[t] < |s.rows| && |prepared[t].sourceIds| == |prepared[t].moves|
    ensures EraseUpdatesOf(prepared[t]) == Groups(d, s.rows)[touched[t]]
  {
    assert ReadyDeletion(prepared[t], shape, s, blank, d, touched[t]);
    GroupCollected(prepared[t], d, s.rows, touched[t]);
  }

  function EraseUpdatesOf(p: PreparedDeletion): seq<D.Update>
    requires |p.sourceIds| == |p.moves|
  {
    seq(|p.deletedIds|, k requires 0 <= k < |p.deletedIds| => (p.deletedIds[k], D.TOMBSTONE))
    + Redirections(p.sourceIds, p.moves, p.listNo)
  }

  lemma GroupCollected(p: PreparedDeletion, d: Deletion, rows: seq<seq<Row>>, l: nat)
    requires |d.locations| == |d.ids| == |d.assignments| && Deletables(rows, Lost(d, |rows|)) && l < |rows|
    requires p.listNo == l && PlannedList(p, rows[l], Lost(d, |rows|)[l]) && BuriesInputs(p, d, l)
    ensures EraseUpdatesOf(p) == Groups(d, rows)[l]
  {
    assert seq(|p.deletedIds|, k requires 0 <= k < |p.deletedIds| => (p.deletedIds[k], D.TOMBSTONE)) == Burials(d.ids, d.assignments, l);
  }

  /** Everything of a deletion that precedes its first write. */
  method PrepareErase(store: ListFileRecordStore, directory: ExternalLocationDirectory, lists: seq<MemoryList>, subquantizers: nat,
                      d: Deletion, plan: ListBatchPlan, ghost shape: Shape, ghost s: IndexState)
    returns (r: Result<seq<PreparedDeletion>>, updates: seq<D.Update>)
    requires store.Valid() && |s.rows| == store.nlist && s.files == store.files && s.lists == lists
    requires directory.Valid() && directory.pages == s.pages && directory.perPage == shape.idsPerPage
    requires Consistent(shape, s) && shape.recordsPerPage == store.perPage && shape.subquantizers == subquantizers
    requires Distinct(d.ids) && |d.ids| == |d.locations| && InLists(s.rows, d.locations, d.assignments)
    requires Grouped(plan, d.assignments, |s.rows|) && Touched(plan.touchedLists, d.assignments, |s.rows|)
    ensures FilesComplete(store.files, store.perPage, s.rows) && Resolves(d, View(s.pages, shape.idsPerPage, s.nextId)) ==> r.Ok?
    ensures r.Err? ==> r.error in {InvalidArgument, OutOfRange, RuntimeError, LogicError}
    ensures r == Err(LogicError) ==> !Resolves(d, View(s.pages, shape.idsPerPage, s.nextId))
    ensures FilesComplete(store.files, store.perPage, s.rows) && Apart(d.locations) && r.Err? ==> r.error == LogicError
    ensures r.Ok? ==> Resolves(d, View(s.pages, shape.idsPerPage, s.nextId)) && Deletables(s.rows, Lost(d, |s.rows|))
    ensures r.Ok? ==> |r.value| == |plan.touchedLists| && ReadyDeletions(r.value, shape, s, store.blank, d, plan.touchedLists)
    ensures r.Ok? ==> updates == Flatten(Groups(d, s.rows))
  {
    updates := [];
    r := PrepareAll(store, lists, subquantizers, d, plan, shape, s);
    if r.Ok? {
      PlanNames(View(s.pages, shape.idsPerPage, s.nextId), s.rows, s.nextId, d.ids, d.locations, d.assignments);
      ReadySources(r.value, shape, s, store.blank, d, plan.touchedLists);
      var movedIds, expected := CollectMoveSources(r.value, View(s.pages, shape.idsPerPage, s.nextId));
      var agree := CheckMoveSources(directory, movedIds, expected, s.nextId);
      // The directory cannot disagree with a move source.
      assert agree;
      AllOwe(r.value, shape, s, store.blank, d, plan.touchedLists);
      GroupsOnlyTouched(d, s.rows, plan.touchedLists);
      updates := CollectEraseUpdates(r.value, plan.touchedLists, Groups(d, s.rows));
    }
  }

  /**
   The directory forgets the deleted IDs and follows the moved rows; no other ID changes. When a change fails,
   every entry is as before or as it should become.
   */
  method WriteEraseUpdates(directory: ExternalLocationDirectory, updates: seq<D.Update>, io: nat,
                           ghost d: Deletion, ghost rows: seq<seq<Row>>, ghost nextId: nat, ghost pending: nat)
    returns (r: Result<()>)
    requires directory.Valid() && DirectoryHolds(directory.pages, directory.perPage, rows, nextId, pending) && Addressable(rows, 0)
    requires Resolves(d, View(directory.pages, directory.perPage, nextId)) && Deletables(rows, Lost(d, |rows|))
    requires updates == Flatten(Groups(d, rows))
    modifies directory
    ensures directory.Valid()
    ensures r.Ok? ==>
      && DirectoryHolds(directory.pages, directory.perPage, Erased(rows, Lost(d, |rows|)), nextId, pending)
      && Contents(View(directory.pages, directory.perPage, nextId), Erased(rows, Lost(d, |rows|)), nextId)
         == Contents(View(old(directory.pages), directory.perPage, nextId), rows, nextId) - IdSet(d.ids)
    ensures r.Err? ==> r.error == RuntimeError && forall id: nat ::
      OldOrNew(View(old(directory.pages), directory.perPage, nextId), View(directory.pages, directory.perPage, nextId), rows, Lost(d, |rows|), id)
    ensures io > |old(directory.pages)| ==> r.Ok?
  {
    ghost var pages := directory.pages;
    ghost var dir, deleted := View(pages, directory.perPage, nextId), Lost(d, |rows|);
    PlanNames(dir, rows, nextId, d.ids, d.locations, d.assignments);
    GroupsEraseBatch(dir, rows, nextId, d.ids, d.locations, d.assignments);
    KnownIdsLeaveNoGap(dir, pages, directory.perPage, rows, nextId, pending, deleted, updates);
    ghost var done;
    r, done := directory.WriteBatch(updates, io);
    if r.Ok? {
      EraseWritten(pages, directory.pages, directory.perPage, rows, nextId, pending, deleted, updates, IdSet(d.ids));
    } else {
      EraseStopped(pages, directory.pages, directory.perPage, rows, nextId, pending, deleted, updates, done);
    }
  }

  lemma EraseWritten(pages: seq<D.DirectoryPage>, pages': seq<D.DirectoryPage>, perPage: nat, rows: seq<seq<Row>>, nextId: nat,
                     pending: nat, deleted: seq<seq<nat>>, updates: seq<D.Update>, ids: set<nat>)
    requires perPage > 0 && DirectoryHolds(pages, perPage, rows, nextId, pending) && Addressable(rows, 0)
    requires Deletables(rows, deleted) && EraseBatch(updates, rows, deleted) && Names(rows, deleted, ids)
    requires D.Reflects(pages', pages, perPage, updates)
    ensures DirectoryHolds(pages', perPage, Erased(rows, deleted), nextId, pending)
    ensures Contents(View(pages', perPage, nextId), Erased(rows, deleted), nextId)
         == Contents(View(pages, perPage, nextId), rows, nextId) - ids
  {
    var dir, dir' := View(pages, perPage, nextId), View(pages', perPage, nextId);
    KnownIdsLeaveNoGap(dir, pages, perPage, rows, nextId, pending, deleted, updates);
    forall id: nat ensures QuietWrite(dir, dir', updates, id) {
      NoGapIsQuiet(pages, pages', perPage, updates, nextId, nextId, id);
    }
    EraseAgrees(dir, dir', rows, nextId, deleted, updates);
    EraseContents(dir, dir', rows, nextId, deleted, updates, ids);
    StaysUnassigned(pages, pages', perPage, updates, nextId + pending);
  }

  lemma EraseStopped(pages: seq<D.DirectoryPage>, pages': seq<D.DirectoryPage>, perPage: nat, rows: seq<seq<Row>>, nextId: nat,
                     pending: nat, deleted: seq<seq<nat>>, updates: seq<D.Update>, done: seq<D.Update>)
    requires perPage > 0 && DirectoryHolds(pages, perPage, rows, nextId, pending)
    requires Deletables(rows, deleted) && EraseBatch(updates, rows, deleted)
    requires Leading(done, updates) && D.Reflects(pages', pages, perPage, done)
    ensures forall id: nat :: OldOrNew(View(pages, perPage, nextId), View(pages', perPage, nextId), rows, deleted, id)
  {
    var dir, dir' := View(pages, perPage, nextId), View(pages', perPage, nextId);
    forall id: nat ensures OldOrNew(dir, dir', rows, deleted, id) {
      D.LatestFrom(done, id);
      assert D.EntryAt(pages', perPage, id) == D.WrittenEntry(pages, perPage, done, id);
      assert Grounded(dir, rows, nextId, id);
      QuotientNat(id, perPage);
    }
  }

  /** Only IDs handed out before are updated, so the directory file keeps its length. */
  lemma KnownIdsLeaveNoGap(dir: Directory, pages: seq<D.DirectoryPage>, perPage: nat, rows: seq<seq<Row>>, nextId: nat,
                           pending: nat, deleted: seq<seq<nat>>, updates: seq<D.Update>)
    requires perPage > 0 && DirectoryHolds(pages, perPage, rows, nextId, pending) && dir == View(pages, perPage, nextId)
    requires Deletables(rows, deleted) && EraseBatch(updates, rows, deleted)
    ensures D.NoGap(pages, perPage, updates) && D.LengthAfter(|pages|, updates, perPage) == |pages|
    ensures forall id: nat :: nextId <= id ==> D.Latest(updates, id).Absent?
  {
    forall u | u in updates ensures u.0 < nextId && u.0 / perPage < |pages| {
      assert Warranted(u, rows, deleted);
      var l, o := WarrantedRow(rows, deleted, u);
      assert Located(dir, rows, nextId, l, o);
      RowPage(u.0, nextId, perPage);
    }
    LengthIsMaximum(|pages|, updates, perPage);
    forall id: nat | nextId <= id ensures D.Latest(updates, id).Absent? {
      D.LatestFrom(updates, id);
    }
  }

  // ---------------------------------------------------------------- record files

  ghost predicate Readable(file: seq<Page>, perPage: nat, record: Record)
    requires perPage > 0
  {
    exists o: nat :: SlotAt(file, perPage, o) == Holds(record)
  }

  /** Every row that is not deleted can be read somewhere in its list's file. */
  ghost predicate SurvivorsReadable(file: seq<Page>, perPage: nat, rows: seq<Row>, deleted: seq<nat>)
    requires perPage > 0
  {
    forall o :: 0 <= o < |rows| && o !in deleted ==> Readable(file, perPage, RecordOf(rows[o]))
  }

  ghost predicate FileErased(file: seq<Page>, perPage: nat, rows: seq<Row>, deleted: seq<nat>, before: seq<Page>, visited: bool)
    requires perPage > 0 && Deletable(deleted, |rows|)
  {
    if visited then ListFile(file, perPage, Records(SwapDelete(rows, deleted))) else file == before
  }

  lemma ErasedStillReadable(file: seq<Page>, perPage: nat, rows: seq<Row>, deleted: seq<nat>, before: seq<Page>, visited: bool)
    requires perPage > 0 && Deletable(deleted, |rows|) && FileErased(file, perPage, rows, deleted, before, visited)
    requires Published(before, perPage, Records(rows))
    ensures SurvivorsReadable(file, perPage, rows, deleted)
  {
    forall o | 0 <= o < |rows| && o !in deleted ensures Readable(file, perPage, RecordOf(rows[o])) {
      if visited {
        SurvivorKept(rows, deleted, o);
        var o' := NewOffset(PlanMoves(deleted, |rows|), o);
        assert SlotAt(file, perPage, o') == Holds(Records(SwapDelete(rows, deleted))[o']);
      } else {
        assert SlotAt(file, perPage, o) == Holds(Records(rows)[o]);
      }
    }
  }

  /** Files that hold what remains hold every survivor. */
  lemma RemainingReadable(files: seq<seq<Page>>, perPage: nat, rows: seq<seq<Row>>, deleted: seq<seq<nat>>, l: nat)
    requires perPage > 0 && Deletables(rows, deleted) && FilesHold(files, perPage, Erased(rows, deleted)) && l < |rows|
    ensures SurvivorsReadable(files[l], perPage, rows[l], deleted[l])
  {
    forall o | 0 <= o < |rows[l]| && o !in deleted[l] ensures Readable(files[l], perPage, RecordOf(rows[l][o])) {
      SurvivorKept(rows[l], deleted[l], o);
      var o' := NewOffset(PlanMoves(deleted[l], |rows[l]|), o);
      assert Published(files[l], perPage, Records(Erased(rows, deleted)[l]));
      assert SlotAt(files[l], perPage, o') == Holds(Records(SwapDelete(rows[l], deleted[l]))[o']);
    }
  }

  lemma InterruptedStillReadable(file: seq<Page>, perPage: nat, rows: seq<Row>, deleted: seq<nat>)
    requires perPage > 0 && Deletable(deleted, |rows|)
    requires ValidMoves(PlanMoves(deleted, |rows|), |rows|, |rows| - |deleted|)
    requires NothingLost(file, perPage, Records(rows), |rows| - |deleted|, PlanMoves(deleted, |rows|))
    ensures SurvivorsReadable(file, perPage, rows, deleted)
  {
    var moves := PlanMoves(deleted, |rows|);
    PlanEnds(deleted, |rows|);
    PlanDistinct(deleted, |rows|);
    DistinctLast(moves);
    forall o | 0 <= o < |rows| && o !in deleted ensures Readable(file, perPage, RecordOf(rows[o])) {
      if o < |rows| - |deleted| {
        forall i | 0 <= i < |moves| ensures moves[i].destination != o { assert moves[i] in moves; }
        assert SlotAt(file, perPage, o) == Holds(Records(rows)[o]);
      } else {
        PlanCovers(deleted, |rows|, o);
        var i :| 0 <= i < |moves| && moves[i].source == o;
        var record := Records(rows)[o];
        assert SlotAt(file, perPage, o) == Holds(record) || SlotAt(file, perPage, moves[i].destination) == Holds(record);
      }
    }
  }

  /** A commit writes no more pages than the list had, plus the truncation. */
  lemma CommitWrites(p: PreparedDeletion, file: seq<Page>, perPage: nat, blank: Record, rows: seq<Row>)
    requires perPage > 0 && ReadyFile(p, file, perPage, blank, rows)
    requires p.newSize <= |rows| && ValidMoves(p.moves, |rows|, p.newSize)
    ensures |p.mutation.writePages| <= PageCount(|rows|, perPage)
  {
    WritesInFile(p.mutation, file, perPage, |rows|, p.newSize, p.moves, blank);
    var w := p.mutation.writePages;
    assert forall i :: 0 <= i < |w| ==> w[i] in w;
    AscendsBound(w, PageCount(|rows|, perPage));
  }

  method CommitFile(store: ListFileRecordStore, p: PreparedDeletion, io: nat, ghost rows: seq<Row>, ghost deleted: seq<nat>)
    returns (r: Result<()>)
    requires store.Valid() && p.listNo < store.nlist && PlannedList(p, rows, deleted)
    requires ReadyFile(p, store.files[p.listNo], store.perPage, store.blank, rows)
    modifies store
    ensures store.Valid() && store.OtherFilesSame(p.listNo)
    ensures r.Ok? ==> ListFile(store.files[p.listNo], store.perPage, Records(SwapDelete(rows, deleted)))
    ensures r.Err? ==> SurvivorsReadable(store.files[p.listNo], store.perPage, rows, deleted) && r.error == RuntimeError
    ensures io > PageCount(|rows|, store.perPage) ==> r.Ok?
  {
    CommitWrites(p, store.files[p.listNo], store.perPage, store.blank, rows);
    r := store.CommitPreparedMutation(p.listNo, p.mutation, io, Records(rows), p.newSize, p.moves);
    if r.Ok? {
      MovedStores(rows, p.moves, p.newSize);
    } else {
      InterruptedStillReadable(store.files[p.listNo], store.perPage, rows, deleted);
    }
  }

  /** Commits every touched list's file; if one fails, every surviving row can still be read from its file. */
  method CommitFiles(store: ListFileRecordStore, prepared: seq<PreparedDeletion>, io: nat -> nat, touched: seq<nat>,
                     ghost shape: Shape, ghost s: IndexState, ghost d: Deletion)
    returns (r: Result<()>)
    requires store.Valid() && |s.rows| == store.nlist && s.files == store.files && shape.recordsPerPage == store.perPage
    requires |d.locations| == |d.ids| == |d.assignments| && Deletables(s.rows, Lost(d, |s.rows|))
    requires FilesHold(store.files, store.perPage, s.rows) && Touched(touched, d.assignments, |s.rows|)
    requires |prepared| == |touched| && ReadyDeletions(prepared, shape, s, store.blank, d, touched)
    modifies store
    ensures store.Valid() && |store.files| == |s.rows|
    ensures r.Ok? ==> forall l :: 0 <= l < |s.rows| ==>
      FileErased(store.files[l], store.perPage, s.rows[l], Lost(d, |s.rows|)[l], s.files[l], l in touched)
    ensures r.Err? ==> r.error == RuntimeError && forall l :: 0 <= l < |s.rows| ==>
      SurvivorsReadable(store.files[l], store.perPage, s.rows[l], Lost(d, |s.rows|)[l])
    ensures AmpleToErase(io, s.rows, store.perPage) ==> r.Ok?
  {
    ghost var deleted := Lost(d, |s.rows|);
    for t := 0 to |touched|
      invariant store.Valid()
      invariant forall l :: 0 <= l < |s.rows| ==>
        FileErased(store.files[l], store.perPage, s.rows[l], deleted[l], s.files[l], l in touched[..t])
    {
      var p := prepared[t];
      ghost var l := touched[t];
      assert l in touched && ReadyDeletion(p, shape, s, store.blank, d, l);
      TouchedEarlier(touched, t);
      assert FileErased(store.files[l], store.perPage, s.rows[l], deleted[l], s.files[l], false);
      ghost var before := store.files;
      r := CommitFile(store, p, io(p.listNo), s.rows[l], deleted[l]);
      if r.Err? {
        forall k | 0 <= k < |s.rows| ensures SurvivorsReadable(store.files[k], store.perPage, s.rows[k], deleted[k]) {
          if k != l {
            ErasedStillReadable(before[k], store.perPage, s.rows[k], deleted[k], s.files[k], k in touched[..t]);
          }
        }
        return;
      }
      forall k: nat ensures k in touched[..t + 1] <==> k in touched[..t] || k == l { TouchedNext(touched, t, k); }
    }
    assert touched[..|touched|] == touched;
    return Ok(());
  }

  lemma FilesErased(files: seq<seq<Page>>, perPage: nat, s: IndexState, d: Deletion, touched: seq<nat>)
    requires perPage > 0 && |d.locations| == |d.ids| == |d.assignments| && Deletables(s.rows, Lost(d, |s.rows|))
    requires FilesHold(s.files, perPage, s.rows) && Touched(touched, d.assignments, |s.rows|) && |files| == |s.rows|
    requires forall l :: 0 <= l < |s.rows| ==>
      FileErased(files[l], perPage, s.rows[l], Lost(d, |s.rows|)[l], s.files[l], l in touched)
    ensures FilesHold(files, perPage, Erased(s.rows, Lost(d, |s.rows|)))
    ensures FilesComplete(s.files, perPage, s.rows) ==> FilesComplete(files, perPage, Erased(s.rows, Lost(d, |s.rows|)))
  {
    var next := Erased(s.rows, Lost(d, |s.rows|));
    forall l | 0 <= l < |s.rows|
      ensures Published(files[l], perPage, Records(next[l]))
      ensures |s.files[l]| == PageCount(|s.rows[l]|, perPage) ==> |files[l]| == PageCount(|next[l]|, perPage)
    {
      assert FileErased(files[l], perPage, s.rows[l], Lost(d, |s.rows|)[l], s.files[l], l in touched);
      if l !in touched { UntouchedLoses(d, s.rows, touched, l); }
    }
  }

  // ---------------------------------------------------------------- resident lists

  method CommitLists(lists: seq<MemoryList>, subquantizers: nat, prepared: seq<PreparedDeletion>, touched: seq<nat>,
                     ghost shape: Shape, ghost s: IndexState, ghost blank: Record, ghost d: Deletion)
    returns (next: seq<MemoryList>)
    requires s.lists == lists && shape.subquantizers == subquantizers && shape.recordsPerPage > 0
    requires ListsHold(lists, subquantizers, s.rows)
    requires |d.locations| == |d.ids| == |d.assignments| && Deletables(s.rows, Lost(d, |s.rows|))
    requires Touched(touched, d.assignments, |s.rows|)
    requires |prepared| == |touched| && ReadyDeletions(prepared, shape, s, blank, d, touched)
    ensures ListsHold(next, subquantizers, Erased(s.rows, Lost(d, |s.rows|)))
  {
    ghost var deleted, erased := Lost(d, |s.rows|), Erased(s.rows, Lost(d, |s.rows|));
    next := lists;
    for t := 0 to |touched|
      invariant |next| == |lists|
      invariant forall l :: 0 <= l < |lists| ==>
        ListErased(next[l], lists[l], subquantizers, erased[l], l in touched[..t])
    {
      var p := prepared[t];
      ghost var l := touched[t];
      assert l in touched && ReadyDeletion(p, shape, s, blank, d, l);
      TouchedEarlier(touched, t);
      assert ListErased(next[l], lists[l], subquantizers, erased[l], false);
      var list := CommitList(next[p.listNo], subquantizers, p, s.rows[l], deleted[l]);
      next := next[p.listNo := list];
      forall k: nat ensures k in touched[..t + 1] <==> k in touched[..t] || k == l { TouchedNext(touched, t, k); }
    }
    assert touched[..|touched|] == touched;
    forall l | 0 <= l < |s.rows| ensures ListHolds(next[l], subquantizers, erased[l]) {
      assert ListErased(next[l], lists[l], subquantizers, erased[l], l in touched);
      if l !in touched { UntouchedLoses(d, s.rows, touched, l); }
    }
  }

  ghost predicate ListErased(list: MemoryList, before: MemoryList, subquantizers: nat, rows: seq<Row>, visited: bool) {
    if visited then ListHolds(list, subquantizers, rows) else list == before
  }

  method CommitList(list: MemoryList, subquantizers: nat, p: PreparedDeletion, ghost rows: seq<Row>, ghost deleted: seq<nat>)
    returns (next: MemoryList)
    requires ListHolds(list, subquantizers, rows) && PlannedList(p, rows, deleted) && ReadyList(p, list, subquantizers, rows)
    ensures ListHolds(next, subquantizers, SwapDelete(rows, deleted))
  {
    next := PD.CommitDeletion(list, subquantizers, p.scratch, p.newSize, p.moves, BlocksOf(list), PostingsOf(rows));
    BuffersBlocks(next, subquantizers, BlocksOf(list));
    MovedStores(rows, p.moves, p.newSize);
  }

  // ---------------------------------------------------------------- resolving the batch

  /** The entry for the ID is active and names a place inside the lists. */
  ghost predicate FoundInLists(shape: Shape, s: IndexState, id: nat)
    requires shape.idsPerPage > 0
  {
    var e := D.EntryAt(s.pages, shape.idsPerPage, id);
    e.Present? && InList(s.rows, e.location, e.location.listNo)
  }

  /** No ID of the batch is one whose directory entry an interrupted insertion may have left. */
  ghost predicate NonePending(s: IndexState, ids: seq<nat>) {
    forall i :: 0 <= i < |ids| ==> ids[i] < s.nextId || s.nextId + s.pending <= ids[i]
  }

  /** Except for such IDs, the entries lead to the rows. */
  lemma FoundIsLive(shape: Shape, s: IndexState, id: nat)
    requires Consistent(shape, s)
    ensures Live(View(s.pages, shape.idsPerPage, s.nextId), id) ==> FoundInLists(shape, s, id) && id < s.nextId
    ensures id < s.nextId || s.nextId + s.pending <= id ==>
      (FoundInLists(shape, s, id) <==> Live(View(s.pages, shape.idsPerPage, s.nextId), id))
  {
    assert Grounded(View(s.pages, shape.idsPerPage, s.nextId), s.rows, s.nextId, id);
  }

  /** Refuses batches that are too large, repeat an ID or name an ID without an entry inside the lists. */
  method ResolveBatch(directory: ExternalLocationDirectory, lists: seq<MemoryList>, activeCount: nat, ids: seq<nat>, ghost shape: Shape, ghost s: IndexState)
    returns (r: Result<Deletion>)
    requires directory.Valid() && directory.pages == s.pages && directory.perPage == shape.idsPerPage
    requires Consistent(shape, s) && s.lists == lists && s.activeCount == activeCount
    ensures r.Ok? <==> |ids| <= s.activeCount && Distinct(ids) && forall i :: 0 <= i < |ids| ==> FoundInLists(shape, s, ids[i])
    ensures r.Err? ==> r.error in {InvalidArgument, OutOfRange}
    ensures r.Ok? ==> Finds(r.value, shape, s) && r.value.ids == ids
    ensures r.Err? ==> !Disagrees(shape, s, ids)
  {
    DistinctCount(ids);
    if |ids| > activeCount || |IdSet(ids)| != |ids| {
      return Err(InvalidArgument);
    }
    var found, pagesRead := directory.ReadBatch(ids);
    if found.Err? {
      assert exists i :: 0 <= i < |ids| && directory.Lookup(ids[i]).Absent?;
      return Err(found.error);
    }
    var assignments := AssignmentsOf(lists, ids, found.value, shape, s);
    if assignments.Err? {
      return Err(assignments.error);
    }
    return Ok(Deletion(ids, found.value, assignments.value));
  }

  /** The batch with what the directory says about its IDs. */
  ghost predicate Finds(d: Deletion, shape: Shape, s: IndexState)
    requires shape.idsPerPage > 0
  {
    && Distinct(d.ids) && |d.ids| == |d.locations| && InLists(s.rows, d.locations, d.assignments)
    && forall i :: 0 <= i < |d.ids| ==> D.EntryAt(s.pages, shape.idsPerPage, d.ids[i]) == D.Present(d.locations[i])
  }

  /** No two entries of the batch name the same place. */
  ghost predicate EntriesApart(shape: Shape, s: IndexState, ids: seq<nat>)
    requires shape.idsPerPage > 0
  {
    forall i, j :: 0 <= i < j < |ids| ==> D.EntryAt(s.pages, shape.idsPerPage, ids[i]) != D.EntryAt(s.pages, shape.idsPerPage, ids[j])
  }

  /** Every ID has an entry inside the lists, but not every entry leads to a row of that ID. */
  ghost predicate Disagrees(shape: Shape, s: IndexState, ids: seq<nat>)
    requires shape.idsPerPage > 0
  {
    && ids != [] && |ids| <= s.activeCount && Distinct(ids)
    && (forall i :: 0 <= i < |ids| ==> FoundInLists(shape, s, ids[i]))
    && (exists i :: 0 <= i < |ids| && !Live(View(s.pages, shape.idsPerPage, s.nextId), ids[i]))
  }

  /** How the outcome of the lookup decides about disagreement. */
  lemma FoundDisagrees(d: Deletion, shape: Shape, s: IndexState)
    requires Consistent(shape, s) && Finds(d, shape, s) && d.ids != [] && |d.ids| <= s.activeCount
    ensures EntriesApart(shape, s, d.ids) <==> Apart(d.locations)
    ensures Disagrees(shape, s, d.ids) <==> !Resolves(d, View(s.pages, shape.idsPerPage, s.nextId))
  {
    FoundResolves(d, shape, s);
    forall i | 0 <= i < |d.ids| ensures FoundInLists(shape, s, d.ids[i]) {
      assert InList(s.rows, d.locations[i], d.assignments[i]);
    }
    forall i, j | 0 <= i < j < |d.ids|
      ensures D.EntryAt(s.pages, shape.idsPerPage, d.ids[i]) != D.EntryAt(s.pages, shape.idsPerPage, d.ids[j]) <==> d.locations[i] != d.locations[j]
    {
    }
  }

  /** Live IDs are found where they are. */
  lemma FoundResolves(d: Deletion, shape: Shape, s: IndexState)
    requires Consistent(shape, s) && Finds(d, shape, s)
    ensures Resolves(d, View(s.pages, shape.idsPerPage, s.nextId)) <==>
      forall i :: 0 <= i < |d.ids| ==> Live(View(s.pages, shape.idsPerPage, s.nextId), d.ids[i])
  {
    var dir := View(s.pages, shape.idsPerPage, s.nextId);
    forall i | 0 <= i < |d.ids| ensures Live(dir, d.ids[i]) <==> ResolvedId(dir, d.ids, d.locations, d.assignments, i) {
      assert InList(s.rows, d.locations[i], d.assignments[i]);
      FoundIsLive(shape, s, d.ids[i]);
    }
  }

  /** The list of every ID; a location that is not active or not inside the lists is refused. */
  method AssignmentsOf(lists: seq<MemoryList>, ids: seq<nat>, locations: seq<D.DiskLocation>, ghost shape: Shape, ghost s: IndexState)
    returns (r: Result<seq<nat>>)
    requires Consistent(shape, s) && s.lists == lists && |locations| == |ids|
    requires forall i :: 0 <= i < |ids| ==> D.EntryAt(s.pages, shape.idsPerPage, ids[i]) == D.Present(locations[i])
    ensures r.Ok? <==> forall i :: 0 <= i < |ids| ==> FoundInLists(shape, s, ids[i])
    ensures r.Err? ==> r.error == InvalidArgument
    ensures r.Ok? ==> InLists(s.rows, locations, r.value)
  {
    var assignments: seq<nat> := [];
    for i := 0 to |ids|
      invariant |assignments| == i
      invariant forall k :: 0 <= k < i ==> InList(s.rows, locations[k], assignments[k])
    {
      assert D.EntryAt(s.pages, shape.idsPerPage, ids[i]) == D.Present(locations[i]);
      ListSize(lists, shape, s, locations[i].listNo);
      if !locations[i].Active() || locations[i].listNo >= |lists| || locations[i].offset >= lists[locations[i].listNo].logicalSize {
        assert !FoundInLists(shape, s, ids[i]);
        return Err(InvalidArgument);
      }
      assignments := assignments + [locations[i].listNo];
    }
    forall i | 0 <= i < |ids| ensures FoundInLists(shape, s, ids[i]) {
      assert InList(s.rows, locations[i], assignments[i]);
    }
    return Ok(assignments);
  }

  lemma ListSize(lists: seq<MemoryList>, shape: Shape, s: IndexState, l: nat)
    requires Consistent(shape, s) && s.lists == lists
    ensures |lists| == |s.rows| && (l < |lists| ==> lists[l].logicalSize == |s.rows[l]|)
  {
    if l < |lists| { assert ListHolds(lists[l], shape.subquantizers, s.rows[l]); }
  }
}
