/**
 The mutable index of adapters/external_list_ivf.cpp: resident postings, one record file per list and the
 Logical-ID directory, kept as three views of one map from IDs to vectors.
 */
module ExternalListIndex {
  import opened Arithmetic
  import opened Outcomes
  import opened Sorting
  import opened PostingList
  import opened RecordPages
  import opened RecordStore
  import opened MovePlan
  import opened BatchPlan
  import opened LocationDirectory
  import opened IndexRows
  import opened IndexInsert
  import opened IndexErase
  import opened ErasePlan
  import opened IndexLists
  import opened IndexFiles
  import opened IndexDeletion
  import IS = IndexSearch
  import PS = PlainSearch
  import S = Search
  import RP = ReadPlans
  import PP = PlanProcessing
  import AP = AioPipeline
  import RF = Refiner
  import EK = ExactTopK
  import Extended
  import SE = Selection
  import D = DirectoryPages

  /** The represented map and its bookkeeping are as before. */
  ghost predicate SameMap(shape: Shape, was: IndexState, now: IndexState) {
    && Represented(shape, now) == Represented(shape, was)
    && now.rows == was.rows && now.nextId == was.nextId && now.activeCount == was.activeCount
  }

  /** An insertion that stopped: neither the map nor any entry of the IDs handed out so far has changed. */
  ghost predicate LeftAlone(shape: Shape, was: IndexState, now: IndexState, count: nat) {
    && SameMap(shape, was, now) && shape.idsPerPage > 0
    && Stopped(now.pages, was.pages, shape.idsPerPage, was.nextId)
    && now.pending in {was.pending, Max(was.pending, count)}
  }

  /** Resident buffers and record files do not show in what an insertion adds. */
  lemma SameBase(shape: Shape, was: IndexState, mid: IndexState, now: IndexState, assignments: seq<nat>, inputs: seq<Encoded>)
    requires mid == was.(lists := mid.lists, files := mid.files) && shape.idsPerPage > 0
    ensures GainsBatch(shape, mid, now, assignments, inputs) ==> GainsBatch(shape, was, now, assignments, inputs)
    ensures LeftAlone(shape, mid, now, |inputs|) ==> LeftAlone(shape, was, now, |inputs|)
    ensures LeftAlone(shape, was, mid, |inputs|)
  {
  }

  /** Whether every directory page up to the last new ID, and the truncation, can be written. */
  ghost predicate AmpleEntries(io: nat, s: IndexState, count: nat, idsPerPage: nat) {
    idsPerPage > 0 && io > PageCount(s.nextId + Max(s.pending, count), idsPerPage)
  }

  /** The map gained exactly the batch, under the next dense IDs. */
  ghost predicate GainsBatch(shape: Shape, was: IndexState, now: IndexState, assignments: seq<nat>, inputs: seq<Encoded>) {
    && |assignments| == |inputs|
    && now.rows == Inserted(was.rows, assignments, inputs, was.nextId)
    && now.nextId == was.nextId + |inputs| && now.activeCount == was.activeCount + |inputs|
    && now.pending == Max(was.pending, |inputs|) - |inputs|
    && Represented(shape, now) == Represented(shape, was) + Fresh(assignments, inputs, was.nextId)
  }

  lemma InputVector(assignments: seq<nat>, inputs: seq<Encoded>, i: nat)
    requires |assignments| == |inputs| && i < |inputs|
    ensures VectorOf(assignments, inputs, i) == Vector(assignments[i], inputs[i].payload, inputs[i].posting)
  {
  }

  /** ID by ID: each input under its own new ID, every other entry as before. */
  lemma GainsPlainly(shape: Shape, was: IndexState, now: IndexState, assignments: seq<nat>, inputs: seq<Encoded>)
    requires GainsBatch(shape, was, now, assignments, inputs)
    ensures var (m, m') := (Represented(shape, was), Represented(shape, now));
      && (forall i: nat :: i < |inputs| ==>
            was.nextId + i in m' && m'[was.nextId + i] == Vector(assignments[i], inputs[i].payload, inputs[i].posting))
      && (forall id :: id in m ==> id in m' && m'[id] == m[id])
      && (forall id :: id in m' && id !in m ==> was.nextId <= id < was.nextId + |inputs|)
  {
    var added := Fresh(assignments, inputs, was.nextId);
    forall i: nat | i < |inputs|
      ensures was.nextId + i in added && added[was.nextId + i] == Vector(assignments[i], inputs[i].payload, inputs[i].posting)
    {
      assert NewId(was.nextId + i, was.nextId, |inputs|);
      InputVector(assignments, inputs, i);
    }
    forall id | id in Represented(shape, was) ensures id !in added { }
  }

  lemma NothingInserted(shape: Shape, s: IndexState)
    ensures GainsBatch(shape, s, s, [], [])
  {
    var next := Inserted(s.rows, [], [], s.nextId);
    forall l | 0 <= l < |s.rows| ensures next[l] == s.rows[l] {
      assert NewRows([], [], s.nextId, l) == [];
    }
    assert Fresh([], [], s.nextId) == map[];
  }

  lemma RowsAddressable(s: IndexState, more: nat)
    requires Counted(s.rows, s.nextId, s.activeCount) && s.nextId + more <= UINT32_MAX
    ensures Addressable(s.rows, more)
    ensures forall l :: 0 <= l < |s.rows| ==> |s.rows[l]| + more <= UINT32_MAX
  {
    forall l | 0 <= l < |s.rows| ensures |s.rows[l]| + more <= UINT32_MAX {
      SizeBelowTotal(s.rows, |s.rows|, l);
    }
  }

  lemma BatchCounted(s: IndexState, assignments: seq<nat>, inputs: seq<Encoded>)
    requires Counted(s.rows, s.nextId, s.activeCount) && s.nextId + |inputs| <= UINT32_MAX
    requires Batch(assignments, inputs, |s.rows|)
    ensures Counted(Inserted(s.rows, assignments, inputs, s.nextId), s.nextId + |inputs|, s.activeCount + |inputs|)
  {
    InsertTotal(s.rows, s.nextId, assignments, inputs, |s.rows|);
    StartTotal(assignments, |s.rows|);
  }

  /** The parts of a finished insertion, put together. */
  lemma InsertConsistent(shape: Shape, was: IndexState, now: IndexState, assignments: seq<nat>, inputs: seq<Encoded>)
    requires Consistent(shape, was) && Batch(assignments, inputs, |was.rows|) && was.nextId + |inputs| <= UINT32_MAX
    requires now.rows == Inserted(was.rows, assignments, inputs, was.nextId)
    requires now.nextId == was.nextId + |inputs| && now.activeCount == was.activeCount + |inputs|
    requires now.pending == Max(was.pending, |inputs|) - |inputs|
    requires ListsHold(now.lists, shape.subquantizers, now.rows)
    requires FilesHold(now.files, shape.recordsPerPage, now.rows)
    requires DirectoryHolds(now.pages, shape.idsPerPage, now.rows, now.nextId, now.pending)
    requires Represented(shape, now) == Represented(shape, was) + Fresh(assignments, inputs, was.nextId)
    ensures Consistent(shape, now) && GainsBatch(shape, was, now, assignments, inputs)
  {
    BatchCounted(was, assignments, inputs);
  }

  lemma ListSizes(lists: seq<MemoryList>, subquantizers: nat, rows: seq<seq<Row>>)
    requires ListsHold(lists, subquantizers, rows)
    ensures forall l :: 0 <= l < |rows| ==> lists[l].logicalSize == |rows[l]|
  {
    forall l | 0 <= l < |rows| ensures lists[l].logicalSize == |rows[l]| {
      assert ListHolds(lists[l], subquantizers, rows[l]);
    }
  }

  lemma ReservedStillHold(lists: seq<MemoryList>, subquantizers: nat, rows: seq<seq<Row>>, assignments: seq<nat>, touched: seq<nat>)
    requires |lists| == |rows|
    requires forall l :: 0 <= l < |rows| ==>
      ReservedList(lists[l], subquantizers, rows[l], |Positions(assignments, l)|, l in touched)
    ensures ListsHold(lists, subquantizers, rows)
    ensures forall l :: 0 <= l < |rows| ==> lists[l].logicalSize == |rows[l]|
  {
    forall l | 0 <= l < |rows| ensures ListHolds(lists[l], subquantizers, rows[l]) {
      assert ReservedList(lists[l], subquantizers, rows[l], |Positions(assignments, l)|, l in touched);
    }
  }

  lemma {:induction false} NoRows(rows: seq<seq<Row>>, lists: nat)
    requires lists <= |rows| && forall l :: 0 <= l < |rows| ==> rows[l] == []
    ensures RowTotal(rows, lists) == 0
  {
    if lists > 0 { NoRows(rows, lists - 1); }
  }

  lemma EmptyList(subquantizers: nat)
    requires subquantizers > 0 && subquantizers % 2 == 0
    ensures ListHolds(MemoryList([], [], 0, 0), subquantizers, [])
  {
  }

  /** An insertion up to its first external write: rows grouped, lanes reserved, updates collected. */
  ghost predicate PreparedInsert(lists: seq<MemoryList>, updates: seq<D.Update>, subquantizers: nat, plan: ListBatchPlan, grouped: seq<Row>,
                                 assignments: seq<nat>, inputs: seq<Encoded>, nextId: nat, rows: seq<seq<Row>>)
  {
    && Batch(assignments, inputs, |rows|) && Touched(plan.touchedLists, assignments, |rows|)
    && (forall i :: 0 <= i < |inputs| ==> |inputs[i].posting.code| == subquantizers / 2)
    && (forall l: nat :: l < |rows| ==> GroupRows(plan, grouped, assignments, inputs, nextId, l))
    && |lists| == |rows|
    && (forall l :: 0 <= l < |rows| ==>
          ReservedList(lists[l], subquantizers, rows[l], |Positions(assignments, l)|, l in plan.touchedLists))
    && updates == InsertUpdates(rows, assignments, nextId)
  }

  lemma PreparedSizes(lists: seq<MemoryList>, updates: seq<D.Update>, subquantizers: nat, plan: ListBatchPlan, grouped: seq<Row>,
                      assignments: seq<nat>, inputs: seq<Encoded>, nextId: nat, rows: seq<seq<Row>>)
    requires PreparedInsert(lists, updates, subquantizers, plan, grouped, assignments, inputs, nextId, rows)
    ensures forall l :: 0 <= l < |rows| ==> lists[l].logicalSize == |rows[l]|
  {
    ReservedStillHold(lists, subquantizers, rows, assignments, plan.touchedLists);
  }

  method PrepareInsert(lists: seq<MemoryList>, subquantizers: nat, plan: ListBatchPlan, assignments: seq<nat>, inputs: seq<Encoded>,
                       nextId: nat, ghost rows: seq<seq<Row>>)
    returns (grouped: seq<Row>, reserved: seq<MemoryList>, updates: seq<D.Update>)
    requires ListsHold(lists, subquantizers, rows) && Batch(assignments, inputs, |rows|)
    requires forall l :: 0 <= l < |rows| ==> |rows[l]| + |inputs| <= UINT32_MAX
    requires forall i :: 0 <= i < |inputs| ==> |inputs[i].posting.code| == subquantizers / 2
    requires Grouped(plan, assignments, |rows|) && Touched(plan.touchedLists, assignments, |rows|)
    ensures PreparedInsert(reserved, updates, subquantizers, plan, grouped, assignments, inputs, nextId, rows)
    ensures ListsHold(reserved, subquantizers, rows)
    ensures forall l :: 0 <= l < |rows| ==> reserved[l].logicalSize == |rows[l]|
  {
    grouped := Regroup(plan, assignments, inputs, nextId, |lists|);
    reserved := ReserveAll(lists, subquantizers, plan, assignments, rows);
    ReservedStillHold(reserved, subquantizers, rows, assignments, plan.touchedLists);
    updates := CollectInsertUpdates(reserved, plan, grouped, assignments, inputs, nextId, rows);
  }

  // ---------------------------------------------------------------- deletion

  /** A batch that a caller may delete: every ID once, and each of them in the map. */
  ghost predicate Erasable(contents: map<nat, Vector>, ids: seq<nat>) {
    Distinct(ids) && forall i :: 0 <= i < |ids| ==> ids[i] in contents
  }

  /** The map lost exactly the batch; every list is its swap-deleted self. */
  ghost predicate LosesBatch(shape: Shape, was: IndexState, now: IndexState, ids: seq<nat>) {
    && Represented(shape, now) == Represented(shape, was) - IdSet(ids)
    && now.nextId == was.nextId && now.pending == was.pending && now.activeCount + |ids| == was.activeCount
    && exists deleted :: SwapDeleted(was.rows, now.rows, deleted, IdSet(ids))
  }

  ghost predicate SwapDeleted(rows: seq<seq<Row>>, rows': seq<seq<Row>>, deleted: seq<seq<nat>>, ids: set<nat>) {
    Deletables(rows, deleted) && Names(rows, deleted, ids) && rows' == Erased(rows, deleted)
  }

  /** Nothing but the record files and the directory changed, and no row outside the batch was lost from its file. */
  ghost predicate StillReadable(was: IndexState, now: IndexState, perPage: nat, ids: seq<nat>)
    requires perPage > 0
  {
    && now == was.(files := now.files, pages := now.pages) && |now.files| == |was.rows|
    && forall l, o :: 0 <= l < |was.rows| && 0 <= o < |was.rows[l]| && was.rows[l][o].id !in ids ==>
         Readable(now.files[l], perPage, RecordOf(was.rows[l][o]))
  }

  /**
   The directory changes only once all record files hold the remaining rows, and then every entry is as before or
   as it should become: an ID that is neither deleted nor moved keeps its entry.
   */
  ghost predicate HalfErased(shape: Shape, was: IndexState, now: IndexState, ids: seq<nat>)
    requires shape.recordsPerPage > 0
  {
    exists deleted :: HalfErasedBy(shape, was, now, ids, deleted)
  }

  ghost predicate HalfErasedBy(shape: Shape, was: IndexState, now: IndexState, ids: seq<nat>, deleted: seq<seq<nat>>)
    requires shape.recordsPerPage > 0
  {
    && Deletables(was.rows, deleted) && Names(was.rows, deleted, IdSet(ids))
    && (now.pages == was.pages || FilesHold(now.files, shape.recordsPerPage, Erased(was.rows, deleted)))
    && forall id: nat :: OldOrNew(View(was.pages, shape.idsPerPage, was.nextId), View(now.pages, shape.idsPerPage, was.nextId), was.rows, deleted, id)
  }

  /** What a commit that stops part way leaves behind. */
  ghost predicate PartErased(shape: Shape, was: IndexState, now: IndexState, ids: seq<nat>) {
    && shape.recordsPerPage > 0
    && StillReadable(was, now, shape.recordsPerPage, ids) && HalfErased(shape, was, now, ids)
  }

  /** The directory leads from every ID of the batch to its row. */
  ghost predicate LeadsTo(d: Deletion, shape: Shape, s: IndexState) {
    Resolves(d, View(s.pages, shape.idsPerPage, s.nextId))
  }

  /** A deletion just before its first write. */
  ghost predicate ReadyToErase(prepared: seq<PreparedDeletion>, updates: seq<D.Update>, plan: ListBatchPlan, d: Deletion,
                               shape: Shape, s: IndexState, blank: Record) {
    && shape.recordsPerPage > 0 && LeadsTo(d, shape, s)
    && (forall i :: 0 <= i < |d.assignments| ==> d.assignments[i] < |s.rows|)
    && Touched(plan.touchedLists, d.assignments, |s.rows|) && |prepared| == |plan.touchedLists|
    && ReadyDeletions(prepared, shape, s, blank, d, plan.touchedLists)
    && Deletables(s.rows, Lost(d, |s.rows|)) && updates == Flatten(Groups(d, s.rows))
  }

  /** ID by ID: those of the batch are gone, every other entry is as before. */
  lemma LosesPlainly(shape: Shape, was: IndexState, now: IndexState, ids: seq<nat>)
    requires LosesBatch(shape, was, now, ids)
    ensures var (m, m') := (Represented(shape, was), Represented(shape, now));
      && (forall id :: id in m' <==> id in m && id !in ids)
      && (forall id :: id in m' ==> m'[id] == m[id])
  {
    assert forall id :: id in IdSet(ids) <==> id in ids;
  }

  lemma NothingErased(shape: Shape, s: IndexState)
    ensures LosesBatch(shape, s, s, [])
  {
    var none: seq<seq<nat>> := seq(|s.rows|, _ => []);
    var next := s.rows;
    forall l | 0 <= l < |s.rows| ensures Deletable(none[l], |s.rows[l]|) && SwapDelete(s.rows[l], none[l]) == s.rows[l] {
      NothingDeleted(s.rows[l]);
    }
    assert Erased(s.rows, none) == s.rows;
    assert SwapDeleted(s.rows, s.rows, none, IdSet([]));
  }

  lemma ErasableIds(shape: Shape, s: IndexState, ids: seq<nat>)
    requires Consistent(shape, s)
    ensures Erasable(Represented(shape, s), ids) <==>
      Distinct(ids) && forall i :: 0 <= i < |ids| ==> Live(View(s.pages, shape.idsPerPage, s.nextId), ids[i])
    ensures Erasable(Represented(shape, s), ids) ==> |ids| <= s.activeCount
  {
    var dir := View(s.pages, shape.idsPerPage, s.nextId);
    forall id: nat ensures Live(dir, id) ==> id < s.nextId {
      assert Grounded(dir, s.rows, s.nextId, id);
    }
    if Erasable(Represented(shape, s), ids) {
      EnoughActive(shape, s, ids);
    }
  }

  lemma InListsAssigned(rows: seq<seq<Row>>, d: Deletion)
    requires InLists(rows, d.locations, d.assignments)
    ensures forall i :: 0 <= i < |d.assignments| ==> d.assignments[i] < |rows|
  {
    forall i | 0 <= i < |d.assignments| ensures d.assignments[i] < |rows| { assert InList(rows, d.locations[i], d.assignments[i]); }
  }

  /** Live IDs have entries inside the lists; without IDs left by interrupted insertions only they do. */
  lemma FoundIds(shape: Shape, s: IndexState, ids: seq<nat>)
    requires Consistent(shape, s)
    ensures (forall i :: 0 <= i < |ids| ==> Live(View(s.pages, shape.idsPerPage, s.nextId), ids[i])) ==>
      forall i :: 0 <= i < |ids| ==> FoundInLists(shape, s, ids[i])
    ensures NonePending(s, ids) && (forall i :: 0 <= i < |ids| ==> FoundInLists(shape, s, ids[i])) ==>
      forall i :: 0 <= i < |ids| ==> Live(View(s.pages, shape.idsPerPage, s.nextId), ids[i])
  {
    forall i | 0 <= i < |ids|
      ensures Live(View(s.pages, shape.idsPerPage, s.nextId), ids[i]) ==> FoundInLists(shape, s, ids[i])
      ensures NonePending(s, ids) && FoundInLists(shape, s, ids[i]) ==> Live(View(s.pages, shape.idsPerPage, s.nextId), ids[i])
    {
      FoundIsLive(shape, s, ids[i]);
    }
  }

  /** Distinct active IDs are at most the active count. */
  lemma EnoughActive(shape: Shape, s: IndexState, ids: seq<nat>)
    requires Consistent(shape, s) && Distinct(ids)
    requires forall i :: 0 <= i < |ids| ==> Live(View(s.pages, shape.idsPerPage, s.nextId), ids[i])
    ensures |ids| <= s.activeCount
  {
    var dir := View(s.pages, shape.idsPerPage, s.nextId);
    var locations := seq(|ids|, i requires 0 <= i < |ids| => dir(ids[i]).location);
    var assignments := seq(|ids|, i requires 0 <= i < |ids| => dir(ids[i]).location.listNo);
    forall i | 0 <= i < |ids| ensures ResolvedId(dir, ids, locations, assignments, i) && assignments[i] < |s.rows| {
      assert Grounded(dir, s.rows, s.nextId, ids[i]);
    }
    ResolvedCount(shape, s, Deletion(ids, locations, assignments));
  }

  lemma ResolvedCount(shape: Shape, s: IndexState, d: Deletion)
    requires Consistent(shape, s) && Resolves(d, View(s.pages, shape.idsPerPage, s.nextId))
    requires forall i :: 0 <= i < |d.assignments| ==> d.assignments[i] < |s.rows|
    ensures Deletables(s.rows, Lost(d, |s.rows|))
    ensures RowTotal(Erased(s.rows, Lost(d, |s.rows|)), |s.rows|) + |d.ids| == s.activeCount
  {
    var dir := View(s.pages, shape.idsPerPage, s.nextId);
    PlanNames(dir, s.rows, s.nextId, d.ids, d.locations, d.assignments);
    EraseTotal(s.rows, Lost(d, |s.rows|), d.assignments, |s.rows|);
    StartTotal(d.assignments, |s.rows|);
  }

  /** The parts of a finished deletion, put together. */
  lemma EraseConsistent(shape: Shape, was: IndexState, now: IndexState, d: Deletion)
    requires Consistent(shape, was) && Resolves(d, View(was.pages, shape.idsPerPage, was.nextId))
    requires forall i :: 0 <= i < |d.assignments| ==> d.assignments[i] < |was.rows|
    requires Deletables(was.rows, Lost(d, |was.rows|)) && now.rows == Erased(was.rows, Lost(d, |was.rows|))
    requires now.nextId == was.nextId && now.pending == was.pending && now.activeCount + |d.ids| == was.activeCount
    requires ListsHold(now.lists, shape.subquantizers, now.rows)
    requires FilesHold(now.files, shape.recordsPerPage, now.rows)
    requires DirectoryHolds(now.pages, shape.idsPerPage, now.rows, now.nextId, now.pending)
    requires Represented(shape, now) == Represented(shape, was) - IdSet(d.ids)
    ensures Consistent(shape, now) && LosesBatch(shape, was, now, d.ids)
  {
    ResolvedCount(shape, was, d);
    PlanNames(View(was.pages, shape.idsPerPage, was.nextId), was.rows, was.nextId, d.ids, d.locations, d.assignments);
    assert SwapDeleted(was.rows, now.rows, Lost(d, |was.rows|), IdSet(d.ids));
  }

  lemma UnnamedReadable(was: IndexState, now: IndexState, perPage: nat, d: Deletion)
    requires perPage > 0 && |d.locations| == |d.ids| == |d.assignments| && Deletables(was.rows, Lost(d, |was.rows|))
    requires Names(was.rows, Lost(d, |was.rows|), IdSet(d.ids)) && now == was.(files := now.files, pages := now.pages) && |now.files| == |was.rows|
    requires forall l :: 0 <= l < |was.rows| ==> SurvivorsReadable(now.files[l], perPage, was.rows[l], Lost(d, |was.rows|)[l])
    ensures StillReadable(was, now, perPage, d.ids)
  {
    forall l, o | 0 <= l < |was.rows| && 0 <= o < |was.rows[l]| && was.rows[l][o].id !in d.ids
      ensures Readable(now.files[l], perPage, RecordOf(was.rows[l][o]))
    {
      assert NamesRow(was.rows, Lost(d, |was.rows|), IdSet(d.ids), l, o);
      assert SurvivorsReadable(now.files[l], perPage, was.rows[l], Lost(d, |was.rows|)[l]);
    }
  }

  /** After a stop in the record files: the directory is as it was. */
  lemma DirectoryUntouched(shape: Shape, was: IndexState, now: IndexState, d: Deletion)
    requires Consistent(shape, was) && Resolves(d, View(was.pages, shape.idsPerPage, was.nextId)) && now.pages == was.pages
    ensures HalfErased(shape, was, now, d.ids)
  {
    PlanNames(View(was.pages, shape.idsPerPage, was.nextId), was.rows, was.nextId, d.ids, d.locations, d.assignments);
    assert HalfErasedBy(shape, was, now, d.ids, Lost(d, |was.rows|));
  }

  /** After a stop in the directory: every record file already holds what remains. */
  lemma DirectoryHalfErased(shape: Shape, was: IndexState, now: IndexState, d: Deletion)
    requires Consistent(shape, was) && Resolves(d, View(was.pages, shape.idsPerPage, was.nextId))
    requires Deletables(was.rows, Lost(d, |was.rows|))
    requires FilesHold(now.files, shape.recordsPerPage, Erased(was.rows, Lost(d, |was.rows|)))
    requires forall id: nat :: OldOrNew(View(was.pages, shape.idsPerPage, was.nextId), View(now.pages, shape.idsPerPage, was.nextId),
                                        was.rows, Lost(d, |was.rows|), id)
    requires now == was.(files := now.files, pages := now.pages)
    ensures HalfErased(shape, was, now, d.ids) && StillReadable(was, now, shape.recordsPerPage, d.ids)
  {
    PlanNames(View(was.pages, shape.idsPerPage, was.nextId), was.rows, was.nextId, d.ids, d.locations, d.assignments);
    assert HalfErasedBy(shape, was, now, d.ids, Lost(d, |was.rows|));
    forall l | 0 <= l < |was.rows|
      ensures SurvivorsReadable(now.files[l], shape.recordsPerPage, was.rows[l], Lost(d, |was.rows|)[l])
    {
      RemainingReadable(now.files, shape.recordsPerPage, was.rows, Lost(d, |was.rows|), l);
    }
    UnnamedReadable(was, now, shape.recordsPerPage, d);
  }

  // ---------------------------------------------------------------- whole histories

  /** What one call, or a restart over undisturbed storage, can do to a valid index, as far as the map is concerned. */
  ghost predicate Step(shape: Shape, was: IndexState, now: IndexState) {
    || SameMap(shape, was, now)
    || (exists assignments, inputs :: GainsBatch(shape, was, now, assignments, inputs))
    || (exists ids :: LosesBatch(shape, was, now, ids))
  }

  ghost predicate Run(shape: Shape, run: seq<IndexState>) {
    forall k :: 0 < k < |run| ==> Step(shape, run[k - 1], run[k])
  }

  /** An ID that was handed out stays handed out, and if it is still in the map it stands for the same vector. */
  ghost predicate KeepsId(shape: Shape, was: IndexState, now: IndexState, id: nat) {
    id < was.nextId ==>
      && id < now.nextId
      && (id in Represented(shape, now) ==>
            id in Represented(shape, was) && Represented(shape, now)[id] == Represented(shape, was)[id])
  }

  lemma StepKeepsId(shape: Shape, was: IndexState, now: IndexState, id: nat)
    requires Step(shape, was, now)
    ensures KeepsId(shape, was, now, id)
  {
  }

  lemma KeepsTransitive(shape: Shape, a: IndexState, b: IndexState, c: IndexState, id: nat)
    requires KeepsId(shape, a, b, id) && KeepsId(shape, b, c, id)
    ensures KeepsId(shape, a, c, id)
  {
  }

  /** Once an ID was handed out it never comes back after its deletion, and never stands for another vector. */
  lemma {:induction false} NeverReused(shape: Shape, run: seq<IndexState>, i: nat, j: nat, id: nat)
    requires Run(shape, run) && i <= j < |run|
    ensures KeepsId(shape, run[i], run[j], id)
  {
    if i < j {
      NeverReused(shape, run, i, j - 1, id);
      StepKeepsId(shape, run[j - 1], run[j], id);
      KeepsTransitive(shape, run[i], run[j - 1], run[j], id);
    }
  }

  class ExternalListRecastIndex {
    const subquantizers: nat
    const store: ListFileRecordStore
    const directory: ExternalLocationDirectory
    var lists: seq<MemoryList>
    var nextId: nat
    var activeCount: nat
    ghost var rows: seq<seq<Row>>
    /** For how many IDs from the next one on interrupted insertions may have left directory entries. */
    ghost var pending: nat

    ghost function TheShape(): Shape {
      Shape(subquantizers, store.perPage, directory.perPage)
    }

    ghost function State(): IndexState
      reads this, store, directory
    {
      IndexState(lists, store.files, directory.pages, rows, nextId, activeCount, pending)
    }

    ghost predicate Valid()
      reads this, store, directory
    {
      store.Valid() && directory.Valid() && store.nlist == |rows| && Consistent(TheShape(), State())
    }

    /** The map from Logical IDs to vectors. */
    ghost function Map(): map<nat, Vector>
      reads this, store, directory
    {
      Represented(TheShape(), State())
    }

    ghost predicate Complete()
      requires store.Valid()
      reads this, store
    {
      FilesComplete(store.files, store.perPage, rows)
    }

    constructor (nlist: nat, recordsPerPage: nat, idsPerPage: nat, subquantizers: nat, blank: Record)
      requires recordsPerPage > 0 && idsPerPage > 0 && nlist < D.NO_LOCATION
      requires subquantizers > 0 && subquantizers % 2 == 0
      ensures Valid() && Complete() && Map() == map[] && nextId == 0 && pending == 0 && fresh(store) && fresh(directory)
      ensures TheShape() == Shape(subquantizers, recordsPerPage, idsPerPage) && |rows| == nlist
    {
      this.subquantizers := subquantizers;
      store := new ListFileRecordStore(nlist, recordsPerPage, blank);
      directory := new ExternalLocationDirectory(idsPerPage);
      lists := seq(nlist, _ => MemoryList([], [], 0, 0));
      nextId, activeCount := 0, 0;
      pending := 0;
      rows := seq(nlist, _ => []);
      new;
      NoRows(rows, |rows|);
      forall l | 0 <= l < nlist ensures ListHolds(lists[l], subquantizers, []) {
        EmptyList(subquantizers);
      }
      ghost var dir := View(directory.pages, idsPerPage, 0);
      forall l: nat, o: nat ensures Located(dir, rows, 0, l, o) { }
      forall id: nat ensures Grounded(dir, rows, 0, id) { }
    }

    /** Over existing storage, from what a checkpoint recorded. */
    constructor Loaded(subquantizers: nat, store: ListFileRecordStore, directory: ExternalLocationDirectory, lists: seq<MemoryList>,
                       nextId: nat, activeCount: nat, ghost rows: seq<seq<Row>>, ghost pending: nat)
      ensures this.store == store && this.directory == directory
      ensures TheShape() == Shape(subquantizers, store.perPage, directory.perPage)
      ensures State() == IndexState(lists, store.files, directory.pages, rows, nextId, activeCount, pending)
    {
      this.subquantizers, this.store, this.directory, this.lists := subquantizers, store, directory, lists;
      this.nextId, this.activeCount, this.rows, this.pending := nextId, activeCount, rows, pending;
    }

    /** Whether every list's file can be written often enough to append to it, and the directory to name the new rows. */
    ghost predicate AmpleForInsert(io: nat -> nat, directoryIo: nat, count: nat)
      requires store.Valid()
      reads this, store, directory
    {
      AmpleToInsert(io, rows, count, store.perPage) && AmpleEntries(directoryIo, State(), count, directory.perPage)
    }

    /**
     Inserts a routed and encoded batch. `io(l)` is the number of changes to list `l`'s file that succeed,
     `directoryIo` that of changes to the directory file. On success the map gains exactly the new vectors under
     the next dense IDs; a batch interrupted anywhere leaves the map and every entry of the IDs handed out so far
     as they were, and can be repeated.
     */
    method InsertBatch(assignments: seq<nat>, inputs: seq<Encoded>, io: nat -> nat, directoryIo: nat) returns (r: Result<seq<nat>>)
      requires Valid() && |assignments| == |inputs|
      requires forall i :: 0 <= i < |inputs| ==> |inputs[i].posting.code| == subquantizers / 2
      modifies this, store, directory
      ensures Valid()
      ensures r.Ok? ==> GainsBatch(TheShape(), old(State()), State(), assignments, inputs)
      ensures r.Ok? ==> |r.value| == |inputs| && forall i :: 0 <= i < |inputs| ==> r.value[i] == old(nextId) + i
      ensures r.Ok? && old(Complete()) ==> Complete()
      ensures r.Err? ==> LeftAlone(TheShape(), old(State()), State(), |inputs|)
      ensures r.Err? ==> r.error in {Overflow, InvalidArgument, OutOfRange, RuntimeError}
      ensures inputs != [] && old(nextId) + |inputs| > UINT32_MAX ==> r == Err(Overflow)
      ensures old(AmpleForInsert(io, directoryIo, |inputs|)) && old(nextId) + |inputs| <= UINT32_MAX && Batch(assignments, inputs, |old(rows)|)
        ==> r.Ok?
    {
      if |inputs| == 0 {
        NothingInserted(TheShape(), State());
        return Ok([]);
      }
      if nextId > UINT32_MAX || |inputs| > UINT32_MAX - nextId {
        return Err(Overflow);
      }
      var planned := GroupByList(assignments, |lists|);
      if planned.Err? {
        return Err(planned.error);
      }
      var first := nextId;
      var inserted := InsertGrouped(planned.value, assignments, inputs, io, directoryIo);
      if inserted.Err? {
        return Err(inserted.error);
      }
      return Ok(seq(|inputs|, i requires 0 <= i => first + i));
    }

    method InsertGrouped(plan: ListBatchPlan, assignments: seq<nat>, inputs: seq<Encoded>, io: nat -> nat, directoryIo: nat) returns (r: Result<()>)
      requires Valid() && Batch(assignments, inputs, |rows|) && nextId + |inputs| <= UINT32_MAX
      requires forall i :: 0 <= i < |inputs| ==> |inputs[i].posting.code| == subquantizers / 2
      requires Grouped(plan, assignments, |rows|) && Touched(plan.touchedLists, assignments, |rows|)
      modifies this, store, directory
      ensures Valid()
      ensures r.Ok? ==> GainsBatch(TheShape(), old(State()), State(), assignments, inputs)
      ensures r.Ok? && old(Complete()) ==> Complete()
      ensures r.Err? ==> LeftAlone(TheShape(), old(State()), State(), |inputs|) && r.error in {InvalidArgument, OutOfRange, RuntimeError}
      ensures AmpleToInsert(io, old(rows), |inputs|, store.perPage) && AmpleEntries(directoryIo, old(State()), |inputs|, directory.perPage)
        ==> r.Ok?
    {
      ghost var was := State();
      var grouped, updates := ReserveLanes(plan, assignments, inputs);
      ghost var reserved := State();
      r := InsertPrepared(plan, grouped, updates, assignments, inputs, io, directoryIo);
      SameBase(TheShape(), was, reserved, State(), assignments, inputs);
    }

    /** The external files, then everything else. */
    method InsertPrepared(plan: ListBatchPlan, grouped: seq<Row>, updates: seq<D.Update>, ghost assignments: seq<nat>, inputs: seq<Encoded>,
                          io: nat -> nat, directoryIo: nat)
      returns (r: Result<()>)
      requires Valid() && Batch(assignments, inputs, |rows|) && nextId + |inputs| <= UINT32_MAX
      requires PreparedInsert(lists, updates, subquantizers, plan, grouped, assignments, inputs, nextId, rows)
      modifies this, store, directory
      ensures Valid()
      ensures r.Ok? ==> GainsBatch(TheShape(), old(State()), State(), assignments, inputs)
      ensures r.Ok? && old(Complete()) ==> Complete()
      ensures r.Err? ==> LeftAlone(TheShape(), old(State()), State(), |inputs|) && r.error in {InvalidArgument, OutOfRange, RuntimeError}
      ensures AmpleToInsert(io, old(rows), |inputs|, store.perPage) && AmpleEntries(directoryIo, old(State()), |inputs|, directory.perPage)
        ==> r.Ok?
    {
      ghost var was := State();
      ghost var enoughPages, enoughEntries :=
        AmpleToInsert(io, rows, |inputs|, store.perPage), AmpleEntries(directoryIo, was, |inputs|, directory.perPage);
      r := WriteRecordFiles(plan, grouped, updates, io, assignments, inputs);
      ghost var written := State();
      assert enoughPages ==> r.Ok?;
      assert enoughEntries == AmpleEntries(directoryIo, written, |inputs|, directory.perPage);
      if r.Ok? {
        r := CommitInsert(plan, grouped, updates, directoryIo, assignments, inputs);
      }
      SameBase(TheShape(), was, written, State(), assignments, inputs);
    }

    /** Room is made before anything external is written; the rows do not change. */
    method ReserveLanes(plan: ListBatchPlan, assignments: seq<nat>, inputs: seq<Encoded>)
      returns (grouped: seq<Row>, updates: seq<D.Update>)
      requires Valid() && Batch(assignments, inputs, |rows|) && nextId + |inputs| <= UINT32_MAX
      requires forall i :: 0 <= i < |inputs| ==> |inputs[i].posting.code| == subquantizers / 2
      requires Grouped(plan, assignments, |rows|) && Touched(plan.touchedLists, assignments, |rows|)
      modifies this
      ensures Valid() && State() == old(State()).(lists := lists)
      ensures PreparedInsert(lists, updates, subquantizers, plan, grouped, assignments, inputs, nextId, rows)
    {
      RowsAddressable(State(), |inputs|);
      grouped, lists, updates := PrepareInsert(lists, subquantizers, plan, assignments, inputs, nextId, rows);
    }

    /** The record files; whether or not all of them are written, the old rows remain. */
    method WriteRecordFiles(plan: ListBatchPlan, grouped: seq<Row>, updates: seq<D.Update>, io: nat -> nat,
                            ghost assignments: seq<nat>, ghost inputs: seq<Encoded>)
      returns (r: Result<()>)
      requires Valid() && Batch(assignments, inputs, |rows|) && nextId + |inputs| <= UINT32_MAX
      requires PreparedInsert(lists, updates, subquantizers, plan, grouped, assignments, inputs, nextId, rows)
      modifies store
      ensures Valid() && State() == old(State()).(files := store.files)
      ensures r.Ok? ==> FilesHold(store.files, store.perPage, Inserted(rows, assignments, inputs, nextId))
      ensures r.Ok? && old(Complete()) ==> FilesComplete(store.files, store.perPage, Inserted(rows, assignments, inputs, nextId))
      ensures AmpleToInsert(io, old(rows), |inputs|, store.perPage) ==> r.Ok?
      ensures r.Err? ==> r.error in {InvalidArgument, OutOfRange, RuntimeError}
    {
      RowsAddressable(State(), |inputs|);
      PreparedSizes(lists, updates, subquantizers, plan, grouped, assignments, inputs, nextId, rows);
      r := AppendRecordFiles(store, lists, plan, grouped, io, assignments, inputs, nextId, rows);
    }

    /** Everything that follows the record files: the directory, the resident lists, the counters. */
    method CommitInsert(plan: ListBatchPlan, grouped: seq<Row>, updates: seq<D.Update>, directoryIo: nat,
                        ghost assignments: seq<nat>, inputs: seq<Encoded>)
      returns (r: Result<()>)
      requires Valid() && Batch(assignments, inputs, |rows|) && nextId + |inputs| <= UINT32_MAX
      requires PreparedInsert(lists, updates, subquantizers, plan, grouped, assignments, inputs, nextId, rows)
      requires FilesHold(store.files, store.perPage, Inserted(rows, assignments, inputs, nextId))
      modifies this, directory
      ensures Valid() && store.files == old(store.files)
      ensures r.Ok? ==> GainsBatch(TheShape(), old(State()), State(), assignments, inputs)
      ensures r.Err? ==> r.error == RuntimeError && LeftAlone(TheShape(), old(State()), State(), |inputs|)
      ensures AmpleEntries(directoryIo, old(State()), |inputs|, directory.perPage) ==> r.Ok?
    {
      ghost var was := State();
      RowsAddressable(was, |inputs|);
      r := WriteInsertUpdates(directory, updates, directoryIo, assignments, inputs, nextId, rows, pending);
      if r.Err? {
        StoppedContents(directory.pages, was.pages, directory.perPage, rows, nextId);
        pending := Max(pending, |inputs|);
        return r;
      }
      AppendRows(plan, grouped, assignments, inputs, was);
    }

    /** The resident lists and the counters, after the record files and the directory. */
    method AppendRows(plan: ListBatchPlan, grouped: seq<Row>, ghost assignments: seq<nat>, inputs: seq<Encoded>, ghost was: IndexState)
      requires store.Valid() && directory.Valid() && store.nlist == |rows| && State() == was.(pages := directory.pages)
      requires Consistent(TheShape(), was) && Batch(assignments, inputs, |rows|) && nextId + |inputs| <= UINT32_MAX
      requires exists updates :: PreparedInsert(lists, updates, subquantizers, plan, grouped, assignments, inputs, nextId, rows)
      requires FilesHold(store.files, store.perPage, Inserted(rows, assignments, inputs, nextId))
      requires DirectoryHolds(directory.pages, directory.perPage, Inserted(rows, assignments, inputs, nextId), nextId + |inputs|,
                              Max(pending, |inputs|) - |inputs|)
      requires Contents(View(directory.pages, directory.perPage, nextId + |inputs|), Inserted(rows, assignments, inputs, nextId), nextId + |inputs|)
            == Represented(TheShape(), was) + Fresh(assignments, inputs, nextId)
      modifies this
      ensures Valid() && GainsBatch(TheShape(), was, State(), assignments, inputs)
    {
      var appended := AppendAll(lists, subquantizers, plan, grouped, assignments, inputs, nextId, rows);
      ghost var next := Inserted(rows, assignments, inputs, nextId);
      ghost var left := Max(pending, |inputs|) - |inputs|;
      ghost var now := IndexState(appended, store.files, directory.pages, next, nextId + |inputs|, activeCount + |inputs|, left);
      InsertConsistent(TheShape(), was, now, assignments, inputs);
      lists, rows := appended, next;
      nextId := nextId + |inputs|;
      activeCount := activeCount + |inputs|;
      pending := left;
      assert State() == now;
    }

    ghost predicate AmpleForErase(io: nat -> nat, directoryIo: nat)
      requires store.Valid()
      reads this, store, directory
    {
      AmpleToErase(io, rows, store.perPage) && directoryIo > |directory.pages|
    }

    /**
     Deletes a batch of IDs. A refused batch changes nothing; that includes every batch that names an ID left in
     the directory by an interrupted insertion. A commit that fails part way leaves the resident
     lists as they were, every surviving row readable in its list's file, and every directory entry as before or
     as it should become; the directory changes only after all record files have.
     */
    method EraseBatch(ids: seq<nat>, io: nat -> nat, directoryIo: nat) returns (r: Result<nat>, ghost interrupted: bool)
      requires Valid()
      modifies this, store, directory
      ensures !interrupted ==> Valid()
      ensures r.Ok? ==> !interrupted && r.value == |ids| && LosesBatch(TheShape(), old(State()), State(), ids)
      ensures r.Ok? && old(Complete()) ==> Complete()
      ensures r.Err? && !interrupted ==> State() == old(State()) && r.error in {InvalidArgument, OutOfRange, RuntimeError, LogicError}
      ensures r == Err(LogicError) ==> !NonePending(old(State()), ids) && Disagrees(TheShape(), old(State()), ids)
      ensures old(Complete()) && EntriesApart(TheShape(), old(State()), ids) ==>
        (r == Err(LogicError) <==> Disagrees(TheShape(), old(State()), ids))
      ensures interrupted ==> r == Err(RuntimeError) && PartErased(TheShape(), old(State()), State(), ids)
      ensures Erasable(old(Map()), ids) && old(Complete()) && old(AmpleForErase(io, directoryIo)) ==> r.Ok?
      ensures !Erasable(old(Map()), ids) ==> !interrupted && r.Err?
    {
      interrupted := false;
      if |ids| == 0 {
        NothingErased(TheShape(), State());
        return Ok(0), false;
      }
      ErasableIds(TheShape(), State(), ids);
      var resolved := ResolveBatch(directory, lists, activeCount, ids, TheShape(), State());
      FoundIds(TheShape(), State(), ids);
      if resolved.Err? {
        return Err(resolved.error), false;
      }
      FoundResolves(resolved.value, TheShape(), State());
      FoundDisagrees(resolved.value, TheShape(), State());
      r, interrupted := EraseResolved(resolved.value, io, directoryIo);
    }

    method EraseResolved(d: Deletion, io: nat -> nat, directoryIo: nat) returns (r: Result<nat>, ghost interrupted: bool)
      requires Valid() && Finds(d, TheShape(), State())
      modifies this, store, directory
      ensures !interrupted ==> Valid()
      ensures r.Ok? || interrupted ==> LeadsTo(d, TheShape(), old(State()))
      ensures r == Err(LogicError) ==> !LeadsTo(d, TheShape(), old(State()))
      ensures old(Complete()) && Apart(d.locations) && !LeadsTo(d, TheShape(), old(State())) ==> r == Err(LogicError)
      ensures r.Ok? ==> !interrupted && r.value == |d.ids| && LosesBatch(TheShape(), old(State()), State(), d.ids)
      ensures r.Ok? && old(Complete()) ==> Complete()
      ensures r.Err? && !interrupted ==> State() == old(State()) && r.error in {InvalidArgument, OutOfRange, RuntimeError, LogicError}
      ensures interrupted ==> r == Err(RuntimeError) && PartErased(TheShape(), old(State()), State(), d.ids)
      ensures (old(Complete()) && AmpleToErase(io, old(rows), store.perPage) && directoryIo > |old(directory.pages)|
               && LeadsTo(d, TheShape(), old(State()))) ==> r.Ok?
    {
      ghost var was := State();
      var prepared, updates, plan := PrepareBatch(d);
      if prepared.Err? {
        return Err(prepared.error), false;
      }
      var committed := CommitPrepared(prepared.value, updates, plan, d, io, directoryIo);
      if committed.Err? {
        return Err(committed.error), true;
      }
      return Ok(|d.ids|), false;
    }

    /** Everything of a deletion that precedes its first write; it changes nothing. */
    method PrepareBatch(d: Deletion) returns (prepared: Result<seq<PreparedDeletion>>, updates: seq<D.Update>, plan: ListBatchPlan)
      requires Valid() && Finds(d, TheShape(), State())
      ensures prepared.Ok? ==> ReadyToErase(prepared.value, updates, plan, d, TheShape(), State(), store.blank)
      ensures prepared.Err? ==> prepared.error in {InvalidArgument, OutOfRange, RuntimeError, LogicError}
      ensures prepared == Err(LogicError) ==> !LeadsTo(d, TheShape(), State())
      ensures Complete() && Apart(d.locations) && prepared.Err? ==> prepared.error == LogicError
      ensures Complete() && LeadsTo(d, TheShape(), State()) ==> prepared.Ok?
    {
      InListsAssigned(rows, d);
      var planned := GroupByList(d.assignments, |lists|);
      plan := planned.value;
      prepared, updates := PrepareErase(store, directory, lists, subquantizers, d, plan, TheShape(), State());
    }

    /** The record files, then the directory, then what is resident. */
    method CommitPrepared(prepared: seq<PreparedDeletion>, updates: seq<D.Update>, plan: ListBatchPlan, d: Deletion,
                          io: nat -> nat, directoryIo: nat)
      returns (r: Result<()>)
      requires Valid() && ReadyToErase(prepared, updates, plan, d, TheShape(), State(), store.blank)
      modifies this, store, directory
      ensures r.Ok? ==> Valid() && LosesBatch(TheShape(), old(State()), State(), d.ids)
      ensures r.Ok? && old(Complete()) ==> Complete()
      ensures r.Err? ==> r == Err(RuntimeError) && PartErased(TheShape(), old(State()), State(), d.ids)
      ensures AmpleToErase(io, old(rows), store.perPage) && directoryIo > |old(directory.pages)| ==> r.Ok?
    {
      ghost var was := State();
      r := CommitRecordFiles(prepared, plan, io, d);
      if r.Err? {
        return r;
      }
      r := CommitEntries(prepared, updates, plan, d, directoryIo, was);
    }

    /** The directory and what is resident, once the record files hold what remains. */
    method CommitEntries(prepared: seq<PreparedDeletion>, updates: seq<D.Update>, plan: ListBatchPlan, d: Deletion,
                         directoryIo: nat, ghost was: IndexState)
      returns (r: Result<()>)
      requires store.Valid() && directory.Valid() && store.nlist == |rows| && State() == was.(files := store.files)
      requires Consistent(TheShape(), was) && Resolves(d, View(was.pages, directory.perPage, was.nextId))
      requires forall i :: 0 <= i < |d.assignments| ==> d.assignments[i] < |was.rows|
      requires Touched(plan.touchedLists, d.assignments, |was.rows|) && |prepared| == |plan.touchedLists|
      requires ReadyDeletions(prepared, TheShape(), was, store.blank, d, plan.touchedLists)
      requires Deletables(was.rows, Lost(d, |was.rows|)) && updates == Flatten(Groups(d, was.rows))
      requires FilesHold(store.files, store.perPage, Erased(was.rows, Lost(d, |was.rows|)))
      modifies this, directory
      ensures r.Ok? ==> Valid() && LosesBatch(TheShape(), was, State(), d.ids) && rows == Erased(was.rows, Lost(d, |was.rows|))
      ensures r.Err? ==> r == Err(RuntimeError) && PartErased(TheShape(), was, State(), d.ids)
      ensures directoryIo > |was.pages| ==> r.Ok?
    {
      RowsAddressable(was, 0);
      r := WriteEraseUpdates(directory, updates, directoryIo, d, rows, nextId, pending);
      if r.Err? {
        DirectoryHalfErased(TheShape(), was, State(), d);
        return r;
      }
      CommitErase(prepared, plan, d, was);
    }

    method CommitRecordFiles(prepared: seq<PreparedDeletion>, plan: ListBatchPlan, io: nat -> nat, ghost d: Deletion) returns (r: Result<()>)
      requires Valid() && Resolves(d, View(directory.pages, directory.perPage, nextId))
      requires Touched(plan.touchedLists, d.assignments, |rows|) && |prepared| == |plan.touchedLists|
      requires ReadyDeletions(prepared, TheShape(), State(), store.blank, d, plan.touchedLists)
      modifies store
      ensures store.Valid() && State() == old(State()).(files := store.files)
      ensures Deletables(rows, Lost(d, |rows|))
      ensures r.Ok? ==> FilesHold(store.files, store.perPage, Erased(rows, Lost(d, |rows|)))
      ensures r.Ok? && old(Complete()) ==> FilesComplete(store.files, store.perPage, Erased(rows, Lost(d, |rows|)))
      ensures r.Err? ==> r.error == RuntimeError && PartErased(TheShape(), old(State()), State(), d.ids)
      ensures AmpleToErase(io, old(rows), store.perPage) ==> r.Ok?
    {
      ghost var was := State();
      PlanNames(View(directory.pages, directory.perPage, nextId), rows, nextId, d.ids, d.locations, d.assignments);
      r := CommitFiles(store, prepared, io, plan.touchedLists, TheShape(), was, d);
      if r.Ok? {
        FilesErased(store.files, store.perPage, was, d, plan.touchedLists);
      } else {
        DirectoryUntouched(TheShape(), was, State(), d);
        UnnamedReadable(was, State(), store.perPage, d);
      }
    }

    /** The resident lists and the count, after the record files and the directory. */
    method CommitErase(prepared: seq<PreparedDeletion>, plan: ListBatchPlan, d: Deletion, ghost was: IndexState)
      requires store.Valid() && directory.Valid() && store.nlist == |rows|
      requires State() == was.(files := store.files, pages := directory.pages)
      requires Consistent(TheShape(), was) && Resolves(d, View(was.pages, directory.perPage, was.nextId))
      requires forall i :: 0 <= i < |d.assignments| ==> d.assignments[i] < |was.rows|
      requires Touched(plan.touchedLists, d.assignments, |was.rows|) && |prepared| == |plan.touchedLists|
      requires ReadyDeletions(prepared, TheShape(), was, store.blank, d, plan.touchedLists)
      requires Deletables(was.rows, Lost(d, |was.rows|)) && FilesHold(store.files, store.perPage, Erased(was.rows, Lost(d, |was.rows|)))
      requires DirectoryHolds(directory.pages, directory.perPage, Erased(was.rows, Lost(d, |was.rows|)), was.nextId, was.pending)
      requires Contents(View(directory.pages, directory.perPage, was.nextId), Erased(was.rows, Lost(d, |was.rows|)), was.nextId)
            == Represented(TheShape(), was) - IdSet(d.ids)
      modifies this
      ensures Valid()
      ensures rows == Erased(was.rows, Lost(d, |was.rows|))
      ensures LosesBatch(TheShape(), was, State(), d.ids)
    {
      var next := CommitLists(lists, subquantizers, prepared, plan.touchedLists, TheShape(), was, store.blank, d);
      ResolvedCount(TheShape(), was, d);
      ghost var erased := Erased(was.rows, Lost(d, |was.rows|));
      ghost var now := IndexState(next, store.files, directory.pages, erased, nextId, activeCount - |d.ids|, pending);
      EraseConsistent(TheShape(), was, now, d);
      lists, rows := next, erased;
      activeCount := activeCount - |d.ids|;
      assert State() == now;
    }

    /**
     Searching changes nothing. The answer is the k nearest of the selected rows; under the interval hypothesis
     and without truncation these are the k nearest (exact distance, Logical ID) pairs of the probed lists. With
     a kernel that reads what is there, a search succeeds exactly if the query is valid, at least k rows are
     probed and selected, and the selected rows have proper distances.
     */
    method Search(layout: RP.Layout, selected: seq<nat>, estimator: S.Estimator, q: IS.Query, score: Payload -> Extended.Ext,
                  options: RF.RefineOptions, kernel: PP.Request -> seq<RP.ReadPlan> -> AP.Kernel)
      returns (r: Result<seq<EK.Neighbor>>)
      requires Valid() && RP.ValidLayout(layout) && layout.recordsPerPage == store.perPage && IS.Probes(State(), selected)
      requires 0 < options.queueDepth <= options.maxOpenFiles
      requires forall request, plans :: AP.Faithful(request, plans, kernel(request)(plans))
      ensures r.Ok? ==> |r.value| == q.k && PS.RowsInOrder(rows, selected, score, r.value)
      ensures r.Ok? ==> forall z: real :: q.z == SE.Number(Extended.Fin(z)) ==>
        PS.AnswersAt(q, z, State(), selected, estimator, score, r.value)
      ensures r.Ok? ==> forall z: real :: PS.TrustedProbe(q, z, rows, selected, estimator, score) ==> PS.NoneMissed(rows, selected, score, r.value)
      ensures r.Ok? && IS.Covered(q, State(), selected, estimator, score) ==>
        r.value == EK.TopK(IS.ProbedNeighbors(rows, selected, score), q.k)
      ensures r.Ok? ==> r.value == IS.NearestSelectedRows(q, State(), selected, estimator, score)
      ensures IS.Dependable(layout, options, kernel) ==> (r.Ok? <==> IS.Succeeds(q, State(), selected, estimator, score))
      ensures IS.Dependable(layout, options, kernel) && IS.Searchable(q, State(), selected, estimator, score) ==> r.Ok?
      ensures r == Err(LogicError) <==> IS.Starves(q, State(), selected, estimator)
      ensures IS.ProperRadii(estimator) ==>
        (r == Err(LogicError) <==> IS.Admitted(q, State(), selected) && !IS.EnoughRows(IS.Sizes(rows), selected, estimator, q))
    {
      var current := lists;
      var sizes := seq(|current|, l requires 0 <= l < |current| => current[l].logicalSize);
      ListSizes(current, subquantizers, rows);
      assert sizes == IS.Sizes(rows);
      IS.SearchOutcomes(q, TheShape(), State(), selected, estimator, score);
      r := IS.SearchLists(TheShape(), State(), store.files, sizes, activeCount, layout, selected, estimator, q, score, options, kernel);
      if r.Ok? { PS.PlainAnswer(TheShape(), State(), selected, estimator, q, score, r.value); }
    }
  }
}
