/** The resident lists of the index, and the loops that update all touched lists of a batch. */
module IndexLists {
  import opened Arithmetic
  import opened PostingPacking
  import opened PostingList
  import opened BatchPlan
  import opened IndexRows
  import opened IndexInsert
  import D = DirectoryPages

  /** How many tiles the list's buffers hold. */
  function BlocksOf(list: MemoryList): nat {
    |list.packedMetadata| / METADATA_BLOCK
  }

  lemma BuffersBlocks(list: MemoryList, subquantizers: nat, blocks: nat)
    requires Buffers(list, subquantizers, blocks)
    ensures BlocksOf(list) == blocks
  {
  }

  ghost predicate ListHolds(list: MemoryList, subquantizers: nat, rows: seq<Row>) {
    Postings(list, subquantizers, BlocksOf(list), PostingsOf(rows))
  }

  ghost predicate ListsHold(lists: seq<MemoryList>, subquantizers: nat, rows: seq<seq<Row>>) {
    |lists| == |rows| && forall l :: 0 <= l < |rows| ==> ListHolds(lists[l], subquantizers, rows[l])
  }

  lemma TouchedNext(touched: seq<nat>, t: nat, l: nat)
    requires t < |touched|
    ensures l in touched[..t + 1] <==> l in touched[..t] || l == touched[t]
  {
    assert touched[..t + 1] == touched[..t] + [touched[t]];
  }

  lemma TouchedEarlier(touched: seq<nat>, t: nat)
    requires t < |touched| && forall i, j :: 0 <= i < j < |touched| ==> touched[i] < touched[j]
    ensures touched[t] !in touched[..t]
  {
  }

  // ---------------------------------------------------------------- insertion

  /** The batch's rows in grouped order. */
  method Regroup(plan: ListBatchPlan, assignments: seq<nat>, inputs: seq<Encoded>, nextId: nat, nlist: nat)
    returns (grouped: seq<Row>)
    requires Batch(assignments, inputs, nlist) && Grouped(plan, assignments, nlist)
    ensures |grouped| == |inputs|
    ensures forall l: nat :: l < nlist ==> GroupRows(plan, grouped, assignments, inputs, nextId, l)
  {
    OrderInRange(plan, assignments, nlist);
    grouped := seq(|inputs|, k requires 0 <= k < |plan.order| && plan.order[k] < |inputs| => NewRow(inputs, nextId, plan.order[k]));
    forall l: nat | l < nlist ensures GroupRows(plan, grouped, assignments, inputs, nextId, l) {
      GroupSlice(plan, grouped, assignments, inputs, nextId, l);
    }
  }

  /** The list's slice of the grouped rows. */
  ghost predicate GroupRows(plan: ListBatchPlan, grouped: seq<Row>, assignments: seq<nat>, inputs: seq<Encoded>, nextId: nat, l: nat)
    requires |assignments| == |inputs|
  {
    && l + 1 < |plan.offsets| && plan.offsets[l] <= plan.offsets[l + 1] <= |grouped|
    && grouped[plan.offsets[l]..plan.offsets[l + 1]] == NewRows(assignments, inputs, nextId, l)
  }

  lemma GroupSlice(plan: ListBatchPlan, grouped: seq<Row>, assignments: seq<nat>, inputs: seq<Encoded>, nextId: nat, l: nat)
    requires |assignments| == |inputs| == |grouped| == |plan.order| && ListGrouped(plan, assignments, l)
    requires forall k :: 0 <= k < |grouped| ==> plan.order[k] < |inputs| && grouped[k] == NewRow(inputs, nextId, plan.order[k])
    ensures GroupRows(plan, grouped, assignments, inputs, nextId, l)
  {
    var rows, first := NewRows(assignments, inputs, nextId, l), plan.offsets[l];
    forall k | 0 <= k < |rows| ensures grouped[first + k] == rows[k] {
      PlacedAt(plan, assignments, l, k);
    }
  }

  /** Every place of the order belongs to some list's slice. */
  lemma {:induction false} SliceOf(assignments: seq<nat>, k: nat, nlist: nat) returns (l: nat)
    requires 0 < nlist && k < Start(assignments, nlist)
    ensures l < nlist && Start(assignments, l) <= k < Start(assignments, l) + |Positions(assignments, l)|
    decreases nlist
  {
    StartNext(assignments, 0);
    StartNext(assignments, nlist - 1);
    if k < Start(assignments, nlist - 1) {
      l := SliceOf(assignments, k, nlist - 1);
    } else {
      l := nlist - 1;
    }
  }

  lemma OrderInRange(plan: ListBatchPlan, assignments: seq<nat>, nlist: nat)
    requires Grouped(plan, assignments, nlist) && forall i :: 0 <= i < |assignments| ==> assignments[i] < nlist
    ensures forall k :: 0 <= k < |plan.order| ==> plan.order[k] < |assignments|
  {
    StartTotal(assignments, nlist);
    StartNext(assignments, 0);
    forall k | 0 <= k < |plan.order| ensures plan.order[k] < |assignments| {
      var l := SliceOf(assignments, k, nlist);
      PlacedAt(plan, assignments, l, k - Start(assignments, l));
      PositionsMembers(assignments, l);
      assert Positions(assignments, l)[k - Start(assignments, l)] in Positions(assignments, l);
    }
  }

  /** The list still holds its rows, and has room for the batch once it has been visited. */
  ghost predicate ReservedList(list: MemoryList, subquantizers: nat, rows: seq<Row>, more: nat, visited: bool) {
    ListHolds(list, subquantizers, rows) && (visited ==> BlocksOf(list) == BlocksFor(|rows| + more))
  }

  /** Reserving every touched list's lanes before anything is written. */
  method ReserveAll(lists: seq<MemoryList>, subquantizers: nat, plan: ListBatchPlan, ghost assignments: seq<nat>, ghost rows: seq<seq<Row>>)
    returns (reserved: seq<MemoryList>)
    requires ListsHold(lists, subquantizers, rows)
    requires Grouped(plan, assignments, |rows|) && Touched(plan.touchedLists, assignments, |rows|)
    requires forall l :: 0 <= l < |rows| ==> |rows[l]| + |assignments| <= UINT32_MAX
    ensures |reserved| == |rows|
    ensures forall l :: 0 <= l < |rows| ==>
      ReservedList(reserved[l], subquantizers, rows[l], |Positions(assignments, l)|, l in plan.touchedLists)
  {
    var touched := plan.touchedLists;
    reserved := lists;
    for t := 0 to |touched|
      invariant |reserved| == |rows|
      invariant forall l :: 0 <= l < |rows| ==>
        ReservedList(reserved[l], subquantizers, rows[l], |Positions(assignments, l)|, l in touched[..t])
    {
      var l := touched[t];
      assert l in touched;
      assert ListGrouped(plan, assignments, l);
      assert ReservedList(reserved[l], subquantizers, rows[l], |Positions(assignments, l)|, l in touched[..t]);
      var newSize := reserved[l].logicalSize + (plan.offsets[l + 1] - plan.offsets[l]);
      // The list always stays within 32-bit offsets.
      assert newSize <= UINT32_MAX;
      var list := PrepareAppend(reserved[l], subquantizers, newSize, BlocksOf(reserved[l]), PostingsOf(rows[l]));
      BuffersBlocks(list, subquantizers, BlocksFor(newSize));
      reserved := reserved[l := list];
      forall k: nat ensures k in touched[..t + 1] <==> k in touched[..t] || k == l { TouchedNext(touched, t, k); }
    }
    assert touched[..|touched|] == touched;
  }

  /** The directory updates, list by list. */
  method CollectInsertUpdates(lists: seq<MemoryList>, plan: ListBatchPlan, grouped: seq<Row>,
                              ghost assignments: seq<nat>, ghost inputs: seq<Encoded>, ghost nextId: nat, ghost rows: seq<seq<Row>>)
    returns (updates: seq<D.Update>)
    requires Batch(assignments, inputs, |rows|) && |lists| == |rows|
    requires forall l :: 0 <= l < |rows| ==> lists[l].logicalSize == |rows[l]|
    requires Touched(plan.touchedLists, assignments, |rows|)
    requires forall l: nat :: l < |rows| ==> GroupRows(plan, grouped, assignments, inputs, nextId, l)
    ensures updates == InsertUpdates(rows, assignments, nextId)
  {
    var touched := plan.touchedLists;
    ghost var groups := InsertGroups(rows, assignments, nextId);
    InsertGroupsTouched(touched, rows, assignments, nextId);
    ghost var reached: nat := 0;
    updates := [];
    for t := 0 to |touched|
      invariant Visited(groups, touched, t, reached) && updates == Flatten(groups[..reached])
    {
      var l := touched[t];
      assert l in touched;
      var group := UpdatesOfList(lists[l].logicalSize, plan, grouped, l, assignments, inputs, nextId);
      VisitNext(groups, touched, t, reached);
      updates := updates + group;
      reached := l + 1;
    }
    VisitedAll(groups, touched, reached);
  }

  lemma InsertGroupsTouched(touched: seq<nat>, rows: seq<seq<Row>>, assignments: seq<nat>, nextId: nat)
    requires Touched(touched, assignments, |rows|)
    ensures OnlyTouched(InsertGroups(rows, assignments, nextId), touched)
  {
    var groups := InsertGroups(rows, assignments, nextId);
    forall l | 0 <= l < |groups| && l !in touched ensures groups[l] == [] {
      assert Positions(assignments, l) == [];
    }
  }

  /** Lists that were not touched have no updates. */
  ghost predicate OnlyTouched(groups: seq<seq<D.Update>>, touched: seq<nat>) {
    forall l :: 0 <= l < |groups| && l !in touched ==> groups[l] == []
  }

  /** After the first `t` touched lists, everything before list `reached` has been visited. */
  ghost predicate Visited(groups: seq<seq<D.Update>>, touched: seq<nat>, t: nat, reached: nat) {
    && t <= |touched| && reached <= |groups|
    && (forall i :: t <= i < |touched| ==> reached <= touched[i])
    && (forall l: nat :: l in touched && l !in touched[t..] ==> l < reached)
  }

  lemma VisitNext(groups: seq<seq<D.Update>>, touched: seq<nat>, t: nat, reached: nat)
    requires OnlyTouched(groups, touched) && Visited(groups, touched, t, reached)
    requires t < |touched| && touched[t] < |groups| && forall i, j :: 0 <= i < j < |touched| ==> touched[i] < touched[j]
    ensures Flatten(groups[..touched[t] + 1]) == Flatten(groups[..reached]) + groups[touched[t]]
    ensures Visited(groups, touched, t + 1, touched[t] + 1)
  {
    var l := touched[t];
    assert forall i :: t <= i < |touched| ==> l <= touched[i];
    forall k | reached <= k < l ensures groups[k] == [] {
      assert k !in touched[t..];
    }
    FlattenSkip(groups, reached, l);
    FlattenStep(groups, l);
    assert touched[t..] == [l] + touched[t + 1..];
  }

  lemma VisitedAll(groups: seq<seq<D.Update>>, touched: seq<nat>, reached: nat)
    requires OnlyTouched(groups, touched) && Visited(groups, touched, |touched|, reached)
    ensures Flatten(groups[..reached]) == Flatten(groups)
  {
    forall k | reached <= k < |groups| ensures groups[k] == [] {
      assert k !in touched[|touched|..];
    }
    FlattenSkip(groups, reached, |groups|);
    assert groups[..|groups|] == groups;
  }

  method UpdatesOfList(oldSize: nat, plan: ListBatchPlan, grouped: seq<Row>, l: nat,
                       ghost assignments: seq<nat>, ghost inputs: seq<Encoded>, ghost nextId: nat)
    returns (group: seq<D.Update>)
    requires |assignments| == |inputs| && GroupRows(plan, grouped, assignments, inputs, nextId, l)
    ensures group == InsertGroup(assignments, nextId, l, oldSize)
  {
    var begin, end := plan.offsets[l], plan.offsets[l + 1];
    ghost var added, p := NewRows(assignments, inputs, nextId, l), Positions(assignments, l);
    PositionsMembers(assignments, l);
    assert forall k :: 0 <= k < |p| ==> p[k] in p;
    group := [];
    for i := begin to end
      invariant |group| == i - begin
      invariant forall k :: 0 <= k < i - begin ==> group[k] == (nextId + p[k], D.DiskLocation(l, oldSize + k))
    {
      assert grouped[begin..end][i - begin] == added[i - begin] == NewRow(inputs, nextId, p[i - begin]);
      group := group + [(grouped[i].id, D.DiskLocation(l, oldSize + (i - begin)))];
    }
  }

  ghost predicate AppendedList(list: MemoryList, subquantizers: nat, rows: seq<Row>, more: seq<Row>, visited: bool) {
    if visited then ListHolds(list, subquantizers, rows + more)
    else ReservedList(list, subquantizers, rows, |more|, more != [])
  }

  /** Filling the reserved lanes of every touched list. */
  method AppendAll(lists: seq<MemoryList>, subquantizers: nat, plan: ListBatchPlan, grouped: seq<Row>,
                   ghost assignments: seq<nat>, ghost inputs: seq<Encoded>, ghost nextId: nat, ghost rows: seq<seq<Row>>)
    returns (appended: seq<MemoryList>)
    requires Batch(assignments, inputs, |rows|) && Touched(plan.touchedLists, assignments, |rows|)
    requires forall l: nat :: l < |rows| ==> GroupRows(plan, grouped, assignments, inputs, nextId, l)
    requires |lists| == |rows| && forall l :: 0 <= l < |rows| ==>
      ReservedList(lists[l], subquantizers, rows[l], |Positions(assignments, l)|, l in plan.touchedLists)
    requires forall i :: 0 <= i < |inputs| ==> |inputs[i].posting.code| == subquantizers / 2
    ensures ListsHold(appended, subquantizers, Inserted(rows, assignments, inputs, nextId))
  {
    var touched := plan.touchedLists;
    appended := lists;
    for t := 0 to |touched|
      invariant |appended| == |rows|
      invariant forall l :: 0 <= l < |rows| ==>
        AppendedList(appended[l], subquantizers, rows[l], NewRows(assignments, inputs, nextId, l), l in touched[..t])
    {
      var l := touched[t];
      assert l in touched;
      TouchedEarlier(touched, t);
      ghost var more := NewRows(assignments, inputs, nextId, l);
      assert AppendedList(appended[l], subquantizers, rows[l], more, l in touched[..t]);
      assert GroupRows(plan, grouped, assignments, inputs, nextId, l);
      var slice := grouped[plan.offsets[l]..plan.offsets[l + 1]];
      var list := AppendOne(appended[l], subquantizers, slice, rows[l], assignments, inputs, nextId, l);
      appended := appended[l := list];
      forall k: nat ensures k in touched[..t + 1] <==> k in touched[..t] || k == l { TouchedNext(touched, t, k); }
    }
    assert touched[..|touched|] == touched;
    forall l | 0 <= l < |rows|
      ensures ListHolds(appended[l], subquantizers, Inserted(rows, assignments, inputs, nextId)[l])
    {
      assert AppendedList(appended[l], subquantizers, rows[l], NewRows(assignments, inputs, nextId, l), l in touched[..|touched|]);
      if l !in touched { assert rows[l] + NewRows(assignments, inputs, nextId, l) == rows[l]; }
    }
  }

  method AppendOne(list: MemoryList, subquantizers: nat, more: seq<Row>, ghost rows: seq<Row>,
                   ghost assignments: seq<nat>, ghost inputs: seq<Encoded>, ghost nextId: nat, ghost l: nat)
    returns (next: MemoryList)
    requires |assignments| == |inputs| && more == NewRows(assignments, inputs, nextId, l)
    requires ReservedList(list, subquantizers, rows, |more|, true)
    requires forall i :: 0 <= i < |inputs| ==> |inputs[i].posting.code| == subquantizers / 2
    ensures ListHolds(next, subquantizers, rows + more)
  {
    PositionsMembers(assignments, l);
    forall i | 0 <= i < |more| ensures |PostingsOf(more)[i].code| == subquantizers / 2 {
      assert Positions(assignments, l)[i] in Positions(assignments, l);
    }
    ConcatRows(rows, more);
    next := Append(list, subquantizers, PostingsOf(more), PostingsOf(rows));
    BuffersBlocks(next, subquantizers, BlocksFor(|rows| + |more|));
  }
}
