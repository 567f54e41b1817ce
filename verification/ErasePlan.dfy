/** From the IDs of a deletion batch to the offsets each list loses and the directory updates of the batch. */
module ErasePlan {
  import opened Sorting
  import opened RecordDeletion
  import opened MovePlan
  import opened BatchPlan
  import opened IndexRows
  import opened IndexErase
  import D = DirectoryPages

  type DeletedRow = (nat, nat)

  predicate DeletedRowLess(a: DeletedRow, b: DeletedRow) {
    a.0 < b.0 || (a.0 == b.0 && a.1 < b.1)
  }

  function IdSet(ids: seq<nat>): set<nat> {
    set x | x in ids
  }

  lemma {:induction false} DistinctCount(ids: seq<nat>)
    ensures Distinct(ids) <==> |IdSet(ids)| == |ids|
    ensures |IdSet(ids)| <= |ids|
  {
    if ids != [] {
      var rest, last := ids[..|ids| - 1], ids[|ids| - 1];
      DistinctCount(rest);
      assert ids == rest + [last];
      assert IdSet(ids) == IdSet(rest) + {last};
      if last in rest {
        assert IdSet(rest) + {last} == IdSet(rest);
        var i :| 0 <= i < |rest| && rest[i] == last;
        assert ids[i] == ids[|ids| - 1];
      }
    }
  }

  /** Every ID of the batch was found active, at the location that was read for it. */
  ghost predicate Resolved(dir: Directory, ids: seq<nat>, locations: seq<D.DiskLocation>, assignments: seq<nat>) {
    && |locations| == |ids| && |assignments| == |ids|
    && (forall i :: 0 <= i < |ids| ==> ResolvedId(dir, ids, locations, assignments, i))
  }

  ghost predicate ResolvedId(dir: Directory, ids: seq<nat>, locations: seq<D.DiskLocation>, assignments: seq<nat>, i: nat) {
    && i < |ids| && i < |locations| && i < |assignments|
    && dir(ids[i]) == D.Present(locations[i]) && locations[i].Active() && assignments[i] == locations[i].listNo
  }

  /** The rows one list loses, in input order. */
  function DeletedInputs(ids: seq<nat>, locations: seq<D.DiskLocation>, assignments: seq<nat>, l: nat): (r: seq<DeletedRow>)
    requires |locations| == |ids| == |assignments|
    ensures |r| == |Positions(assignments, l)|
  {
    PositionsMembers(assignments, l);
    var p := Positions(assignments, l);
    assert forall k :: 0 <= k < |p| ==> p[k] in p;
    seq(|p|, k requires 0 <= k < |p| && p[k] < |ids| == |locations| => (locations[p[k]].offset, ids[p[k]]))
  }

  function DeletedRows(ids: seq<nat>, locations: seq<D.DiskLocation>, assignments: seq<nat>, l: nat): (r: seq<DeletedRow>)
    requires |locations| == |ids| == |assignments|
    ensures |r| == |Positions(assignments, l)|
  {
    Sort(DeletedRowLess, DeletedInputs(ids, locations, assignments, l))
  }

  function Offsets(rows: seq<DeletedRow>): (r: seq<nat>)
    ensures |r| == |rows|
  {
    seq(|rows|, k requires 0 <= k < |rows| => rows[k].0)
  }

  function DeletedOffsets(ids: seq<nat>, locations: seq<D.DiskLocation>, assignments: seq<nat>, lists: nat): (r: seq<seq<nat>>)
    requires |locations| == |ids| == |assignments|
    ensures |r| == lists
  {
    seq(lists, l requires 0 <= l && |locations| == |ids| == |assignments| =>
      Offsets(DeletedRows(ids, locations, assignments, l)))
  }

  // ---------------------------------------------------------------- what is known before the records are read

  /** Every ID was found at a place inside the lists; whose row is there remains to be seen. */
  ghost predicate InLists(rows: seq<seq<Row>>, locations: seq<D.DiskLocation>, assignments: seq<nat>) {
    |assignments| == |locations| && forall i :: 0 <= i < |locations| ==> InList(rows, locations[i], assignments[i])
  }

  ghost predicate InList(rows: seq<seq<Row>>, at: D.DiskLocation, l: nat) {
    at.Active() && l == at.listNo && l < |rows| && at.offset < |rows[l]|
  }

  lemma RowsInList(rows: seq<seq<Row>>, ids: seq<nat>, locations: seq<D.DiskLocation>, assignments: seq<nat>, l: nat)
    requires |ids| == |locations| && InLists(rows, locations, assignments) && l < |rows|
    ensures forall d :: d in DeletedRows(ids, locations, assignments, l) ==> d.0 < |rows[l]|
  {
    var inputs := DeletedInputs(ids, locations, assignments, l);
    forall d | d in DeletedRows(ids, locations, assignments, l) ensures d.0 < |rows[l]| {
      SortMembers(DeletedRowLess, inputs, d);
      var k :| 0 <= k < |inputs| && inputs[k] == d;
      PositionsMembers(assignments, l);
      assert Positions(assignments, l)[k] in Positions(assignments, l);
      assert InList(rows, locations[Positions(assignments, l)[k]], l);
    }
  }

  /** Sorted offsets ascend exactly if no two neighbours are equal. */
  lemma SortedOffsetsAscend(ids: seq<nat>, locations: seq<D.DiskLocation>, assignments: seq<nat>, l: nat)
    requires |locations| == |ids| == |assignments|
    ensures var o := Offsets(DeletedRows(ids, locations, assignments, l));
      Ascending(o) <==> forall i :: 0 < i < |o| ==> o[i - 1] != o[i]
  {
    var d := DeletedRows(ids, locations, assignments, l);
    SortSorted(DeletedRowLess, DeletedInputs(ids, locations, assignments, l));
    var o := Offsets(d);
    if forall i :: 0 < i < |o| ==> o[i - 1] != o[i] {
      forall i, j | 0 <= i < j < |o| ensures o[i] < o[j] {
        assert !DeletedRowLess(d[i + 1], d[i]) && o[i] != o[i + 1];
        if i + 1 < j { assert !DeletedRowLess(d[j], d[i + 1]); }
      }
    }
  }

  /** No two entries name the same place. */
  ghost predicate Apart(locations: seq<D.DiskLocation>) {
    forall i, j :: 0 <= i < j < |locations| ==> locations[i] != locations[j]
  }

  lemma ApartInputs(rows: seq<seq<Row>>, ids: seq<nat>, locations: seq<D.DiskLocation>, assignments: seq<nat>, l: nat)
    requires |ids| == |locations| && InLists(rows, locations, assignments) && Distinct(ids) && Apart(locations)
    ensures var inputs := DeletedInputs(ids, locations, assignments, l);
      forall i, j :: 0 <= i < j < |inputs| ==> inputs[i].0 != inputs[j].0 && inputs[i].1 != inputs[j].1
  {
    PositionsMembers(assignments, l);
    var inputs, p := DeletedInputs(ids, locations, assignments, l), Positions(assignments, l);
    forall i, j | 0 <= i < j < |inputs| ensures inputs[i].0 != inputs[j].0 && inputs[i].1 != inputs[j].1 {
      assert p[i] in p && p[j] in p && p[i] < p[j];
      assert InList(rows, locations[p[i]], assignments[p[i]]) && InList(rows, locations[p[j]], assignments[p[j]]);
      assert locations[p[i]] != locations[p[j]];
    }
  }

  lemma ApartNeighbours(rows: seq<seq<Row>>, ids: seq<nat>, locations: seq<D.DiskLocation>, assignments: seq<nat>, l: nat, i: nat)
    requires |ids| == |locations| && InLists(rows, locations, assignments) && Distinct(ids) && Apart(locations)
    requires 0 < i < |DeletedRows(ids, locations, assignments, l)|
    ensures var d := DeletedRows(ids, locations, assignments, l); d[i - 1].0 != d[i].0
  {
    var inputs, d := DeletedInputs(ids, locations, assignments, l), DeletedRows(ids, locations, assignments, l);
    ApartInputs(rows, ids, locations, assignments, l);
    assert Untied(DeletedRowLess, inputs);
    SortStrict(DeletedRowLess, inputs);
    assert DeletedRowLess(d[i - 1], d[i]) && d[i - 1] in d && d[i] in d;
    SortMembers(DeletedRowLess, inputs, d[i - 1]);
    SortMembers(DeletedRowLess, inputs, d[i]);
    var a :| 0 <= a < |inputs| && inputs[a] == d[i - 1];
    var b :| 0 <= b < |inputs| && inputs[b] == d[i];
    assert a != b;
  }

  /** Entries that name different places pass the checks on one list's offsets. */
  lemma ApartDeletable(rows: seq<seq<Row>>, ids: seq<nat>, locations: seq<D.DiskLocation>, assignments: seq<nat>, l: nat)
    requires |ids| == |locations| && InLists(rows, locations, assignments) && Distinct(ids) && Apart(locations) && l < |rows|
    ensures Deletable(Offsets(DeletedRows(ids, locations, assignments, l)), |rows[l]|)
  {
    var d := DeletedRows(ids, locations, assignments, l);
    var o := Offsets(d);
    RowsInList(rows, ids, locations, assignments, l);
    forall i | 0 < i < |o| ensures o[i - 1] != o[i] { ApartNeighbours(rows, ids, locations, assignments, l, i); }
    SortedOffsetsAscend(ids, locations, assignments, l);
    forall i | 0 <= i < |o| ensures o[i] < |rows[l]| { assert d[i] in d; }
    AscendsBound(o, |rows[l]|);
  }

  /** Each named row of the list carries the ID that was found there. */
  ghost predicate CarryIds(deleted: seq<DeletedRow>, rows: seq<Row>) {
    forall i :: 0 <= i < |deleted| ==> deleted[i].0 < |rows| && rows[deleted[i].0].id == deleted[i].1
  }

  /** If all named rows carry their IDs, the directory really led to them. */
  lemma CarriedResolved(dir: Directory, rows: seq<seq<Row>>, nextId: nat, ids: seq<nat>, locations: seq<D.DiskLocation>, assignments: seq<nat>)
    requires Agrees(dir, rows, nextId) && |ids| == |locations| && InLists(rows, locations, assignments)
    requires forall l :: 0 <= l < |rows| && Positions(assignments, l) != [] ==> CarryIds(DeletedRows(ids, locations, assignments, l), rows[l])
    ensures Resolved(dir, ids, locations, assignments)
  {
    forall i | 0 <= i < |ids| ensures ResolvedId(dir, ids, locations, assignments, i) {
      var l := assignments[i];
      assert InList(rows, locations[i], l);
      PositionsMembers(assignments, l);
      var p := Positions(assignments, l);
      assert i in p;
      var k :| 0 <= k < |p| && p[k] == i;
      var inputs, deleted := DeletedInputs(ids, locations, assignments, l), DeletedRows(ids, locations, assignments, l);
      assert inputs[k] == (locations[i].offset, ids[i]) && inputs[k] in inputs;
      SortMembers(DeletedRowLess, inputs, inputs[k]);
      var j :| 0 <= j < |deleted| && deleted[j] == inputs[k];
      assert Located(dir, rows, nextId, l, locations[i].offset);
    }
  }

  // ---------------------------------------------------------------- the offsets of one list

  lemma DeletedInput(dir: Directory, rows: seq<seq<Row>>, nextId: nat, ids: seq<nat>, locations: seq<D.DiskLocation>,
                     assignments: seq<nat>, l: nat, k: nat)
    requires Agrees(dir, rows, nextId) && Resolved(dir, ids, locations, assignments)
    requires k < |Positions(assignments, l)|
    ensures var (p, d) := (Positions(assignments, l)[k], DeletedInputs(ids, locations, assignments, l)[k]);
      && p < |ids| && d == (locations[p].offset, ids[p])
      && l < |rows| && d.0 < |rows[l]| && rows[l][d.0].id == d.1
  {
    PositionsMembers(assignments, l);
    var p := Positions(assignments, l)[k];
    assert p in Positions(assignments, l);
    assert ResolvedId(dir, ids, locations, assignments, p);
    assert Grounded(dir, rows, nextId, ids[p]);
  }

  /** A deleted row of the list is a row of the list whose ID is in the batch. */
  lemma DeletedRowOf(dir: Directory, rows: seq<seq<Row>>, nextId: nat, ids: seq<nat>, locations: seq<D.DiskLocation>,
                     assignments: seq<nat>, l: nat, d: DeletedRow)
    requires Agrees(dir, rows, nextId) && Resolved(dir, ids, locations, assignments)
    requires d in DeletedRows(ids, locations, assignments, l)
    ensures l < |rows| && d.0 < |rows[l]| && rows[l][d.0].id == d.1
    ensures d.1 in ids
  {
    var inputs := DeletedInputs(ids, locations, assignments, l);
    SortMembers(DeletedRowLess, inputs, d);
    var k :| 0 <= k < |inputs| && inputs[k] == d;
    DeletedInput(dir, rows, nextId, ids, locations, assignments, l, k);
  }

  /** Conversely a row whose ID is in the batch is among its list's deleted rows. */
  lemma NamedRowDeleted(dir: Directory, rows: seq<seq<Row>>, nextId: nat, ids: seq<nat>, locations: seq<D.DiskLocation>,
                        assignments: seq<nat>, l: nat, o: nat)
    requires Agrees(dir, rows, nextId) && Resolved(dir, ids, locations, assignments)
    requires l < |rows| && o < |rows[l]| && rows[l][o].id in ids
    ensures (o, rows[l][o].id) in DeletedRows(ids, locations, assignments, l)
  {
    var i :| 0 <= i < |ids| && ids[i] == rows[l][o].id;
    assert ResolvedId(dir, ids, locations, assignments, i) && Located(dir, rows, nextId, l, o);
    PositionsMembers(assignments, l);
    var inputs, p := DeletedInputs(ids, locations, assignments, l), Positions(assignments, l);
    assert i in p;
    var k :| 0 <= k < |p| && p[k] == i;
    assert inputs[k] == (o, rows[l][o].id);
    SortMembers(DeletedRowLess, inputs, (o, rows[l][o].id));
  }

  /** Distinct IDs name distinct slots, so the sorted offsets strictly ascend. */
  lemma DeletedInputsUntied(dir: Directory, rows: seq<seq<Row>>, nextId: nat, ids: seq<nat>, locations: seq<D.DiskLocation>,
                            assignments: seq<nat>, l: nat)
    requires Agrees(dir, rows, nextId) && Resolved(dir, ids, locations, assignments) && Distinct(ids)
    ensures Untied(DeletedRowLess, DeletedInputs(ids, locations, assignments, l))
  {
    var inputs, p := DeletedInputs(ids, locations, assignments, l), Positions(assignments, l);
    PositionsMembers(assignments, l);
    forall i, j | 0 <= i < j < |inputs| ensures inputs[i].1 != inputs[j].1 {
      DeletedInput(dir, rows, nextId, ids, locations, assignments, l, i);
      DeletedInput(dir, rows, nextId, ids, locations, assignments, l, j);
      assert p[i] < p[j];
    }
  }

  lemma {:induction false} AscendsBound(s: seq<nat>, size: nat)
    requires Ascending(s) && forall i :: 0 <= i < |s| ==> s[i] < size
    ensures |s| <= size
  {
    if s != [] {
      var last := s[|s| - 1];
      AscendsBound(s[..|s| - 1], last);
    }
  }

  /** The source's checks on a list's deleted rows cannot fail. */
  lemma OffsetsDeletable(dir: Directory, rows: seq<seq<Row>>, nextId: nat, ids: seq<nat>, locations: seq<D.DiskLocation>,
                         assignments: seq<nat>, l: nat)
    requires Agrees(dir, rows, nextId) && Resolved(dir, ids, locations, assignments) && Distinct(ids) && l < |rows|
    ensures Deletable(Offsets(DeletedRows(ids, locations, assignments, l)), |rows[l]|)
  {
    var inputs, d := DeletedInputs(ids, locations, assignments, l), DeletedRows(ids, locations, assignments, l);
    DeletedInputsUntied(dir, rows, nextId, ids, locations, assignments, l);
    SortStrict(DeletedRowLess, inputs);
    var offsets := Offsets(d);
    forall k | 0 <= k < |d| ensures d[k].0 < |rows[l]| && rows[l][d[k].0].id == d[k].1 {
      assert d[k] in d;
      DeletedRowOf(dir, rows, nextId, ids, locations, assignments, l, d[k]);
    }
    forall i, j | 0 <= i < j < |offsets| ensures offsets[i] < offsets[j] {
      assert DeletedRowLess(d[i], d[j]);
    }
    AscendsBound(offsets, |rows[l]|);
  }

  lemma OffsetsName(dir: Directory, rows: seq<seq<Row>>, nextId: nat, ids: seq<nat>, locations: seq<D.DiskLocation>,
                    assignments: seq<nat>, l: nat, o: nat)
    requires Agrees(dir, rows, nextId) && Resolved(dir, ids, locations, assignments)
    requires l < |rows| && o < |rows[l]|
    ensures o in Offsets(DeletedRows(ids, locations, assignments, l)) <==> rows[l][o].id in ids
  {
    var d := DeletedRows(ids, locations, assignments, l);
    if o in Offsets(d) {
      var k :| 0 <= k < |d| && d[k].0 == o;
      assert d[k] in d;
      DeletedRowOf(dir, rows, nextId, ids, locations, assignments, l, d[k]);
    }
    if rows[l][o].id in ids {
      NamedRowDeleted(dir, rows, nextId, ids, locations, assignments, l, o);
      var k :| 0 <= k < |d| && d[k] == (o, rows[l][o].id);
      assert Offsets(d)[k] == o;
    }
  }

  /** The plan deletes exactly the named rows. */
  lemma PlanNames(dir: Directory, rows: seq<seq<Row>>, nextId: nat, ids: seq<nat>, locations: seq<D.DiskLocation>,
                  assignments: seq<nat>)
    requires Agrees(dir, rows, nextId) && Resolved(dir, ids, locations, assignments) && Distinct(ids)
    ensures Deletables(rows, DeletedOffsets(ids, locations, assignments, |rows|))
    ensures Names(rows, DeletedOffsets(ids, locations, assignments, |rows|), IdSet(ids))
  {
    var deleted := DeletedOffsets(ids, locations, assignments, |rows|);
    forall l | 0 <= l < |rows| ensures Deletable(deleted[l], |rows[l]|) {
      OffsetsDeletable(dir, rows, nextId, ids, locations, assignments, l);
    }
    forall l: nat, o: nat ensures NamesRow(rows, deleted, IdSet(ids), l, o) {
      if l < |rows| && o < |rows[l]| {
        OffsetsName(dir, rows, nextId, ids, locations, assignments, l, o);
      }
    }
  }

  // ---------------------------------------------------------------- directory updates

  /** The IDs of one list's inputs are buried. */
  function Burials(ids: seq<nat>, assignments: seq<nat>, l: nat): (u: seq<D.Update>)
    requires |assignments| == |ids|
    ensures |u| == |Positions(assignments, l)|
  {
    PositionsMembers(assignments, l);
    var p := Positions(assignments, l);
    assert forall k :: 0 <= k < |p| ==> p[k] in p;
    seq(|p|, k requires 0 <= k < |p| && p[k] < |ids| => (ids[p[k]], D.TOMBSTONE))
  }

  /** The moved rows of one list are redirected. */
  function Redirections(sourceIds: seq<nat>, moves: seq<RecordMove>, l: nat): (u: seq<D.Update>)
    requires |sourceIds| == |moves|
    ensures |u| == |moves|
  {
    seq(|moves|, i requires 0 <= i < |moves| == |sourceIds| => (sourceIds[i], D.DiskLocation(l, moves[i].destination)))
  }

  function SourceIds(rows: seq<Row>, moves: seq<RecordMove>): (ids: seq<nat>)
    requires forall i :: 0 <= i < |moves| ==> moves[i].source < |rows|
    ensures |ids| == |moves|
  {
    seq(|moves|, i requires 0 <= i < |moves| && moves[i].source < |rows| => rows[moves[i].source].id)
  }

  function EraseGroup(rows: seq<seq<Row>>, ids: seq<nat>, locations: seq<D.DiskLocation>, assignments: seq<nat>, l: nat): seq<D.Update>
    requires |locations| == |ids| == |assignments| && l < |rows|
    requires Deletable(Offsets(DeletedRows(ids, locations, assignments, l)), |rows[l]|)
  {
    var deleted := Offsets(DeletedRows(ids, locations, assignments, l));
    PlanEnds(deleted, |rows[l]|);
    var moves := PlanMoves(deleted, |rows[l]|);
    Burials(ids, assignments, l) + Redirections(SourceIds(rows[l], moves), moves, l)
  }

  ghost function EraseGroups(rows: seq<seq<Row>>, ids: seq<nat>, locations: seq<D.DiskLocation>, assignments: seq<nat>)
    : (g: seq<seq<D.Update>>)
    requires |locations| == |ids| == |assignments|
    requires Deletables(rows, DeletedOffsets(ids, locations, assignments, |rows|))
    ensures |g| == |rows|
  {
    var deleted := DeletedOffsets(ids, locations, assignments, |rows|);
    assert forall l :: 0 <= l < |rows| ==> Deletable(deleted[l], |rows[l]|);
    seq(|rows|, l requires 0 <= l < |rows| && |locations| == |ids| == |assignments|
                           && Deletable(Offsets(DeletedRows(ids, locations, assignments, l)), |rows[l]|)
                => EraseGroup(rows, ids, locations, assignments, l))
  }

  /** A key of a list's group is the ID of one of its rows: deleted or moved. */
  lemma GroupRow(dir: Directory, rows: seq<seq<Row>>, nextId: nat, ids: seq<nat>, locations: seq<D.DiskLocation>,
                 assignments: seq<nat>, l: nat, u: D.Update)
    requires Agrees(dir, rows, nextId) && Resolved(dir, ids, locations, assignments) && Distinct(ids) && l < |rows|
    requires Deletables(rows, DeletedOffsets(ids, locations, assignments, |rows|))
    requires u in EraseGroups(rows, ids, locations, assignments)[l]
    ensures Warranted(u, rows, DeletedOffsets(ids, locations, assignments, |rows|))
    ensures exists o :: 0 <= o < |rows[l]| && rows[l][o].id == u.0
  {
    var deleted := DeletedOffsets(ids, locations, assignments, |rows|);
    var burials := Burials(ids, assignments, l);
    var moves := PlanMoves(deleted[l], |rows[l]|);
    PlanEnds(deleted[l], |rows[l]|);
    if u in burials {
      var k :| 0 <= k < |burials| && burials[k] == u;
      DeletedInput(dir, rows, nextId, ids, locations, assignments, l, k);
      var o := DeletedInputs(ids, locations, assignments, l)[k].0;
      OffsetsName(dir, rows, nextId, ids, locations, assignments, l, o);
      assert o in deleted[l] && u == (rows[l][o].id, D.TOMBSTONE);
    } else {
      var redirections := Redirections(SourceIds(rows[l], moves), moves, l);
      assert u in redirections;
      var i :| 0 <= i < |redirections| && redirections[i] == u;
      assert moves[i] in moves && moves[i].source < |rows[l]|;
      assert u == (rows[l][moves[i].source].id, D.DiskLocation(l, moves[i].destination));
    }
  }

  lemma BurialsDistinct(ids: seq<nat>, assignments: seq<nat>, l: nat)
    requires |assignments| == |ids| && Distinct(ids)
    ensures D.DistinctKeys(Burials(ids, assignments, l))
    ensures forall u :: u in Burials(ids, assignments, l) ==> u.0 in ids
  {
    PositionsMembers(assignments, l);
    var b, p := Burials(ids, assignments, l), Positions(assignments, l);
    forall k | 0 <= k < |p| ensures p[k] < |ids| { assert p[k] in p; }
    forall i, j | 0 <= i < j < |b| ensures b[i].0 != b[j].0 {
      assert p[i] < p[j];
    }
  }

  lemma RedirectionsDistinct(dir: Directory, rows: seq<seq<Row>>, nextId: nat, ids: seq<nat>, locations: seq<D.DiskLocation>,
                             assignments: seq<nat>, l: nat, deleted: seq<nat>)
    requires Agrees(dir, rows, nextId) && Resolved(dir, ids, locations, assignments) && l < |rows|
    requires deleted == Offsets(DeletedRows(ids, locations, assignments, l)) && Deletable(deleted, |rows[l]|)
    ensures forall i :: 0 <= i < |PlanMoves(deleted, |rows[l]|)| ==> PlanMoves(deleted, |rows[l]|)[i].source < |rows[l]|
    ensures var m := PlanMoves(deleted, |rows[l]|); var r := Redirections(SourceIds(rows[l], m), m, l);
      D.DistinctKeys(r) && forall u :: u in r ==> u.0 !in ids
  {
    PlanEnds(deleted, |rows[l]|);
    PlanDistinct(deleted, |rows[l]|);
    var m := PlanMoves(deleted, |rows[l]|);
    var r := Redirections(SourceIds(rows[l], m), m, l);
    forall i, j | 0 <= i < j < |r| ensures r[i].0 != r[j].0 {
      if rows[l][m[i].source].id == rows[l][m[j].source].id {
        IdsUnique(dir, rows, nextId, l, m[i].source, l, m[j].source);
      }
    }
    forall u | u in r ensures u.0 !in ids {
      var i :| 0 <= i < |r| && r[i] == u;
      assert m[i] in m;
      OffsetsName(dir, rows, nextId, ids, locations, assignments, l, m[i].source);
    }
  }

  lemma GroupDistinct(dir: Directory, rows: seq<seq<Row>>, nextId: nat, ids: seq<nat>, locations: seq<D.DiskLocation>,
                      assignments: seq<nat>, l: nat)
    requires Agrees(dir, rows, nextId) && Resolved(dir, ids, locations, assignments) && Distinct(ids) && l < |rows|
    requires Deletable(Offsets(DeletedRows(ids, locations, assignments, l)), |rows[l]|)
    ensures D.DistinctKeys(EraseGroup(rows, ids, locations, assignments, l))
  {
    var deleted := Offsets(DeletedRows(ids, locations, assignments, l));
    BurialsDistinct(ids, assignments, l);
    RedirectionsDistinct(dir, rows, nextId, ids, locations, assignments, l, deleted);
    var m := PlanMoves(deleted, |rows[l]|);
    ConcatDistinct(Burials(ids, assignments, l), Redirections(SourceIds(rows[l], m), m, l));
  }

  lemma GroupsDistinct(dir: Directory, rows: seq<seq<Row>>, nextId: nat, ids: seq<nat>, locations: seq<D.DiskLocation>,
                       assignments: seq<nat>)
    requires Agrees(dir, rows, nextId) && Resolved(dir, ids, locations, assignments) && Distinct(ids)
    requires Deletables(rows, DeletedOffsets(ids, locations, assignments, |rows|))
    ensures D.DistinctKeys(Flatten(EraseGroups(rows, ids, locations, assignments)))
  {
    var groups := EraseGroups(rows, ids, locations, assignments);
    forall l | 0 <= l < |groups| ensures D.DistinctKeys(groups[l]) {
      OffsetsDeletable(dir, rows, nextId, ids, locations, assignments, l);
      GroupDistinct(dir, rows, nextId, ids, locations, assignments, l);
    }
    forall l, m | 0 <= l < m < |groups| ensures KeysApart(groups[l], groups[m]) {
      forall u: D.Update, v: D.Update | u in groups[l] && v in groups[m] ensures u.0 != v.0 {
        GroupRow(dir, rows, nextId, ids, locations, assignments, l, u);
        GroupRow(dir, rows, nextId, ids, locations, assignments, m, v);
        var o :| 0 <= o < |rows[l]| && rows[l][o].id == u.0;
        var o' :| 0 <= o' < |rows[m]| && rows[m][o'].id == v.0;
        if u.0 == v.0 { IdsUnique(dir, rows, nextId, l, o, m, o'); }
      }
    }
    FlattenDistinct(groups);
  }

  lemma BurialOf(dir: Directory, rows: seq<seq<Row>>, nextId: nat, ids: seq<nat>, locations: seq<D.DiskLocation>,
                 assignments: seq<nat>, l: nat, o: nat)
    requires Agrees(dir, rows, nextId) && Resolved(dir, ids, locations, assignments) && l < |rows| && o < |rows[l]|
    requires o in Offsets(DeletedRows(ids, locations, assignments, l))
    ensures (rows[l][o].id, D.TOMBSTONE) in Burials(ids, assignments, l)
  {
    OffsetsName(dir, rows, nextId, ids, locations, assignments, l, o);
    var i :| 0 <= i < |ids| && ids[i] == rows[l][o].id;
    assert ResolvedId(dir, ids, locations, assignments, i) && Located(dir, rows, nextId, l, o);
    PositionsMembers(assignments, l);
    var p := Positions(assignments, l);
    assert i in p;
    var k :| 0 <= k < |p| && p[k] == i;
    assert Burials(ids, assignments, l)[k] == (rows[l][o].id, D.TOMBSTONE);
  }

  lemma RedirectionOf(rows: seq<Row>, moves: seq<RecordMove>, l: nat, m: RecordMove)
    requires (forall i :: 0 <= i < |moves| ==> moves[i].source < |rows|) && m in moves
    ensures m.source < |rows| && (rows[m.source].id, D.DiskLocation(l, m.destination)) in Redirections(SourceIds(rows, moves), moves, l)
  {
    var i :| 0 <= i < |moves| && moves[i] == m;
    assert Redirections(SourceIds(rows, moves), moves, l)[i] == (rows[m.source].id, D.DiskLocation(l, m.destination));
  }

  /** The updates of the batch do exactly what the deletion needs. */
  lemma GroupsEraseBatch(dir: Directory, rows: seq<seq<Row>>, nextId: nat, ids: seq<nat>, locations: seq<D.DiskLocation>,
                         assignments: seq<nat>)
    requires Agrees(dir, rows, nextId) && Resolved(dir, ids, locations, assignments) && Distinct(ids)
    requires Deletables(rows, DeletedOffsets(ids, locations, assignments, |rows|))
    ensures EraseBatch(Flatten(EraseGroups(rows, ids, locations, assignments)), rows,
                       DeletedOffsets(ids, locations, assignments, |rows|))
  {
    var groups, deleted := EraseGroups(rows, ids, locations, assignments), DeletedOffsets(ids, locations, assignments, |rows|);
    var updates := Flatten(groups);
    GroupsDistinct(dir, rows, nextId, ids, locations, assignments);
    forall l: nat, o: nat ensures Buried(updates, rows, deleted, l, o) {
      if l < |rows| && o in deleted[l] {
        assert Deletable(deleted[l], |rows[l]|);
        BurialOf(dir, rows, nextId, ids, locations, assignments, l, o);
        assert (rows[l][o].id, D.TOMBSTONE) in groups[l];
        FlattenMembers(groups, (rows[l][o].id, D.TOMBSTONE));
      }
    }
    forall l: nat, m: RecordMove ensures Redirected(updates, rows, deleted, l, m) {
      if l < |rows| && m in PlanMoves(deleted[l], |rows[l]|) {
        PlanEnds(deleted[l], |rows[l]|);
        RedirectionOf(rows[l], PlanMoves(deleted[l], |rows[l]|), l, m);
        assert (rows[l][m.source].id, D.DiskLocation(l, m.destination)) in groups[l];
        FlattenMembers(groups, (rows[l][m.source].id, D.DiskLocation(l, m.destination)));
      }
    }
    forall u | u in updates ensures Warranted(u, rows, deleted) {
      FlattenMembers(groups, u);
      var l :| 0 <= l < |groups| && u in groups[l];
      GroupRow(dir, rows, nextId, ids, locations, assignments, l, u);
    }
  }
}
