/** What a deletion batch does to the rows, the directory and the represented map. */
module IndexErase {
  import opened RecordDeletion
  import opened MovePlan
  import opened BatchPlan
  import opened IndexRows
  import D = DirectoryPages

  /** For every list the ascending offsets it loses. */
  ghost predicate Deletables(rows: seq<seq<Row>>, deleted: seq<seq<nat>>) {
    |deleted| == |rows| && forall l :: 0 <= l < |rows| ==> Deletable(deleted[l], |rows[l]|)
  }

  ghost function Erased(rows: seq<seq<Row>>, deleted: seq<seq<nat>>): (r: seq<seq<Row>>)
    requires Deletables(rows, deleted)
    ensures |r| == |rows|
  {
    seq(|rows|, l requires 0 <= l < |rows| && Deletable(deleted[l], |rows[l]|) => SwapDelete(rows[l], deleted[l]))
  }

  // ---------------------------------------------------------------- directory updates

  /** The row at `o` of list `l` is deleted, and the batch buries its ID. */
  ghost predicate Buried(updates: seq<D.Update>, rows: seq<seq<Row>>, deleted: seq<seq<nat>>, l: nat, o: nat)
    requires Deletables(rows, deleted)
  {
    l < |rows| && o in deleted[l] ==> (rows[l][o].id, D.TOMBSTONE) in updates
  }

  ghost predicate Redirected(updates: seq<D.Update>, rows: seq<seq<Row>>, deleted: seq<seq<nat>>, l: nat, m: RecordMove)
    requires Deletables(rows, deleted)
  {
    l < |rows| && m in PlanMoves(deleted[l], |rows[l]|) ==>
      m.source < |rows[l]| && (rows[l][m.source].id, D.DiskLocation(l, m.destination)) in updates
  }

  /** The update is a burial or a redirection of some row. */
  ghost predicate Warranted(u: D.Update, rows: seq<seq<Row>>, deleted: seq<seq<nat>>)
    requires Deletables(rows, deleted)
  {
    || (exists l, o :: 0 <= l < |rows| && o in deleted[l] && u == (rows[l][o].id, D.TOMBSTONE))
    || (exists l, m :: 0 <= l < |rows| && m in PlanMoves(deleted[l], |rows[l]|) && m.source < |rows[l]|
                       && u == (rows[l][m.source].id, D.DiskLocation(l, m.destination)))
  }

  /** A batch that does exactly what the deletion needs. */
  ghost predicate EraseBatch(updates: seq<D.Update>, rows: seq<seq<Row>>, deleted: seq<seq<nat>>)
    requires Deletables(rows, deleted)
  {
    && D.DistinctKeys(updates)
    && (forall l: nat, o: nat :: Buried(updates, rows, deleted, l, o))
    && (forall l: nat, m: RecordMove :: Redirected(updates, rows, deleted, l, m))
    && (forall u :: u in updates ==> Warranted(u, rows, deleted))
  }

  /** Part way through the batch every entry is as before or as the deletion wants it. */
  ghost predicate OldOrNew(dir: Directory, dir': Directory, rows: seq<seq<Row>>, deleted: seq<seq<nat>>, id: nat)
    requires Deletables(rows, deleted)
  {
    dir'(id) == dir(id) || (dir'(id).Present? && Warranted((id, dir'(id).location), rows, deleted))
  }

  // ---------------------------------------------------------------- agreement is kept

  /** A row that is neither deleted nor moved has no update. */
  lemma NoUpdate(dir: Directory, rows: seq<seq<Row>>, nextId: nat, deleted: seq<seq<nat>>, updates: seq<D.Update>, l: nat, o: nat)
    requires Deletables(rows, deleted) && Agrees(dir, rows, nextId) && EraseBatch(updates, rows, deleted)
    requires l < |rows| && o < |rows[l]| - |deleted[l]| && o !in deleted[l]
    ensures D.Latest(updates, rows[l][o].id).Absent?
  {
    var id := rows[l][o].id;
    D.LatestFrom(updates, id);
    if D.Latest(updates, id).Present? {
      var u := (id, D.Latest(updates, id).location);
      assert Warranted(u, rows, deleted);
      UnwarrantedKeep(dir, rows, nextId, deleted, u, l, o);
    }
  }

  lemma UnwarrantedKeep(dir: Directory, rows: seq<seq<Row>>, nextId: nat, deleted: seq<seq<nat>>, u: D.Update, l: nat, o: nat)
    requires Deletables(rows, deleted) && Agrees(dir, rows, nextId)
    requires l < |rows| && o < |rows[l]| - |deleted[l]| && o !in deleted[l] && u.0 == rows[l][o].id
    ensures !Warranted(u, rows, deleted)
  {
    if l', o' :| 0 <= l' < |rows| && o' in deleted[l'] && u == (rows[l'][o'].id, D.TOMBSTONE) {
      IdsUnique(dir, rows, nextId, l, o, l', o');
    }
    if l', m :| 0 <= l' < |rows| && m in PlanMoves(deleted[l'], |rows[l']|) && m.source < |rows[l']|
                && u == (rows[l'][m.source].id, D.DiskLocation(l', m.destination))
    {
      IdsUnique(dir, rows, nextId, l, o, l', m.source);
      PlanEnds(deleted[l], |rows[l]|);
    }
  }

  lemma MoveOf(rows: seq<seq<Row>>, deleted: seq<seq<nat>>, l: nat, o: nat) returns (m: RecordMove)
    requires Deletables(rows, deleted) && l < |rows|
    requires |rows[l]| - |deleted[l]| <= o < |rows[l]| && o !in deleted[l]
    ensures m in PlanMoves(deleted[l], |rows[l]|) && m.source == o
    ensures m.destination == NewOffset(PlanMoves(deleted[l], |rows[l]|), o)
  {
    var moves := PlanMoves(deleted[l], |rows[l]|);
    PlanCovers(deleted[l], |rows[l]|, o);
    NewOffsetOf(moves, o);
    var i :| 0 <= i < |moves| && moves[i].source == o && NewOffset(moves, o) == moves[i].destination;
    m := moves[i];
  }

  /** The directory follows every survivor to its new offset. */
  lemma SurvivorLocated(dir: Directory, dir': Directory, rows: seq<seq<Row>>, nextId: nat, deleted: seq<seq<nat>>,
                        updates: seq<D.Update>, l: nat, o: nat)
    requires Deletables(rows, deleted) && Agrees(dir, rows, nextId) && EraseBatch(updates, rows, deleted)
    requires l < |rows| && o < |rows[l]| && o !in deleted[l]
    requires QuietWrite(dir, dir', updates, rows[l][o].id)
    ensures dir'(rows[l][o].id) == D.Present(D.DiskLocation(l, NewOffset(PlanMoves(deleted[l], |rows[l]|), o)))
  {
    assert Located(dir, rows, nextId, l, o);
    if o < |rows[l]| - |deleted[l]| {
      NoUpdate(dir, rows, nextId, deleted, updates, l, o);
      SurvivorKept(rows[l], deleted[l], o);
    } else {
      var m := MoveOf(rows, deleted, l, o);
      assert Redirected(updates, rows, deleted, l, m);
      LatestMember(updates, rows[l][o].id, D.DiskLocation(l, m.destination));
    }
  }

  lemma EraseLocated(dir: Directory, dir': Directory, rows: seq<seq<Row>>, nextId: nat, deleted: seq<seq<nat>>,
                     updates: seq<D.Update>, l: nat, o: nat)
    requires Deletables(rows, deleted) && Agrees(dir, rows, nextId) && EraseBatch(updates, rows, deleted)
    requires forall id: nat :: QuietWrite(dir, dir', updates, id)
    ensures Located(dir', Erased(rows, deleted), nextId, l, o)
  {
    if l < |rows| && o < |rows[l]| - |deleted[l]| {
      var o0 := OnlySurvivors(rows[l], deleted[l], o);
      assert QuietWrite(dir, dir', updates, rows[l][o0].id);
      SurvivorLocated(dir, dir', rows, nextId, deleted, updates, l, o0);
      assert Located(dir, rows, nextId, l, o0);
    }
  }

  /** A deleted ID is a tombstone from now on. */
  lemma DeletedBuried(rows: seq<seq<Row>>, dir: Directory, dir': Directory, deleted: seq<seq<nat>>, updates: seq<D.Update>, l: nat, o: nat)
    requires Deletables(rows, deleted) && EraseBatch(updates, rows, deleted) && l < |rows| && o in deleted[l]
    requires QuietWrite(dir, dir', updates, rows[l][o].id)
    ensures dir'(rows[l][o].id) == D.Present(D.TOMBSTONE)
  {
    assert Buried(updates, rows, deleted, l, o);
    LatestMember(updates, rows[l][o].id, D.TOMBSTONE);
  }

  /** An ID without a row has no update. */
  lemma OnlyRowsUpdated(dir: Directory, rows: seq<seq<Row>>, nextId: nat, deleted: seq<seq<nat>>, updates: seq<D.Update>, id: nat)
    requires Deletables(rows, deleted) && Agrees(dir, rows, nextId) && EraseBatch(updates, rows, deleted)
    requires dir(id).Present? ==> dir(id).location == D.TOMBSTONE
    requires Addressable(rows, 0)
    ensures D.Latest(updates, id).Absent?
  {
    D.LatestFrom(updates, id);
    if D.Latest(updates, id).Present? {
      var u := (id, D.Latest(updates, id).location);
      assert Warranted(u, rows, deleted);
      var l, o := WarrantedRow(rows, deleted, u);
      assert Located(dir, rows, nextId, l, o);
    }
  }

  lemma WarrantedRow(rows: seq<seq<Row>>, deleted: seq<seq<nat>>, u: D.Update) returns (l: nat, o: nat)
    requires Deletables(rows, deleted) && Warranted(u, rows, deleted)
    ensures l < |rows| && o < |rows[l]| && rows[l][o].id == u.0
  {
    if l', o' :| 0 <= l' < |rows| && o' in deleted[l'] && u == (rows[l'][o'].id, D.TOMBSTONE) {
      l, o := l', o';
    } else {
      var l', m :| 0 <= l' < |rows| && m in PlanMoves(deleted[l'], |rows[l']|) && m.source < |rows[l']|
                   && u == (rows[l'][m.source].id, D.DiskLocation(l', m.destination));
      l, o := l', m.source;
    }
  }

  lemma EraseGrounded(dir: Directory, dir': Directory, rows: seq<seq<Row>>, nextId: nat, deleted: seq<seq<nat>>,
                      updates: seq<D.Update>, id: nat)
    requires Deletables(rows, deleted) && Agrees(dir, rows, nextId) && EraseBatch(updates, rows, deleted)
    requires QuietWrite(dir, dir', updates, id) && Addressable(rows, 0)
    ensures Grounded(dir', Erased(rows, deleted), nextId, id)
  {
    assert Grounded(dir, rows, nextId, id);
    if dir(id).Present? && dir(id).location != D.TOMBSTONE {
      var l, o := dir(id).location.listNo, dir(id).location.offset;
      if o in deleted[l] {
        DeletedBuried(rows, dir, dir', deleted, updates, l, o);
      } else {
        SurvivorLocated(dir, dir', rows, nextId, deleted, updates, l, o);
        SurvivorKept(rows[l], deleted[l], o);
      }
    } else {
      OnlyRowsUpdated(dir, rows, nextId, deleted, updates, id);
    }
  }

  lemma EraseAgrees(dir: Directory, dir': Directory, rows: seq<seq<Row>>, nextId: nat, deleted: seq<seq<nat>>, updates: seq<D.Update>)
    requires Deletables(rows, deleted) && Agrees(dir, rows, nextId) && EraseBatch(updates, rows, deleted)
    requires (forall id: nat :: QuietWrite(dir, dir', updates, id)) && Addressable(rows, 0)
    ensures Agrees(dir', Erased(rows, deleted), nextId)
  {
    forall l: nat, o: nat ensures Located(dir', Erased(rows, deleted), nextId, l, o) {
      EraseLocated(dir, dir', rows, nextId, deleted, updates, l, o);
    }
    forall id: nat ensures Grounded(dir', Erased(rows, deleted), nextId, id) {
      EraseGrounded(dir, dir', rows, nextId, deleted, updates, id);
    }
  }

  // ---------------------------------------------------------------- what is represented

  /** The deleted offsets are exactly those of the given IDs. */
  ghost predicate Names(rows: seq<seq<Row>>, deleted: seq<seq<nat>>, ids: set<nat>)
    requires Deletables(rows, deleted)
  {
    forall l: nat, o: nat :: NamesRow(rows, deleted, ids, l, o)
  }

  ghost predicate NamesRow(rows: seq<seq<Row>>, deleted: seq<seq<nat>>, ids: set<nat>, l: nat, o: nat)
    requires Deletables(rows, deleted)
  {
    l < |rows| && o < |rows[l]| ==> (o in deleted[l] <==> rows[l][o].id in ids)
  }

  predicate RemainingEntry(now: map<nat, Vector>, was: map<nat, Vector>, ids: set<nat>, id: nat) {
    if id in was && id !in ids then id in now && now[id] == was[id] else id !in now
  }

  lemma RemainingMap(now: map<nat, Vector>, was: map<nat, Vector>, ids: set<nat>)
    requires forall id: nat :: RemainingEntry(now, was, ids, id)
    ensures now == was - ids
  {
    forall id: nat ensures (id in now <==> id in was - ids) && (id in now ==> now[id] == (was - ids)[id]) {
      assert RemainingEntry(now, was, ids, id);
    }
  }

  lemma EraseContents(dir: Directory, dir': Directory, rows: seq<seq<Row>>, nextId: nat, deleted: seq<seq<nat>>,
                      updates: seq<D.Update>, ids: set<nat>)
    requires Deletables(rows, deleted) && Agrees(dir, rows, nextId) && EraseBatch(updates, rows, deleted)
    requires (forall id: nat :: QuietWrite(dir, dir', updates, id)) && Addressable(rows, 0)
    requires Names(rows, deleted, ids)
    ensures Contents(dir', Erased(rows, deleted), nextId) == Contents(dir, rows, nextId) - ids
  {
    var now, was := Contents(dir', Erased(rows, deleted), nextId), Contents(dir, rows, nextId);
    forall id: nat ensures RemainingEntry(now, was, ids, id) {
      EraseEntry(dir, dir', rows, nextId, deleted, updates, ids, id);
    }
    RemainingMap(now, was, ids);
  }

  lemma EraseEntry(dir: Directory, dir': Directory, rows: seq<seq<Row>>, nextId: nat, deleted: seq<seq<nat>>,
                   updates: seq<D.Update>, ids: set<nat>, id: nat)
    requires Deletables(rows, deleted) && Agrees(dir, rows, nextId) && EraseBatch(updates, rows, deleted)
    requires QuietWrite(dir, dir', updates, id) && Addressable(rows, 0)
    requires Names(rows, deleted, ids)
    ensures RemainingEntry(Contents(dir', Erased(rows, deleted), nextId), Contents(dir, rows, nextId), ids, id)
  {
    assert Grounded(dir, rows, nextId, id);
    if dir(id).Present? && dir(id).location != D.TOMBSTONE {
      var l, o := dir(id).location.listNo, dir(id).location.offset;
      assert NamesRow(rows, deleted, ids, l, o);
      if o in deleted[l] {
        DeletedBuried(rows, dir, dir', deleted, updates, l, o);
      } else {
        SurvivorLocated(dir, dir', rows, nextId, deleted, updates, l, o);
        SurvivorKept(rows[l], deleted[l], o);
      }
    } else {
      OnlyRowsUpdated(dir, rows, nextId, deleted, updates, id);
    }
  }

  lemma {:induction false} EraseTotal(rows: seq<seq<Row>>, deleted: seq<seq<nat>>, assignments: seq<nat>, lists: nat)
    requires Deletables(rows, deleted) && lists <= |rows|
    requires forall l :: 0 <= l < |rows| ==> |deleted[l]| == |Positions(assignments, l)|
    ensures RowTotal(Erased(rows, deleted), lists) + Start(assignments, lists) == RowTotal(rows, lists)
  {
    if lists == 0 {
      StartNext(assignments, 0);
    } else {
      EraseTotal(rows, deleted, assignments, lists - 1);
      StartNext(assignments, lists - 1);
      ErasedSize(rows, deleted, lists - 1);
    }
  }

  lemma ErasedSize(rows: seq<seq<Row>>, deleted: seq<seq<nat>>, l: nat)
    requires Deletables(rows, deleted) && l < |rows|
    ensures |Erased(rows, deleted)[l]| + |deleted[l]| == |rows[l]|
  {
  }

  // ---------------------------------------------------------------- the stores move the same rows

  lemma {:induction false} MovedFields(rows: seq<Row>, moves: seq<RecordMove>, o: nat)
    requires o < |rows| && forall i :: 0 <= i < |moves| ==> moves[i].source < |rows|
    ensures MovedRow(Records(rows), moves, o) == RecordOf(MovedRow(rows, moves, o))
    ensures MovedRow(PostingsOf(rows), moves, o) == MovedRow(rows, moves, o).posting
  {
    if moves != [] { MovedFields(rows, moves[..|moves| - 1], o); }
  }

  lemma MovedStores(rows: seq<Row>, moves: seq<RecordMove>, newSize: nat)
    requires newSize <= |rows| && forall i :: 0 <= i < |moves| ==> moves[i].source < |rows|
    ensures Records(MovedRows(rows, moves, newSize)) == MovedRows(Records(rows), moves, newSize)
    ensures PostingsOf(MovedRows(rows, moves, newSize)) == MovedRows(PostingsOf(rows), moves, newSize)
  {
    forall o | 0 <= o < newSize
      ensures Records(MovedRows(rows, moves, newSize))[o] == MovedRows(Records(rows), moves, newSize)[o]
      ensures PostingsOf(MovedRows(rows, moves, newSize))[o] == MovedRows(PostingsOf(rows), moves, newSize)[o]
    {
      MovedFields(rows, moves, o);
    }
  }
}
