/** What an insertion batch does to the rows, the directory and the represented map. */
module IndexInsert {
  import opened Arithmetic
  import opened PostingList
  import opened RecordPages
  import opened BatchPlan
  import opened IndexRows
  import D = DirectoryPages
  import LD = LocationDirectory

  /** One input of a batch after encoding. */
  datatype Encoded = Encoded(payload: Payload, posting: Posting)

  function NewRow(inputs: seq<Encoded>, nextId: nat, input: nat): Row
    requires input < |inputs|
  {
    Row(nextId + input, inputs[input].payload, inputs[input].posting)
  }

  ghost predicate Batch(assignments: seq<nat>, inputs: seq<Encoded>, nlist: nat) {
    |assignments| == |inputs| && forall i :: 0 <= i < |assignments| ==> assignments[i] < nlist
  }

  /** The rows a list receives, in input order. */
  function NewRows(assignments: seq<nat>, inputs: seq<Encoded>, nextId: nat, l: nat): (r: seq<Row>)
    requires |assignments| == |inputs|
    ensures |r| == |Positions(assignments, l)|
  {
    PositionsMembers(assignments, l);
    var p := Positions(assignments, l);
    assert forall k :: 0 <= k < |p| ==> p[k] in p;
    seq(|p|, k requires 0 <= k < |p| && p[k] < |inputs| => NewRow(inputs, nextId, p[k]))
  }

  ghost function Inserted(rows: seq<seq<Row>>, assignments: seq<nat>, inputs: seq<Encoded>, nextId: nat): (r: seq<seq<Row>>)
    requires |assignments| == |inputs|
    ensures |r| == |rows|
  {
    seq(|rows|, l requires 0 <= l < |rows| => rows[l] + NewRows(assignments, inputs, nextId, l))
  }

  /** The directory updates of one list. */
  function InsertGroup(assignments: seq<nat>, nextId: nat, l: nat, oldSize: nat): (g: seq<D.Update>)
    ensures |g| == |Positions(assignments, l)|
  {
    var p := Positions(assignments, l);
    seq(|p|, k requires 0 <= k < |p| => (nextId + p[k], D.DiskLocation(l, oldSize + k)))
  }

  function InsertGroups(rows: seq<seq<Row>>, assignments: seq<nat>, nextId: nat): (g: seq<seq<D.Update>>)
    ensures |g| == |rows|
  {
    seq(|rows|, l requires 0 <= l < |rows| => InsertGroup(assignments, nextId, l, |rows[l]|))
  }

  function InsertUpdates(rows: seq<seq<Row>>, assignments: seq<nat>, nextId: nat): seq<D.Update> {
    Flatten(InsertGroups(rows, assignments, nextId))
  }

  lemma GroupMember(assignments: seq<nat>, nextId: nat, l: nat, oldSize: nat, u: D.Update)
    requires u in InsertGroup(assignments, nextId, l, oldSize)
    ensures nextId <= u.0 < nextId + |assignments| && assignments[u.0 - nextId] == l
    ensures exists k :: 0 <= k < |Positions(assignments, l)| && u == (nextId + Positions(assignments, l)[k], D.DiskLocation(l, oldSize + k))
  {
    PositionsMembers(assignments, l);
    var g, p := InsertGroup(assignments, nextId, l, oldSize), Positions(assignments, l);
    var k :| 0 <= k < |g| && g[k] == u;
    assert p[k] in p;
  }

  lemma GroupKeysDistinct(assignments: seq<nat>, nextId: nat, l: nat, oldSize: nat)
    ensures D.DistinctKeys(InsertGroup(assignments, nextId, l, oldSize))
  {
    PositionsMembers(assignments, l);
  }

  lemma InsertKeysDistinct(rows: seq<seq<Row>>, assignments: seq<nat>, nextId: nat)
    ensures D.DistinctKeys(InsertUpdates(rows, assignments, nextId))
  {
    var groups := InsertGroups(rows, assignments, nextId);
    forall l | 0 <= l < |groups| ensures D.DistinctKeys(groups[l]) {
      GroupKeysDistinct(assignments, nextId, l, |rows[l]|);
    }
    forall l, m | 0 <= l < m < |groups| ensures KeysApart(groups[l], groups[m]) {
      forall u: D.Update, v: D.Update | u in groups[l] && v in groups[m] ensures u.0 != v.0 {
        GroupMember(assignments, nextId, l, |rows[l]|, u);
        GroupMember(assignments, nextId, m, |rows[m]|, v);
      }
    }
    FlattenDistinct(groups);
  }

  /** Where an input's row goes. */
  lemma InsertTarget(rows: seq<seq<Row>>, assignments: seq<nat>, nextId: nat, l: nat, k: nat)
    requires l < |rows| && k < |Positions(assignments, l)|
    ensures D.Latest(InsertUpdates(rows, assignments, nextId), nextId + Positions(assignments, l)[k])
         == D.Present(D.DiskLocation(l, |rows[l]| + k))
  {
    var u := (nextId + Positions(assignments, l)[k], D.DiskLocation(l, |rows[l]| + k));
    UpdateCollected(rows, assignments, nextId, l, k, u);
    InsertKeysDistinct(rows, assignments, nextId);
    LatestMember(InsertUpdates(rows, assignments, nextId), u.0, u.1);
  }

  lemma UpdateCollected(rows: seq<seq<Row>>, assignments: seq<nat>, nextId: nat, l: nat, k: nat, u: D.Update)
    requires l < |rows| && k < |Positions(assignments, l)|
    requires u == (nextId + Positions(assignments, l)[k], D.DiskLocation(l, |rows[l]| + k))
    ensures u in InsertUpdates(rows, assignments, nextId)
  {
    var groups := InsertGroups(rows, assignments, nextId);
    assert groups[l][k] == u;
    FlattenMembers(groups, u);
  }

  /** Every input has a target. */
  lemma InputTarget(rows: seq<seq<Row>>, assignments: seq<nat>, nextId: nat, input: nat) returns (k: nat)
    requires input < |assignments| && assignments[input] < |rows|
    ensures k < |Positions(assignments, assignments[input])| && Positions(assignments, assignments[input])[k] == input
    ensures D.Latest(InsertUpdates(rows, assignments, nextId), nextId + input)
         == D.Present(D.DiskLocation(assignments[input], |rows[assignments[input]]| + k))
  {
    PositionsMembers(assignments, assignments[input]);
    k :| 0 <= k < |Positions(assignments, assignments[input])| && Positions(assignments, assignments[input])[k] == input;
    InsertTarget(rows, assignments, nextId, assignments[input], k);
  }

  /** Only the new IDs are updated. */
  lemma NotUpdated(rows: seq<seq<Row>>, assignments: seq<nat>, nextId: nat, id: nat)
    requires id < nextId || nextId + |assignments| <= id
    ensures D.Latest(InsertUpdates(rows, assignments, nextId), id).Absent?
  {
    var updates := InsertUpdates(rows, assignments, nextId);
    D.LatestFrom(updates, id);
    if D.Latest(updates, id).Present? {
      var u := (id, D.Latest(updates, id).location);
      FlattenMembers(InsertGroups(rows, assignments, nextId), u);
      var l :| 0 <= l < |rows| && u in InsertGroups(rows, assignments, nextId)[l];
      GroupMember(assignments, nextId, l, |rows[l]|, u);
    }
  }

  // ---------------------------------------------------------------- agreement is kept

  lemma InsertLocated(dir: Directory, dir': Directory, rows: seq<seq<Row>>, nextId: nat,
                      assignments: seq<nat>, inputs: seq<Encoded>, l: nat, o: nat)
    requires Batch(assignments, inputs, |rows|) && Located(dir, rows, nextId, l, o)
    requires forall id: nat :: QuietWrite(dir, dir', InsertUpdates(rows, assignments, nextId), id)
    ensures Located(dir', Inserted(rows, assignments, inputs, nextId), nextId + |inputs|, l, o)
  {
    var next: seq<seq<Row>> := Inserted(rows, assignments, inputs, nextId);
    var updates := InsertUpdates(rows, assignments, nextId);
    if l < |rows| && o < |next[l]| {
      assert QuietWrite(dir, dir', updates, next[l][o].id);
      if o < |rows[l]| {
        NotUpdated(rows, assignments, nextId, rows[l][o].id);
      } else {
        var k := o - |rows[l]|;
        PositionsMembers(assignments, l);
        assert Positions(assignments, l)[k] in Positions(assignments, l);
        InsertTarget(rows, assignments, nextId, l, k);
      }
    }
  }

  lemma InsertGrounded(dir: Directory, dir': Directory, rows: seq<seq<Row>>, nextId: nat,
                       assignments: seq<nat>, inputs: seq<Encoded>, id: nat)
    requires Batch(assignments, inputs, |rows|) && Grounded(dir, rows, nextId, id)
    requires QuietWrite(dir, dir', InsertUpdates(rows, assignments, nextId), id)
    requires Addressable(rows, |inputs|)
    ensures Grounded(dir', Inserted(rows, assignments, inputs, nextId), nextId + |inputs|, id)
  {
    var next: seq<seq<Row>> := Inserted(rows, assignments, inputs, nextId);
    if nextId <= id < nextId + |inputs| {
      var k := InputTarget(rows, assignments, nextId, id - nextId);
      var l := assignments[id - nextId];
      assert next[l][|rows[l]| + k] == NewRows(assignments, inputs, nextId, l)[k];
      assert RowAt(next, D.DiskLocation(l, |rows[l]| + k), id);
    } else {
      NotUpdated(rows, assignments, nextId, id);
    }
  }

  lemma InsertAgrees(dir: Directory, dir': Directory, rows: seq<seq<Row>>, nextId: nat,
                     assignments: seq<nat>, inputs: seq<Encoded>)
    requires Batch(assignments, inputs, |rows|) && Agrees(dir, rows, nextId)
    requires forall id: nat :: QuietWrite(dir, dir', InsertUpdates(rows, assignments, nextId), id)
    requires Addressable(rows, |inputs|)
    ensures Agrees(dir', Inserted(rows, assignments, inputs, nextId), nextId + |inputs|)
  {
    var next, end := Inserted(rows, assignments, inputs, nextId), nextId + |inputs|;
    forall l: nat, o: nat ensures Located(dir', next, end, l, o) {
      InsertLocated(dir, dir', rows, nextId, assignments, inputs, l, o);
    }
    forall id: nat ensures Grounded(dir', next, end, id) {
      InsertGrounded(dir, dir', rows, nextId, assignments, inputs, id);
    }
  }

  // ---------------------------------------------------------------- what is represented

  function VectorOf(assignments: seq<nat>, inputs: seq<Encoded>, input: nat): Vector
    requires input < |assignments| == |inputs|
  {
    Vector(assignments[input], inputs[input].payload, inputs[input].posting)
  }

  predicate NewId(id: nat, nextId: nat, count: nat) {
    nextId <= id < nextId + count
  }

  /** The new entries of the map. */
  ghost function Fresh(assignments: seq<nat>, inputs: seq<Encoded>, nextId: nat): map<nat, Vector>
    requires |assignments| == |inputs|
  {
    map id: nat | id < nextId + |inputs| && NewId(id, nextId, |inputs|) :: VectorOf(assignments, inputs, id - nextId)
  }

  lemma InsertContents(dir: Directory, dir': Directory, rows: seq<seq<Row>>, nextId: nat,
                       assignments: seq<nat>, inputs: seq<Encoded>)
    requires Batch(assignments, inputs, |rows|) && Agrees(dir, rows, nextId)
    requires forall id: nat :: QuietWrite(dir, dir', InsertUpdates(rows, assignments, nextId), id)
    requires Addressable(rows, |inputs|)
    ensures Contents(dir', Inserted(rows, assignments, inputs, nextId), nextId + |inputs|)
         == Contents(dir, rows, nextId) + Fresh(assignments, inputs, nextId)
  {
    var next, end := Inserted(rows, assignments, inputs, nextId), nextId + |inputs|;
    var was, added := Contents(dir, rows, nextId), Fresh(assignments, inputs, nextId);
    var now := Contents(dir', next, end);
    forall id: nat ensures JoinedEntry(now, was, added, id) {
      InsertEntry(dir, dir', rows, nextId, assignments, inputs, id);
    }
    JoinedMap(now, was, added);
  }

  lemma InsertEntry(dir: Directory, dir': Directory, rows: seq<seq<Row>>, nextId: nat,
                    assignments: seq<nat>, inputs: seq<Encoded>, id: nat)
    requires Batch(assignments, inputs, |rows|) && Grounded(dir, rows, nextId, id)
    requires QuietWrite(dir, dir', InsertUpdates(rows, assignments, nextId), id)
    requires Addressable(rows, |inputs|)
    ensures JoinedEntry(Contents(dir', Inserted(rows, assignments, inputs, nextId), nextId + |inputs|),
                        Contents(dir, rows, nextId), Fresh(assignments, inputs, nextId), id)
  {
    if NewId(id, nextId, |inputs|) {
      NewEntry(dir, dir', rows, nextId, assignments, inputs, id);
    } else {
      OldEntry(dir, dir', rows, nextId, assignments, inputs, id);
    }
  }

  predicate JoinedEntry(now: map<nat, Vector>, was: map<nat, Vector>, added: map<nat, Vector>, id: nat) {
    if id in added then id in now && now[id] == added[id]
    else if id in was then id in now && now[id] == was[id]
    else id !in now
  }

  lemma JoinedMap(now: map<nat, Vector>, was: map<nat, Vector>, added: map<nat, Vector>)
    requires forall id: nat :: JoinedEntry(now, was, added, id)
    ensures now == was + added
  {
    forall id: nat ensures (id in now <==> id in was + added) && (id in now ==> now[id] == (was + added)[id]) {
      assert JoinedEntry(now, was, added, id);
    }
  }

  lemma NewEntry(dir: Directory, dir': Directory, rows: seq<seq<Row>>, nextId: nat,
                 assignments: seq<nat>, inputs: seq<Encoded>, id: nat)
    requires Batch(assignments, inputs, |rows|) && NewId(id, nextId, |inputs|)
    requires QuietWrite(dir, dir', InsertUpdates(rows, assignments, nextId), id)
    requires Addressable(rows, |inputs|)
    ensures var now := Contents(dir', Inserted(rows, assignments, inputs, nextId), nextId + |inputs|);
      id in now && now[id] == VectorOf(assignments, inputs, id - nextId)
  {
    FreshVector(rows, nextId, assignments, inputs, id - nextId);
  }

  lemma OldEntry(dir: Directory, dir': Directory, rows: seq<seq<Row>>, nextId: nat,
                 assignments: seq<nat>, inputs: seq<Encoded>, id: nat)
    requires Batch(assignments, inputs, |rows|) && !NewId(id, nextId, |inputs|) && Grounded(dir, rows, nextId, id)
    requires QuietWrite(dir, dir', InsertUpdates(rows, assignments, nextId), id)
    ensures var now, was := Contents(dir', Inserted(rows, assignments, inputs, nextId), nextId + |inputs|), Contents(dir, rows, nextId);
      (id in now <==> id in was) && (id in was ==> now[id] == was[id])
  {
    NotUpdated(rows, assignments, nextId, id);
    if id in Contents(dir, rows, nextId) {
      OldVector(rows, nextId, assignments, inputs, dir(id).location, id);
    }
  }

  lemma FreshVector(rows: seq<seq<Row>>, nextId: nat, assignments: seq<nat>, inputs: seq<Encoded>, input: nat)
    requires Batch(assignments, inputs, |rows|) && input < |inputs|
    requires Addressable(rows, |inputs|)
    ensures var e := D.Latest(InsertUpdates(rows, assignments, nextId), nextId + input);
      && e.Present? && e.location.Active()
      && VectorAt(Inserted(rows, assignments, inputs, nextId), e.location)
         == VectorOf(assignments, inputs, input)
  {
    var k := InputTarget(rows, assignments, nextId, input);
    var l := assignments[input];
    assert Inserted(rows, assignments, inputs, nextId)[l][|rows[l]| + k] == NewRows(assignments, inputs, nextId, l)[k];
  }

  lemma OldVector(rows: seq<seq<Row>>, nextId: nat, assignments: seq<nat>, inputs: seq<Encoded>, at: D.DiskLocation, id: nat)
    requires Batch(assignments, inputs, |rows|) && RowAt(rows, at, id)
    ensures VectorAt(Inserted(rows, assignments, inputs, nextId), at) == VectorAt(rows, at)
  {
  }

  lemma {:induction false} InsertTotal(rows: seq<seq<Row>>, nextId: nat, assignments: seq<nat>, inputs: seq<Encoded>, lists: nat)
    requires |assignments| == |inputs| && lists <= |rows|
    ensures RowTotal(Inserted(rows, assignments, inputs, nextId), lists) == RowTotal(rows, lists) + Start(assignments, lists)
  {
    if lists == 0 {
      StartNext(assignments, 0);
    } else {
      InsertTotal(rows, nextId, assignments, inputs, lists - 1);
      StartNext(assignments, lists - 1);
    }
  }

  // ---------------------------------------------------------------- dense IDs leave no gap

  /** The batch updates exactly the IDs of a range. */
  ghost predicate DenseKeys(updates: seq<D.Update>, first: nat, count: nat) {
    forall id: nat :: D.Latest(updates, id).Present? <==> first <= id < first + count
  }

  lemma InsertDense(rows: seq<seq<Row>>, assignments: seq<nat>, nextId: nat)
    requires forall i :: 0 <= i < |assignments| ==> assignments[i] < |rows|
    ensures DenseKeys(InsertUpdates(rows, assignments, nextId), nextId, |assignments|)
  {
    var updates := InsertUpdates(rows, assignments, nextId);
    forall id: nat ensures D.Latest(updates, id).Present? <==> nextId <= id < nextId + |assignments| {
      if nextId <= id < nextId + |assignments| {
        var k := InputTarget(rows, assignments, nextId, id - nextId);
      } else {
        NotUpdated(rows, assignments, nextId, id);
      }
    }
  }

  /** The lowest IDs of a dense batch are a dense batch. */
  lemma {:induction false} LeadingDense(done: seq<D.Update>, updates: seq<D.Update>, first: nat, count: nat) returns (n: nat)
    requires LD.Leading(done, updates) && D.DistinctKeys(updates) && DenseKeys(updates, first, count)
    ensures n <= count && DenseKeys(done, first, n)
  {
    n := 0;
    while n < count && D.Latest(done, first + n).Present?
      invariant n <= count && forall id: nat :: first <= id < first + n ==> D.Latest(done, id).Present?
    {
      n := n + 1;
    }
    forall id: nat ensures D.Latest(done, id).Present? <==> first <= id < first + n {
      if D.Latest(done, id).Present? {
        LeadingDown(done, updates, if first + n <= id then first + n else id, id);
      }
    }
  }

  /** A leading part that reaches an ID reaches every lower ID of the batch. */
  lemma LeadingDown(done: seq<D.Update>, updates: seq<D.Update>, lower: nat, id: nat)
    requires LD.Leading(done, updates) && D.DistinctKeys(updates) && D.Latest(done, id).Present? && lower <= id
    ensures D.Latest(updates, id).Present?
    ensures D.Latest(updates, lower).Present? ==> D.Latest(done, lower).Present?
  {
    D.LatestFrom(done, id);
    LatestMember(updates, id, D.Latest(done, id).location);
    D.LatestFrom(updates, lower);
    D.LatestFrom(done, lower);
  }

  /** IDs are handed out densely, so an insertion never skips a directory page, wherever the file ends from the known IDs on. */
  lemma DenseIdsLeaveNoGap(length: nat, perPage: nat, updates: seq<D.Update>, first: nat, count: nat)
    requires perPage > 0 && length >= PageCount(first, perPage) && DenseKeys(updates, first, count)
    ensures forall p :: length <= p < D.LengthAfter(length, updates, perPage) ==> D.Touches(updates, perPage, p)
    ensures D.LengthAfter(length, updates, perPage)
         == if length < PageCount(first + count, perPage) then PageCount(first + count, perPage) else length
  {
    DenseLength(length, perPage, updates, first, count);
    forall p | length <= p < D.LengthAfter(length, updates, perPage) ensures D.Touches(updates, perPage, p) {
      PageUpdated(updates, first, count, perPage, p);
    }
  }

  lemma DenseLength(length: nat, perPage: nat, updates: seq<D.Update>, first: nat, count: nat)
    requires perPage > 0 && length >= PageCount(first, perPage) && DenseKeys(updates, first, count)
    ensures D.LengthAfter(length, updates, perPage)
         == if length < PageCount(first + count, perPage) then PageCount(first + count, perPage) else length
  {
    if count == 0 {
      NoKeys(updates);
    } else {
      DenseLast(length, perPage, updates, first, count, first + count - 1);
    }
  }

  lemma DenseLast(length: nat, perPage: nat, updates: seq<D.Update>, first: nat, count: nat, last: nat)
    requires perPage > 0 && DenseKeys(updates, first, count) && count > 0 && last == first + count - 1
    ensures D.LengthAfter(length, updates, perPage) == if length < last / perPage + 1 then last / perPage + 1 else length
  {
    forall u | u in updates ensures u.0 <= last { UpdatePresent(updates, u); }
    LengthWithin(length, updates, perPage, last);
    QuotientNat(last, perPage);
    D.PresentTouches(updates, perPage, last);
    D.TouchedWithin(length, updates, perPage, last / perPage);
  }

  lemma NoKeys(updates: seq<D.Update>)
    requires forall id: nat :: D.Latest(updates, id).Absent?
    ensures updates == []
  {
    if updates != [] { UpdatePresent(updates, updates[0]); }
  }

  lemma UpdatePresent(updates: seq<D.Update>, u: D.Update)
    requires u in updates
    ensures D.Latest(updates, u.0).Present?
  {
    D.LatestFrom(updates, u.0);
  }

  lemma {:induction false} LengthWithin(length: nat, updates: seq<D.Update>, perPage: nat, last: nat)
    requires perPage > 0 && forall u :: u in updates ==> u.0 <= last
    ensures D.LengthAfter(length, updates, perPage) <= if length < last / perPage + 1 then last / perPage + 1 else length
  {
    if updates != [] {
      LengthWithin(length, updates[..|updates| - 1], perPage, last);
      assert updates[|updates| - 1] in updates;
      QuotientMonotone(updates[|updates| - 1].0, last, perPage);
    }
  }

  lemma PageUpdated(updates: seq<D.Update>, first: nat, count: nat, perPage: nat, p: nat)
    requires perPage > 0 && DenseKeys(updates, first, count) && PageCount(first, perPage) <= p < PageCount(first + count, perPage)
    ensures D.Touches(updates, perPage, p)
  {
    PageCountGrows(first, count, perPage, p);
    var last := first + count - 1;
    if p == last / perPage {
      D.PresentTouches(updates, perPage, last);
    } else {
      PageReached(p, first, last, perPage);
      D.PresentTouches(updates, perPage, p * perPage);
    }
  }

  lemma PageCountGrows(first: nat, count: nat, perPage: nat, p: nat)
    requires perPage > 0 && PageCount(first, perPage) <= p < PageCount(first + count, perPage)
    ensures count > 0 && p <= (first + count - 1) / perPage
  {
  }

  lemma PageReached(p: nat, nextId: nat, last: nat, perPage: nat)
    requires perPage > 0 && PageCount(nextId, perPage) <= p < last / perPage
    ensures nextId <= p * perPage <= last && p * perPage / perPage == p
  {
    QuotientOf(p, 0, perPage);
    if p * perPage < nextId { RowPage(p * perPage, nextId, perPage); }
    if last < p * perPage { QuotientMonotone(last, p * perPage, perPage); }
  }
}
