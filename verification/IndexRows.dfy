/** The rows behind the mutable index, and how they agree with the Logical-ID directory. */
module IndexRows {
  import opened Arithmetic
  import opened PostingPacking
  import opened PostingList
  import opened RecordPages
  import D = DirectoryPages

  datatype Row = Row(id: nat, payload: Payload, posting: Posting)

  /** What a Logical ID stands for. */
  datatype Vector = Vector(list: nat, payload: Payload, posting: Posting)

  /** What a directory file answers for every ID. */
  type Directory = nat -> D.Entry

  /** The file as far as IDs below `known` go: those that were handed out. */
  function View(pages: seq<D.DirectoryPage>, perPage: nat, known: nat): Directory {
    (id: nat) => if perPage > 0 && id < known then D.EntryAt(pages, perPage, id) else D.Absent
  }

  predicate Vacant(e: D.Entry) {
    e.Absent? || e.location == D.TOMBSTONE
  }

  /** No ID from `first` on has an active entry. */
  ghost predicate Unassigned(pages: seq<D.DirectoryPage>, perPage: nat, first: nat)
    requires perPage > 0
  {
    forall id: nat :: first <= id ==> Vacant(D.EntryAt(pages, perPage, id))
  }

  function RecordOf(row: Row): Record {
    Record(row.id, row.payload)
  }

  function Records(rows: seq<Row>): (r: seq<Record>)
    ensures |r| == |rows|
  {
    seq(|rows|, o requires 0 <= o < |rows| => RecordOf(rows[o]))
  }

  function PostingsOf(rows: seq<Row>): (r: seq<Posting>)
    ensures |r| == |rows|
  {
    seq(|rows|, o requires 0 <= o < |rows| => rows[o].posting)
  }

  lemma ConcatRows(a: seq<Row>, b: seq<Row>)
    ensures Records(a + b) == Records(a) + Records(b) && PostingsOf(a + b) == PostingsOf(a) + PostingsOf(b)
  {
  }

  // ---------------------------------------------------------------- agreement

  ghost predicate RowAt(rows: seq<seq<Row>>, at: D.DiskLocation, id: nat) {
    at.listNo < |rows| && at.offset < |rows[at.listNo]| && rows[at.listNo][at.offset].id == id
  }

  /** The row's ID is known, and the directory leads back to the row. */
  ghost predicate Located(dir: Directory, rows: seq<seq<Row>>, nextId: nat, l: nat, o: nat) {
    l < |rows| && o < |rows[l]| ==>
      rows[l][o].id < nextId && dir(rows[l][o].id) == D.Present(D.DiskLocation(l, o))
  }

  predicate Live(dir: Directory, id: nat) {
    dir(id).Present? && dir(id).location.Active()
  }

  /** An ID that was handed out has an entry; an active entry leads to its row, any other is a tombstone. */
  ghost predicate Grounded(dir: Directory, rows: seq<seq<Row>>, nextId: nat, id: nat) {
    && (id < nextId ==> dir(id).Present?)
    && (dir(id).Present? ==>
          || (dir(id).location.Active() && id < nextId && RowAt(rows, dir(id).location, id))
          || dir(id).location == D.TOMBSTONE)
  }

  ghost predicate Agrees(dir: Directory, rows: seq<seq<Row>>, nextId: nat) {
    && (forall l: nat, o: nat :: Located(dir, rows, nextId, l, o))
    && (forall id: nat :: Grounded(dir, rows, nextId, id))
  }

  /** No two slots hold the same ID. */
  lemma IdsUnique(dir: Directory, rows: seq<seq<Row>>, nextId: nat, l: nat, o: nat, l': nat, o': nat)
    requires Agrees(dir, rows, nextId) && l < |rows| && o < |rows[l]| && l' < |rows| && o' < |rows[l']|
    requires rows[l][o].id == rows[l'][o'].id
    ensures l == l' && o == o'
  {
    assert Located(dir, rows, nextId, l, o) && Located(dir, rows, nextId, l', o');
  }

  /** Every list number and every offset, also of `more` further rows, is a proper location. */
  ghost predicate Addressable(rows: seq<seq<Row>>, more: nat) {
    |rows| <= D.NO_LOCATION && forall l :: 0 <= l < |rows| ==> |rows[l]| + more <= D.NO_LOCATION
  }

  function VectorAt(rows: seq<seq<Row>>, at: D.DiskLocation): Vector {
    if at.listNo < |rows| && at.offset < |rows[at.listNo]| then
      var row := rows[at.listNo][at.offset];
      Vector(at.listNo, row.payload, row.posting)
    else Vector(at.listNo, [], Posting([], EMPTY_METADATA))
  }

  /** The map the three stores represent together. */
  ghost function Contents(dir: Directory, rows: seq<seq<Row>>, nextId: nat): map<nat, Vector> {
    map id: nat | id < nextId && Live(dir, id) :: VectorAt(rows, dir(id).location)
  }

  /** Every row is in the map, and the map holds nothing else. */
  lemma ContentsAreRows(dir: Directory, rows: seq<seq<Row>>, nextId: nat)
    requires Agrees(dir, rows, nextId) && Addressable(rows, 0)
    ensures forall l, o :: 0 <= l < |rows| && 0 <= o < |rows[l]| ==>
      rows[l][o].id in Contents(dir, rows, nextId)
      && Contents(dir, rows, nextId)[rows[l][o].id] == Vector(l, rows[l][o].payload, rows[l][o].posting)
    ensures forall id :: id in Contents(dir, rows, nextId) ==> dir(id).Present? && RowAt(rows, dir(id).location, id)
  {
    forall l, o | 0 <= l < |rows| && 0 <= o < |rows[l]|
      ensures rows[l][o].id in Contents(dir, rows, nextId)
      ensures Contents(dir, rows, nextId)[rows[l][o].id] == Vector(l, rows[l][o].payload, rows[l][o].posting)
    {
      assert Located(dir, rows, nextId, l, o);
    }
    forall id | id in Contents(dir, rows, nextId) ensures dir(id).Present? && RowAt(rows, dir(id).location, id) {
      assert Grounded(dir, rows, nextId, id);
    }
  }

  // ---------------------------------------------------------------- sizes

  function RowTotal(rows: seq<seq<Row>>, lists: nat): nat {
    if lists == 0 || lists > |rows| then 0 else RowTotal(rows, lists - 1) + |rows[lists - 1]|
  }

  lemma {:induction false} SizeBelowTotal(rows: seq<seq<Row>>, lists: nat, l: nat)
    requires l < lists <= |rows|
    ensures |rows[l]| <= RowTotal(rows, lists)
  {
    if l < lists - 1 { SizeBelowTotal(rows, lists - 1, l); }
  }

  // ---------------------------------------------------------------- directory batches

  /** A batch whose pages leave no gap: updated IDs read their update, all others as before. */
  ghost predicate QuietWrite(dir: Directory, dir': Directory, updates: seq<D.Update>, id: nat) {
    if D.Latest(updates, id).Present? then dir'(id) == D.Latest(updates, id)
    else if dir(id).Present? then dir'(id) == dir(id)
    else dir'(id) == D.Absent || dir'(id) == D.Present(D.TOMBSTONE)
  }

  /** Known IDs keep their entry unless they are updated; IDs that become known are all updated. */
  lemma NoGapIsQuiet(pages: seq<D.DirectoryPage>, pages': seq<D.DirectoryPage>, perPage: nat, updates: seq<D.Update>,
                     known: nat, known': nat, id: nat)
    requires perPage > 0 && Uniform(pages, perPage) && D.NoGap(pages, perPage, updates)
    requires D.Reflects(pages', pages, perPage, updates) && known <= known'
    requires known <= id < known' ==> D.Latest(updates, id).Present?
    requires D.Latest(updates, id).Present? ==> id < known'
    ensures QuietWrite(View(pages, perPage, known), View(pages', perPage, known'), updates, id)
  {
    assert D.EntryAt(pages', perPage, id) == D.WrittenEntry(pages, perPage, updates, id);
    QuotientParts(id, perPage);
  }

  /** A batch of IDs below `first` and no page gap leaves what is vacant from `first` on vacant. */
  lemma StaysUnassigned(pages: seq<D.DirectoryPage>, pages': seq<D.DirectoryPage>, perPage: nat, updates: seq<D.Update>, first: nat)
    requires perPage > 0 && Uniform(pages, perPage) && D.NoGap(pages, perPage, updates)
    requires D.Reflects(pages', pages, perPage, updates) && Unassigned(pages, perPage, first)
    requires forall id: nat :: first <= id ==> D.Latest(updates, id).Absent?
    ensures Unassigned(pages', perPage, first)
  {
    forall id: nat | first <= id ensures Vacant(D.EntryAt(pages', perPage, id)) {
      assert D.EntryAt(pages', perPage, id) == D.WrittenEntry(pages, perPage, updates, id);
      assert Vacant(D.EntryAt(pages, perPage, id));
      QuotientParts(id, perPage);
    }
  }

  function Flatten(groups: seq<seq<D.Update>>): seq<D.Update> {
    if groups == [] then [] else Flatten(groups[..|groups| - 1]) + groups[|groups| - 1]
  }

  lemma FlattenStep(groups: seq<seq<D.Update>>, l: nat)
    requires l < |groups|
    ensures Flatten(groups[..l + 1]) == Flatten(groups[..l]) + groups[l]
  {
    assert groups[..l + 1][..l] == groups[..l];
  }

  lemma {:induction false} FlattenSkip(groups: seq<seq<D.Update>>, a: nat, b: nat)
    requires a <= b <= |groups| && forall l :: a <= l < b ==> groups[l] == []
    ensures Flatten(groups[..b]) == Flatten(groups[..a])
  {
    if a < b {
      FlattenStep(groups, b - 1);
      FlattenSkip(groups, a, b - 1);
    }
  }

  lemma {:induction false} FlattenMembers(groups: seq<seq<D.Update>>, u: D.Update)
    ensures u in Flatten(groups) <==> exists l :: 0 <= l < |groups| && u in groups[l]
  {
    if groups != [] {
      FlattenMembers(groups[..|groups| - 1], u);
      assert groups == groups[..|groups| - 1] + [groups[|groups| - 1]];
    }
  }

  ghost predicate KeysApart(a: seq<D.Update>, b: seq<D.Update>) {
    forall u, v :: u in a && v in b ==> u.0 != v.0
  }

  lemma ConcatDistinct(a: seq<D.Update>, b: seq<D.Update>)
    requires D.DistinctKeys(a) && D.DistinctKeys(b) && KeysApart(a, b)
    ensures D.DistinctKeys(a + b)
  {
    var c := a + b;
    forall i, j | 0 <= i < j < |c| ensures c[i].0 != c[j].0 {
      if i < |a| && |a| <= j { assert c[i] in a && c[j] in b; }
    }
  }

  lemma {:induction false} FlattenDistinct(groups: seq<seq<D.Update>>)
    requires forall l :: 0 <= l < |groups| ==> D.DistinctKeys(groups[l])
    requires forall l, m :: 0 <= l < m < |groups| ==> KeysApart(groups[l], groups[m])
    ensures D.DistinctKeys(Flatten(groups))
  {
    if groups != [] {
      var n := |groups| - 1;
      FlattenDistinct(groups[..n]);
      forall u, v | u in Flatten(groups[..n]) && v in groups[n] ensures u.0 != v.0 {
        FlattenMembers(groups[..n], u);
        var l :| 0 <= l < n && u in groups[..n][l];
        assert KeysApart(groups[l], groups[n]);
      }
      ConcatDistinct(Flatten(groups[..n]), groups[n]);
    }
  }

  lemma LatestMember(updates: seq<D.Update>, id: nat, at: D.DiskLocation)
    requires D.DistinctKeys(updates) && (id, at) in updates
    ensures D.Latest(updates, id) == D.Present(at)
  {
    var i :| 0 <= i < |updates| && updates[i] == (id, at);
    D.LatestOf(updates, i);
  }
}
