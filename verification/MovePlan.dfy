/** The swap-with-last plan of a deletion from one list: holes below the new size, sources above it. */
module MovePlan {
  import opened Sorting
  import opened RecordDeletion

  /** Distinct offsets of the list, in ascending order. */
  ghost predicate Deletable(deleted: seq<nat>, size: nat) {
    Ascending(deleted) && |deleted| <= size && forall i :: 0 <= i < |deleted| ==> deleted[i] < size
  }

  /** The deleted offsets below `bound`, ascending. */
  function HolesBelow(deleted: seq<nat>, bound: nat): seq<nat> {
    if deleted == [] then [] else
      HolesBelow(deleted[..|deleted| - 1], bound)
      + if deleted[|deleted| - 1] < bound then [deleted[|deleted| - 1]] else []
  }

  /** The surviving offsets from `bound` up to `size`, from the last one down. */
  function SourcesAbove(deleted: seq<nat>, bound: nat, size: nat): seq<nat>
    decreases size - bound
  {
    if size <= bound then [] else
      SourcesAbove(deleted, bound + 1, size) + if bound in deleted then [] else [bound]
  }

  lemma {:induction false} HolesMembers(deleted: seq<nat>, bound: nat)
    requires Ascending(deleted)
    ensures var h := HolesBelow(deleted, bound);
      Ascending(h) && forall x :: x in h <==> x in deleted && x < bound
  {
    if deleted != [] {
      var d, last := deleted[..|deleted| - 1], deleted[|deleted| - 1];
      HolesMembers(d, bound);
      assert deleted == d + [last];
      var h := HolesBelow(d, bound);
      forall i | 0 <= i < |h| ensures h[i] < last {
        assert h[i] in h;
        var j :| 0 <= j < |d| && d[j] == h[i];
        assert deleted[j] < deleted[|deleted| - 1];
      }
    }
  }

  lemma {:induction false} SourcesMembers(deleted: seq<nat>, bound: nat, size: nat)
    ensures var s := SourcesAbove(deleted, bound, size);
      && (forall x :: x in s <==> bound <= x < size && x !in deleted)
      && (forall i, j :: 0 <= i < j < |s| ==> s[j] < s[i])
    decreases size - bound
  {
    if bound < size {
      SourcesMembers(deleted, bound + 1, size);
      var s := SourcesAbove(deleted, bound + 1, size);
      forall i | 0 <= i < |s| ensures bound < s[i] { assert s[i] in s; }
    }
  }

  // ---------------------------------------------------------------- equal sizes

  function CountFrom(deleted: seq<nat>, bound: nat): nat {
    if deleted == [] then 0
    else CountFrom(deleted[..|deleted| - 1], bound) + if deleted[|deleted| - 1] >= bound then 1 else 0
  }

  lemma {:induction false} HolesCount(deleted: seq<nat>, bound: nat)
    ensures |HolesBelow(deleted, bound)| + CountFrom(deleted, bound) == |deleted|
  {
    if deleted != [] { HolesCount(deleted[..|deleted| - 1], bound); }
  }

  lemma {:induction false} CountFromNext(deleted: seq<nat>, bound: nat)
    requires Ascending(deleted)
    ensures CountFrom(deleted, bound) == CountFrom(deleted, bound + 1) + if bound in deleted then 1 else 0
  {
    if deleted != [] {
      var d, last := deleted[..|deleted| - 1], deleted[|deleted| - 1];
      assert deleted == d + [last];
      CountFromNext(d, bound);
      assert bound in d ==> bound < last by {
        if bound in d {
          var j :| 0 <= j < |d| && d[j] == bound;
          assert deleted[j] < deleted[|deleted| - 1];
        }
      }
    }
  }

  lemma {:induction false} CountFromEnd(deleted: seq<nat>, size: nat)
    requires forall i :: 0 <= i < |deleted| ==> deleted[i] < size
    ensures CountFrom(deleted, size) == 0
  {
    if deleted != [] { CountFromEnd(deleted[..|deleted| - 1], size); }
  }

  lemma {:induction false} SourcesCount(deleted: seq<nat>, bound: nat, size: nat)
    requires Ascending(deleted) && bound <= size && forall i :: 0 <= i < |deleted| ==> deleted[i] < size
    ensures |SourcesAbove(deleted, bound, size)| + CountFrom(deleted, bound) == size - bound
    decreases size - bound
  {
    if bound < size {
      SourcesCount(deleted, bound + 1, size);
      CountFromNext(deleted, bound);
    } else {
      CountFromEnd(deleted, size);
    }
  }

  /** There are as many holes to fill as survivors to move: the source's logic error cannot occur. */
  lemma HolesEqualSources(deleted: seq<nat>, size: nat)
    requires Deletable(deleted, size)
    ensures |HolesBelow(deleted, size - |deleted|)| == |SourcesAbove(deleted, size - |deleted|, size)|
  {
    HolesCount(deleted, size - |deleted|);
    SourcesCount(deleted, size - |deleted|, size);
  }

  // ---------------------------------------------------------------- the plan

  function Moves(holes: seq<nat>, sources: seq<nat>): (m: seq<RecordMove>)
    requires |holes| == |sources|
    ensures |m| == |holes|
  {
    seq(|holes|, i requires 0 <= i < |holes| && |holes| == |sources| => RecordMove(holes[i], sources[i]))
  }

  function PlanMoves(deleted: seq<nat>, size: nat): (m: seq<RecordMove>)
    requires Deletable(deleted, size)
    ensures |m| == |HolesBelow(deleted, size - |deleted|)| == |SourcesAbove(deleted, size - |deleted|, size)|
  {
    HolesEqualSources(deleted, size);
    Moves(HolesBelow(deleted, size - |deleted|), SourcesAbove(deleted, size - |deleted|, size))
  }

  /** Every move goes from a surviving offset above the new size to a deleted one below it. */
  lemma PlanEnds(deleted: seq<nat>, size: nat)
    requires Deletable(deleted, size)
    ensures ValidMoves(PlanMoves(deleted, size), size, size - |deleted|)
    ensures forall m :: m in PlanMoves(deleted, size) ==> m.destination in deleted && m.source !in deleted
  {
    var newSize, m := size - |deleted|, PlanMoves(deleted, size);
    var holes, sources := HolesBelow(deleted, newSize), SourcesAbove(deleted, newSize, size);
    HolesMembers(deleted, newSize);
    SourcesMembers(deleted, newSize, size);
    forall i | 0 <= i < |m|
      ensures m[i].destination in deleted && m[i].destination < newSize
      ensures m[i].source !in deleted && newSize <= m[i].source < size
    {
      assert m[i] == RecordMove(holes[i], sources[i]);
      assert holes[i] in holes && sources[i] in sources;
    }
  }

  /** No two moves share an end. */
  lemma PlanDistinct(deleted: seq<nat>, size: nat)
    requires Deletable(deleted, size)
    ensures DistinctDestinations(PlanMoves(deleted, size))
    ensures var m := PlanMoves(deleted, size); forall i, j :: 0 <= i < j < |m| ==> m[j].source < m[i].source
  {
    var m := PlanMoves(deleted, size);
    var holes, sources := HolesBelow(deleted, size - |deleted|), SourcesAbove(deleted, size - |deleted|, size);
    HolesMembers(deleted, size - |deleted|);
    SourcesMembers(deleted, size - |deleted|, size);
    forall i | 0 <= i < |m| ensures m[i] == RecordMove(holes[i], sources[i]) { }
  }

  /** Holes are filled from the first one on, with survivors from the last one down. */
  lemma PlanOrder(deleted: seq<nat>, size: nat)
    requires Deletable(deleted, size)
    ensures var m := PlanMoves(deleted, size);
      forall i, j :: 0 <= i < j < |m| ==> m[i].destination < m[j].destination && m[i].source > m[j].source
  {
    var m := PlanMoves(deleted, size);
    var holes, sources := HolesBelow(deleted, size - |deleted|), SourcesAbove(deleted, size - |deleted|, size);
    HolesMembers(deleted, size - |deleted|);
    SourcesMembers(deleted, size - |deleted|, size);
    forall i | 0 <= i < |m| ensures m[i] == RecordMove(holes[i], sources[i]) { }
  }

  /** Every hole is filled and every survivor above the new size is moved. */
  lemma PlanCovers(deleted: seq<nat>, size: nat, x: nat)
    requires Deletable(deleted, size)
    ensures var m := PlanMoves(deleted, size);
      && (x in deleted && x < size - |deleted| ==> exists i :: 0 <= i < |m| && m[i].destination == x)
      && (size - |deleted| <= x < size && x !in deleted ==> exists i :: 0 <= i < |m| && m[i].source == x)
  {
    var newSize, m := size - |deleted|, PlanMoves(deleted, size);
    var holes, sources := HolesBelow(deleted, newSize), SourcesAbove(deleted, newSize, size);
    HolesMembers(deleted, newSize);
    SourcesMembers(deleted, newSize, size);
    if x in deleted && x < newSize {
      var i :| 0 <= i < |holes| && holes[i] == x;
      assert m[i].destination == x;
    }
    if newSize <= x < size && x !in deleted {
      var i :| 0 <= i < |sources| && sources[i] == x;
      assert m[i].source == x;
    }
  }

  /** The two scans over the sorted deleted offsets; their lists always pair up. */
  method BuildMoves(deleted: seq<nat>, oldSize: nat) returns (moves: seq<RecordMove>)
    requires Deletable(deleted, oldSize)
    ensures moves == PlanMoves(deleted, oldSize)
  {
    var newSize := oldSize - |deleted|;
    var holes := CollectHoles(deleted, newSize);
    var sources := CollectSources(deleted, newSize, oldSize);
    HolesEqualSources(deleted, oldSize);
    moves := Moves(holes, sources);
  }

  method CollectHoles(deleted: seq<nat>, newSize: nat) returns (holes: seq<nat>)
    ensures holes == HolesBelow(deleted, newSize)
  {
    holes := [];
    for i := 0 to |deleted|
      invariant holes == HolesBelow(deleted[..i], newSize)
    {
      assert deleted[..i + 1][..i] == deleted[..i];
      if deleted[i] < newSize {
        holes := holes + [deleted[i]];
      }
    }
    assert deleted[..|deleted|] == deleted;
  }

  method CollectSources(deleted: seq<nat>, newSize: nat, oldSize: nat) returns (sources: seq<nat>)
    requires newSize <= oldSize
    ensures sources == SourcesAbove(deleted, newSize, oldSize)
  {
    sources := [];
    for offset := oldSize downto newSize
      invariant SourcesAbove(deleted, newSize, oldSize) == sources + SourcesAbove(deleted, newSize, offset)
    {
      SourcesLast(deleted, newSize, offset + 1);
      if offset !in deleted {
        sources := sources + [offset];
      }
    }
  }

  /** The last offset comes first. */
  lemma {:induction false} SourcesLast(deleted: seq<nat>, bound: nat, size: nat)
    requires bound < size
    ensures SourcesAbove(deleted, bound, size)
         == (if size - 1 in deleted then [] else [size - 1]) + SourcesAbove(deleted, bound, size - 1)
    decreases size - bound
  {
    if bound + 1 < size {
      SourcesLast(deleted, bound + 1, size);
    }
  }

  // ---------------------------------------------------------------- what remains

  /** A list with rows deleted: holes filled from the end, everything else in place. */
  function SwapDelete<T>(rows: seq<T>, deleted: seq<nat>): (r: seq<T>)
    requires Deletable(deleted, |rows|)
    ensures |r| == |rows| - |deleted|
  {
    PlanEnds(deleted, |rows|);
    MovedRows(rows, PlanMoves(deleted, |rows|), |rows| - |deleted|)
  }

  /** Where a surviving row ends up. */
  function NewOffset(moves: seq<RecordMove>, o: nat): nat {
    if moves == [] then o
    else if moves[|moves| - 1].source == o then moves[|moves| - 1].destination
    else NewOffset(moves[..|moves| - 1], o)
  }

  lemma {:induction false} NewOffsetOf(moves: seq<RecordMove>, o: nat)
    ensures (forall i :: 0 <= i < |moves| ==> moves[i].source != o) ==> NewOffset(moves, o) == o
    ensures (exists i :: 0 <= i < |moves| && moves[i].source == o) ==>
      exists i :: 0 <= i < |moves| && moves[i].source == o && NewOffset(moves, o) == moves[i].destination
  {
    if moves != [] {
      NewOffsetOf(moves[..|moves| - 1], o);
      if moves[|moves| - 1].source != o && exists i :: 0 <= i < |moves| && moves[i].source == o {
        var i :| 0 <= i < |moves| && moves[i].source == o;
        assert moves[..|moves| - 1][i].source == o;
        var j :| 0 <= j < |moves| - 1 && moves[..|moves| - 1][j].source == o
          && NewOffset(moves[..|moves| - 1], o) == moves[..|moves| - 1][j].destination;
        assert moves[j].source == o && NewOffset(moves, o) == moves[j].destination;
      }
    }
  }

  /** Every survivor is in the new list, at its old offset unless it lay above the new size. */
  lemma SurvivorKept<T>(rows: seq<T>, deleted: seq<nat>, o: nat)
    requires Deletable(deleted, |rows|)
    requires o < |rows| && o !in deleted
    ensures var (r, o') := (SwapDelete(rows, deleted), NewOffset(PlanMoves(deleted, |rows|), o));
      o' < |r| && r[o'] == rows[o] && (o < |r| ==> o' == o)
  {
    var moves := PlanMoves(deleted, |rows|);
    PlanEnds(deleted, |rows|);
    PlanDistinct(deleted, |rows|);
    PlanCovers(deleted, |rows|, o);
    NewOffsetOf(moves, o);
    var o' := NewOffset(moves, o);
    if o < |rows| - |deleted| {
      forall i | 0 <= i < |moves| ensures moves[i].source != o && moves[i].destination != o { assert moves[i] in moves; }
      MovedRowDistinct(rows, moves, o);
    } else {
      var j :| 0 <= j < |moves| && moves[j].source == o;
      var i :| 0 <= i < |moves| && moves[i].source == o && o' == moves[i].destination;
      MovedRowDistinct(rows, moves, o');
    }
  }

  /** Every row of the new list is a survivor. */
  lemma OnlySurvivors<T>(rows: seq<T>, deleted: seq<nat>, o': nat) returns (o: nat)
    requires Deletable(deleted, |rows|)
    requires o' < |rows| - |deleted|
    ensures o < |rows| && o !in deleted && SwapDelete(rows, deleted)[o'] == rows[o]
    ensures NewOffset(PlanMoves(deleted, |rows|), o) == o'
  {
    var moves := PlanMoves(deleted, |rows|);
    PlanEnds(deleted, |rows|);
    PlanDistinct(deleted, |rows|);
    PlanCovers(deleted, |rows|, o');
    MovedRowDistinct(rows, moves, o');
    if o' in deleted {
      var i :| 0 <= i < |moves| && moves[i].destination == o';
      o := moves[i].source;
      assert moves[i] in moves;
      NewOffsetOf(moves, o);
      var j :| 0 <= j < |moves| && moves[j].source == o && NewOffset(moves, o) == moves[j].destination;
      assert i == j;
    } else {
      o := o';
      NewOffsetOf(moves, o);
      forall i | 0 <= i < |moves| ensures moves[i].source != o && moves[i].destination != o { assert moves[i] in moves; }
    }
  }
}
