/** Grouping a batch by list: the counting sort of `group_by_list`. */
module BatchPlan {
  import opened Outcomes

  datatype ListBatchPlan = ListBatchPlan(offsets: seq<nat>, order: seq<nat>, touchedLists: seq<nat>)

  /** The inputs assigned to a list, in input order. */
  function Positions(assignments: seq<nat>, list: nat): (p: seq<nat>)
    ensures |p| <= |assignments|
  {
    if assignments == [] then [] else
      var n := |assignments| - 1;
      Positions(assignments[..n], list) + if assignments[n] == list then [n] else []
  }

  /** How many inputs go to lists before this one. */
  function Start(assignments: seq<nat>, list: nat): (n: nat)
    ensures n <= |assignments|
  {
    if assignments == [] then 0 else
      var n := |assignments| - 1;
      Start(assignments[..n], list) + if assignments[n] < list then 1 else 0
  }

  /** The list's inputs are contiguous and in input order. */
  ghost predicate ListGrouped(plan: ListBatchPlan, assignments: seq<nat>, list: nat) {
    var first, p := Start(assignments, list), Positions(assignments, list);
    && list + 1 < |plan.offsets|
    && plan.offsets[list] == first && plan.offsets[list + 1] == first + |p| <= |plan.order|
    && plan.order[first..first + |p|] == p
  }

  ghost predicate Grouped(plan: ListBatchPlan, assignments: seq<nat>, nlist: nat) {
    && |plan.offsets| == nlist + 1 && |plan.order| == |assignments|
    && plan.offsets[0] == 0 && plan.offsets[nlist] == |assignments|
    && forall l: nat :: l < nlist ==> ListGrouped(plan, assignments, l)
  }

  ghost predicate Touched(touched: seq<nat>, assignments: seq<nat>, nlist: nat) {
    && (forall i, j :: 0 <= i < j < |touched| ==> touched[i] < touched[j])
    && (forall l: nat :: l in touched <==> l < nlist && Positions(assignments, l) != [])
  }

  // ---------------------------------------------------------------- positions

  lemma {:induction false} PositionsMembers(assignments: seq<nat>, list: nat)
    ensures var p := Positions(assignments, list);
      && (forall i: nat :: i in p <==> i < |assignments| && assignments[i] == list)
      && (forall j, k :: 0 <= j < k < |p| ==> p[j] < p[k])
  {
    if assignments != [] {
      var n := |assignments| - 1;
      PositionsMembers(assignments[..n], list);
      var q := Positions(assignments[..n], list);
      forall j | 0 <= j < |q| ensures q[j] < n { assert q[j] in q; }
    }
  }

  lemma {:induction false} StartNext(assignments: seq<nat>, list: nat)
    ensures Start(assignments, list + 1) == Start(assignments, list) + |Positions(assignments, list)|
    ensures Start(assignments, 0) == 0
  {
    if assignments != [] {
      StartNext(assignments[..|assignments| - 1], list);
    }
  }

  lemma {:induction false} StartBefore(assignments: seq<nat>, a: nat, b: nat)
    requires a < b
    ensures Start(assignments, a) + |Positions(assignments, a)| <= Start(assignments, b)
  {
    if assignments != [] {
      StartBefore(assignments[..|assignments| - 1], a, b);
    }
  }

  lemma PositionsStep(assignments: seq<nat>, x: nat, list: nat)
    ensures Positions(assignments + [x], list)
         == if x == list then Positions(assignments, list) + [|assignments|] else Positions(assignments, list)
  {
    assert (assignments + [x])[..|assignments|] == assignments;
  }

  lemma {:induction false} StartTotal(assignments: seq<nat>, nlist: nat)
    requires forall i :: 0 <= i < |assignments| ==> assignments[i] < nlist
    ensures Start(assignments, nlist) == |assignments|
  {
    if assignments != [] {
      StartTotal(assignments[..|assignments| - 1], nlist);
    }
  }

  // ---------------------------------------------------------------- the three loops

  /** `counts[l + 1]` holds the size of list `l`. */
  ghost predicate Counts(counts: seq<nat>, assignments: seq<nat>, nlist: nat) {
    |counts| == nlist + 1 && counts[0] == 0 && forall l: nat :: l < nlist ==> CountOf(counts, assignments, l)
  }

  ghost predicate CountOf(counts: seq<nat>, assignments: seq<nat>, list: nat) {
    list + 1 < |counts| && counts[list + 1] == |Positions(assignments, list)|
  }

  method CountLists(assignments: seq<nat>, nlist: nat) returns (r: Result<seq<nat>>)
    ensures r.Ok? <==> forall i :: 0 <= i < |assignments| ==> assignments[i] < nlist
    ensures r.Err? ==> r.error == InvalidArgument
    ensures r.Ok? ==> Counts(r.value, assignments, nlist)
  {
    var counts: seq<nat> := seq(nlist + 1, _ => 0);
    for i := 0 to |assignments|
      invariant forall j :: 0 <= j < i ==> assignments[j] < nlist
      invariant Counts(counts, assignments[..i], nlist)
    {
      if assignments[i] >= nlist {
        return Err(InvalidArgument);
      }
      assert assignments[..i + 1] == assignments[..i] + [assignments[i]];
      var list := assignments[i];
      assert CountOf(counts, assignments[..i], list);
      ghost var before := counts;
      counts := counts[list + 1 := counts[list + 1] + 1];
      ghost var seen := assignments[..i + 1];
      forall l: nat | l < nlist ensures CountOf(counts, seen, l) {
        assert CountOf(before, assignments[..i], l);
        PositionsStep(assignments[..i], list, l);
      }
    }
    assert assignments[..|assignments|] == assignments;
    return Ok(counts);
  }

  method PrefixSums(counts: seq<nat>, ghost assignments: seq<nat>, nlist: nat)
    returns (offsets: seq<nat>, touched: seq<nat>)
    requires Counts(counts, assignments, nlist)
    ensures |offsets| == nlist + 1 && forall l :: 0 <= l <= nlist ==> offsets[l] == Start(assignments, l)
    ensures Touched(touched, assignments, nlist)
  {
    offsets, touched := counts, [];
    StartNext(assignments, 0);
    for l := 0 to nlist
      invariant Summed(offsets, counts, assignments, nlist, l)
      invariant Touched(touched, assignments, l)
    {
      SummedStep(offsets, counts, assignments, nlist, l);
      offsets := offsets[l + 1 := offsets[l] + offsets[l + 1]];
      if offsets[l] != offsets[l + 1] {
        TouchedStep(touched, assignments, l);
        touched := touched + [l];
      } else {
        UntouchedStep(touched, assignments, l);
      }
    }
  }

  /** Entries up to `l` are starts, later ones still counts. */
  ghost predicate Summed(offsets: seq<nat>, counts: seq<nat>, assignments: seq<nat>, nlist: nat, l: nat) {
    && |offsets| == nlist + 1 == |counts| && l <= nlist
    && (forall k :: 0 <= k <= l ==> offsets[k] == Start(assignments, k))
    && (forall k :: l < k <= nlist ==> offsets[k] == counts[k])
  }

  lemma SummedStep(offsets: seq<nat>, counts: seq<nat>, assignments: seq<nat>, nlist: nat, l: nat)
    requires Counts(counts, assignments, nlist) && Summed(offsets, counts, assignments, nlist, l) && l < nlist
    ensures Summed(offsets[l + 1 := offsets[l] + offsets[l + 1]], counts, assignments, nlist, l + 1)
    ensures offsets[l + 1] == |Positions(assignments, l)|
  {
    StartNext(assignments, l);
    assert CountOf(counts, assignments, l);
  }

  lemma UntouchedStep(touched: seq<nat>, assignments: seq<nat>, l: nat)
    requires Touched(touched, assignments, l) && Positions(assignments, l) == []
    ensures Touched(touched, assignments, l + 1)
  {
    forall k: nat ensures k in touched <==> k < l + 1 && Positions(assignments, k) != [] { }
  }

  lemma TouchedStep(touched: seq<nat>, assignments: seq<nat>, l: nat)
    requires Touched(touched, assignments, l) && Positions(assignments, l) != []
    ensures Touched(touched + [l], assignments, l + 1)
  {
    var next := touched + [l];
    forall i | 0 <= i < |touched| ensures touched[i] < l { assert touched[i] in touched; }
    forall k: nat ensures k in next <==> k < l + 1 && Positions(assignments, k) != [] {
      LastMember(touched, l, k);
    }
  }

  lemma LastMember(s: seq<nat>, x: nat, k: nat)
    ensures k in s + [x] <==> k in s || k == x
  {
  }

  /** The list's inputs among the first `n` are placed behind its start. */
  ghost predicate ListPlaced(order: seq<nat>, assignments: seq<nat>, list: nat, n: nat)
    requires n <= |assignments|
  {
    var first, p := Start(assignments, list), Positions(assignments[..n], list);
    first + |p| <= |order| && order[first..first + |p|] == p
  }

  /** What has been placed after the first `n` inputs. */
  ghost predicate Placed(order: seq<nat>, cursors: seq<nat>, assignments: seq<nat>, nlist: nat, n: nat)
    requires n <= |assignments|
  {
    && |order| == |assignments| && |cursors| == nlist + 1
    && (forall l: nat :: l < nlist ==> cursors[l] == Start(assignments, l) + |Positions(assignments[..n], l)|)
    && (forall l: nat :: l < nlist ==> ListPlaced(order, assignments, l, n))
  }

  lemma {:induction false} PositionsPrefix(assignments: seq<nat>, list: nat, n: nat)
    requires n <= |assignments|
    ensures |Positions(assignments[..n], list)| <= |Positions(assignments, list)|
    ensures n < |assignments| && assignments[n] == list ==>
      |Positions(assignments[..n], list)| < |Positions(assignments, list)|
    decreases |assignments| - n
  {
    if n < |assignments| {
      assert assignments[..n + 1] == assignments[..n] + [assignments[n]];
      PositionsStep(assignments[..n], assignments[n], list);
      PositionsPrefix(assignments, list, n + 1);
    } else {
      assert assignments[..n] == assignments;
    }
  }

  lemma PlaceStep(order: seq<nat>, cursors: seq<nat>, assignments: seq<nat>, nlist: nat, n: nat)
    requires n < |assignments| && Placed(order, cursors, assignments, nlist, n)
    requires forall i :: 0 <= i < |assignments| ==> assignments[i] < nlist
    ensures var a := assignments[n];
      && cursors[a] < |order|
      && Placed(order[cursors[a] := n], cursors[a := cursors[a] + 1], assignments, nlist, n + 1)
  {
    var a := assignments[n];
    assert assignments[..n + 1] == assignments[..n] + [a];
    PositionsPrefix(assignments, a, n);
    StartBefore(assignments, a, nlist);
    var at := cursors[a];
    forall l: nat | l < nlist
      ensures |Positions(assignments[..n + 1], l)| == |Positions(assignments[..n], l)| + if l == a then 1 else 0
      ensures ListPlaced(order[at := n], assignments, l, n + 1)
    {
      PositionsStep(assignments[..n], a, l);
      PlaceOne(order, assignments, l, n, at);
    }
  }

  lemma PlaceOne(order: seq<nat>, assignments: seq<nat>, list: nat, n: nat, at: nat)
    requires n < |assignments| && |order| == |assignments| && ListPlaced(order, assignments, list, n)
    requires at == Start(assignments, assignments[n]) + |Positions(assignments[..n], assignments[n])| < |order|
    ensures ListPlaced(order[at := n], assignments, list, n + 1)
  {
    NextPositions(assignments, list, n);
    var first, p := Start(assignments, list), Positions(assignments[..n], list);
    if list == assignments[n] {
      SliceExtended(order, first, p, n);
    } else {
      PlaceElsewhere(assignments, list, assignments[n], n, at);
      SliceUndisturbed(order, first, p, at, n);
    }
  }

  lemma NextPositions(assignments: seq<nat>, list: nat, n: nat)
    requires n < |assignments|
    ensures Positions(assignments[..n + 1], list)
         == if assignments[n] == list then Positions(assignments[..n], list) + [n] else Positions(assignments[..n], list)
  {
    assert assignments[..n + 1] == assignments[..n] + [assignments[n]];
    PositionsStep(assignments[..n], assignments[n], list);
  }

  /** The place of an input of one list is outside every other list's slice. */
  lemma PlaceElsewhere(assignments: seq<nat>, list: nat, a: nat, n: nat, at: nat)
    requires n < |assignments| && a == assignments[n] && list != a
    requires at == Start(assignments, a) + |Positions(assignments[..n], a)|
    ensures at < Start(assignments, list) || Start(assignments, list) + |Positions(assignments[..n], list)| <= at
  {
    PositionsPrefix(assignments, list, n);
    PositionsPrefix(assignments, a, n);
    if list < a {
      StartBefore(assignments, list, a);
    } else {
      StartBefore(assignments, a, list);
    }
  }

  lemma SliceExtended(order: seq<nat>, first: nat, p: seq<nat>, x: nat)
    requires first + |p| < |order| && order[first..first + |p|] == p
    ensures order[first + |p| := x][first..first + |p| + 1] == p + [x]
  {
    var next := order[first + |p| := x];
    assert next[first..first + |p| + 1] == order[first..first + |p|] + [x];
  }

  lemma SliceUndisturbed(order: seq<nat>, first: nat, p: seq<nat>, at: nat, x: nat)
    requires first + |p| <= |order| && order[first..first + |p|] == p
    requires at < |order| && (at < first || first + |p| <= at)
    ensures order[at := x][first..first + |p|] == p
  {
    assert order[at := x][first..first + |p|] == order[first..first + |p|];
  }

  method PlaceInputs(offsets: seq<nat>, assignments: seq<nat>, nlist: nat) returns (order: seq<nat>)
    requires forall i :: 0 <= i < |assignments| ==> assignments[i] < nlist
    requires |offsets| == nlist + 1 && forall l :: 0 <= l <= nlist ==> offsets[l] == Start(assignments, l)
    ensures |order| == |assignments|
    ensures forall l: nat :: l < nlist ==> ListPlaced(order, assignments, l, |assignments|)
  {
    var cursors := offsets;
    order := seq(|assignments|, _ => 0);
    for input := 0 to |assignments|
      invariant Placed(order, cursors, assignments, nlist, input)
    {
      PlaceStep(order, cursors, assignments, nlist, input);
      var a := assignments[input];
      order := order[cursors[a] := input];
      cursors := cursors[a := cursors[a] + 1];
    }
  }

  /** Every list's inputs end up contiguous and in input order; together they are all inputs. */
  method GroupByList(assignments: seq<nat>, nlist: nat) returns (r: Result<ListBatchPlan>)
    ensures r.Ok? <==> forall i :: 0 <= i < |assignments| ==> assignments[i] < nlist
    ensures r.Err? ==> r.error == InvalidArgument
    ensures r.Ok? ==> Grouped(r.value, assignments, nlist) && Touched(r.value.touchedLists, assignments, nlist)
  {
    var counts := CountLists(assignments, nlist);
    if counts.Err? {
      return Err(counts.error);
    }
    var offsets, touched := PrefixSums(counts.value, assignments, nlist);
    var order := PlaceInputs(offsets, assignments, nlist);
    StartTotal(assignments, nlist);
    StartNext(assignments, 0);
    var plan := ListBatchPlan(offsets, order, touched);
    forall l: nat | l < nlist ensures ListGrouped(plan, assignments, l) {
      StartNext(assignments, l);
      assert ListPlaced(order, assignments, l, |assignments|);
      assert assignments[..|assignments|] == assignments;
    }
    return Ok(plan);
  }

  /** Every input has one place in the order. */
  lemma PlaceOf(plan: ListBatchPlan, assignments: seq<nat>, nlist: nat, input: nat) returns (k: nat)
    requires Grouped(plan, assignments, nlist) && input < |assignments| && assignments[input] < nlist
    ensures k < |Positions(assignments, assignments[input])|
    ensures Positions(assignments, assignments[input])[k] == input
    ensures Start(assignments, assignments[input]) + k < |plan.order|
    ensures plan.order[Start(assignments, assignments[input]) + k] == input
  {
    var l := assignments[input];
    PositionsMembers(assignments, l);
    k :| 0 <= k < |Positions(assignments, l)| && Positions(assignments, l)[k] == input;
    PlacedAt(plan, assignments, l, k);
  }

  lemma PlacedAt(plan: ListBatchPlan, assignments: seq<nat>, list: nat, k: nat)
    requires ListGrouped(plan, assignments, list) && k < |Positions(assignments, list)|
    ensures Start(assignments, list) + k < |plan.order|
    ensures plan.order[Start(assignments, list) + k] == Positions(assignments, list)[k]
  {
    var first, p := Start(assignments, list), Positions(assignments, list);
    assert plan.order[first..first + |p|][k] == p[k];
  }
}
