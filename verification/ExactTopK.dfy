/** The exact top-K heap of the refiner, and its independence from the order of insertion. */
module ExactTopK {
  import opened Sorting
  import opened Extended
  import opened Outcomes

  datatype Neighbor = Neighbor(id: nat, distance: real)

  predicate Nearer(a: Neighbor, b: Neighbor) {
    a.distance < b.distance || (a.distance == b.distance && a.id < b.id)
  }

  /** The K smallest (distance, Logical ID) pairs, nearest first. */
  function TopK(all: seq<Neighbor>, k: nat): seq<Neighbor> {
    Take(Sort(Nearer, all), k)
  }

  /**
   The k nearest of all pairs, nearest first and equal distances by ID: every pair left out has a larger distance
   than each pair in the answer, or the same distance and no smaller ID.
   */
  ghost predicate Nearest(answer: seq<Neighbor>, all: seq<Neighbor>, k: nat) {
    && |answer| == (if k < |all| then k else |all|)
    && multiset(answer) <= multiset(all)
    && (forall i, j :: 0 <= i < j < |answer| ==>
          answer[i].distance < answer[j].distance || (answer[i].distance == answer[j].distance && answer[i].id <= answer[j].id))
    && (forall n, i :: n in multiset(all) - multiset(answer) && 0 <= i < |answer| ==>
          answer[i].distance < n.distance || (answer[i].distance == n.distance && answer[i].id <= n.id))
  }

  /** `TopK` is the only such answer. */
  lemma TopKIsNearest(answer: seq<Neighbor>, all: seq<Neighbor>, k: nat)
    ensures Nearest(answer, all, k) <==> answer == TopK(all, k)
  {
    TopKNearest(all, k);
    if Nearest(answer, all, k) { NearestUnique(answer, all, k); }
  }

  lemma TopKNearest(all: seq<Neighbor>, k: nat)
    ensures Nearest(TopK(all, k), all, k)
  {
    NearerOrder();
    SortSorted(Nearer, all);
    SortMultiset(Nearer, all);
    HeadNearest(Sort(Nearer, all), all, k);
  }

  lemma HeadNearest(sorted: seq<Neighbor>, all: seq<Neighbor>, k: nat)
    requires Sorted(Nearer, sorted) && multiset(sorted) == multiset(all)
    ensures Nearest(Take(sorted, k), all, k)
  {
    var top := Take(sorted, k);
    var rest := sorted[|top|..];
    assert sorted == top + rest;
    assert |multiset(sorted)| == |multiset(all)|;
    forall n, i | n in multiset(all) - multiset(top) && 0 <= i < |top| ensures !Nearer(n, top[i]) {
      assert n in multiset(rest);
      var j :| 0 <= j < |rest| && rest[j] == n;
      assert sorted[|top| + j] == n && sorted[i] == top[i];
    }
  }

  /** A nearest answer followed by what it left out, sorted, is everything sorted. */
  lemma NearestUnique(answer: seq<Neighbor>, all: seq<Neighbor>, k: nat)
    requires Nearest(answer, all, k)
    ensures answer == TopK(all, k)
  {
    var tail := SortedRest(answer, all);
    forall i, n | 0 <= i < |answer| && n in tail ensures !Nearer(n, answer[i]) {
      assert n in multiset(tail);
    }
    JoinSorted(answer, tail);
    SortedIsSort(answer + tail, all);
  }

  lemma SortedIsSort(s: seq<Neighbor>, all: seq<Neighbor>)
    requires Sorted(Nearer, s) && multiset(s) == multiset(all)
    ensures s == Sort(Nearer, all)
  {
    NearerOrder();
    SortSorted(Nearer, all);
    SortMultiset(Nearer, all);
    SortedUnique(Nearer, s, Sort(Nearer, all));
  }

  /** What the answer leaves out, nearest first. */
  lemma SortedRest(answer: seq<Neighbor>, all: seq<Neighbor>) returns (tail: seq<Neighbor>)
    requires multiset(answer) <= multiset(all)
    ensures Sorted(Nearer, tail) && multiset(tail) == multiset(all) - multiset(answer)
    ensures multiset(answer + tail) == multiset(all) && |answer + tail| == |all|
  {
    var rest := Listed(multiset(all) - multiset(answer));
    tail := Sort(Nearer, rest);
    NearerOrder();
    SortSorted(Nearer, rest);
    SortMultiset(Nearer, rest);
    assert multiset(answer + tail) == multiset(answer) + multiset(tail);
    assert |multiset(answer + tail)| == |multiset(all)|;
  }

  lemma JoinSorted(a: seq<Neighbor>, b: seq<Neighbor>)
    requires Sorted(Nearer, b) && forall i, j :: 0 <= i < j < |a| ==> !Nearer(a[j], a[i])
    requires forall i, n :: 0 <= i < |a| && n in b ==> !Nearer(n, a[i])
    ensures Sorted(Nearer, a + b)
  {
    forall i, j | 0 <= i < j < |a + b| ensures !Nearer((a + b)[j], (a + b)[i]) {
      if i < |a| <= j { assert (a + b)[j] in b; }
    }
  }

  /** Some order of a multiset. */
  lemma Listed(m: multiset<Neighbor>) returns (s: seq<Neighbor>)
    ensures multiset(s) == m
  {
    if m == multiset{} {
      s := [];
    } else {
      var n :| n in m;
      s := Listed(m - multiset{n});
      s := s + [n];
    }
  }

  lemma NearerOrder()
    ensures StrictWeakOrder(Nearer) && Antisymmetric(Nearer)
  {
  }

  /** The heap, kept nearest first so that the worst pair is last: push, then pop the worst beyond K. */
  method InsertExact(heap: seq<Neighbor>, k: nat, id: nat, distance: Ext, ghost all: seq<Neighbor>)
    returns (r: Result<seq<Neighbor>>)
    requires heap == TopK(all, k)
    ensures r.Ok? <==> distance.Fin? && distance.r >= 0.0
    ensures r.Err? ==> r.error == RuntimeError
    ensures r.Ok? ==> r.value == TopK(all + [Neighbor(id, distance.r)], k) && Nearest(r.value, all + [Neighbor(id, distance.r)], k)
  {
    if !distance.Fin? || distance.r < 0.0 {
      return Err(RuntimeError);
    }
    var n := Neighbor(id, distance.r);
    TopKNearest(all + [n], k);
    var pushed := Insert(Nearer, n, heap);
    NearerOrder();
    PushPop(Sort(Nearer, all), n, k);
    assert (all + [n])[..|all + [n]| - 1] == all;
    if |pushed| > k {
      pushed := pushed[..|pushed| - 1];
    }
    return Ok(pushed);
  }

  /** Truncating before an insertion does not change what truncation after it keeps. */
  lemma {:induction false} PushPop(s: seq<Neighbor>, n: Neighbor, k: nat)
    ensures Take(Insert(Nearer, n, Take(s, k)), k) == Take(Insert(Nearer, n, s), k)
  {
    if s == [] || Nearer(n, s[0]) {
      assert Insert(Nearer, n, s) == [n] + s;
      if k > 0 && s != [] {
        assert Take(s, k)[0] == s[0];
        assert Insert(Nearer, n, Take(s, k)) == [n] + Take(s, k);
      }
    } else if k > 0 {
      PushPop(s[1..], n, k - 1);
      assert Take(s, k)[0] == s[0] && Take(s, k)[1..] == Take(s[1..], k - 1);
      assert Insert(Nearer, n, s) == [s[0]] + Insert(Nearer, n, s[1..]);
      assert Insert(Nearer, n, Take(s, k)) == [s[0]] + Insert(Nearer, n, Take(s[1..], k - 1));
      ConsTake(s[0], Insert(Nearer, n, s[1..]), k);
      ConsTake(s[0], Insert(Nearer, n, Take(s[1..], k - 1)), k);
    }
  }

  lemma ConsTake<T>(x: T, s: seq<T>, k: nat)
    requires k > 0
    ensures Take([x] + s, k) == [x] + Take(s, k - 1)
  {
  }

  /** Any order of the same insertions ends in the same result. */
  lemma OrderIrrelevant(a: seq<Neighbor>, b: seq<Neighbor>, k: nat)
    requires multiset(a) == multiset(b)
    ensures TopK(a, k) == TopK(b, k)
  {
    NearerOrder();
    SortSorted(Nearer, a);
    SortSorted(Nearer, b);
    SortMultiset(Nearer, a);
    SortMultiset(Nearer, b);
    SortedUnique(Nearer, Sort(Nearer, a), Sort(Nearer, b));
  }

  /** Dropping pairs outside the top K changes nothing. */
  lemma TopKOfPart(part: seq<Neighbor>, all: seq<Neighbor>, k: nat)
    requires Untied(Nearer, all) && Untied(Nearer, part)
    requires forall x :: x in part ==> x in all
    requires forall x :: x in TopK(all, k) ==> x in part
    ensures TopK(part, k) == TopK(all, k)
  {
    NearerOrder();
    var top, sorted := TopK(all, k), Sort(Nearer, part);
    SortStrict(Nearer, all);
    SortStrict(Nearer, part);
    TakeStrict(Nearer, Sort(Nearer, all), k);
    var others := Filter(NotIn(top), sorted);
    FilterStrict(NotIn(top), Nearer, sorted);
    forall x ensures x in sorted <==> x in part { SortMembers(Nearer, part, x); }
    forall x ensures x in Sort(Nearer, all) <==> x in all { SortMembers(Nearer, all, x); }
    forall x ensures x in others <==> x in part && x !in top { FilterMembers(NotIn(top), sorted, x); }
    JoinStrict(Nearer, top, others);
    StrictlySortedUnique(Nearer, top + others, sorted);
    if |top| < k {
      assert top == Sort(Nearer, all);
      NonemptyHasMember(others);
    }
  }

  function NotIn(s: seq<Neighbor>): Neighbor -> bool {
    (n: Neighbor) => n !in s
  }
}
