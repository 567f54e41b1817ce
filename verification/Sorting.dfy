/** Sorting by a strict weak order: the meaning given here to `std::sort` and `std::nth_element`. */
module Sorting {

  ghost predicate StrictWeakOrder<T(!new)>(lt: (T, T) -> bool) {
    && (forall x :: !lt(x, x))
    && (forall x, y, z :: lt(x, y) && lt(y, z) ==> lt(x, z))
    && (forall x, y, z :: !lt(x, y) && !lt(y, z) ==> !lt(x, z))
  }

  /** No two distinct values are tied. */
  ghost predicate Antisymmetric<T(!new)>(lt: (T, T) -> bool) {
    forall x, y :: lt(x, y) || lt(y, x) || x == y
  }

  ghost predicate Sorted<T>(lt: (T, T) -> bool, s: seq<T>) {
    forall i, j :: 0 <= i < j < |s| ==> !lt(s[j], s[i])
  }

  ghost predicate StrictlySorted<T>(lt: (T, T) -> bool, s: seq<T>) {
    forall i, j :: 0 <= i < j < |s| ==> lt(s[i], s[j])
  }

  /** No two positions of `s` hold tied values. */
  ghost predicate Untied<T>(lt: (T, T) -> bool, s: seq<T>) {
    forall i, j :: 0 <= i < j < |s| ==> lt(s[i], s[j]) || lt(s[j], s[i])
  }

  ghost predicate Distinct<T>(s: seq<T>) {
    forall i, j :: 0 <= i < j < |s| ==> s[i] != s[j]
  }

  ghost predicate Ascending(s: seq<nat>) {
    forall i, j :: 0 <= i < j < |s| ==> s[i] < s[j]
  }

  function Insert<T>(lt: (T, T) -> bool, x: T, s: seq<T>): (r: seq<T>)
    ensures |r| == |s| + 1
  {
    if s == [] || lt(x, s[0]) then [x] + s else [s[0]] + Insert(lt, x, s[1..])
  }

  function Sort<T>(lt: (T, T) -> bool, s: seq<T>): (r: seq<T>)
    ensures |r| == |s|
  {
    if s == [] then [] else Insert(lt, s[|s| - 1], Sort(lt, s[..|s| - 1]))
  }

  function Take<T>(s: seq<T>, n: nat): (r: seq<T>)
    ensures |r| == if n < |s| then n else |s|
  {
    if n < |s| then s[..n] else s
  }

  function Filter<T>(p: T -> bool, s: seq<T>): (r: seq<T>)
    ensures |r| <= |s|
  {
    if s == [] then [] else
      Filter(p, s[..|s| - 1]) + (if p(s[|s| - 1]) then [s[|s| - 1]] else [])
  }

  function Count<T>(p: T -> bool, s: seq<T>): (n: nat)
    ensures n <= |s|
  {
    if s == [] then 0 else Count(p, s[..|s| - 1]) + (if p(s[|s| - 1]) then 1 else 0)
  }

  function Below<T>(lt: (T, T) -> bool, t: T): T -> bool {
    x => lt(x, t)
  }

  function AtMost<T>(lt: (T, T) -> bool, t: T): T -> bool {
    x => !lt(t, x)
  }

  function Tied<T>(lt: (T, T) -> bool, t: T): T -> bool {
    x => !lt(x, t) && !lt(t, x)
  }

  // ---------------------------------------------------------------- sorting

  lemma {:induction false} InsertMultiset<T>(lt: (T, T) -> bool, x: T, s: seq<T>)
    ensures multiset(Insert(lt, x, s)) == multiset(s) + multiset{x}
  {
    if s == [] || lt(x, s[0]) {
    } else {
      assert s == [s[0]] + s[1..];
      InsertMultiset(lt, x, s[1..]);
    }
  }

  lemma {:induction false} InsertSorted<T(!new)>(lt: (T, T) -> bool, x: T, s: seq<T>)
    requires StrictWeakOrder(lt) && Sorted(lt, s)
    ensures Sorted(lt, Insert(lt, x, s))
  {
    if s == [] {
    } else if lt(x, s[0]) {
      var r := [x] + s;
      forall i, j | 0 <= i < j < |r| ensures !lt(r[j], r[i]) {
        if i == 0 && j > 1 { assert !lt(s[j - 1], s[0]); }
      }
    } else {
      var t := Insert(lt, x, s[1..]);
      InsertSorted(lt, x, s[1..]);
      InsertMultiset(lt, x, s[1..]);
      forall j | 0 <= j < |t| ensures !lt(t[j], s[0]) {
        assert t[j] in multiset(t);
        assert t[j] == x || t[j] in s[1..];
      }
    }
  }

  lemma {:induction false} SortMultiset<T>(lt: (T, T) -> bool, s: seq<T>)
    ensures multiset(Sort(lt, s)) == multiset(s)
  {
    if s == [] {
    } else {
      SortMultiset(lt, s[..|s| - 1]);
      InsertMultiset(lt, s[|s| - 1], Sort(lt, s[..|s| - 1]));
      assert s == s[..|s| - 1] + [s[|s| - 1]];
    }
  }

  lemma {:induction false} SortSorted<T(!new)>(lt: (T, T) -> bool, s: seq<T>)
    requires StrictWeakOrder(lt)
    ensures Sorted(lt, Sort(lt, s))
  {
    if s == [] {
    } else {
      SortSorted(lt, s[..|s| - 1]);
      InsertSorted(lt, s[|s| - 1], Sort(lt, s[..|s| - 1]));
    }
  }

  lemma SortMembers<T>(lt: (T, T) -> bool, s: seq<T>, x: T)
    ensures x in Sort(lt, s) <==> x in s
  {
    SortMultiset(lt, s);
    assert x in multiset(s) <==> x in s;
    assert x in multiset(Sort(lt, s)) <==> x in Sort(lt, s);
  }

  /** Sorting a tie-free sequence is strict. */
  lemma {:induction false} SortStrict<T(!new)>(lt: (T, T) -> bool, s: seq<T>)
    requires StrictWeakOrder(lt) && Untied(lt, s)
    ensures StrictlySorted(lt, Sort(lt, s))
  {
    if s == [] {
    } else {
      var x, t := s[|s| - 1], s[..|s| - 1];
      SortStrict(lt, t);
      forall y | y in Sort(lt, t) ensures lt(x, y) || lt(y, x) {
        SortMembers(lt, t, y);
        var i :| 0 <= i < |t| && t[i] == y;
        assert lt(s[i], s[|s| - 1]) || lt(s[|s| - 1], s[i]);
      }
      InsertStrict(lt, x, Sort(lt, t));
    }
  }

  lemma {:induction false} InsertStrict<T(!new)>(lt: (T, T) -> bool, x: T, s: seq<T>)
    requires StrictWeakOrder(lt) && StrictlySorted(lt, s)
    requires forall y :: y in s ==> lt(x, y) || lt(y, x)
    ensures StrictlySorted(lt, Insert(lt, x, s))
  {
    if s == [] {
    } else if lt(x, s[0]) {
    } else {
      var t := Insert(lt, x, s[1..]);
      InsertStrict(lt, x, s[1..]);
      InsertMultiset(lt, x, s[1..]);
      forall j | 0 <= j < |t| ensures lt(s[0], t[j]) {
        assert t[j] in multiset(t);
        assert t[j] == x || t[j] in s[1..];
      }
    }
  }

  lemma NonemptyHasMember<T>(s: seq<T>)
    ensures s == [] || exists x :: x in s
  {
    if s != [] { assert s[0] in s; }
  }

  /** A strictly sorted sequence is determined by the set of its members. */
  lemma {:induction false} StrictlySortedUnique<T(!new)>(lt: (T, T) -> bool, a: seq<T>, b: seq<T>)
    requires StrictWeakOrder(lt)
    requires StrictlySorted(lt, a) && StrictlySorted(lt, b)
    requires forall x :: x in a <==> x in b
    ensures a == b
  {
    if a == [] {
      NonemptyHasMember(b);
    } else {
      assert a[0] in b && b[0] in b;
      assert b[0] in a;
      var i :| 0 <= i < |b| && b[i] == a[0];
      var j :| 0 <= j < |a| && a[j] == b[0];
      assert i == 0;
      assert a == [a[0]] + a[1..] && b == [b[0]] + b[1..];
      forall x ensures x in a[1..] <==> x in b[1..] {
        if x in a[1..] {
          var k :| 0 <= k < |a[1..]| && a[1..][k] == x;
          assert lt(a[0], a[k + 1]);
          assert x in b && x != b[0];
        }
        if x in b[1..] {
          var k :| 0 <= k < |b[1..]| && b[1..][k] == x;
          assert lt(b[0], b[k + 1]);
          assert x in a && x != a[0];
        }
      }
      StrictlySortedUnique(lt, a[1..], b[1..]);
    }
  }

  lemma HeadMultiset<T>(s: seq<T>)
    requires s != []
    ensures s == [s[0]] + s[1..]
    ensures multiset(s[1..]) == multiset(s) - multiset{s[0]}
  {
    assert s == [s[0]] + s[1..];
  }

  lemma JoinStrict<T>(lt: (T, T) -> bool, a: seq<T>, b: seq<T>)
    requires StrictlySorted(lt, a) && StrictlySorted(lt, b)
    requires forall x, y :: x in a && y in b ==> lt(x, y)
    ensures StrictlySorted(lt, a + b)
  {
    forall i, j | 0 <= i < j < |a + b| ensures lt((a + b)[i], (a + b)[j]) {
      if i < |a| <= j {
        assert a[i] in a && b[j - |a|] in b;
      }
    }
  }

  /** Cutting a strictly sorted sequence separates its members. */
  lemma TakeStrict<T>(lt: (T, T) -> bool, s: seq<T>, k: nat)
    requires StrictlySorted(lt, s)
    ensures StrictlySorted(lt, Take(s, k))
    ensures forall x, y :: x in Take(s, k) && y in s && y !in Take(s, k) ==> lt(x, y)
  {
    var top := Take(s, k);
    forall m | 0 <= m < |top| ensures s[m] in top { assert top[m] == s[m]; }
    forall x, y | x in top && y in s && y !in top ensures lt(x, y) {
      var i :| 0 <= i < |top| && top[i] == x;
      var j :| 0 <= j < |s| && s[j] == y;
      assert s[i] == x;
    }
  }

  /** Under an antisymmetric order a sorted sequence is determined by its multiset. */
  lemma FirstIsLeast<T(!new)>(lt: (T, T) -> bool, s: seq<T>, x: T)
    requires StrictWeakOrder(lt) && Sorted(lt, s) && s != [] && x in s
    ensures !lt(x, s[0])
  {
    var i :| 0 <= i < |s| && s[i] == x;
  }

  lemma {:induction false} SortedUnique<T(!new)>(lt: (T, T) -> bool, a: seq<T>, b: seq<T>)
    requires StrictWeakOrder(lt) && Antisymmetric(lt)
    requires Sorted(lt, a) && Sorted(lt, b) && multiset(a) == multiset(b)
    ensures a == b
  {
    if a == [] {
      assert |multiset(b)| == 0;
    } else {
      assert |multiset(a)| == |multiset(b)|;
      assert a[0] in multiset(b) && b[0] in multiset(a);
      FirstIsLeast(lt, a, b[0]);
      FirstIsLeast(lt, b, a[0]);
      assert a[0] == b[0];
      HeadMultiset(a);
      HeadMultiset(b);
      SortedUnique(lt, a[1..], b[1..]);
    }
  }

  // ---------------------------------------------------------------- counting and filtering

  lemma CountOne<T>(p: T -> bool, x: T)
    ensures Count(p, [x]) == if p(x) then 1 else 0
  {
    assert [x][..0] == [];
  }

  lemma {:induction false} CountConcat<T>(p: T -> bool, a: seq<T>, b: seq<T>)
    ensures Count(p, a + b) == Count(p, a) + Count(p, b)
  {
    if b == [] {
      assert a + b == a;
    } else {
      assert (a + b)[..|a + b| - 1] == a + b[..|b| - 1];
      CountConcat(p, a, b[..|b| - 1]);
    }
  }

  lemma {:induction false} CountMultiset<T>(p: T -> bool, a: seq<T>, b: seq<T>)
    requires multiset(a) == multiset(b)
    ensures Count(p, a) == Count(p, b)
  {
    if a == [] {
      assert |multiset(b)| == 0;
    } else {
      assert |multiset(a)| == |multiset(b)|;
      var x := a[|a| - 1];
      assert a == a[..|a| - 1] + [x];
      assert x in multiset(b);
      var i :| 0 <= i < |b| && b[i] == x;
      assert b == b[..i] + [x] + b[i + 1..];
      var c := b[..i] + b[i + 1..];
      assert multiset(c) == multiset(b) - multiset{x} == multiset(a[..|a| - 1]);
      CountMultiset(p, a[..|a| - 1], c);
      CountConcat(p, b[..i], b[i + 1..]);
      CountConcat(p, b[..i] + [x], b[i + 1..]);
      CountConcat(p, b[..i], [x]);
      CountOne(p, x);
    }
  }

  /** A count is the number of positions. */
  lemma {:induction false} CountIsSize<T>(p: T -> bool, s: seq<T>, positions: set<int>)
    requires forall i :: i in positions <==> 0 <= i < |s| && p(s[i])
    ensures Count(p, s) == |positions|
  {
    if s == [] {
      forall i ensures i !in positions {
      }
    } else {
      var n := |s| - 1;
      CountIsSize(p, s[..n], positions - {n});
      if p(s[n]) {
        assert n in positions && positions == positions - {n} + {n};
      } else {
        assert n !in positions && positions == positions - {n};
      }
    }
  }

  lemma {:induction false} CountMonotone<T>(p: T -> bool, q: T -> bool, s: seq<T>)
    requires forall x :: x in s && p(x) ==> q(x)
    ensures Count(p, s) <= Count(q, s)
  {
    if s != [] {
      CountMonotone(p, q, s[..|s| - 1]);
    }
  }

  lemma {:induction false} CountAll<T>(p: T -> bool, s: seq<T>)
    requires forall x :: x in s ==> p(x)
    ensures Count(p, s) == |s|
  {
    if s != [] {
      CountAll(p, s[..|s| - 1]);
    }
  }

  lemma {:induction false} CountNone<T>(p: T -> bool, s: seq<T>)
    requires forall x :: x in s ==> !p(x)
    ensures Count(p, s) == 0
  {
    if s != [] {
      CountNone(p, s[..|s| - 1]);
    }
  }

  lemma {:induction false} CountSplit<T>(p: T -> bool, q: T -> bool, r: T -> bool, s: seq<T>)
    requires forall x :: x in s ==> (r(x) <==> p(x) || q(x)) && !(p(x) && q(x))
    ensures Count(r, s) == Count(p, s) + Count(q, s)
  {
    if s != [] {
      CountSplit(p, q, r, s[..|s| - 1]);
    }
  }

  lemma {:induction false} FilterLength<T>(p: T -> bool, s: seq<T>)
    ensures |Filter(p, s)| == Count(p, s)
  {
    if s != [] {
      FilterLength(p, s[..|s| - 1]);
    }
  }

  lemma {:induction false} FilterConcat<T>(p: T -> bool, a: seq<T>, b: seq<T>)
    ensures Filter(p, a + b) == Filter(p, a) + Filter(p, b)
  {
    if b == [] {
      assert a + b == a;
    } else {
      assert (a + b)[..|a + b| - 1] == a + b[..|b| - 1];
      FilterConcat(p, a, b[..|b| - 1]);
    }
  }

  lemma {:induction false} FilterMembers<T>(p: T -> bool, s: seq<T>, x: T)
    ensures x in Filter(p, s) <==> x in s && p(x)
  {
    if s != [] {
      FilterMembers(p, s[..|s| - 1], x);
      assert s == s[..|s| - 1] + [s[|s| - 1]];
    }
  }

  /** Filtering keeps the relative order, so pairwise facts survive it. */
  lemma {:induction false} FilterPairwise<T>(p: T -> bool, rel: (T, T) -> bool, s: seq<T>)
    requires forall i, j :: 0 <= i < j < |s| ==> rel(s[i], s[j])
    ensures var f := Filter(p, s); forall i, j :: 0 <= i < j < |f| ==> rel(f[i], f[j])
  {
    if s != [] {
      var t, x := s[..|s| - 1], s[|s| - 1];
      FilterPairwise(p, rel, t);
      forall i | 0 <= i < |Filter(p, t)| ensures rel(Filter(p, t)[i], x) {
        FilterMembers(p, t, Filter(p, t)[i]);
        var k :| 0 <= k < |t| && t[k] == Filter(p, t)[i];
        assert rel(s[k], s[|s| - 1]);
      }
    }
  }

  lemma FilterStrict<T>(p: T -> bool, lt: (T, T) -> bool, s: seq<T>)
    requires StrictlySorted(lt, s)
    ensures StrictlySorted(lt, Filter(p, s))
  {
    FilterPairwise(p, lt, s);
  }

  // ---------------------------------------------------------------- order statistics

  /** How the values of a sorted sequence fall around its k-th member. */
  lemma SortedCounts<T(!new)>(lt: (T, T) -> bool, o: seq<T>, k: nat)
    requires StrictWeakOrder(lt) && Sorted(lt, o) && k < |o|
    ensures Count(Below(lt, o[k]), o) <= k < Count(AtMost(lt, o[k]), o)
    ensures StrictlySorted(lt, o) ==> Count(AtMost(lt, o[k]), o) == k + 1
  {
    var t := o[k];
    assert o == o[..k] + o[k..];
    CountConcat(Below(lt, t), o[..k], o[k..]);
    CountNone(Below(lt, t), o[k..]);
    assert o == o[..k + 1] + o[k + 1..];
    CountConcat(AtMost(lt, t), o[..k + 1], o[k + 1..]);
    CountAll(AtMost(lt, t), o[..k + 1]);
    if StrictlySorted(lt, o) {
      CountNone(AtMost(lt, t), o[k + 1..]);
    }
  }

  /** The k-th smallest value of `s` has at most k values below it and more than k at or below it. */
  lemma NthCounts<T(!new)>(lt: (T, T) -> bool, s: seq<T>, k: nat)
    requires StrictWeakOrder(lt) && k < |s|
    ensures var t := Sort(lt, s)[k];
      t in s && Count(Below(lt, t), s) <= k < Count(AtMost(lt, t), s)
    ensures Untied(lt, s) ==> Count(AtMost(lt, Sort(lt, s)[k]), s) == k + 1
  {
    var o := Sort(lt, s);
    SortSorted(lt, s);
    SortMultiset(lt, s);
    SortMembers(lt, s, o[k]);
    CountMultiset(Below(lt, o[k]), s, o);
    CountMultiset(AtMost(lt, o[k]), s, o);
    SortedCounts(lt, o, k);
    if Untied(lt, s) { SortStrict(lt, s); }
  }

  /** In a sorted sequence the members satisfying a downward-closed property come first. */
  lemma DownwardFirst<T(!new)>(lt: (T, T) -> bool, p: T -> bool, s: seq<T>, i: nat)
    requires StrictlySorted(lt, s)
    requires forall x, y :: x in s && y in s && lt(x, y) && p(y) ==> p(x)
    requires i < Count(p, s)
    ensures p(s[i])
  {
    if !p(s[i]) {
      assert s == s[..i] + s[i..];
      CountConcat(p, s[..i], s[i..]);
      forall x | x in s[i..] ensures !p(x) {
        var j :| 0 <= j < |s[i..]| && s[i..][j] == x;
        assert s[i + j] == x;
        assert j > 0 ==> lt(s[i], s[i + j]);
      }
      CountNone(p, s[i..]);
      assert false;
    }
  }

  lemma TakeMembers<T>(s: seq<T>, r: nat, x: T)
    ensures x in Take(s, r) ==> x in s
  {
  }

  /** As many members are below the k-th of a strictly sorted sequence as come before it. */
  lemma StrictRank<T>(lt: (T, T) -> bool, o: seq<T>, k: nat)
    requires StrictlySorted(lt, o) && k < |o| && forall i :: k <= i < |o| ==> !lt(o[i], o[k])
    ensures Count(Below(lt, o[k]), o) == k
  {
    var a, b, below := o[..k], o[k..], Below(lt, o[k]);
    assert o == a + b;
    CountConcat(below, a, b);
    CountAll(below, a);
    forall x | x in b ensures !below(x) {
      var i :| 0 <= i < |b| && b[i] == x;
      assert o[k + i] == x;
    }
    CountNone(below, b);
  }

  lemma TakeIndex<T>(lt: (T, T) -> bool, o: seq<T>, k: nat, r: nat)
    requires StrictlySorted(lt, o) && k < |o| && !lt(o[k], o[k])
    ensures o[k] in Take(o, r) <==> k < r
  {
    var top := Take(o, r);
    if k < r {
      assert top[k] == o[k];
    } else {
      forall j | 0 <= j < |top| ensures top[j] != o[k] { assert lt(o[j], o[k]); }
    }
  }

  /** A member is among the first r in sorted order exactly if fewer than r members are below it. */
  lemma RankCount<T(!new)>(lt: (T, T) -> bool, s: seq<T>, x: T, r: nat)
    requires StrictWeakOrder(lt) && Untied(lt, s) && x in s
    ensures x in Take(Sort(lt, s), r) <==> Count(Below(lt, x), s) < r
  {
    var o := Sort(lt, s);
    SortStrict(lt, s);
    SortMultiset(lt, s);
    SortMembers(lt, s, x);
    CountMultiset(Below(lt, x), s, o);
    var k :| 0 <= k < |o| && o[k] == x;
    StrictRank(lt, o, k);
    TakeIndex(lt, o, k, r);
  }

  /** Pushing one value into a sorted prefix: the K-element max-heap step on sorted sequences. */
  lemma {:induction false} TakeInsert<T(!new)>(lt: (T, T) -> bool, x: T, s: seq<T>, k: nat)
    requires StrictWeakOrder(lt) && Sorted(lt, s) && 0 < k <= |s|
    ensures lt(x, s[k - 1]) ==> Take(Insert(lt, x, s), k) == Insert(lt, x, s[..k - 1])
    ensures !lt(x, s[k - 1]) ==> Take(Insert(lt, x, s), k) == s[..k]
  {
    if lt(x, s[0]) {
      if k > 1 { assert !lt(s[k - 1], s[0]); }
      assert Insert(lt, x, s) == [x] + s;
      if k > 1 {
        assert s[..k - 1][0] == s[0];
      }
    } else if k > 1 {
      TakeInsert(lt, x, s[1..], k - 1);
      assert s[1..][k - 2] == s[k - 1];
      assert s[1..][..k - 2] == s[1..k - 1] == s[..k - 1][1..];
      assert s[..k] == [s[0]] + s[1..][..k - 1];
      assert Insert(lt, x, s) == [s[0]] + Insert(lt, x, s[1..]);
      assert Take(Insert(lt, x, s), k) == [s[0]] + Take(Insert(lt, x, s[1..]), k - 1);
      if lt(x, s[k - 1]) {
        assert s[..k - 1][0] == s[0];
      }
    }
  }
}
