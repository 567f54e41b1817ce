/** Mapping a sequence element by element to pieces: reordering the elements only reorders the result. */
module Permutations {

  function FlatMap<T, U>(f: T -> seq<U>, s: seq<T>): seq<U> {
    if s == [] then [] else FlatMap(f, s[..|s| - 1]) + f(s[|s| - 1])
  }

  lemma {:induction false} InFlatMap<T, U>(f: T -> seq<U>, s: seq<T>, x: T, y: U)
    requires x in s && y in f(x)
    ensures y in FlatMap(f, s)
  {
    if x != s[|s| - 1] {
      assert s == s[..|s| - 1] + [s[|s| - 1]];
      InFlatMap(f, s[..|s| - 1], x, y);
    }
  }

  lemma {:induction false} FlatMapConcat<T, U>(f: T -> seq<U>, a: seq<T>, b: seq<T>)
    ensures FlatMap(f, a + b) == FlatMap(f, a) + FlatMap(f, b)
  {
    if b == [] {
      assert a + b == a;
    } else {
      assert (a + b)[..|a + b| - 1] == a + b[..|b| - 1];
      FlatMapConcat(f, a, b[..|b| - 1]);
    }
  }

  lemma FlatMapNext<T, U>(f: T -> seq<U>, s: seq<T>, i: nat)
    requires i < |s|
    ensures FlatMap(f, s[..i + 1]) == FlatMap(f, s[..i]) + f(s[i])
  {
    assert s[..i + 1][..i] == s[..i];
  }

  lemma FlatMapOne<T, U>(f: T -> seq<U>, x: T)
    ensures FlatMap(f, [x]) == f(x)
  {
    assert [x][..0] == [];
  }

  lemma SplitAt<T>(s: seq<T>, j: nat)
    requires j < |s|
    ensures s == s[..j] + [s[j]] + s[j + 1..]
    ensures multiset(s[..j] + s[j + 1..]) == multiset(s) - multiset{s[j]}
  {
    assert s == s[..j] + [s[j]] + s[j + 1..];
    assert multiset(s) == multiset(s[..j]) + multiset{s[j]} + multiset(s[j + 1..]);
  }

  lemma FlatMapRemoved<T, U>(f: T -> seq<U>, s: seq<T>, j: nat)
    requires j < |s|
    ensures multiset(s[..j] + s[j + 1..]) == multiset(s) - multiset{s[j]}
    ensures multiset(FlatMap(f, s)) == multiset(FlatMap(f, s[..j] + s[j + 1..])) + multiset(f(s[j]))
  {
    SplitAt(s, j);
    var a, b := s[..j], s[j + 1..];
    FlatMapConcat(f, a + [s[j]], b);
    FlatMapConcat(f, a, [s[j]]);
    FlatMapOne(f, s[j]);
    FlatMapConcat(f, a, b);
  }

  lemma FlatMapUpdated<T, U>(f: T -> seq<U>, s: seq<T>, j: nat, x: T)
    requires j < |s|
    ensures multiset(FlatMap(f, s[j := x])) + multiset(f(s[j])) == multiset(FlatMap(f, s)) + multiset(f(x))
    ensures |FlatMap(f, s[j := x])| + |f(s[j])| == |FlatMap(f, s)| + |f(x)|
  {
    var t := s[j := x];
    assert t[..j] + t[j + 1..] == s[..j] + s[j + 1..];
    FlatMapRemoved(f, s, j);
    FlatMapRemoved(f, t, j);
    var rest := FlatMap(f, s[..j] + s[j + 1..]);
    assert |multiset(FlatMap(f, s))| == |multiset(rest)| + |multiset(f(s[j]))|;
    assert |multiset(FlatMap(f, t))| == |multiset(rest)| + |multiset(f(x))|;
  }

  lemma MemberIndex<T>(s: seq<T>, x: T) returns (j: nat)
    requires x in multiset(s)
    ensures j < |s| && s[j] == x
  {
    assert x in s;
    j :| 0 <= j < |s| && s[j] == x;
  }

  lemma EmptyMultiset<T>(s: seq<T>)
    requires multiset(s) == multiset{}
    ensures s == []
  {
    assert |multiset(s)| == 0;
  }

  lemma {:induction false} FlatMapPermuted<T, U>(f: T -> seq<U>, a: seq<T>, b: seq<T>)
    requires multiset(a) == multiset(b)
    ensures multiset(FlatMap(f, a)) == multiset(FlatMap(f, b))
  {
    if a == [] {
      EmptyMultiset(b);
    } else {
      var x := a[|a| - 1];
      assert x in multiset(a);
      var j := MemberIndex(b, x);
      FlatMapRemoved(f, a, |a| - 1);
      FlatMapRemoved(f, b, j);
      assert a[..|a| - 1] + a[|a|..] == a[..|a| - 1];
      FlatMapPermuted(f, a[..|a| - 1], b[..j] + b[j + 1..]);
    }
  }

  // ---------------------------------------------------------------- sums

  function Sum<T>(f: T -> real, s: seq<T>): real {
    if s == [] then 0.0 else Sum(f, s[..|s| - 1]) + f(s[|s| - 1])
  }

  lemma {:induction false} SumConcat<T>(f: T -> real, a: seq<T>, b: seq<T>)
    ensures Sum(f, a + b) == Sum(f, a) + Sum(f, b)
  {
    if b == [] {
      assert a + b == a;
    } else {
      assert (a + b)[..|a + b| - 1] == a + b[..|b| - 1];
      SumConcat(f, a, b[..|b| - 1]);
    }
  }

  lemma SumOne<T>(f: T -> real, x: T)
    ensures Sum(f, [x]) == f(x)
  {
    assert [x][..0] == [];
  }

  lemma SumNext<T>(f: T -> real, s: seq<T>, i: nat)
    requires i < |s|
    ensures Sum(f, s[..i + 1]) == Sum(f, s[..i]) + f(s[i])
  {
    assert s[..i + 1][..i] == s[..i];
  }

  lemma SumRemoved<T>(f: T -> real, s: seq<T>, j: nat)
    requires j < |s|
    ensures multiset(s[..j] + s[j + 1..]) == multiset(s) - multiset{s[j]}
    ensures Sum(f, s) == Sum(f, s[..j] + s[j + 1..]) + f(s[j])
  {
    SplitAt(s, j);
    var a, b := s[..j], s[j + 1..];
    SumConcat(f, a + [s[j]], b);
    SumConcat(f, a, [s[j]]);
    SumOne(f, s[j]);
    SumConcat(f, a, b);
  }

  lemma SumUpdated<T>(f: T -> real, s: seq<T>, j: nat, x: T)
    requires j < |s|
    ensures Sum(f, s[j := x]) == Sum(f, s) - f(s[j]) + f(x)
  {
    var t := s[j := x];
    assert t[..j] + t[j + 1..] == s[..j] + s[j + 1..];
    SumRemoved(f, s, j);
    SumRemoved(f, t, j);
  }

  lemma {:induction false} SumPermuted<T>(f: T -> real, a: seq<T>, b: seq<T>)
    requires multiset(a) == multiset(b)
    ensures Sum(f, a) == Sum(f, b)
  {
    if a == [] {
      EmptyMultiset(b);
    } else {
      var x := a[|a| - 1];
      assert x in multiset(a);
      var j := MemberIndex(b, x);
      SumRemoved(f, a, |a| - 1);
      SumRemoved(f, b, j);
      assert a[..|a| - 1] + a[|a|..] == a[..|a| - 1];
      SumPermuted(f, a[..|a| - 1], b[..j] + b[j + 1..]);
    }
  }

  function Square(x: real): real {
    x * x
  }

  function Same(x: real): real {
    x
  }

  // ---------------------------------------------------------------- natural numbers

  /** 0, 1, .., n - 1. */
  function UpTo(n: nat): (s: seq<nat>)
    ensures |s| == n
  {
    seq(n, i requires 0 <= i => i)
  }

  function Total(s: seq<nat>): nat {
    if s == [] then 0 else Total(s[..|s| - 1]) + s[|s| - 1]
  }

  lemma {:induction false} TotalConcat(a: seq<nat>, b: seq<nat>)
    ensures Total(a + b) == Total(a) + Total(b)
  {
    if b == [] {
      assert a + b == a;
    } else {
      assert (a + b)[..|a + b| - 1] == a + b[..|b| - 1];
      TotalConcat(a, b[..|b| - 1]);
    }
  }

  lemma TotalOne(x: nat)
    ensures Total([x]) == x
  {
    assert [x][..0] == [];
  }

  lemma TotalSplit(s: seq<nat>, j: nat)
    requires j < |s|
    ensures Total(s) == Total(s[..j]) + s[j] + Total(s[j + 1..])
  {
    SplitAt(s, j);
    var a, b := s[..j], s[j + 1..];
    TotalConcat(a + [s[j]], b);
    TotalConcat(a, [s[j]]);
    TotalOne(s[j]);
  }

  lemma TotalUpdated(s: seq<nat>, j: nat, x: nat)
    requires j < |s|
    ensures Total(s[j := x]) + s[j] == Total(s) + x
  {
    TotalSplit(s, j);
    TotalSplit(s[j := x], j);
    assert s[j := x][..j] == s[..j] && s[j := x][j + 1..] == s[j + 1..];
  }

  lemma {:induction false} TotalPermuted(a: seq<nat>, b: seq<nat>)
    requires multiset(a) == multiset(b)
    ensures Total(a) == Total(b)
  {
    if a == [] {
      EmptyMultiset(b);
    } else {
      var n := |a| - 1;
      assert a[n] in multiset(a);
      var j := MemberIndex(b, a[n]);
      TotalSplit(b, j);
      TotalConcat(b[..j], b[j + 1..]);
      FlatMapRemoved(Single, a, n);
      FlatMapRemoved(Single, b, j);
      assert a[..n] + a[n + 1..] == a[..n];
      TotalPermuted(a[..n], b[..j] + b[j + 1..]);
    }
  }

  function Single(x: nat): seq<nat> {
    [x]
  }

  lemma ReplacedMember(group: seq<nat>, i: nat, x: nat)
    requires i < |group|
    ensures multiset(group[i := x]) + multiset{group[i]} == multiset(group) + multiset{x}
  {
    FlatMapRemoved(Single, group, i);
    FlatMapRemoved(Single, group[i := x], i);
    assert group[i := x][..i] + group[i := x][i + 1..] == group[..i] + group[i + 1..];
  }

  lemma MultisetCancel(x: multiset<nat>, y: multiset<nat>, g: multiset<nat>, e: multiset<nat>)
    requires x + g == y + (g + e)
    ensures x == y + e
  {
    forall k: nat ensures x[k] == (y + e)[k] {
      assert (x + g)[k] == (y + (g + e))[k];
    }
  }
}
