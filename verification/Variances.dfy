/**
 The coding demand of each coordinate (first half of `compute_ideal_bit_budgets` in
 src/uneven_product_quantizer.cpp): population variances over the training rows, and their heights. The logarithm
 is a parameter.
 */
module Variances {
  import opened Arithmetic
  import opened Permutations
  import opened Outcomes
  import opened WaterFilling

  function Entry(j: nat): seq<real> -> real {
    (row: seq<real>) => if j < |row| then row[j] else 0.0
  }

  function Mean(x: seq<seq<real>>, j: nat): real
    requires x != []
  {
    Sum(Entry(j), x) / |x| as real
  }

  function SquareFrom(j: nat, mean: real): seq<real> -> real {
    (row: seq<real>) => Square(Entry(j)(row) - mean)
  }

  function Variance(x: seq<seq<real>>, j: nat): real
    requires x != []
  {
    Sum(SquareFrom(j, Mean(x, j)), x) / |x| as real
  }

  lemma SumScaled(a: real, b: real, n: real)
    requires n > 0.0 && a == b / n
    ensures a * n == b
  {
  }

  /** The values of one coordinate, row by row. */
  function Column(x: seq<seq<real>>, j: nat): (column: seq<real>)
    ensures |column| == |x|
  {
    seq(|x|, i requires 0 <= i < |x| => if j < |x[i]| then x[i][j] else 0.0)
  }

  function Deviation(c: real): real -> real {
    (v: real) => Square(v - c)
  }

  lemma {:induction false} ColumnSums(x: seq<seq<real>>, j: nat, c: real)
    ensures Sum(Entry(j), x) == Sum(Same, Column(x, j))
    ensures Sum(SquareFrom(j, c), x) == Sum(Deviation(c), Column(x, j))
  {
    if x != [] {
      var k := |x| - 1;
      ColumnSums(x[..k], j, c);
      assert Column(x, j)[..k] == Column(x[..k], j);
    }
  }

  lemma DeviationIs(c: real, v: real)
    ensures Deviation(c)(v) == Square(v) - 2.0 * (c * v) + c * c
  {
    assert Deviation(c)(v) == Square(v - c);
    SquareOfDifference(v, c);
  }

  lemma SquareOfDifference(v: real, c: real)
    ensures Square(v - c) == Square(v) - 2.0 * (c * v) + c * c
  {
  }

  lemma DeviationStep(c: real, v: real, n: real, squares: real, sum: real)
    ensures squares - 2.0 * (c * sum) + n * (c * c) + (Square(v) - 2.0 * (c * v) + c * c)
         == (squares + Square(v)) - 2.0 * (c * (sum + v)) + (n + 1.0) * (c * c)
  {
  }

  /** The squares around any centre, by the sums of the values and of their squares. */
  lemma {:induction false} DeviationsSum(s: seq<real>, c: real, n: real)
    requires n == |s| as real
    ensures Sum(Deviation(c), s) == Sum(Square, s) - 2.0 * (c * Sum(Same, s)) + n * (c * c)
  {
    if s != [] {
      var k := |s| - 1;
      DeviationsSum(s[..k], c, n - 1.0);
      DeviationIs(c, s[k]);
      DeviationStep(c, s[k], n - 1.0, Sum(Square, s[..k]), Sum(Same, s[..k]));
    }
  }

  /** The population variance is the mean of the squares less the square of the mean. */
  lemma VarianceIs(x: seq<seq<real>>, j: nat, n: real, sum: real, squares: real)
    requires x != [] && n == |x| as real && sum == Sum(Same, Column(x, j)) && squares == Sum(Square, Column(x, j))
    ensures n * n * Variance(x, j) == n * squares - sum * sum
  {
    var c := Mean(x, j);
    ColumnSums(x, j, c);
    DeviationsSum(Column(x, j), c, n);
    SumScaled(c, sum, n);
    SumScaled(Variance(x, j), Sum(SquareFrom(j, c), x), n);
    FromMean(n, sum, c, Variance(x, j), squares, Sum(SquareFrom(j, c), x));
  }

  lemma FromMean(n: real, sum: real, mean: real, variance: real, squares: real, around: real)
    requires mean * n == sum && variance * n == around && around == squares - 2.0 * (mean * sum) + n * (mean * mean)
    ensures n * n * variance == n * squares - sum * sum
  {
    assert n * (mean * sum) == sum * sum;
    assert n * (n * (mean * mean)) == (mean * n) * (mean * n);
    assert n * (variance * n) == n * squares - 2.0 * (n * (mean * sum)) + n * (n * (mean * mean));
  }

  /** All rows agree at the coordinate. */
  ghost predicate Constant(x: seq<seq<real>>, j: nat) {
    forall a, b :: 0 <= a < |x| && 0 <= b < |x| ==> Entry(j)(x[a]) == Entry(j)(x[b])
  }

  lemma {:induction false} SquaresVanish(x: seq<seq<real>>, j: nat, mean: real)
    ensures Sum(SquareFrom(j, mean), x) >= 0.0
    ensures Sum(SquareFrom(j, mean), x) == 0.0 <==> forall a :: 0 <= a < |x| ==> Entry(j)(x[a]) == mean
  {
    if x != [] {
      var n := |x| - 1;
      SquaresVanish(x[..n], j, mean);
      DeviationSign(x[n], j, mean);
      assert (forall a :: 0 <= a < |x| ==> Entry(j)(x[a]) == mean) <==>
        Entry(j)(x[n]) == mean && forall a :: 0 <= a < n ==> Entry(j)(x[..n][a]) == mean;
    }
  }

  lemma DeviationSign(row: seq<real>, j: nat, mean: real)
    ensures SquareFrom(j, mean)(row) >= 0.0
    ensures SquareFrom(j, mean)(row) == 0.0 <==> Entry(j)(row) == mean
  {
    SquareSign(Entry(j)(row) - mean);
  }

  lemma SquareSign(v: real)
    ensures Square(v) >= 0.0
    ensures Square(v) == 0.0 <==> v == 0.0
  {
    SquareNotNegative(v);
    if v == 0.0 {
      SquareOfZero(v);
    } else if Square(v) == 0.0 {
      Cancel(v, v);
    }
  }

  lemma SquareNotNegative(v: real)
    ensures Square(v) >= 0.0
  {
  }

  lemma SquareOfZero(v: real)
    requires v == 0.0
    ensures Square(v) == 0.0
  {
  }

  lemma Cancel(v: real, w: real)
    requires v != 0.0
    ensures w * v / v == w
  {
  }

  lemma {:induction false} SumOfConstant(x: seq<seq<real>>, j: nat, v: real)
    requires forall a :: 0 <= a < |x| ==> Entry(j)(x[a]) == v
    ensures Sum(Entry(j), x) == |x| as real * v
  {
    if x != [] {
      SumOfConstant(x[..|x| - 1], j, v);
      assert |x| as real * v == (|x| - 1) as real * v + v;
    }
  }

  lemma ProductSign(q: real, n: real)
    requires n > 0.0
    ensures q > 0.0 ==> q * n > 0.0
    ensures q < 0.0 ==> q * n < 0.0
  {
    if q < 0.0 { assert (-q) * n > 0.0; }
  }

  lemma Quotient(a: real, n: real, q: real)
    requires n > 0.0 && q == a / n
    ensures q * n == a && (q == 0.0 <==> a == 0.0) && (a >= 0.0 ==> q >= 0.0)
  {
    ProductSign(q, n);
    assert q * n == a;
  }

  /** A variance is zero exactly at the coordinates where all rows agree. */
  lemma VarianceVanishes(x: seq<seq<real>>, j: nat)
    requires x != []
    ensures Variance(x, j) >= 0.0
    ensures Variance(x, j) == 0.0 <==> Constant(x, j)
  {
    var mean := Mean(x, j);
    SquaresVanish(x, j, mean);
    Quotient(Sum(SquareFrom(j, mean), x), |x| as real, Variance(x, j));
    if Constant(x, j) {
      var v := Entry(j)(x[0]);
      SumOfConstant(x, j, v);
      Quotient(Sum(Entry(j), x), |x| as real, mean);
      SameFactor(mean, v, |x| as real);
    }
  }

  lemma SameFactor(a: real, b: real, n: real)
    requires n > 0.0 && a * n == n * b
    ensures a == b
  {
    assert (a - b) * n == 0.0;
  }

  ghost predicate Rectangular(x: seq<seq<real>>, d: nat) {
    forall i :: 0 <= i < |x| ==> |x[i]| == d
  }

  /** Adds to every coordinate what the row contributes. */
  method AddRow(sums: seq<real>, row: seq<real>, ghost f: nat -> seq<real> -> real, term: (nat, real) -> real,
                ghost x: seq<seq<real>>, ghost i: nat)
    returns (next: seq<real>)
    requires i < |x| && row == x[i] && |sums| == |row|
    requires forall j :: 0 <= j < |sums| ==> sums[j] == Sum(f(j), x[..i])
    requires forall j: nat :: j < |row| ==> f(j)(row) == term(j, row[j])
    ensures |next| == |sums| && forall j :: 0 <= j < |sums| ==> next[j] == Sum(f(j), x[..i + 1])
  {
    next := sums;
    for j := 0 to |row|
      invariant |next| == |sums|
      invariant forall k :: 0 <= k < j ==> next[k] == Sum(f(k), x[..i + 1])
      invariant forall k :: j <= k < |sums| ==> next[k] == Sum(f(k), x[..i])
    {
      SumNext(f(j), x, i);
      next := next[j := next[j] + term(j, row[j])];
    }
  }

  /** The means, then the mean squares around them, accumulated row by row. */
  method ComputeVariances(x: seq<seq<real>>, d: nat) returns (variances: seq<real>)
    requires x != [] && Rectangular(x, d)
    ensures |variances| == d && forall j :: 0 <= j < d ==> variances[j] == Variance(x, j)
  {
    var n := |x| as real;
    var sums := seq(d, _ => 0.0);
    for i := 0 to |x|
      invariant |sums| == d && forall j :: 0 <= j < d ==> sums[j] == Sum(Entry(j), x[..i])
    {
      sums := AddRow(sums, x[i], Entry, (j: nat, v: real) => v, x, i);
    }
    assert x[..|x|] == x;
    var means := seq(d, j requires 0 <= j < d && |sums| == d => sums[j] / n);
    assert forall j :: 0 <= j < d ==> means[j] == Mean(x, j);
    var squares := seq(d, _ => 0.0);
    ghost var around := (j: nat) => SquareFrom(j, Mean(x, j));
    for i := 0 to |x|
      invariant |squares| == d && forall j :: 0 <= j < d ==> squares[j] == Sum(around(j), x[..i])
    {
      squares := AddRow(squares, x[i], around,
        (j: nat, v: real) => if j < |means| then Square(v - means[j]) else 0.0, x, i);
    }
    variances := seq(d, j requires 0 <= j < d && |squares| == d => squares[j] / n);
  }

  method Largest(s: seq<real>) returns (m: real)
    requires s != []
    ensures m in s && forall v :: v in s ==> v <= m
  {
    m := s[0];
    for i := 1 to |s|
      invariant m in s && forall j :: 0 <= j < i ==> s[j] <= m
    {
      if m < s[i] {
        m := s[i];
      }
    }
  }

  /** Half the logarithm of a variance, kept off zero by a floor. */
  function Height(log2: real -> real, floor: real, variance: real): real {
    0.5 * log2(RealMax(floor, variance))
  }

  ghost predicate Monotone(f: real -> real) {
    forall a, b :: 0.0 < a <= b ==> f(a) <= f(b)
  }

  /** No coordinate varies so much more that the floor applies to this one. */
  ghost predicate Unfloored(x: seq<seq<real>>, d: nat, j: nat)
    requires x != []
  {
    forall i :: 0 <= i < d ==> Variance(x, j) >= 0.000000000001 * Variance(x, i)
  }

  /** Half the logarithm of the variance, or of the widest coordinate's variance times the floor if that is larger. */
  ghost predicate HeightsAre(x: seq<seq<real>>, d: nat, log2: real -> real, heights: seq<real>)
    requires x != []
  {
    && |heights| == d
    && (forall j :: 0 <= j < d && Unfloored(x, d, j) ==> heights[j] == 0.5 * log2(Variance(x, j)))
    && (forall i, j :: 0 <= i < d && 0 <= j < d && Widest(x, d, i) && !Unfloored(x, d, j) ==>
          heights[j] == 0.5 * log2(0.000000000001 * Variance(x, i)))
  }

  ghost predicate Widest(x: seq<seq<real>>, d: nat, i: nat)
    requires x != []
  {
    forall k :: 0 <= k < d ==> Variance(x, k) <= Variance(x, i)
  }

  /** Refused exactly when nothing varies; otherwise a larger variance never gets the smaller height. */
  method ComputeHeights(x: seq<seq<real>>, d: nat, log2: real -> real) returns (r: Result<seq<real>>)
    requires d > 0 && Rectangular(x, d)
    ensures r.Ok? <==> x != [] && exists j :: 0 <= j < d && !Constant(x, j)
    ensures r.Err? ==> r.error == RuntimeError
    ensures r.Ok? ==> HeightsAre(x, d, log2, r.value)
    ensures r.Ok? && Monotone(log2) ==>
      forall i, j :: 0 <= i < d && 0 <= j < d && Variance(x, i) <= Variance(x, j) ==> r.value[i] <= r.value[j]
  {
    if |x| == 0 {
      return Err(RuntimeError);
    }
    var variances := ComputeVariances(x, d);
    var largest := Largest(variances);
    LargestVanishes(x, d, variances, largest);
    if largest <= 0.0 {
      return Err(RuntimeError);
    }
    var least := largest * RELATIVE_VARIANCE_FLOOR;
    var heights := seq(d, j requires 0 <= j < d && |variances| == d => Height(log2, least, variances[j]));
    HeightsFloored(x, d, log2, variances, largest, heights);
    HeightsOrdered(x, d, log2, least, heights);
    return Ok(heights);
  }

  lemma HeightsFloored(x: seq<seq<real>>, d: nat, log2: real -> real, variances: seq<real>, largest: real, heights: seq<real>)
    requires x != [] && |variances| == |heights| == d && largest in variances && forall v :: v in variances ==> v <= largest
    requires forall j :: 0 <= j < d ==> variances[j] == Variance(x, j) && heights[j] == Height(log2, largest * RELATIVE_VARIANCE_FLOOR, variances[j])
    ensures HeightsAre(x, d, log2, heights)
  {
    var least := largest * RELATIVE_VARIANCE_FLOOR;
    forall j | 0 <= j < d && Unfloored(x, d, j) ensures heights[j] == 0.5 * log2(Variance(x, j)) {
      UnflooredIs(x, d, variances, largest, j);
      AtLeast(least, variances[j]);
    }
    forall i, j | 0 <= i < d && 0 <= j < d && Widest(x, d, i) && !Unfloored(x, d, j)
      ensures heights[j] == 0.5 * log2(0.000000000001 * Variance(x, i))
    {
      WidestIs(x, d, variances, largest, i);
      UnflooredIs(x, d, variances, largest, j);
      AtLeast(least, variances[j]);
      assert least == 0.000000000001 * Variance(x, i);
    }
  }

  lemma AtLeast(floor: real, v: real)
    ensures RealMax(floor, v) == if v >= floor then v else floor
  {
  }

  lemma UnflooredIs(x: seq<seq<real>>, d: nat, variances: seq<real>, largest: real, j: nat)
    requires x != [] && |variances| == d && largest in variances && (forall v :: v in variances ==> v <= largest) && j < d
    requires forall i :: 0 <= i < d ==> variances[i] == Variance(x, i)
    ensures Unfloored(x, d, j) <==> variances[j] >= largest * RELATIVE_VARIANCE_FLOOR
  {
    var w :| 0 <= w < d && variances[w] == largest;
    forall i | 0 <= i < d ensures Variance(x, i) <= largest { assert variances[i] in variances; }
    assert Variance(x, w) == largest;
  }

  lemma WidestIs(x: seq<seq<real>>, d: nat, variances: seq<real>, largest: real, i: nat)
    requires x != [] && |variances| == d && largest in variances && (forall v :: v in variances ==> v <= largest)
    requires (forall k :: 0 <= k < d ==> variances[k] == Variance(x, k)) && i < d && Widest(x, d, i)
    ensures Variance(x, i) == largest
  {
    var w :| 0 <= w < d && variances[w] == largest;
    assert variances[i] in variances && Variance(x, w) <= Variance(x, i);
  }

  lemma HeightsOrdered(x: seq<seq<real>>, d: nat, log2: real -> real, floor: real, heights: seq<real>)
    requires x != [] && floor > 0.0 && |heights| == d && forall j :: 0 <= j < d ==> heights[j] == Height(log2, floor, Variance(x, j))
    ensures Monotone(log2) ==>
      forall i, j :: 0 <= i < d && 0 <= j < d && Variance(x, i) <= Variance(x, j) ==> heights[i] <= heights[j]
  {
    if Monotone(log2) {
      forall i, j | 0 <= i < d && 0 <= j < d && Variance(x, i) <= Variance(x, j) ensures heights[i] <= heights[j] {
        assert log2(RealMax(floor, Variance(x, i))) <= log2(RealMax(floor, Variance(x, j)));
      }
    }
  }

  /** The largest variance is zero exactly when nothing varies. */
  lemma LargestVanishes(x: seq<seq<real>>, d: nat, variances: seq<real>, largest: real)
    requires x != [] && |variances| == d && forall j :: 0 <= j < d ==> variances[j] == Variance(x, j)
    requires largest in variances && forall v :: v in variances ==> v <= largest
    ensures largest <= 0.0 <==> forall j :: 0 <= j < d ==> Constant(x, j)
  {
    forall j | 0 <= j < d ensures variances[j] >= 0.0 && (variances[j] == 0.0 <==> Constant(x, j)) && variances[j] <= largest {
      VarianceVanishes(x, j);
      assert variances[j] in variances;
    }
  }
}
