/** Shared limits and small functions, and the few facts about quotients with a variable divisor that pages and tiles need. */
module Arithmetic {

  const UINT32_MAX: nat := 0xffff_ffff
  const SIZE_MAX: nat := 0xffff_ffff_ffff_ffff

  /** Differences below this do not count in planning (`kScoreTolerance`). */
  const SCORE_TOLERANCE: real := 0.000000000001

  const RELATIVE_VARIANCE_FLOOR: real := 0.000000000001

  function Min(a: nat, b: nat): nat {
    if a < b then a else b
  }

  function Max(a: nat, b: nat): nat {
    if a < b then b else a
  }

  function RealMax(a: real, b: real): (m: real)
    ensures m >= a && m >= b && (m == a || m == b)
  {
    if a < b then b else a
  }

  /** Every page has the same number of entries. */
  ghost predicate Uniform<T>(pages: seq<seq<T>>, perPage: nat) {
    forall p :: 0 <= p < |pages| ==> |pages[p]| == perPage
  }

  lemma MulMonotone(a: nat, b: nat, c: nat)
    requires a <= b
    ensures a * c <= b * c
  {
    assert (b - a) * c >= 0;
  }

  lemma QuotientUnique(s: nat, q: nat, r: nat, q': nat, r': nat)
    requires r < s && r' < s && q * s + r == q' * s + r'
    ensures q == q' && r == r'
  {
    assert (q + 1) * s == q * s + s && (q' + 1) * s == q' * s + s;
    if q < q' {
      MulMonotone(q + 1, q', s);
    } else if q' < q {
      MulMonotone(q' + 1, q, s);
    }
  }

  lemma QuotientParts(a: nat, s: nat)
    requires s > 0
    ensures a == a / s * s + a % s && a % s < s
  {
  }

  lemma QuotientNat(a: nat, s: nat)
    requires s > 0
    ensures a / s >= 0
  {
  }

  lemma QuotientOf(q: nat, r: nat, s: nat)
    requires r < s
    ensures (q * s + r) / s == q && (q * s + r) % s == r
  {
    var a := q * s + r;
    QuotientParts(a, s);
    QuotientUnique(s, a / s, a % s, q, r);
  }

  lemma QuotientMonotone(a: nat, b: nat, s: nat)
    requires a <= b && s > 0
    ensures a / s <= b / s
    ensures a / s == b / s ==> b % s - a % s == b - a
  {
    QuotientParts(a, s);
    QuotientParts(b, s);
    assert (b / s + 1) * s == b / s * s + s;
    if b / s < a / s {
      MulMonotone(b / s + 1, a / s, s);
    }
  }

  lemma QuotientInjective(a: nat, b: nat, s: nat)
    requires s > 0 && a / s == b / s && a % s == b % s
    ensures a == b
  {
    QuotientParts(a, s);
    QuotientParts(b, s);
  }

  /** The source's page count: the least number of pages that holds `rows`. */
  function PageCount(rows: nat, perPage: nat): nat
    requires perPage > 0
  {
    if rows == 0 then 0 else 1 + (rows - 1) / perPage
  }

  lemma PageCountBounds(rows: nat, perPage: nat)
    requires perPage > 0
    ensures rows / perPage <= PageCount(rows, perPage) <= rows / perPage + 1
    ensures PageCount(rows, perPage) == rows / perPage <==> rows % perPage == 0
  {
    if rows > 0 {
      QuotientParts(rows - 1, perPage);
      QuotientParts(rows, perPage);
      var q, r := (rows - 1) / perPage, (rows - 1) % perPage;
      if r + 1 < perPage {
        QuotientOf(q, r + 1, perPage);
      } else {
        assert (q + 1) * perPage == q * perPage + perPage;
        QuotientOf(q + 1, 0, perPage);
      }
    } else {
      QuotientOf(0, 0, perPage);
    }
  }

  /** A row is within the pages that hold its list. */
  lemma RowPage(row: nat, rows: nat, perPage: nat)
    requires perPage > 0
    ensures row < rows ==> row / perPage < PageCount(rows, perPage)
    ensures rows % perPage == 0 && row / perPage < PageCount(rows, perPage) ==> row < rows
  {
    if row < rows {
      QuotientMonotone(row, rows - 1, perPage);
    }
    if rows % perPage == 0 && rows <= row {
      PageCountBounds(rows, perPage);
      QuotientMonotone(rows, row, perPage);
    }
  }

  lemma PageCountMonotone(a: nat, b: nat, perPage: nat)
    requires a <= b && perPage > 0
    ensures PageCount(a, perPage) <= PageCount(b, perPage)
  {
    if a > 0 { QuotientMonotone(a - 1, b - 1, perPage); }
  }
}
