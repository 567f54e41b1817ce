/**
 A search from probed lists to exact neighbours: query-local tokens, selection over one accumulator, token
 decoding and refinement (`select_candidates_locked` and `search` of adapters/external_list_ivf.cpp).
 */
module Search {
  import opened Arithmetic
  import opened Extended
  import opened Outcomes
  import opened Float32
  import opened Selection
  import opened PlainSelection
  import opened SelectionGuarantees
  import opened IntervalAccumulator
  import opened Reservoir
  import opened ReadPlans

  /** Tokens [begin, end) stand for the rows of one list, in slot order. */
  datatype TokenSpan = TokenSpan(begin: nat, end: nat, listNo: nat)

  datatype Estimate = Estimate(estimate: Float, uncertainty: Ext)

  /** What scanning the row at (list, offset) yields for the query. */
  type Estimator = (nat, nat) -> Estimate

  function SizeOf(sizes: seq<nat>, l: nat): nat {
    if l < |sizes| then sizes[l] else 0
  }

  /** How many rows the probed lists hold. */
  function TokenBase(selected: seq<nat>, sizes: seq<nat>): nat {
    if selected == [] then 0 else TokenBase(selected[..|selected| - 1], sizes) + SizeOf(sizes, selected[|selected| - 1])
  }

  /** Consecutive spans, one for each nonempty probed list. */
  function SpansOf(selected: seq<nat>, sizes: seq<nat>): seq<TokenSpan> {
    if selected == [] then [] else
      var front, l := selected[..|selected| - 1], selected[|selected| - 1];
      var spans, base := SpansOf(front, sizes), TokenBase(front, sizes);
      if SizeOf(sizes, l) == 0 then spans else spans + [TokenSpan(base, base + SizeOf(sizes, l), l)]
  }

  /** Where the spans begin and end: consecutive, nonempty, from 0 up to the token count. */
  ghost predicate Tiles(spans: seq<TokenSpan>, total: nat) {
    && (forall i :: 0 <= i < |spans| ==> spans[i].begin < spans[i].end)
    && (forall i :: 0 < i < |spans| ==> spans[i].begin == spans[i - 1].end)
    && (if spans == [] then total == 0 else spans[0].begin == 0 && spans[|spans| - 1].end == total)
  }

  lemma TilesNext(spans: seq<TokenSpan>, total: nat, next: TokenSpan)
    requires Tiles(spans, total) && next.begin == total < next.end
    ensures Tiles(spans + [next], next.end)
  {
  }

  lemma {:induction false} SpansTile(selected: seq<nat>, sizes: seq<nat>)
    ensures Tiles(SpansOf(selected, sizes), TokenBase(selected, sizes))
  {
    if selected != [] {
      var front, l := selected[..|selected| - 1], selected[|selected| - 1];
      SpansTile(front, sizes);
      if SizeOf(sizes, l) != 0 {
        var base := TokenBase(front, sizes);
        TilesNext(SpansOf(front, sizes), base, TokenSpan(base, base + SizeOf(sizes, l), l));
      }
    }
  }

  lemma {:induction false} SpanList(selected: seq<nat>, sizes: seq<nat>, i: nat)
    requires i < |SpansOf(selected, sizes)|
    ensures var s := SpansOf(selected, sizes)[i]; s.listNo in selected && s.end == s.begin + SizeOf(sizes, s.listNo)
  {
    var front := selected[..|selected| - 1];
    assert selected == front + [selected[|selected| - 1]];
    if i < |SpansOf(front, sizes)| { SpanList(front, sizes, i); }
  }

  /** Spans of the nonempty lists; too many rows for 32-bit tokens are refused. */
  method BuildSpans(selected: seq<nat>, sizes: seq<nat>) returns (r: Result<seq<TokenSpan>>, tokenBase: nat)
    ensures r.Ok? <==> TokenBase(selected, sizes) <= UINT32_MAX
    ensures r.Err? ==> r.error == Overflow
    ensures r.Ok? ==> r.value == SpansOf(selected, sizes) && tokenBase == TokenBase(selected, sizes)
  {
    var spans: seq<TokenSpan> := [];
    tokenBase := 0;
    for i := 0 to |selected|
      invariant spans == SpansOf(selected[..i], sizes)
      invariant tokenBase == TokenBase(selected[..i], sizes) <= UINT32_MAX
    {
      assert selected[..i + 1][..i] == selected[..i];
      var size := SizeOf(sizes, selected[i]);
      if size != 0 {
        if tokenBase + size > UINT32_MAX {
          TokenBaseGrows(selected, sizes, i + 1);
          return Err(Overflow), tokenBase;
        }
        spans := spans + [TokenSpan(tokenBase, tokenBase + size, selected[i])];
        tokenBase := tokenBase + size;
      }
    }
    assert selected[..|selected|] == selected;
    return Ok(spans), tokenBase;
  }

  lemma {:induction false} TokenBaseGrows(selected: seq<nat>, sizes: seq<nat>, i: nat)
    requires i <= |selected|
    ensures TokenBase(selected[..i], sizes) <= TokenBase(selected, sizes)
    decreases |selected| - i
  {
    if i < |selected| {
      assert selected[..i + 1][..i] == selected[..i];
      TokenBaseGrows(selected, sizes, i + 1);
    } else {
      assert selected[..i] == selected;
    }
  }

  // ---------------------------------------------------------------- decoding

  /** `std::lower_bound` on the span ends: the span that holds the token. */
  method FindSpan(spans: seq<TokenSpan>, token: nat, ghost total: nat) returns (i: nat)
    requires Tiles(spans, total) && token < total
    ensures i < |spans| && spans[i].begin <= token < spans[i].end
  {
    EndsAscend(spans, total);
    var low, high := 0, |spans|;
    while low < high
      invariant 0 <= low <= high <= |spans|
      invariant forall j :: 0 <= j < low ==> spans[j].end <= token
      invariant forall j :: high <= j < |spans| ==> token < spans[j].end
    {
      var middle := (low + high) / 2;
      if spans[middle].end <= token {
        low := middle + 1;
      } else {
        high := middle;
      }
    }
    i := low;
    // The token is always found, so the source's invalid-token error cannot occur.
    assert i < |spans| && (i > 0 ==> spans[i].begin == spans[i - 1].end);
  }

  lemma EndsAscend(spans: seq<TokenSpan>, total: nat)
    requires Tiles(spans, total)
    ensures forall i, j :: 0 <= i < j < |spans| ==> spans[i].end <= spans[j].begin && spans[i].end < spans[j].end
  {
    forall i, j | 0 <= i < j < |spans| ensures spans[i].end <= spans[j].begin && spans[i].end < spans[j].end {
      SpanOrder(spans, total, i, j);
    }
  }

  lemma {:induction false} SpanOrder(spans: seq<TokenSpan>, total: nat, i: nat, j: nat)
    requires Tiles(spans, total) && i < j < |spans|
    ensures spans[i].end <= spans[j].begin && spans[i].end < spans[j].end
  {
    assert spans[j].begin == spans[j - 1].end;
    if i < j - 1 { SpanOrder(spans, total, i, j - 1); }
  }

  // ---------------------------------------------------------------- the scan

  function SpanRow(span: TokenSpan, estimator: Estimator, o: nat): DistanceEstimate
    requires span.begin + o < 0x1_0000_0000
  {
    DistanceEstimate(span.begin + o, estimator(span.listNo, o).estimate, estimator(span.listNo, o).uncertainty)
  }

  function SpanRows(span: TokenSpan, estimator: Estimator): (rows: seq<DistanceEstimate>)
    requires span.begin <= span.end <= UINT32_MAX
    ensures |rows| == span.end - span.begin
  {
    seq(span.end - span.begin, o requires 0 <= o < span.end - span.begin && span.end <= UINT32_MAX => SpanRow(span, estimator, o))
  }

  ghost predicate Bounded(spans: seq<TokenSpan>) {
    forall i :: 0 <= i < |spans| ==> spans[i].begin <= spans[i].end <= UINT32_MAX
  }

  /** All rows of the scan, in token order. */
  function ScanRows(spans: seq<TokenSpan>, estimator: Estimator): seq<DistanceEstimate>
    requires Bounded(spans)
  {
    if spans == [] then [] else ScanRows(spans[..|spans| - 1], estimator) + SpanRows(spans[|spans| - 1], estimator)
  }

  lemma TilesFront(spans: seq<TokenSpan>, total: nat)
    requires Tiles(spans, total) && spans != []
    ensures Tiles(spans[..|spans| - 1], spans[|spans| - 1].begin)
  {
  }

  lemma {:induction false} TilesBounded(spans: seq<TokenSpan>, total: nat)
    requires Tiles(spans, total) && total <= UINT32_MAX
    ensures Bounded(spans)
  {
    if spans != [] {
      TilesFront(spans, total);
      TilesBounded(spans[..|spans| - 1], spans[|spans| - 1].begin);
      forall i | 0 <= i < |spans| ensures spans[i].begin <= spans[i].end <= UINT32_MAX {
        if i < |spans| - 1 { assert spans[i] == spans[..|spans| - 1][i]; }
      }
    }
  }

  /** Tokens number the scanned rows. */
  lemma {:induction false} TokensNumberRows(spans: seq<TokenSpan>, total: nat, estimator: Estimator)
    requires Tiles(spans, total) && Bounded(spans)
    ensures |ScanRows(spans, estimator)| == total
    ensures forall t :: 0 <= t < total ==> ScanRows(spans, estimator)[t].id == t
    ensures DistinctIds(ScanRows(spans, estimator))
  {
    if spans != [] {
      TilesFront(spans, total);
      var front := spans[..|spans| - 1];
      assert Bounded(front) by {
        forall i | 0 <= i < |front| ensures front[i].begin <= front[i].end <= UINT32_MAX {
          assert front[i] == spans[i];
        }
      }
      TokensNumberRows(front, spans[|spans| - 1].begin, estimator);
    }
  }

  lemma UppersConcat(a: seq<DistanceEstimate>, b: seq<DistanceEstimate>, z: real)
    ensures Uppers(a + b, z) == Uppers(a, z) + Uppers(b, z)
  {
  }

  function LaneUppers(rows: seq<DistanceEstimate>, z: real): (u: seq<Ext>)
    ensures |u| == |rows|
  {
    seq(|rows|, i requires 0 <= i < |rows| => LaneUpper(rows[i], z))
  }

  lemma LaneUppersAgree(rows: seq<DistanceEstimate>, z: real)
    ensures LaneUppers(rows, z) == Uppers(rows, z)
  {
    forall i | 0 <= i < |rows| ensures LaneUppers(rows, z)[i] == Uppers(rows, z)[i] { UppersAgree(rows[i], z); }
  }

  /** One list's rows, offered in blocks of at most sixteen lanes or thirty-two scalar rows. */
  method ScanSpan(accumulator: FusedIntervalAccumulator, rows: seq<DistanceEstimate>, z: real)
    requires accumulator.Valid() && DistinctIds(accumulator.scanned + rows)
    requires accumulator.uppers == Uppers(accumulator.scanned, z)
    modifies accumulator
    ensures accumulator.Valid() && accumulator.scanned == old(accumulator.scanned) + rows
    ensures accumulator.uppers == Uppers(accumulator.scanned, z)
  {
    ghost var before := accumulator.scanned;
    var begin := 0;
    assert before + rows[..0] == before;
    while begin < |rows|
      invariant begin <= |rows| && accumulator.Valid() && accumulator.scanned == before + rows[..begin]
      invariant accumulator.uppers == Uppers(accumulator.scanned, z)
    {
      var width := if accumulator.simd then 16 else 32;
      var end := if |rows| - begin < width then |rows| else begin + width;
      var block := rows[begin..end];
      assert before + rows[..end] == accumulator.scanned + block;
      assert before + rows == (before + rows[..end]) + rows[end..];
      BatchDistinct(before + rows[..end], rows[end..]);
      UppersConcat(accumulator.scanned, block, z);
      if accumulator.simd {
        LaneUppersAgree(block, z);
        accumulator.Add16(block, LaneUppers(block, z));
      } else {
        accumulator.AddScalarBlock(block, Uppers(block, z));
      }
      begin := end;
    }
    assert rows[..|rows|] == rows;
  }

  /** What the selector demands of its parameters. */
  predicate ValidSelection(k: nat, z: MaybeNaN, maxCandidates: nat) {
    0 < k && ValidScore(z) && (maxCandidates > 0 ==> maxCandidates >= k) && maxCandidates <= SIZE_MAX / 2
  }

  /** The selection over the rows, with the upper endpoints of their intervals. */
  ghost predicate SelectedFrom(rows: seq<DistanceEstimate>, k: nat, z: real, maxCandidates: nat, simd: bool, s: SelectionResult) {
    exists uppers :: UppersAre(rows, z, uppers) && Chosen(simd, rows, uppers, k, z, maxCandidates, s)
  }

  lemma SelectIsFrom(rows: seq<DistanceEstimate>, k: nat, z: real, maxCandidates: nat, simd: bool)
    requires 0 < k <= |rows| && DistinctIds(rows)
    ensures SelectedFrom(rows, k, z, maxCandidates, simd, Select(simd, rows, Uppers(rows, z), k, z, maxCandidates))
  {
    SelectIsChosen(simd, rows, Uppers(rows, z), k, z, maxCandidates);
    forall i | 0 <= i < |rows| ensures UpperIs(rows[i], z, Uppers(rows, z)[i]) { UpperPlain(rows[i], z); }
    assert UppersAre(rows, z, Uppers(rows, z));
  }

  /**
   One accumulator over all probed lists: the selection over their rows, for the score as a number, exactly as
   the specification computes it.
   */
  method ScanIntervalCandidates(spans: seq<TokenSpan>, estimator: Estimator, k: nat, z: MaybeNaN, maxCandidates: nat, simd: bool, ghost total: nat)
    returns (r: Result<SelectionResult>)
    requires Tiles(spans, total) && total <= UINT32_MAX && Bounded(spans)
    ensures r.Ok? <==> ValidSelection(k, z, maxCandidates) && k <= total
    ensures r.Ok? ==> z.Number? && z.value.Fin? && SelectedFrom(ScanRows(spans, estimator), k, z.value.r, maxCandidates, simd, r.value)
    ensures var rows := ScanRows(spans, estimator);
      r.Ok? ==> k <= |rows| && r.value == Select(simd, rows, Uppers(rows, ScoreValue(z)), k, ScoreValue(z), maxCandidates)
    ensures r.Err? ==> r.error == InvalidArgument
  {
    var created := FusedIntervalAccumulator.Create(k, z, maxCandidates, simd);
    if created.Err? {
      return Err(created.error);
    }
    var accumulator := created.value;
    TokensNumberRows(spans, total, estimator);
    ScanSpans(accumulator, spans, estimator, accumulator.zScore);
    r := accumulator.Finish();
    if r.Ok? { SelectIsFrom(ScanRows(spans, estimator), k, accumulator.zScore, maxCandidates, simd); }
  }

  /** All probed lists, one after the other. */
  method ScanSpans(accumulator: FusedIntervalAccumulator, spans: seq<TokenSpan>, estimator: Estimator, z: real)
    requires accumulator.Valid() && accumulator.scanned == [] && accumulator.uppers == []
    requires Bounded(spans) && DistinctIds(ScanRows(spans, estimator))
    modifies accumulator
    ensures accumulator.Valid() && accumulator.scanned == ScanRows(spans, estimator)
    ensures accumulator.uppers == Uppers(accumulator.scanned, z)
  {
    assert spans[..0] == [];
    for i := 0 to |spans|
      invariant accumulator.Valid()
      invariant Bounded(spans[..i]) && accumulator.scanned == ScanRows(spans[..i], estimator)
      invariant accumulator.uppers == Uppers(accumulator.scanned, z)
    {
      SpansUpTo(spans, i, estimator);
      ScanSpan(accumulator, SpanRows(spans[i], estimator), z);
    }
    assert spans[..|spans|] == spans;
  }

  /** The row of a token: its list and offset, and what the estimator says there. */
  lemma {:induction false} TokenScanned(spans: seq<TokenSpan>, total: nat, estimator: Estimator, i: nat, t: nat)
    requires Tiles(spans, total) && Bounded(spans) && i < |spans| && spans[i].begin <= t < spans[i].end
    ensures t < |ScanRows(spans, estimator)| && ScanRows(spans, estimator)[t] == SpanRow(spans[i], estimator, t - spans[i].begin)
  {
    TokensNumberRows(spans, total, estimator);
    TilesFront(spans, total);
    var front, base := spans[..|spans| - 1], spans[|spans| - 1].begin;
    assert Bounded(front) by { forall j | 0 <= j < |front| ensures front[j].begin <= front[j].end <= UINT32_MAX { assert front[j] == spans[j]; } }
    TokensNumberRows(front, base, estimator);
    if i < |spans| - 1 {
      SpanOrder(spans, total, i, |spans| - 1);
      TokenScanned(front, base, estimator, i, t);
    }
  }

  lemma {:induction false} SpansUpTo(spans: seq<TokenSpan>, i: nat, estimator: Estimator)
    requires Bounded(spans) && i < |spans| && DistinctIds(ScanRows(spans, estimator))
    ensures Bounded(spans[..i]) && Bounded(spans[..i + 1])
    ensures ScanRows(spans[..i + 1], estimator) == ScanRows(spans[..i], estimator) + SpanRows(spans[i], estimator)
    ensures DistinctIds(ScanRows(spans[..i + 1], estimator))
    decreases |spans| - i
  {
    assert spans[..i + 1][..i] == spans[..i];
    if i + 1 < |spans| {
      SpansUpTo(spans, i + 1, estimator);
      BatchDistinct(ScanRows(spans[..i + 1], estimator), SpanRows(spans[i + 1], estimator));
    } else {
      assert spans[..i + 1] == spans;
    }
  }
}
