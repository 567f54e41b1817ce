/** Search over a consistent index: what comes back are the exact nearest rows of the probed lists. */
module IndexSearch {
  import opened Arithmetic
  import opened Extended
  import opened Outcomes
  import opened Permutations
  import opened Sorting
  import opened RecordPages
  import opened Float32
  import opened Selection
  import opened SelectionGuarantees
  import opened ExactTopK
  import opened ReadPlans
  import opened PlanProcessing
  import opened AioPipeline
  import opened Refiner
  import opened IndexRows
  import opened IndexFiles
  import opened Search

  // ---------------------------------------------------------------- tokens and rows

  /** The list and offset a token stands for. */
  function Locate(spans: seq<TokenSpan>, t: nat): ListCandidate {
    if spans == [] then ListCandidate(0, 0)
    else if spans[|spans| - 1].begin <= t then ListCandidate(spans[|spans| - 1].listNo, t - spans[|spans| - 1].begin)
    else Locate(spans[..|spans| - 1], t)
  }

  lemma {:induction false} LocateIs(spans: seq<TokenSpan>, total: nat, t: nat, i: nat)
    requires Tiles(spans, total) && i < |spans| && spans[i].begin <= t < spans[i].end
    ensures Locate(spans, t) == ListCandidate(spans[i].listNo, t - spans[i].begin)
  {
    if i < |spans| - 1 {
      SpanOrder(spans, total, i, |spans| - 1);
      TilesFront(spans, total);
      LocateIs(spans[..|spans| - 1], spans[|spans| - 1].begin, t, i);
    }
  }

  function RowRecord(rows: seq<seq<Row>>, c: ListCandidate): Record {
    if c.listNo < |rows| && c.offset < |rows[c.listNo]| then RecordOf(rows[c.listNo][c.offset]) else Record(0, [])
  }

  /** What refinement finds for a token. */
  function Find(rows: seq<seq<Row>>, spans: seq<TokenSpan>, score: Payload -> Ext): Word -> Neighbor {
    (t: Word) => NeighborOf(RowRecord(rows, Locate(spans, t)), score)
  }

  function Sizes(rows: seq<seq<Row>>): (s: seq<nat>)
    ensures |s| == |rows|
  {
    seq(|rows|, l requires 0 <= l < |rows| => |rows[l]|)
  }

  /** The exact pairs of one list's rows, in slot order. */
  function ListNeighbors(rows: seq<seq<Row>>, score: Payload -> Ext): nat -> seq<Neighbor> {
    (l: nat) => if l < |rows| then RowNeighbors(rows[l], score) else []
  }

  function RowNeighbors(rows: seq<Row>, score: Payload -> Ext): (n: seq<Neighbor>)
    ensures |n| == |rows|
  {
    seq(|rows|, o requires 0 <= o < |rows| => NeighborOf(RecordOf(rows[o]), score))
  }

  /** The exact pairs of every row in the probed lists. */
  function ProbedNeighbors(rows: seq<seq<Row>>, selected: seq<nat>, score: Payload -> Ext): seq<Neighbor> {
    FlatMap(ListNeighbors(rows, score), selected)
  }

  function SpanNeighbors(rows: seq<seq<Row>>, score: Payload -> Ext): TokenSpan -> seq<Neighbor> {
    (s: TokenSpan) => ListNeighbors(rows, score)(s.listNo)
  }

  lemma {:induction false} SpansProbe(rows: seq<seq<Row>>, selected: seq<nat>, score: Payload -> Ext)
    ensures FlatMap(SpanNeighbors(rows, score), SpansOf(selected, Sizes(rows))) == ProbedNeighbors(rows, selected, score)
  {
    if selected != [] {
      var front, l := selected[..|selected| - 1], selected[|selected| - 1];
      SpansProbe(rows, front, score);
      var spans := SpansOf(front, Sizes(rows));
      var base := TokenBase(front, Sizes(rows));
      if SizeOf(Sizes(rows), l) == 0 {
        assert ListNeighbors(rows, score)(l) == [];
      } else {
        FlatMapConcat(SpanNeighbors(rows, score), spans, [TokenSpan(base, base + |rows[l]|, l)]);
        FlatMapOne(SpanNeighbors(rows, score), TokenSpan(base, base + |rows[l]|, l));
      }
    }
  }

  /** Scanned rows, refined, are the rows of the span's list. */
  lemma SpanRefined(rows: seq<seq<Row>>, spans: seq<TokenSpan>, total: nat, i: nat, estimator: Estimator, score: Payload -> Ext)
    requires Tiles(spans, total) && Bounded(spans) && i < |spans|
    requires spans[i].listNo < |rows| && spans[i].end - spans[i].begin == |rows[spans[i].listNo]|
    ensures Neighbors(SpanRows(spans[i], estimator), Find(rows, spans, score)) == SpanNeighbors(rows, score)(spans[i])
  {
    var scanned, l := SpanRows(spans[i], estimator), spans[i].listNo;
    var n := Neighbors(scanned, Find(rows, spans, score));
    forall o | 0 <= o < |rows[l]| ensures n[o] == RowNeighbors(rows[l], score)[o] {
      var t := spans[i].begin + o;
      assert scanned[o] == SpanRow(spans[i], estimator, o);
      LocateIs(spans, total, t, i);
      assert RowRecord(rows, Locate(spans, t)) == RecordOf(rows[l][o]);
      assert n[o] == Find(rows, spans, score)(t);
    }
    assert n == RowNeighbors(rows[l], score);
    assert SpanNeighbors(rows, score)(spans[i]) == ListNeighbors(rows, score)(l) == RowNeighbors(rows[l], score);
  }

  lemma NeighborsConcat(a: seq<DistanceEstimate>, b: seq<DistanceEstimate>, find: Word -> Neighbor)
    ensures Neighbors(a + b, find) == Neighbors(a, find) + Neighbors(b, find)
  {
  }

  ghost predicate SpansFit(rows: seq<seq<Row>>, spans: seq<TokenSpan>) {
    forall i :: 0 <= i < |spans| ==> SpanFits(rows, spans[i])
  }

  ghost predicate SpanFits(rows: seq<seq<Row>>, s: TokenSpan) {
    s.listNo < |rows| && s.begin + |rows[s.listNo]| == s.end
  }

  lemma {:induction false} ScanRefined(rows: seq<seq<Row>>, spans: seq<TokenSpan>, total: nat, n: nat, estimator: Estimator, score: Payload -> Ext)
    requires Tiles(spans, total) && total <= UINT32_MAX && Bounded(spans) && SpansFit(rows, spans) && n <= |spans|
    ensures Bounded(spans[..n])
    ensures Neighbors(ScanRows(spans[..n], estimator), Find(rows, spans, score)) == FlatMap(SpanNeighbors(rows, score), spans[..n])
  {
    if n > 0 {
      ScanRefined(rows, spans, total, n - 1, estimator, score);
      TokensNumberRows(spans, total, estimator);
      SpansUpTo(spans, n - 1, estimator);
      assert SpanFits(rows, spans[n - 1]);
      SpanRefined(rows, spans, total, n - 1, estimator, score);
      NeighborsConcat(ScanRows(spans[..n - 1], estimator), SpanRows(spans[n - 1], estimator), Find(rows, spans, score));
      FlatMapNext(SpanNeighbors(rows, score), spans, n - 1);
    } else {
      assert spans[..0] == [];
    }
  }

  lemma SpansOfFit(rows: seq<seq<Row>>, selected: seq<nat>)
    requires forall l :: l in selected ==> l < |rows|
    ensures SpansFit(rows, SpansOf(selected, Sizes(rows)))
  {
    var spans := SpansOf(selected, Sizes(rows));
    forall i | 0 <= i < |spans| ensures SpanFits(rows, spans[i]) {
      SpanList(selected, Sizes(rows), i);
    }
  }

  /** Refining every scanned row is refining every row of the probed lists. */
  lemma ScanIsProbe(rows: seq<seq<Row>>, selected: seq<nat>, estimator: Estimator, score: Payload -> Ext)
    requires (forall l :: l in selected ==> l < |rows|) && TokenBase(selected, Sizes(rows)) <= UINT32_MAX
    ensures Bounded(SpansOf(selected, Sizes(rows)))
    ensures var spans := SpansOf(selected, Sizes(rows));
      Neighbors(ScanRows(spans, estimator), Find(rows, spans, score)) == ProbedNeighbors(rows, selected, score)
  {
    var spans, total := SpansOf(selected, Sizes(rows)), TokenBase(selected, Sizes(rows));
    SpansTile(selected, Sizes(rows));
    TilesBounded(spans, total);
    SpansOfFit(rows, selected);
    ScanRefined(rows, spans, total, |spans|, estimator, score);
    assert spans[..|spans|] == spans;
    SpansProbe(rows, selected, score);
  }

  // ---------------------------------------------------------------- distinct pairs

  lemma {:induction false} SpanListsDistinct(selected: seq<nat>, sizes: seq<nat>, i: nat, j: nat)
    requires Distinct(selected) && i < j < |SpansOf(selected, sizes)|
    ensures SpansOf(selected, sizes)[i].listNo != SpansOf(selected, sizes)[j].listNo
  {
    var front, l := selected[..|selected| - 1], selected[|selected| - 1];
    if j < |SpansOf(front, sizes)| {
      SpanListsDistinct(front, sizes, i, j);
    } else {
      SpanList(front, sizes, i);
      var k :| 0 <= k < |front| && front[k] == SpansOf(front, sizes)[i].listNo;
      assert selected[k] != selected[|selected| - 1];
    }
  }

  /** The span that holds a token. */
  lemma {:induction false} SpanOf(spans: seq<TokenSpan>, total: nat, t: nat) returns (i: nat)
    requires Tiles(spans, total) && t < total
    ensures i < |spans| && spans[i].begin <= t < spans[i].end
  {
    i := |spans| - 1;
    if t < spans[i].begin {
      TilesFront(spans, total);
      i := SpanOf(spans[..i], spans[i].begin, t);
    }
  }

  /** A token stands for a row of a probed list; distinct tokens stand for distinct rows. */
  lemma TokenRow(rows: seq<seq<Row>>, selected: seq<nat>, t: nat) returns (i: nat)
    requires (forall l :: l in selected ==> l < |rows|) && t < TokenBase(selected, Sizes(rows))
    ensures var spans := SpansOf(selected, Sizes(rows));
      && i < |spans| && spans[i].begin <= t < spans[i].end
      && Locate(spans, t) == ListCandidate(spans[i].listNo, t - spans[i].begin)
      && spans[i].listNo < |rows| && t - spans[i].begin < |rows[spans[i].listNo]|
  {
    var spans, total := SpansOf(selected, Sizes(rows)), TokenBase(selected, Sizes(rows));
    SpansTile(selected, Sizes(rows));
    SpansOfFit(rows, selected);
    i := SpanOf(spans, total, t);
    assert SpanFits(rows, spans[i]);
    LocateIs(spans, total, t, i);
  }

  lemma TokensDistinct(dir: Directory, rows: seq<seq<Row>>, nextId: nat, selected: seq<nat>, a: nat, b: nat)
    requires Agrees(dir, rows, nextId) && Distinct(selected) && forall l :: l in selected ==> l < |rows|
    requires a < b < TokenBase(selected, Sizes(rows))
    ensures var spans := SpansOf(selected, Sizes(rows));
      RowRecord(rows, Locate(spans, a)).id != RowRecord(rows, Locate(spans, b)).id
  {
    var spans := SpansOf(selected, Sizes(rows));
    var i := TokenRow(rows, selected, a);
    var j := TokenRow(rows, selected, b);
    var ca, cb := Locate(spans, a), Locate(spans, b);
    if rows[ca.listNo][ca.offset].id == rows[cb.listNo][cb.offset].id {
      IdsUnique(dir, rows, nextId, ca.listNo, ca.offset, cb.listNo, cb.offset);
      if i < j { SpanListsDistinct(selected, Sizes(rows), i, j); }
      if j < i { SpanListsDistinct(selected, Sizes(rows), j, i); }
    }
  }

  /** No two scanned rows yield the same pair. */
  lemma ScanUntied(dir: Directory, rows: seq<seq<Row>>, nextId: nat, selected: seq<nat>, estimator: Estimator, score: Payload -> Ext)
    requires Agrees(dir, rows, nextId) && Distinct(selected) && forall l :: l in selected ==> l < |rows|
    requires TokenBase(selected, Sizes(rows)) <= UINT32_MAX && Bounded(SpansOf(selected, Sizes(rows)))
    ensures var spans := SpansOf(selected, Sizes(rows));
      Untied(Nearer, Neighbors(ScanRows(spans, estimator), Find(rows, spans, score)))
  {
    var spans, total := SpansOf(selected, Sizes(rows)), TokenBase(selected, Sizes(rows));
    SpansTile(selected, Sizes(rows));
    TokensNumberRows(spans, total, estimator);
    var scanned := ScanRows(spans, estimator);
    var n := Neighbors(scanned, Find(rows, spans, score));
    forall a, b | 0 <= a < b < |n| ensures Nearer(n[a], n[b]) || Nearer(n[b], n[a]) {
      assert scanned[a].id == a && scanned[b].id == b;
      TokensDistinct(dir, rows, nextId, selected, a, b);
    }
  }

  // ---------------------------------------------------------------- selection

  /** The estimator never yields a negative radius. */
  ghost predicate ProperRadii(estimator: Estimator) {
    forall l: nat, o: nat :: NonNegative(DistanceEstimate(0, estimator(l, o).estimate, estimator(l, o).uncertainty))
  }

  lemma {:induction false} ScanNonNegative(spans: seq<TokenSpan>, estimator: Estimator, e: DistanceEstimate)
    requires Bounded(spans) && ProperRadii(estimator) && e in ScanRows(spans, estimator)
    ensures NonNegative(e)
  {
    var front, last := spans[..|spans| - 1], spans[|spans| - 1];
    if e in SpanRows(last, estimator) {
      var o: nat :| o < |SpanRows(last, estimator)| && SpanRows(last, estimator)[o] == e;
      assert NonNegative(DistanceEstimate(0, estimator(last.listNo, o).estimate, estimator(last.listNo, o).uncertainty));
    } else {
      ScanNonNegative(front, estimator, e);
    }
  }

  /** What a search asks for besides the lists it probes. */
  datatype Query = Query(k: nat, z: MaybeNaN, maxCandidates: nat, simd: bool)

  function Z(q: Query): (z: real)
    ensures ValidQuery(q) ==> z >= 0.0
  {
    ScoreValue(q.z)
  }

  predicate ValidQuery(q: Query) {
    ValidSelection(q.k, q.z, q.maxCandidates)
  }

  function Selected(q: Query, rows: seq<DistanceEstimate>): seq<DistanceEstimate> {
    if 0 < q.k <= |rows| then Select(q.simd, rows, Uppers(rows, Z(q)), q.k, Z(q), q.maxCandidates).candidates else []
  }

  method DecodeCandidates(spans: seq<TokenSpan>, candidates: seq<DistanceEstimate>, ghost total: nat) returns (r: seq<ListCandidate>)
    requires Tiles(spans, total) && AreTokens(candidates, total)
    ensures |r| == |candidates| && forall i :: 0 <= i < |r| ==> r[i] == Locate(spans, candidates[i].id)
  {
    r := [];
    for i := 0 to |candidates|
      invariant |r| == i && forall j :: 0 <= j < i ==> r[j] == Locate(spans, candidates[j].id)
    {
      var at := FindSpan(spans, candidates[i].id, total);
      LocateIs(spans, total, candidates[i].id, at);
      r := r + [ListCandidate(spans[at].listNo, candidates[i].id - spans[at].begin)];
    }
  }

  lemma SelectedAreTokens(q: Query, rows: seq<DistanceEstimate>, e: DistanceEstimate)
    requires 0 < q.k <= |rows| && e in Selected(q, rows)
    ensures e in rows
  {
    var t := KthUpper(Uppers(rows, Z(q)), q.k);
    FilterMembers(LowerTest(q.simd, Z(q), t), Shortlist(rows, q.maxCandidates), e);
    SortMembers(Before, rows, e);
  }

  /** The probe's size and the query's parameters pass every check. */
  ghost predicate Admissible(sizes: seq<nat>, selected: seq<nat>, q: Query) {
    && ValidQuery(q) && q.k <= TokenBase(selected, sizes) <= UINT32_MAX
    && Bounded(SpansOf(selected, sizes))
  }

  /** The selection's outcome over the probed lists. */
  ghost predicate Picked(sizes: seq<nat>, selected: seq<nat>, estimator: Estimator, q: Query, candidates: seq<DistanceEstimate>) {
    && Admissible(sizes, selected, q)
    && candidates == Selected(q, ScanRows(SpansOf(selected, sizes), estimator)) && |candidates| >= q.k
    && AreTokens(candidates, TokenBase(selected, sizes))
  }

  ghost predicate Decoded(sizes: seq<nat>, selected: seq<nat>, candidates: seq<DistanceEstimate>, decoded: seq<ListCandidate>) {
    |decoded| == |candidates|
    && forall i :: 0 <= i < |candidates| ==> decoded[i] == Locate(SpansOf(selected, sizes), candidates[i].id)
  }

  ghost predicate AreTokens(candidates: seq<DistanceEstimate>, total: nat) {
    forall i :: 0 <= i < |candidates| ==> candidates[i].id < total
  }

  lemma SelectedTokens(q: Query, spans: seq<TokenSpan>, total: nat, estimator: Estimator)
    requires Tiles(spans, total) && total <= UINT32_MAX && Bounded(spans) && 0 < q.k <= total
    ensures AreTokens(Selected(q, ScanRows(spans, estimator)), total)
  {
    TokensNumberRows(spans, total, estimator);
    var rows := ScanRows(spans, estimator);
    var c := Selected(q, rows);
    forall i | 0 <= i < |c| ensures c[i].id < total {
      assert c[i] in c;
      SelectedAreTokens(q, rows, c[i]);
    }
  }

  /** One scan over the spans; what it selects must have at least k members. */
  method SelectTokens(spans: seq<TokenSpan>, estimator: Estimator, q: Query, ghost total: nat) returns (r: Result<seq<DistanceEstimate>>)
    requires Tiles(spans, total) && total <= UINT32_MAX && Bounded(spans) && 0 < q.k <= total
    ensures r.Ok? <==> ValidQuery(q) && |Selected(q, ScanRows(spans, estimator))| >= q.k
    ensures r.Ok? ==> r.value == Selected(q, ScanRows(spans, estimator))
    ensures r.Err? ==> r.error == if ValidQuery(q) then LogicError else InvalidArgument
  {
    TokensNumberRows(spans, total, estimator);
    var result := ScanIntervalCandidates(spans, estimator, q.k, q.z, q.maxCandidates, q.simd, total);
    if result.Err? {
      return Err(result.error);
    }
    if |result.value.candidates| < q.k {
      return Err(LogicError);
    }
    return Ok(result.value.candidates);
  }

  /** The query is valid and the probed lists hold enough rows. */
  predicate Accepted(sizes: seq<nat>, activeCount: nat, selected: seq<nat>, q: Query) {
    ValidQuery(q) && q.k <= activeCount && q.k <= TokenBase(selected, sizes) <= UINT32_MAX
  }

  /** At least k of the scanned rows are selected. */
  ghost predicate Survive(sizes: seq<nat>, selected: seq<nat>, estimator: Estimator, q: Query) {
    Bounded(SpansOf(selected, sizes)) && |Selected(q, ScanRows(SpansOf(selected, sizes), estimator))| >= q.k
  }

  /** Selection over the probed lists, decoded back to (list, offset). */
  method SelectCandidates(sizes: seq<nat>, activeCount: nat, selected: seq<nat>, estimator: Estimator, q: Query)
    returns (r: Result<seq<ListCandidate>>, ghost candidates: seq<DistanceEstimate>)
    ensures r.Ok? <==> Accepted(sizes, activeCount, selected, q) && Survive(sizes, selected, estimator, q)
    ensures r.Ok? ==> Picked(sizes, selected, estimator, q, candidates) && Decoded(sizes, selected, candidates, r.value)
    ensures r.Err? ==> r.error in {InvalidArgument, Overflow, LogicError}
    ensures r == Err(LogicError) <==> Accepted(sizes, activeCount, selected, q) && !Survive(sizes, selected, estimator, q)
    ensures r == Err(Overflow) <==> 0 < q.k <= activeCount && TokenBase(selected, sizes) > UINT32_MAX
  {
    candidates := [];
    if q.k == 0 || activeCount < q.k {
      return Err(InvalidArgument), candidates;
    }
    var built, tokenBase := BuildSpans(selected, sizes);
    if built.Err? {
      return Err(built.error), candidates;
    }
    if tokenBase < q.k {
      return Err(InvalidArgument), candidates;
    }
    var spans := built.value;
    SpansTile(selected, sizes);
    TilesBounded(spans, tokenBase);
    var picked := SelectTokens(spans, estimator, q, tokenBase);
    if picked.Err? {
      return Err(picked.error), candidates;
    }
    SelectedTokens(q, spans, tokenBase, estimator);
    candidates := picked.value;
    var decoded := DecodeCandidates(spans, picked.value, tokenBase);
    return Ok(decoded), candidates;
  }

  /** Always true on the portable path; on the 16-lane path, k shortlisted rows must not be doubly infinite. */
  ghost predicate EnoughRows(sizes: seq<nat>, selected: seq<nat>, estimator: Estimator, q: Query) {
    q.simd ==>
      Bounded(SpansOf(selected, sizes)) &&
      Count(NotDoublyInfinite(Z(q)), Shortlist(ScanRows(SpansOf(selected, sizes), estimator), q.maxCandidates)) >= q.k
  }

  /** When exactly the error "fewer than topk" is raised, on either path. */
  lemma SurviveExactly(sizes: seq<nat>, activeCount: nat, selected: seq<nat>, estimator: Estimator, q: Query)
    requires Accepted(sizes, activeCount, selected, q) && ProperRadii(estimator)
    ensures Survive(sizes, selected, estimator, q) <==> EnoughRows(sizes, selected, estimator, q)
  {
    var spans, total := SpansOf(selected, sizes), TokenBase(selected, sizes);
    SpansTile(selected, sizes);
    TilesBounded(spans, total);
    TokensNumberRows(spans, total, estimator);
    var rows := ScanRows(spans, estimator);
    forall e | e in rows ensures NonNegative(e) { ScanNonNegative(spans, estimator, e); }
    if q.simd {
      LanesStarveExactly(rows, q.k, Z(q), q.maxCandidates);
    } else {
      NeverStarves(rows, q.k, Z(q), q.maxCandidates);
    }
  }

  // ---------------------------------------------------------------- the whole search

  /** The exact distance of every probed row lies in its interval, and no row defeats the 16-lane test. */
  ghost predicate Trustworthy(q: Query, rows: seq<DistanceEstimate>, find: Word -> Neighbor) {
    && (forall e :: e in rows ==> NonNegative(e) && IntervalHolds(e, Z(q), find))
    && (q.simd ==> forall e :: e in rows ==> !DoublyInfinite(Z(q), e))
  }

  ghost predicate ProbeTrusted(q: Query, s: IndexState, selected: seq<nat>, estimator: Estimator, score: Payload -> Ext) {
    var spans := SpansOf(selected, Sizes(s.rows));
    Bounded(spans) && Trustworthy(q, ScanRows(spans, estimator), Find(s.rows, spans, score))
  }

  /** The request that refinement gets. */
  function RequestFor(s: IndexState, layout: Layout, decoded: seq<ListCandidate>, score: Payload -> Ext): Request {
    Request(s.files, layout, decoded, score)
  }

  /** A decoded candidate's record is the record of its token's row. */
  lemma CandidateRow(shape: Shape, s: IndexState, layout: Layout, selected: seq<nat>, decoded: seq<ListCandidate>,
                     score: Payload -> Ext, i: nat, t: Word)
    requires Consistent(shape, s) && layout.recordsPerPage == shape.recordsPerPage && i < |decoded|
    requires (forall l :: l in selected ==> l < |s.rows|) && t < TokenBase(selected, Sizes(s.rows))
    requires decoded[i] == Locate(SpansOf(selected, Sizes(s.rows)), t)
    ensures decoded[i].listNo < |s.rows|
    ensures CandidateNeighbor(RequestFor(s, layout, decoded, score))(i) == [Find(s.rows, SpansOf(selected, Sizes(s.rows)), score)(t)]
  {
    DecodedSlot(shape, s, layout, selected, decoded, score, i, t);
  }

  lemma {:induction false} DecodedFound(q: Request, candidates: seq<DistanceEstimate>, find: Word -> Neighbor, n: nat)
    requires n <= |candidates|
    requires forall i: nat :: i < |candidates| ==> CandidateNeighbor(q)(i) == [find(candidates[i].id)]
    ensures FlatMap(CandidateNeighbor(q), UpTo(n)) == Neighbors(candidates[..n], find)
  {
    if n > 0 {
      DecodedFound(q, candidates, find, n - 1);
      assert UpTo(n)[..n - 1] == UpTo(n - 1);
      assert Neighbors(candidates[..n], find) == Neighbors(candidates[..n - 1], find) + [find(candidates[n - 1].id)];
    }
  }

  ghost predicate Probes(s: IndexState, selected: seq<nat>) {
    Distinct(selected) && forall l :: l in selected ==> l < |s.rows|
  }

  /** The shortlist has room for every probed row. */
  predicate Untruncated(q: Query, total: nat) {
    q.maxCandidates == 0 || q.maxCandidates >= total
  }

  /** The hypothesis of an exact answer: trusted intervals and no truncation. */
  ghost predicate Covered(q: Query, s: IndexState, selected: seq<nat>, estimator: Estimator, score: Payload -> Ext) {
    ProbeTrusted(q, s, selected, estimator, score) && Untruncated(q, TokenBase(selected, Sizes(s.rows)))
  }

  /** Refining the selection finds the nearest of all probed rows. */
  lemma SelectionSuffices(q: Query, shape: Shape, s: IndexState, selected: seq<nat>, estimator: Estimator, score: Payload -> Ext)
    requires Consistent(shape, s) && Probes(s, selected) && Admissible(Sizes(s.rows), selected, q)
    requires Covered(q, s, selected, estimator, score)
    ensures var spans := SpansOf(selected, Sizes(s.rows));
      TopK(Neighbors(Selected(q, ScanRows(spans, estimator)), Find(s.rows, spans, score)), q.k)
      == TopK(ProbedNeighbors(s.rows, selected, score), q.k)
  {
    var spans, total := SpansOf(selected, Sizes(s.rows)), TokenBase(selected, Sizes(s.rows));
    SpansTile(selected, Sizes(s.rows));
    TokensNumberRows(spans, total, estimator);
    ScanUntied(View(s.pages, shape.idsPerPage, s.nextId), s.rows, s.nextId, selected, estimator, score);
    SelectedLossless(q, ScanRows(spans, estimator), Find(s.rows, spans, score));
    ScanIsProbe(s.rows, selected, estimator, score);
  }

  lemma SelectedLossless(q: Query, rows: seq<DistanceEstimate>, find: Word -> Neighbor)
    requires ValidQuery(q) && q.k <= |rows|
    requires DistinctIds(rows) && Trustworthy(q, rows, find) && Untruncated(q, |rows|)
    requires Untied(Nearer, Neighbors(rows, find))
    ensures TopK(Neighbors(Selected(q, rows), find), q.k) == TopK(Neighbors(rows, find), q.k)
  {
    Lossless(q.simd, rows, q.k, Z(q), q.maxCandidates, find);
  }

  lemma FilesShaped(shape: Shape, s: IndexState, layout: Layout, decoded: seq<ListCandidate>, score: Payload -> Ext)
    requires Consistent(shape, s) && ValidLayout(layout) && layout.recordsPerPage == shape.recordsPerPage
    ensures StoreShape(RequestFor(s, layout, decoded, score), |s.rows|)
  {
    forall l | 0 <= l < |s.rows| ensures Uniform(s.files[l], layout.recordsPerPage) {
      assert Published(s.files[l], shape.recordsPerPage, Records(s.rows[l]));
    }
  }

  lemma DecodedPair(shape: Shape, s: IndexState, layout: Layout, selected: seq<nat>, estimator: Estimator, q: Query,
                    score: Payload -> Ext, decoded: seq<ListCandidate>, candidates: seq<DistanceEstimate>, i: nat)
    requires Consistent(shape, s) && layout.recordsPerPage == shape.recordsPerPage && Probes(s, selected)
    requires Picked(Sizes(s.rows), selected, estimator, q, candidates) && Decoded(Sizes(s.rows), selected, candidates, decoded)
    requires i < |candidates|
    ensures CandidateNeighbor(RequestFor(s, layout, decoded, score))(i)
         == [Find(s.rows, SpansOf(selected, Sizes(s.rows)), score)(candidates[i].id)]
  {
    CandidateRow(shape, s, layout, selected, decoded, score, i, candidates[i].id);
  }

  lemma SelectedRefined(shape: Shape, s: IndexState, layout: Layout, selected: seq<nat>, estimator: Estimator, q: Query,
                        score: Payload -> Ext, decoded: seq<ListCandidate>, candidates: seq<DistanceEstimate>)
    requires Consistent(shape, s) && layout.recordsPerPage == shape.recordsPerPage && Probes(s, selected)
    requires Picked(Sizes(s.rows), selected, estimator, q, candidates) && Decoded(Sizes(s.rows), selected, candidates, decoded)
    ensures AllNeighbors(RequestFor(s, layout, decoded, score))
         == Neighbors(candidates, Find(s.rows, SpansOf(selected, Sizes(s.rows)), score))
  {
    var request, find := RequestFor(s, layout, decoded, score), Find(s.rows, SpansOf(selected, Sizes(s.rows)), score);
    forall i: nat | i < |candidates| ensures CandidateNeighbor(request)(i) == [find(candidates[i].id)] {
      DecodedPair(shape, s, layout, selected, estimator, q, score, decoded, candidates, i);
    }
    DecodedFound(request, candidates, find, |candidates|);
    assert candidates[..|candidates|] == candidates;
  }

  /** What refinement of the decoded selection returns is the answer over all probed rows. */
  lemma NearestOfProbe(shape: Shape, s: IndexState, layout: Layout, selected: seq<nat>, estimator: Estimator, q: Query,
                       score: Payload -> Ext, decoded: seq<ListCandidate>, candidates: seq<DistanceEstimate>)
    requires Consistent(shape, s) && layout.recordsPerPage == shape.recordsPerPage && Probes(s, selected)
    requires Picked(Sizes(s.rows), selected, estimator, q, candidates) && Decoded(Sizes(s.rows), selected, candidates, decoded)
    requires Covered(q, s, selected, estimator, score)
    ensures TopK(AllNeighbors(RequestFor(s, layout, decoded, score)), q.k) == TopK(ProbedNeighbors(s.rows, selected, score), q.k)
  {
    SelectedRefined(shape, s, layout, selected, estimator, q, score, decoded, candidates);
    SelectionSuffices(q, shape, s, selected, estimator, score);
  }

  // ---------------------------------------------------------------- when a search succeeds

  lemma {:induction false} TokenBaseConcat(a: seq<nat>, b: seq<nat>, sizes: seq<nat>)
    ensures TokenBase(a + b, sizes) == TokenBase(a, sizes) + TokenBase(b, sizes)
  {
    if b == [] {
      assert a + b == a;
    } else {
      assert (a + b)[..|a + b| - 1] == a + b[..|b| - 1];
      TokenBaseConcat(a, b[..|b| - 1], sizes);
    }
  }

  lemma WithoutOne(selected: seq<nat>, j: nat, sizes: seq<nat>)
    requires Distinct(selected) && j < |selected|
    ensures var rest := selected[..j] + selected[j + 1..];
      && TokenBase(selected, sizes) == TokenBase(rest, sizes) + SizeOf(sizes, selected[j])
      && Distinct(rest) && forall l :: l in rest ==> l in selected && l != selected[j]
  {
    var a, b, x := selected[..j], selected[j + 1..], selected[j];
    assert selected == a + ([x] + b);
    TokenBaseConcat(a, [x] + b, sizes);
    TokenBaseConcat([x], b, sizes);
    TokenBaseConcat(a, b, sizes);
    assert TokenBase([x], sizes) == SizeOf(sizes, x) by { assert [x][..0] == []; }
    forall l | l in a + b ensures l in selected && l != x {
      var i :| 0 <= i < |selected| - 1 && (a + b)[i] == l;
      assert selected[if i < j then i else i + 1] == l;
    }
  }

  /** Distinct lists among the first `n` hold at most the rows of those lists. */
  lemma {:induction false} ProbedBelowTotal(rows: seq<seq<Row>>, selected: seq<nat>, n: nat)
    requires Distinct(selected) && n <= |rows| && forall l :: l in selected ==> l < n
    ensures TokenBase(selected, Sizes(rows)) <= RowTotal(rows, n)
  {
    if n == 0 {
      NonemptyHasMember(selected);
    } else if n - 1 in selected {
      var j :| 0 <= j < |selected| && selected[j] == n - 1;
      WithoutOne(selected, j, Sizes(rows));
      ProbedBelowTotal(rows, selected[..j] + selected[j + 1..], n - 1);
    } else {
      ProbedBelowTotal(rows, selected, n - 1);
    }
  }

  /** In a consistent index the tokens of a probe never run out, and the count check follows from the size check. */
  lemma ProbeFits(shape: Shape, s: IndexState, selected: seq<nat>, q: Query)
    requires Consistent(shape, s) && Probes(s, selected)
    ensures TokenBase(selected, Sizes(s.rows)) <= s.activeCount <= UINT32_MAX
    ensures Accepted(Sizes(s.rows), s.activeCount, selected, q) <==> ValidQuery(q) && q.k <= TokenBase(selected, Sizes(s.rows))
  {
    ProbedBelowTotal(s.rows, selected, |s.rows|);
  }

  /** Every selected row has a proper distance. */
  ghost predicate SelectedProper(q: Query, s: IndexState, selected: seq<nat>, estimator: Estimator, score: Payload -> Ext) {
    var spans := SpansOf(selected, Sizes(s.rows));
    Bounded(spans) && forall e :: e in Selected(q, ScanRows(spans, estimator)) ==> Scorable(RowRecord(s.rows, Locate(spans, e.id)), score)
  }

  /** Every row of the probed lists has a proper distance. */
  ghost predicate ProbedProper(s: IndexState, selected: seq<nat>, score: Payload -> Ext) {
    forall l, o :: l in selected && l < |s.rows| && 0 <= o < |s.rows[l]| ==> Scorable(RecordOf(s.rows[l][o]), score)
  }

  lemma TokenProper(s: IndexState, selected: seq<nat>, score: Payload -> Ext, t: nat)
    requires (forall l :: l in selected ==> l < |s.rows|) && t < TokenBase(selected, Sizes(s.rows))
    requires ProbedProper(s, selected, score)
    ensures Scorable(RowRecord(s.rows, Locate(SpansOf(selected, Sizes(s.rows)), t)), score)
  {
    var i := TokenRow(s.rows, selected, t);
    SpanList(selected, Sizes(s.rows), i);
  }

  lemma TokensProper(s: IndexState, selected: seq<nat>, score: Payload -> Ext, chosen: seq<DistanceEstimate>)
    requires (forall l :: l in selected ==> l < |s.rows|) && ProbedProper(s, selected, score)
    requires AreTokens(chosen, TokenBase(selected, Sizes(s.rows)))
    ensures forall e :: e in chosen ==> Scorable(RowRecord(s.rows, Locate(SpansOf(selected, Sizes(s.rows)), e.id)), score)
  {
    forall e | e in chosen ensures Scorable(RowRecord(s.rows, Locate(SpansOf(selected, Sizes(s.rows)), e.id)), score) {
      var n :| 0 <= n < |chosen| && chosen[n] == e;
      TokenProper(s, selected, score, chosen[n].id);
    }
  }

  lemma ChosenProper(q: Query, s: IndexState, selected: seq<nat>, estimator: Estimator, score: Payload -> Ext)
    requires (forall l :: l in selected ==> l < |s.rows|) && ProbedProper(s, selected, score)
    requires 0 < q.k <= TokenBase(selected, Sizes(s.rows)) <= UINT32_MAX && Bounded(SpansOf(selected, Sizes(s.rows)))
    ensures var spans := SpansOf(selected, Sizes(s.rows));
      forall e :: e in Selected(q, ScanRows(spans, estimator)) ==> Scorable(RowRecord(s.rows, Locate(spans, e.id)), score)
  {
    var spans, total := SpansOf(selected, Sizes(s.rows)), TokenBase(selected, Sizes(s.rows));
    SpansTile(selected, Sizes(s.rows));
    SelectedTokens(q, spans, total, estimator);
    TokensProper(s, selected, score, Selected(q, ScanRows(spans, estimator)));
  }

  lemma ProbedIncludesSelected(q: Query, s: IndexState, selected: seq<nat>, estimator: Estimator, score: Payload -> Ext)
    requires Probes(s, selected) && Accepted(Sizes(s.rows), s.activeCount, selected, q)
    requires ProbedProper(s, selected, score)
    ensures SelectedProper(q, s, selected, estimator, score)
  {
    var spans, total := SpansOf(selected, Sizes(s.rows)), TokenBase(selected, Sizes(s.rows));
    SpansTile(selected, Sizes(s.rows));
    TilesBounded(spans, total);
    ChosenProper(q, s, selected, estimator, score);
  }

  /** The decoded candidates have records with proper distances exactly if the selected rows do. */
  lemma DecodedSound(shape: Shape, s: IndexState, layout: Layout, selected: seq<nat>, estimator: Estimator, q: Query,
                     score: Payload -> Ext, decoded: seq<ListCandidate>, candidates: seq<DistanceEstimate>)
    requires Consistent(shape, s) && ValidLayout(layout) && layout.recordsPerPage == shape.recordsPerPage && Probes(s, selected)
    requires Picked(Sizes(s.rows), selected, estimator, q, candidates) && Decoded(Sizes(s.rows), selected, candidates, decoded)
    ensures AllSound(RequestFor(s, layout, decoded, score)) <==> SelectedProper(q, s, selected, estimator, score)
  {
    forall i: nat | i < |decoded|
      ensures CandidateSlot(RequestFor(s, layout, decoded, score), i)
           == Holds(RowRecord(s.rows, Locate(SpansOf(selected, Sizes(s.rows)), candidates[i].id)))
    {
      DecodedSlot(shape, s, layout, selected, decoded, score, i, candidates[i].id);
    }
    SlotsSound(RequestFor(s, layout, decoded, score), s.rows, SpansOf(selected, Sizes(s.rows)), candidates);
  }

  lemma SlotsSound(request: Request, rows: seq<seq<Row>>, spans: seq<TokenSpan>, candidates: seq<DistanceEstimate>)
    requires request.layout.recordsPerPage > 0 && |request.candidates| == |candidates|
    requires forall i: nat :: i < |candidates| ==> CandidateSlot(request, i) == Holds(RowRecord(rows, Locate(spans, candidates[i].id)))
    ensures AllSound(request) <==> forall e :: e in candidates ==> Scorable(RowRecord(rows, Locate(spans, e.id)), request.score)
  {
    var proper := (e: DistanceEstimate) => Scorable(RowRecord(rows, Locate(spans, e.id)), request.score);
    forall i: nat | i < |candidates| ensures CandidateSound(request, i) <==> proper(candidates[i]) {
    }
    SameForEach(candidates, proper);
  }

  lemma SameForEach<T(!new)>(s: seq<T>, p: T -> bool)
    ensures (forall x :: x in s ==> p(x)) <==> (forall i :: 0 <= i < |s| ==> p(s[i]))
  {
  }

  /** The decoded candidates pass the checks of the refiner, and their byte positions are representable. */
  lemma DecodedAccepted(shape: Shape, s: IndexState, layout: Layout, selected: seq<nat>, estimator: Estimator, q: Query,
                        score: Payload -> Ext, decoded: seq<ListCandidate>, candidates: seq<DistanceEstimate>)
    requires Consistent(shape, s) && ValidLayout(layout) && layout.recordsPerPage == shape.recordsPerPage && Probes(s, selected)
    requires Picked(Sizes(s.rows), selected, estimator, q, candidates) && Decoded(Sizes(s.rows), selected, candidates, decoded)
    ensures RequestAccepted(RequestFor(s, layout, decoded, score), |s.files|, q.k)
    ensures layout.pageSize <= 0x7fff_ffff ==> Representable(decoded, layout)
  {
    forall i | 0 <= i < |decoded|
      ensures decoded[i].listNo < |s.files|
      ensures layout.pageSize <= 0x7fff_ffff ==> (decoded[i].offset / layout.recordsPerPage + 1) * layout.pageSize <= OFF_T_MAX
    {
      DecodedWithin(shape, s, layout, selected, decoded, score, i, candidates[i].id);
    }
  }

  lemma DecodedWithin(shape: Shape, s: IndexState, layout: Layout, selected: seq<nat>, decoded: seq<ListCandidate>,
                      score: Payload -> Ext, i: nat, t: Word)
    requires Consistent(shape, s) && ValidLayout(layout) && layout.recordsPerPage == shape.recordsPerPage && i < |decoded|
    requires (forall l :: l in selected ==> l < |s.rows|) && t < TokenBase(selected, Sizes(s.rows))
    requires decoded[i] == Locate(SpansOf(selected, Sizes(s.rows)), t)
    ensures decoded[i].listNo < |s.files|
    ensures layout.pageSize <= 0x7fff_ffff ==> (decoded[i].offset / layout.recordsPerPage + 1) * layout.pageSize <= OFF_T_MAX
  {
    DecodedSlot(shape, s, layout, selected, decoded, score, i, t);
    if layout.pageSize <= 0x7fff_ffff { PageFits(decoded[i].offset, layout); }
  }

  lemma PageFits(offset: nat, layout: Layout)
    requires ValidLayout(layout) && offset < UINT32_MAX && layout.pageSize <= 0x7fff_ffff
    ensures (offset / layout.recordsPerPage + 1) * layout.pageSize <= OFF_T_MAX
  {
    QuotientParts(offset, layout.recordsPerPage);
    MulMonotone(1, layout.recordsPerPage, offset / layout.recordsPerPage);
    var page := offset / layout.recordsPerPage + 1;
    assert page <= UINT32_MAX;
    MulMonotone(page, UINT32_MAX, layout.pageSize);
  }

  /** The slot of a decoded candidate holds the record of its token's row. */
  lemma DecodedSlot(shape: Shape, s: IndexState, layout: Layout, selected: seq<nat>, decoded: seq<ListCandidate>,
                    score: Payload -> Ext, i: nat, t: Word)
    requires Consistent(shape, s) && layout.recordsPerPage == shape.recordsPerPage && i < |decoded|
    requires (forall l :: l in selected ==> l < |s.rows|) && t < TokenBase(selected, Sizes(s.rows))
    requires decoded[i] == Locate(SpansOf(selected, Sizes(s.rows)), t)
    ensures decoded[i].listNo < |s.rows| && decoded[i].offset < UINT32_MAX
    ensures CandidateSlot(RequestFor(s, layout, decoded, score), i)
         == Holds(RowRecord(s.rows, Locate(SpansOf(selected, Sizes(s.rows)), t)))
  {
    var at := TokenRow(s.rows, selected, t);
    var c := decoded[i];
    SizeBelowTotal(s.rows, |s.rows|, c.listNo);
    assert Published(s.files[c.listNo], shape.recordsPerPage, Records(s.rows[c.listNo]));
    assert SlotAt(s.files[c.listNo], shape.recordsPerPage, c.offset) == Holds(Records(s.rows[c.listNo])[c.offset]);
  }

  /** What a search returns: the nearest of the selected rows. */
  ghost function NearestSelectedRows(q: Query, s: IndexState, selected: seq<nat>, estimator: Estimator, score: Payload -> Ext): seq<Neighbor> {
    var spans := SpansOf(selected, Sizes(s.rows));
    if Bounded(spans) then TopK(Neighbors(Selected(q, ScanRows(spans, estimator)), Find(s.rows, spans, score)), q.k) else []
  }

  /** The kernel answers the requests of a search, and byte positions cannot overflow. */
  ghost predicate Dependable(layout: Layout, options: RefineOptions, kernel: Request -> seq<ReadPlan> -> Kernel) {
    layout.pageSize <= 0x7fff_ffff && forall request :: Answers(request, options, kernel(request))
  }

  /** The hypotheses on the kernel can be met together. */
  lemma HonestSearch(layout: Layout, options: RefineOptions)
    ensures forall request, plans :: Faithful(request, plans, Honest(request)(plans))
    ensures layout.pageSize <= 0x7fff_ffff ==> Dependable(layout, options, Honest)
  {
    forall request, plans
      ensures Faithful(request, plans, Honest(request)(plans)) && Reliable(request, plans, Honest(request)(plans))
    {
      HonestKernel(request, plans);
    }
  }

  /** A valid query for which enough rows are probed. */
  predicate Admitted(q: Query, s: IndexState, selected: seq<nat>) {
    ValidQuery(q) && q.k <= TokenBase(selected, Sizes(s.rows))
  }

  ghost predicate Succeeds(q: Query, s: IndexState, selected: seq<nat>, estimator: Estimator, score: Payload -> Ext) {
    Admitted(q, s, selected) && Survive(Sizes(s.rows), selected, estimator, q) && SelectedProper(q, s, selected, estimator, score)
  }

  /** Fewer than k rows are selected although enough were probed. */
  ghost predicate Starves(q: Query, s: IndexState, selected: seq<nat>, estimator: Estimator) {
    Admitted(q, s, selected) && !Survive(Sizes(s.rows), selected, estimator, q)
  }

  /** What guarantees success: a valid query, enough rows, and proper distances throughout the probed lists. */
  ghost predicate Searchable(q: Query, s: IndexState, selected: seq<nat>, estimator: Estimator, score: Payload -> Ext) {
    && Admitted(q, s, selected) && ProperRadii(estimator)
    && EnoughRows(Sizes(s.rows), selected, estimator, q) && ProbedProper(s, selected, score)
  }

  /** Success and starvation in terms of what the caller can see; the portable path never starves. */
  lemma SearchOutcomes(q: Query, shape: Shape, s: IndexState, selected: seq<nat>, estimator: Estimator, score: Payload -> Ext)
    requires Consistent(shape, s) && Probes(s, selected)
    ensures Searchable(q, s, selected, estimator, score) ==> Succeeds(q, s, selected, estimator, score)
    ensures ProperRadii(estimator) ==>
      (Starves(q, s, selected, estimator) <==> Admitted(q, s, selected) && !EnoughRows(Sizes(s.rows), selected, estimator, q))
  {
    ProbeFits(shape, s, selected, q);
    if Admitted(q, s, selected) && ProperRadii(estimator) {
      SurviveExactly(Sizes(s.rows), s.activeCount, selected, estimator, q);
      if ProbedProper(s, selected, score) { ProbedIncludesSelected(q, s, selected, estimator, score); }
    }
  }

  /**
   Select and refine over a consistent index. If every probed row's exact distance lies in its interval and the
   shortlist holds all probed rows, the answer is the k nearest (exact distance, Logical ID) pairs of the
   probed lists, ties included, on either instruction path, at every queue depth and for every kernel. With a
   kernel that reads what is there, a search fails only on a bad query, too few selected rows, or a selected
   row without a proper distance.
   */
  method SearchLists(ghost shape: Shape, ghost s: IndexState, files: seq<seq<Page>>, sizes: seq<nat>, activeCount: nat, layout: Layout,
                     selected: seq<nat>, estimator: Estimator, q: Query, score: Payload -> Ext,
                     options: RefineOptions, kernel: Request -> seq<ReadPlan> -> Kernel)
    returns (r: Result<seq<Neighbor>>)
    requires Consistent(shape, s) && files == s.files && sizes == Sizes(s.rows) && activeCount == s.activeCount
    requires ValidLayout(layout) && layout.recordsPerPage == shape.recordsPerPage && Probes(s, selected)
    requires 0 < options.queueDepth <= options.maxOpenFiles
    requires forall request, plans :: Faithful(request, plans, kernel(request)(plans))
    ensures r.Ok? ==> r.value == NearestSelectedRows(q, s, selected, estimator, score) && Succeeds(q, s, selected, estimator, score)
    ensures r.Ok? && Covered(q, s, selected, estimator, score) ==> r.value == TopK(ProbedNeighbors(s.rows, selected, score), q.k)
    ensures r == Err(LogicError) <==> Starves(q, s, selected, estimator)
    ensures Dependable(layout, options, kernel) ==> (r.Ok? <==> Succeeds(q, s, selected, estimator, score))
  {
    ProbeFits(shape, s, selected, q);
    var picked, candidates := SelectCandidates(sizes, activeCount, selected, estimator, q);
    if picked.Err? {
      return Err(picked.error);
    }
    r := RefineDecoded(shape, s, files, layout, picked.value, q.k, score, options, kernel);
    DecodedSound(shape, s, layout, selected, estimator, q, score, picked.value, candidates);
    DecodedAccepted(shape, s, layout, selected, estimator, q, score, picked.value, candidates);
    if r.Ok? {
      SelectedRefined(shape, s, layout, selected, estimator, q, score, picked.value, candidates);
      if Covered(q, s, selected, estimator, score) {
        NearestOfProbe(shape, s, layout, selected, estimator, q, score, picked.value, candidates);
      }
    }
  }

  method RefineDecoded(ghost shape: Shape, ghost s: IndexState, files: seq<seq<Page>>, layout: Layout, decoded: seq<ListCandidate>, k: nat,
                       score: Payload -> Ext, options: RefineOptions, kernel: Request -> seq<ReadPlan> -> Kernel)
    returns (r: Result<seq<Neighbor>>)
    requires Consistent(shape, s) && files == s.files && ValidLayout(layout) && layout.recordsPerPage == shape.recordsPerPage
    requires 0 < options.queueDepth <= options.maxOpenFiles
    requires forall request, plans :: Faithful(request, plans, kernel(request)(plans))
    ensures r.Ok? ==> r.value == TopK(AllNeighbors(RequestFor(s, layout, decoded, score)), k) && AllSound(RequestFor(s, layout, decoded, score))
    ensures var request := RequestFor(s, layout, decoded, score);
      Answers(request, options, kernel(request)) && Representable(decoded, layout) ==>
        (r.Ok? <==> RequestAccepted(request, |files|, k) && AllSound(request))
    ensures r != Err(LogicError)
  {
    var request := Request(files, layout, decoded, score);
    FilesShaped(shape, s, layout, decoded, score);
    assert forall plans :: Faithful(request, plans, kernel(request)(plans));
    r := Refine(request, |files|, options, kernel(request), k);
  }
}
