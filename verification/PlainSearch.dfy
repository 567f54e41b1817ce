/** What a search returns, in plain terms: rows of the probed lists, their exact distances, and the score as a number. */
module PlainSearch {
  import opened Arithmetic
  import opened Extended
  import opened Permutations
  import opened Sorting
  import opened RecordPages
  import opened Float32
  import opened Selection
  import opened SelectionGuarantees
  import opened ExactTopK
  import opened PlanProcessing
  import opened IndexRows
  import opened IndexFiles
  import opened Search
  import opened IndexSearch

  ghost predicate Probed(rows: seq<seq<Row>>, selected: seq<nat>, l: nat, o: nat) {
    l in selected && l < |rows| && o < |rows[l]|
  }

  /** The pair is a probed row's Logical ID and exact distance. */
  ghost predicate OfProbe(rows: seq<seq<Row>>, selected: seq<nat>, score: Payload -> Ext, n: Neighbor) {
    exists l: nat, o: nat :: Probed(rows, selected, l, o) && rows[l][o].id == n.id && score(rows[l][o].payload) == Fin(n.distance)
  }

  /** Nearest first, equal distances by ascending Logical ID. */
  ghost predicate Ascends(answer: seq<Neighbor>) {
    forall i, j :: 0 <= i < j < |answer| ==>
      answer[i].distance < answer[j].distance || (answer[i].distance == answer[j].distance && answer[i].id < answer[j].id)
  }

  ghost predicate RowsInOrder(rows: seq<seq<Row>>, selected: seq<nat>, score: Payload -> Ext, answer: seq<Neighbor>) {
    Ascends(answer) && forall i :: 0 <= i < |answer| ==> OfProbe(rows, selected, score, answer[i])
  }

  /** The row is in the answer, or farther away than all of it: a larger distance, or the same one and a larger ID. */
  ghost predicate NotMissed(row: Row, score: Payload -> Ext, answer: seq<Neighbor>) {
    score(row.payload).Fin? &&
    var d := score(row.payload).r;
    || Neighbor(row.id, d) in answer
    || forall i :: 0 <= i < |answer| ==> answer[i].distance < d || (answer[i].distance == d && answer[i].id < row.id)
  }

  ghost predicate NoneMissed(rows: seq<seq<Row>>, selected: seq<nat>, score: Payload -> Ext, answer: seq<Neighbor>) {
    forall l: nat, o: nat :: Probed(rows, selected, l, o) ==> NotMissed(rows[l][o], score, answer)
  }

  /** The distance lies within z radii of the estimate; an infinite radius says nothing. */
  ghost predicate Encloses(e: Estimate, z: real, d: real) {
    if z != 0.0 && e.uncertainty == PosInf then true
    else
      && Value(e.estimate).Fin?
      && var x := Value(e.estimate).r;
         if z == 0.0 then d == x
         else e.uncertainty.Fin? && x - z * e.uncertainty.r <= d <= x + z * e.uncertainty.r
  }

  /** A proper radius, and on the 16-lane path no infinite estimate with an infinite radius. */
  ghost predicate Usable(e: Estimate, z: real, simd: bool) {
    && (e.uncertainty == PosInf || (e.uncertainty.Fin? && e.uncertainty.r >= 0.0))
    && (simd && z != 0.0 && Value(e.estimate) == PosInf ==> e.uncertainty != PosInf)
  }

  ghost predicate TrustedRow(row: Row, e: Estimate, z: real, simd: bool, score: Payload -> Ext) {
    score(row.payload).Fin? && Usable(e, z, simd) && Encloses(e, z, score(row.payload).r)
  }

  /** Every probed row's exact distance lies in its interval at the score z. */
  ghost predicate TrustedAt(rows: seq<seq<Row>>, selected: seq<nat>, estimator: Estimator, z: real, simd: bool, score: Payload -> Ext) {
    forall l: nat, o: nat :: Probed(rows, selected, l, o) ==> TrustedRow(rows[l][o], estimator(l, o), z, simd, score)
  }

  /** The query has the score z, the intervals hold at it, and the shortlist has room for every probed row. */
  ghost predicate TrustedProbe(q: Query, z: real, rows: seq<seq<Row>>, selected: seq<nat>, estimator: Estimator, score: Payload -> Ext) {
    && q.z == Number(Fin(z)) && TrustedAt(rows, selected, estimator, z, q.simd, score)
    && (q.maxCandidates == 0 || TokenBase(selected, Sizes(rows)) <= q.maxCandidates)
  }

  /** The answer of a query with the score z: the nearest of the rows chosen at z. */
  ghost predicate AnswersAt(q: Query, z: real, s: IndexState, selected: seq<nat>, estimator: Estimator, score: Payload -> Ext,
                            answer: seq<Neighbor>)
  {
    var spans := SpansOf(selected, Sizes(s.rows));
    Bounded(spans) && NearestChosen(q, z, ScanRows(spans, estimator), Find(s.rows, spans, score), answer)
  }

  /** Nearest of the rows that a selection over the scanned ones chooses. */
  ghost predicate NearestChosen(q: Query, z: real, scan: seq<DistanceEstimate>, find: Word -> Neighbor, answer: seq<Neighbor>) {
    exists chosen ::
      && SelectedFrom(scan, q.k, z, q.maxCandidates, q.simd, chosen)
      && Nearest(answer, Neighbors(chosen.candidates, find), q.k)
  }

  // ---------------------------------------------------------------- what a search returns meets it

  lemma ScanFacts(shape: Shape, s: IndexState, selected: seq<nat>, estimator: Estimator)
    requires Consistent(shape, s) && Probes(s, selected)
    ensures var (spans, total) := (SpansOf(selected, Sizes(s.rows)), TokenBase(selected, Sizes(s.rows)));
      && total <= UINT32_MAX && Tiles(spans, total) && Bounded(spans)
      && |ScanRows(spans, estimator)| == total && DistinctIds(ScanRows(spans, estimator))
      && forall t :: 0 <= t < total ==> ScanRows(spans, estimator)[t].id == t
  {
    var spans, total := SpansOf(selected, Sizes(s.rows)), TokenBase(selected, Sizes(s.rows));
    ProbedBelowTotal(s.rows, selected, |s.rows|);
    SpansTile(selected, Sizes(s.rows));
    TilesBounded(spans, total);
    TokensNumberRows(spans, total, estimator);
  }

  /** The answer is that of the score as a number. */
  lemma AnswersPlainly(shape: Shape, s: IndexState, selected: seq<nat>, estimator: Estimator, q: Query, z: real, score: Payload -> Ext)
    requires Consistent(shape, s) && Probes(s, selected) && Admitted(q, s, selected) && q.z == Number(Fin(z))
    ensures AnswersAt(q, z, s, selected, estimator, score, NearestSelectedRows(q, s, selected, estimator, score))
  {
    ScanFacts(shape, s, selected, estimator);
    var spans := SpansOf(selected, Sizes(s.rows));
    ChosenNearest(q, z, ScanRows(spans, estimator), Find(s.rows, spans, score));
  }

  lemma ChosenNearest(q: Query, z: real, scan: seq<DistanceEstimate>, find: Word -> Neighbor)
    requires 0 < q.k <= |scan| && DistinctIds(scan) && q.z == Number(Fin(z))
    ensures NearestChosen(q, z, scan, find, TopK(Neighbors(Selected(q, scan), find), q.k))
  {
    SelectIsFrom(scan, q.k, z, q.maxCandidates, q.simd);
    TopKNearest(Neighbors(Selected(q, scan), find), q.k);
  }

  lemma ScannedRow(span: TokenSpan, estimator: Estimator, o: nat)
    requires span.begin + o < 0x1_0000_0000
    ensures SpanRow(span, estimator, o)
         == DistanceEstimate(span.begin + o, estimator(span.listNo, o).estimate, estimator(span.listNo, o).uncertainty)
  {
  }

  ghost predicate InLists(rows: seq<seq<Row>>, selected: seq<nat>) {
    forall l :: l in selected ==> l < |rows|
  }

  /** A token's row, and what refinement finds for it. */
  lemma TokenPlace(rows: seq<seq<Row>>, selected: seq<nat>, score: Payload -> Ext, spans: seq<TokenSpan>, t: Word) returns (i: nat, o: nat)
    requires InLists(rows, selected) && t < TokenBase(selected, Sizes(rows)) && spans == SpansOf(selected, Sizes(rows))
    ensures i < |spans| && spans[i].begin <= t < spans[i].end && o == t - spans[i].begin
    ensures Probed(rows, selected, spans[i].listNo, o) && RowRecord(rows, Locate(spans, t)) == RecordOf(rows[spans[i].listNo][o])
    ensures Find(rows, spans, score)(t) == NeighborOf(RecordOf(rows[spans[i].listNo][o]), score)
  {
    i := TokenRow(rows, selected, t);
    SpanList(selected, Sizes(rows), i);
    o := t - spans[i].begin;
  }

  /** The pair found for a token with a proper distance is that of a probed row. */
  lemma TokenOfProbe(rows: seq<seq<Row>>, selected: seq<nat>, score: Payload -> Ext, spans: seq<TokenSpan>, t: Word)
    requires InLists(rows, selected) && t < TokenBase(selected, Sizes(rows)) && spans == SpansOf(selected, Sizes(rows))
    requires Scorable(RowRecord(rows, Locate(spans, t)), score)
    ensures OfProbe(rows, selected, score, Find(rows, spans, score)(t))
  {
    var i, o := TokenPlace(rows, selected, score, spans, t);
    assert Probed(rows, selected, spans[i].listNo, o);
  }

  /** What was estimated for it. */
  lemma ScannedAt(spans: seq<TokenSpan>, total: nat, estimator: Estimator, i: nat, t: Word, l: nat, o: nat)
    requires Tiles(spans, total) && Bounded(spans) && i < |spans| && spans[i].begin <= t < spans[i].end
    requires l == spans[i].listNo && o == t - spans[i].begin
    ensures t < |ScanRows(spans, estimator)|
    ensures ScanRows(spans, estimator)[t] == DistanceEstimate(t, estimator(l, o).estimate, estimator(l, o).uncertainty)
  {
    TokenScanned(spans, total, estimator, i, t);
    ScannedRow(spans[i], estimator, o);
  }

  lemma RowTrusted(row: Row, e: Estimate, x: DistanceEstimate, z: real, simd: bool, score: Payload -> Ext, find: Word -> Neighbor)
    requires TrustedRow(row, e, z, simd, score) && z >= 0.0 && find(x.id) == NeighborOf(RecordOf(row), score)
    requires x.estimate == e.estimate && x.uncertainty == e.uncertainty
    ensures Trusted(x, z, simd, find)
  {
    if e.uncertainty == Fin(0.0) { assert z * e.uncertainty.r == 0.0; }
  }

  ghost predicate Trusted(x: DistanceEstimate, z: real, simd: bool, find: Word -> Neighbor) {
    NonNegative(x) && IntervalHolds(x, z, find) && (simd ==> !DoublyInfinite(z, x))
  }

  /** The probed row behind a token and what was estimated for it. */
  lemma TokenScan(rows: seq<seq<Row>>, selected: seq<nat>, estimator: Estimator, score: Payload -> Ext, spans: seq<TokenSpan>, total: nat, t: Word)
    returns (l: nat, o: nat)
    requires InLists(rows, selected) && t < total == TokenBase(selected, Sizes(rows)) && spans == SpansOf(selected, Sizes(rows))
    requires Tiles(spans, total) && Bounded(spans)
    ensures Probed(rows, selected, l, o) && Find(rows, spans, score)(t) == NeighborOf(RecordOf(rows[l][o]), score)
    ensures t < |ScanRows(spans, estimator)|
    ensures ScanRows(spans, estimator)[t] == DistanceEstimate(t, estimator(l, o).estimate, estimator(l, o).uncertainty)
  {
    var i;
    i, o := TokenPlace(rows, selected, score, spans, t);
    l := spans[i].listNo;
    ScannedAt(spans, total, estimator, i, t, l, o);
  }

  lemma ProbedTrusted(rows: seq<seq<Row>>, selected: seq<nat>, estimator: Estimator, z: real, simd: bool, score: Payload -> Ext,
                      find: Word -> Neighbor, l: nat, o: nat, x: DistanceEstimate)
    requires TrustedAt(rows, selected, estimator, z, simd, score) && z >= 0.0 && Probed(rows, selected, l, o)
    requires find(x.id) == NeighborOf(RecordOf(rows[l][o]), score)
    requires x.estimate == estimator(l, o).estimate && x.uncertainty == estimator(l, o).uncertainty
    ensures Trusted(x, z, simd, find)
  {
    RowTrusted(rows[l][o], estimator(l, o), x, z, simd, score, find);
  }

  /** Intervals that hold at the number z hold at the score of the query. */
  lemma TrustedCovers(shape: Shape, s: IndexState, selected: seq<nat>, estimator: Estimator, q: Query, z: real, score: Payload -> Ext)
    requires Consistent(shape, s) && Probes(s, selected) && ValidQuery(q) && q.z == Number(Fin(z))
    requires TrustedAt(s.rows, selected, estimator, z, q.simd, score)
    ensures ProbeTrusted(q, s, selected, estimator, score)
  {
    ScanFacts(shape, s, selected, estimator);
    var spans := SpansOf(selected, Sizes(s.rows));
    var scan, find := ScanRows(spans, estimator), Find(s.rows, spans, score);
    forall t: nat | t < |scan| ensures Trusted(scan[t], z, q.simd, find) {
      var l, o := TokenScan(s.rows, selected, estimator, score, spans, |scan|, t);
      ProbedTrusted(s.rows, selected, estimator, z, q.simd, score, find, l, o, scan[t]);
    }
    AllTrusted(q, z, scan, find);
  }

  lemma AllTrusted(q: Query, z: real, scan: seq<DistanceEstimate>, find: Word -> Neighbor)
    requires q.z == Number(Fin(z)) && forall t: nat :: t < |scan| ==> Trusted(scan[t], z, q.simd, find)
    ensures Trustworthy(q, scan, find)
  {
  }

  /** The pairs of an answer are rows of the probed lists in strict order. */
  lemma AnswerInOrder(shape: Shape, s: IndexState, selected: seq<nat>, estimator: Estimator, q: Query, score: Payload -> Ext)
    requires Consistent(shape, s) && Probes(s, selected) && Succeeds(q, s, selected, estimator, score)
    ensures var answer := NearestSelectedRows(q, s, selected, estimator, score);
      |answer| == q.k && RowsInOrder(s.rows, selected, score, answer)
  {
    ScanFacts(shape, s, selected, estimator);
    AnswerAscends(shape, s, selected, estimator, q, score);
    var answer := NearestSelectedRows(q, s, selected, estimator, score);
    forall i | 0 <= i < |answer| ensures OfProbe(s.rows, selected, score, answer[i]) {
      AnswerRow(shape, s, selected, estimator, q, score, i);
    }
  }

  lemma AnswerAscends(shape: Shape, s: IndexState, selected: seq<nat>, estimator: Estimator, q: Query, score: Payload -> Ext)
    requires Consistent(shape, s) && Probes(s, selected) && Admitted(q, s, selected)
    ensures Ascends(NearestSelectedRows(q, s, selected, estimator, score))
  {
    ScanFacts(shape, s, selected, estimator);
    var spans := SpansOf(selected, Sizes(s.rows));
    var scan, find := ScanRows(spans, estimator), Find(s.rows, spans, score);
    ChosenDistinct(q, scan);
    ScanUntied(View(s.pages, shape.idsPerPage, s.nextId), s.rows, s.nextId, selected, estimator, score);
    NeighborsDistinct(Selected(q, scan), scan, find);
    StrictTop(Neighbors(Selected(q, scan), find), q.k);
  }

  lemma AnswerRow(shape: Shape, s: IndexState, selected: seq<nat>, estimator: Estimator, q: Query, score: Payload -> Ext, i: nat)
    requires Consistent(shape, s) && Probes(s, selected) && Succeeds(q, s, selected, estimator, score)
    requires i < |NearestSelectedRows(q, s, selected, estimator, score)|
    ensures OfProbe(s.rows, selected, score, NearestSelectedRows(q, s, selected, estimator, score)[i])
  {
    ScanFacts(shape, s, selected, estimator);
    var spans := SpansOf(selected, Sizes(s.rows));
    var scan := ScanRows(spans, estimator);
    var e := AnswerMember(Selected(q, scan), Find(s.rows, spans, score), q.k, i);
    SelectedAreTokens(q, scan, e);
    ScanId(scan, e);
    TokenOfProbe(s.rows, selected, score, spans, e.id);
  }

  lemma ScanId(scan: seq<DistanceEstimate>, e: DistanceEstimate)
    requires e in scan && forall t :: 0 <= t < |scan| ==> scan[t].id == t
    ensures e.id < |scan|
  {
  }

  lemma StrictTop(all: seq<Neighbor>, k: nat)
    requires Untied(Nearer, all)
    ensures Ascends(TopK(all, k))
  {
    NearerOrder();
    SortStrict(Nearer, all);
    TakeStrict(Nearer, Sort(Nearer, all), k);
  }

  lemma AnswerMember(chosen: seq<DistanceEstimate>, find: Word -> Neighbor, k: nat, i: nat) returns (e: DistanceEstimate)
    requires i < |TopK(Neighbors(chosen, find), k)|
    ensures e in chosen && find(e.id) == TopK(Neighbors(chosen, find), k)[i]
  {
    var n := TopK(Neighbors(chosen, find), k)[i];
    assert n == Sort(Nearer, Neighbors(chosen, find))[i];
    SortMembers(Nearer, Neighbors(chosen, find), n);
    var j :| 0 <= j < |chosen| && Neighbors(chosen, find)[j] == n;
    e := chosen[j];
  }

  lemma ChosenDistinct(q: Query, scan: seq<DistanceEstimate>)
    requires 0 < q.k <= |scan| && DistinctIds(scan)
    ensures DistinctIds(Selected(q, scan)) && forall e :: e in Selected(q, scan) ==> e in scan
  {
    SortedDistinct(scan);
    FilterDistinct(LowerTest(q.simd, Z(q), KthUpper(Uppers(scan, Z(q)), q.k)), Shortlist(scan, q.maxCandidates));
    forall e | e in Selected(q, scan) ensures e in scan { SelectedAreTokens(q, scan, e); }
  }

  lemma ProbedMember(rows: seq<seq<Row>>, selected: seq<nat>, score: Payload -> Ext, l: nat, o: nat)
    requires Probed(rows, selected, l, o)
    ensures NeighborOf(RecordOf(rows[l][o]), score) in ProbedNeighbors(rows, selected, score)
  {
    assert ListNeighbors(rows, score)(l)[o] == NeighborOf(RecordOf(rows[l][o]), score);
    InFlatMap(ListNeighbors(rows, score), selected, l, NeighborOf(RecordOf(rows[l][o]), score));
  }

  lemma MemberNotMissed(row: Row, score: Payload -> Ext, all: seq<Neighbor>, k: nat, answer: seq<Neighbor>)
    requires score(row.payload).Fin? && NeighborOf(RecordOf(row), score) in all && Nearest(answer, all, k)
    ensures NotMissed(row, score, answer)
  {
    var n := NeighborOf(RecordOf(row), score);
    if n !in answer { assert n in multiset(all) - multiset(answer); }
  }

  /** The nearest of all probed rows miss none of them. */
  lemma NearestMissNone(rows: seq<seq<Row>>, selected: seq<nat>, score: Payload -> Ext, k: nat)
    requires forall l: nat, o: nat :: Probed(rows, selected, l, o) ==> score(rows[l][o].payload).Fin?
    ensures NoneMissed(rows, selected, score, TopK(ProbedNeighbors(rows, selected, score), k))
  {
    var all := ProbedNeighbors(rows, selected, score);
    TopKNearest(all, k);
    forall l: nat, o: nat | Probed(rows, selected, l, o) ensures NotMissed(rows[l][o], score, TopK(all, k)) {
      ProbedMember(rows, selected, score, l, o);
      MemberNotMissed(rows[l][o], score, all, k, TopK(all, k));
    }
  }

  /** With trusted intervals and no truncation nothing is missed. */
  lemma TrustedAnswer(shape: Shape, s: IndexState, selected: seq<nat>, estimator: Estimator, q: Query, z: real, score: Payload -> Ext)
    requires Consistent(shape, s) && Probes(s, selected) && Admitted(q, s, selected)
    requires TrustedProbe(q, z, s.rows, selected, estimator, score)
    ensures Covered(q, s, selected, estimator, score)
    ensures NoneMissed(s.rows, selected, score, TopK(ProbedNeighbors(s.rows, selected, score), q.k))
  {
    TrustedCovers(shape, s, selected, estimator, q, z, score);
    forall l: nat, o: nat | Probed(s.rows, selected, l, o) ensures score(s.rows[l][o].payload).Fin? {
      assert TrustedRow(s.rows[l][o], estimator(l, o), z, q.simd, score);
    }
    NearestMissNone(s.rows, selected, score, q.k);
  }

  /** A search's answer in plain terms. */
  lemma PlainAnswer(shape: Shape, s: IndexState, selected: seq<nat>, estimator: Estimator, q: Query, score: Payload -> Ext, answer: seq<Neighbor>)
    requires Consistent(shape, s) && Probes(s, selected) && Succeeds(q, s, selected, estimator, score)
    requires answer == NearestSelectedRows(q, s, selected, estimator, score)
    requires Covered(q, s, selected, estimator, score) ==> answer == TopK(ProbedNeighbors(s.rows, selected, score), q.k)
    ensures |answer| == q.k && RowsInOrder(s.rows, selected, score, answer)
    ensures forall z: real :: q.z == Number(Fin(z)) ==> AnswersAt(q, z, s, selected, estimator, score, answer)
    ensures forall z: real :: TrustedProbe(q, z, s.rows, selected, estimator, score) ==> NoneMissed(s.rows, selected, score, answer)
  {
    AnswerInOrder(shape, s, selected, estimator, q, score);
    forall z: real | q.z == Number(Fin(z)) ensures AnswersAt(q, z, s, selected, estimator, score, answer) {
      AnswersPlainly(shape, s, selected, estimator, q, z, score);
    }
    forall z: real | TrustedProbe(q, z, s.rows, selected, estimator, score) ensures NoneMissed(s.rows, selected, score, answer) {
      TrustedAnswer(shape, s, selected, estimator, q, z, score);
    }
  }
}
