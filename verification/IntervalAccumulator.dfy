/** The streaming selector of src/fastscan.cpp, proved to return what `Selection.Select` says. */
module IntervalAccumulator {
  import opened Arithmetic
  import opened Extended
  import opened Sorting
  import opened Float32
  import opened FuzzyRank
  import opened Selection
  import opened PlainSelection
  import opened Reservoir
  import opened Outcomes
  import UpperHeap

  /** The first `n` positions of the three structure-of-arrays planes, read as rows. */
  function RowsOf(estimates: seq<Float>, uncertainties: seq<Ext>, ids: seq<Word>, n: nat): (rows: seq<DistanceEstimate>)
    requires n <= |estimates| == |uncertainties| == |ids|
    ensures |rows| == n
  {
    seq(n, i requires 0 <= i < n => DistanceEstimate(ids[i], estimates[i], uncertainties[i]))
  }

  function Estimates(rows: seq<DistanceEstimate>): (s: seq<Float>)
    ensures |s| == |rows|
  {
    seq(|rows|, i requires 0 <= i < |rows| => rows[i].estimate)
  }

  function Uncertainties(rows: seq<DistanceEstimate>): (s: seq<Ext>)
    ensures |s| == |rows|
  {
    seq(|rows|, i requires 0 <= i < |rows| => rows[i].uncertainty)
  }

  function Ids(rows: seq<DistanceEstimate>): (s: seq<Word>)
    ensures |s| == |rows|
  {
    seq(|rows|, i requires 0 <= i < |rows| => rows[i].id)
  }

  /** Overwriting a run of positions, as one masked compress-store does. */
  function Store<T>(plane: seq<T>, at: nat, lanes: seq<T>): (r: seq<T>)
    requires at + |lanes| <= |plane|
    ensures |r| == |plane|
    ensures forall i :: 0 <= i < |plane| ==> r[i] == if at <= i < at + |lanes| then lanes[i - at] else plane[i]
  {
    plane[..at] + lanes + plane[at + |lanes|..]
  }

  function RowAt(estimates: seq<Float>, uncertainties: seq<Ext>, ids: seq<Word>, i: nat): DistanceEstimate
    requires i < |estimates| == |uncertainties| == |ids|
  {
    DistanceEstimate(ids[i], estimates[i], uncertainties[i])
  }

  /** Writing one row at position `at` of all three planes. */
  lemma PutRow(estimates: seq<Float>, uncertainties: seq<Ext>, ids: seq<Word>, at: nat, e: DistanceEstimate)
    requires at < |estimates| == |uncertainties| == |ids|
    ensures var (f, u, w) := (estimates[at := e.estimate], uncertainties[at := e.uncertainty], ids[at := e.id]);
      && RowsOf(f, u, w, at + 1) == RowsOf(estimates, uncertainties, ids, at) + [e]
      && (forall i :: at < i < |ids| ==> RowAt(f, u, w, i) == RowAt(estimates, uncertainties, ids, i))
  {
  }

  /** A masked store of rows extends the prefix it starts at and leaves the later positions alone. */
  lemma StoreRows(estimates: seq<Float>, uncertainties: seq<Ext>, ids: seq<Word>, at: nat, rows: seq<DistanceEstimate>)
    requires at + |rows| <= |estimates| == |uncertainties| == |ids|
    ensures RowsOf(Store(estimates, at, Estimates(rows)), Store(uncertainties, at, Uncertainties(rows)),
                   Store(ids, at, Ids(rows)), at + |rows|)
         == RowsOf(estimates, uncertainties, ids, at) + rows
    ensures forall i :: at + |rows| <= i < |ids| ==>
      RowAt(Store(estimates, at, Estimates(rows)), Store(uncertainties, at, Uncertainties(rows)), Store(ids, at, Ids(rows)), i)
      == RowAt(estimates, uncertainties, ids, i)
  {
  }

  class FusedIntervalAccumulator {
    const topk: nat
    const zScore: real
    const maxCandidates: nat
    /** Whether the 16-lane compaction and lower test are used instead of the scalar ones. */
    const simd: bool

    var reservoirCapacity: nat
    var reservoirSize: nat
    var seen: nat
    var smallestUppers: seq<Ext>
    var estimates: seq<Float>
    var uncertainties: seq<Ext>
    var ids: seq<Word>
    var threshold: Threshold

    /** Every row and every upper endpoint scanned so far. */
    ghost var scanned: seq<DistanceEstimate>
    ghost var uppers: seq<Ext>

    /** The planes agree in length; with a cap they are never reallocated. */
    ghost predicate Planes(slack: nat)
      reads this
    {
      && topk > 0 && zScore >= 0.0 && (maxCandidates > 0 ==> maxCandidates >= topk)
      && |estimates| == |uncertainties| == |ids|
      && reservoirSize <= |estimates|
      && (maxCandidates > 0 ==>
            && reservoirCapacity == 2 * maxCandidates
            && |estimates| == reservoirCapacity + 16
            && reservoirSize < reservoirCapacity + slack)
      && (maxCandidates == 0 ==> reservoirSize == |estimates|)
    }

    ghost function Held(): seq<DistanceEstimate>
      reads this
      requires reservoirSize <= |estimates| == |uncertainties| == |ids|
    {
      RowsOf(estimates, uncertainties, ids, reservoirSize)
    }

    ghost predicate Valid()
      reads this
    {
      && Planes(0)
      && seen == |scanned| == |uppers|
      && smallestUppers == Take(Sort(Lt, uppers), topk)
      && Holds(Held(), scanned, threshold, maxCandidates)
    }

    constructor Accepted(topk: nat, zScore: real, maxCandidates: nat, simd: bool)
      requires topk > 0 && zScore >= 0.0 && (maxCandidates > 0 ==> maxCandidates >= topk)
      ensures Valid() && scanned == [] && uppers == []
      ensures this.topk == topk && this.zScore == zScore && this.maxCandidates == maxCandidates && this.simd == simd
    {
      this.topk, this.zScore, this.maxCandidates, this.simd := topk, zScore, maxCandidates, simd;
      var slots := if maxCandidates > 0 then 2 * maxCandidates + 16 else 0;
      reservoirCapacity := if maxCandidates > 0 then 2 * maxCandidates else 0;
      reservoirSize, seen, smallestUppers, threshold := 0, 0, [], Open;
      estimates := seq(slots, _ => 0);
      uncertainties := seq(slots, _ => Fin(0.0));
      ids := seq(slots, _ => 0);
      scanned, uppers := [], [];
    }

    /** The parameter check of the constructor, then the constructor. */
    static method Create(topk: nat, zScore: MaybeNaN, maxCandidates: nat, simd: bool)
      returns (r: Result<FusedIntervalAccumulator>)
      ensures r.Ok? <==> topk > 0 && zScore.Number? && zScore.value.Fin? && zScore.value.r >= 0.0 && (maxCandidates > 0 ==> maxCandidates >= topk) &&
                         maxCandidates <= SIZE_MAX / 2
      ensures r.Err? ==> r.error == InvalidArgument
      ensures r.Ok? ==> fresh(r.value) && r.value.Valid() && r.value.scanned == [] && r.value.uppers == []
      ensures r.Ok? ==> r.value.topk == topk && r.value.maxCandidates == maxCandidates && r.value.simd == simd
      ensures r.Ok? ==> zScore == Number(Fin(r.value.zScore))
    {
      if topk == 0 || !zScore.Number? || !zScore.value.Fin? || zScore.value.r < 0.0 ||
         (maxCandidates > 0 && maxCandidates < topk) || maxCandidates > SIZE_MAX / 2 {
        return Err(InvalidArgument);
      }
      var a := new FusedIntervalAccumulator.Accepted(topk, zScore.value.r, maxCandidates, simd);
      return Ok(a);
    }

    // -------------------------------------------------------------- upper endpoints

    method UpdateUpper(upper: Ext)
      requires topk > 0 && |smallestUppers| <= topk
      modifies this`smallestUppers
      ensures smallestUppers == UpperHeap.Update(old(smallestUppers), upper, topk)
    {
      if |smallestUppers| < topk {
        smallestUppers := Insert(Lt, upper, smallestUppers);
      } else if Lt(upper, UpperHeap.Top(smallestUppers)) {
        smallestUppers := smallestUppers[..|smallestUppers| - 1];
        smallestUppers := Insert(Lt, upper, smallestUppers);
      }
    }

    method UpdateUppers(batch: seq<Ext>)
      requires topk > 0 && |smallestUppers| <= topk
      modifies this`smallestUppers
      ensures smallestUppers == UpperHeap.UpdateAll(old(smallestUppers), batch, topk)
    {
      for lane := 0 to |batch|
        invariant smallestUppers == UpperHeap.UpdateAll(old(smallestUppers), batch[..lane], topk)
      {
        assert batch[..lane + 1][..lane] == batch[..lane];
        UpdateUpper(batch[lane]);
      }
      assert batch[..|batch|] == batch;
    }

    /** The scalar upper stage: every lane reaches the heap. */
    method UpperStage(newUppers: seq<Ext>)
      requires topk > 0 && smallestUppers == Take(Sort(Lt, uppers), topk)
      modifies this`smallestUppers, this`uppers
      ensures uppers == old(uppers) + newUppers
      ensures smallestUppers == Take(Sort(Lt, uppers), topk)
    {
      UpperHeap.UpdateAllTake(uppers, newUppers, topk);
      UpdateUppers(newUppers);
      uppers := uppers + newUppers;
    }

    /** The register upper stage: only lanes below the top the batch started with reach the heap. */
    method MaskedUpperStage(newUppers: seq<Ext>)
      requires topk > 0 && smallestUppers == Take(Sort(Lt, uppers), topk)
      modifies this`smallestUppers, this`uppers
      ensures uppers == old(uppers) + newUppers
      ensures smallestUppers == Take(Sort(Lt, uppers), topk)
    {
      LtOrder();
      SortSorted(Lt, uppers);
      UpperHeap.StaleRejectsHarmless(smallestUppers, newUppers, topk);
      UpperHeap.UpdateAllTake(uppers, newUppers, topk);
      var passing := Filter(UpperHeap.Passes(smallestUppers, topk), newUppers);
      UpdateUppers(passing);
      uppers := uppers + newUppers;
    }

    // -------------------------------------------------------------- the reservoir

    method EnsureUncappedSpace(count: nat)
      requires reservoirSize <= |estimates| == |uncertainties| == |ids|
      modifies this`estimates, this`uncertainties, this`ids
      ensures |estimates| == |uncertainties| == |ids|
      ensures |estimates| == if maxCandidates > 0 then old(|estimates|) else reservoirSize + count
      ensures reservoirSize <= |estimates| && Held() == old(Held())
    {
      if maxCandidates > 0 {
        return;
      }
      estimates := estimates[..reservoirSize] + seq(count, _ => 0);
      uncertainties := uncertainties[..reservoirSize] + seq(count, _ => Fin(0.0));
      ids := ids[..reservoirSize] + seq(count, _ => 0);
    }

    /** The portable in-place compaction: `write` never passes `read`. */
    method CompactScalar(keep: DistanceEstimate -> bool, begin: nat, write0: nat, ghost rows: seq<DistanceEstimate>)
      returns (write: nat)
      requires write0 <= begin <= reservoirSize <= |estimates| == |uncertainties| == |ids|
      requires |rows| == reservoirSize
      requires RowsOf(estimates, uncertainties, ids, write0) == Filter(keep, rows[..begin])
      requires forall i :: begin <= i < reservoirSize ==>
        RowAt(estimates, uncertainties, ids, i) == rows[i]
      modifies this`estimates, this`uncertainties, this`ids
      ensures write <= |estimates| == |uncertainties| == |ids| == old(|ids|)
      ensures RowsOf(estimates, uncertainties, ids, write) == Filter(keep, rows)
    {
      write := write0;
      for read := begin to reservoirSize
        invariant write <= read
        invariant |estimates| == |uncertainties| == |ids| == old(|ids|)
        invariant RowsOf(estimates, uncertainties, ids, write) == Filter(keep, rows[..read])
        invariant forall i :: read <= i < reservoirSize ==>
          RowAt(estimates, uncertainties, ids, i) == rows[i]
      {
        assert rows[..read + 1][..read] == rows[..read];
        var e := RowAt(estimates, uncertainties, ids, read);
        if keep(e) {
          PutRow(estimates, uncertainties, ids, write, e);
          estimates := estimates[write := e.estimate];
          uncertainties := uncertainties[write := e.uncertainty];
          ids := ids[write := e.id];
          write := write + 1;
        }
      }
      assert rows[..|rows|] == rows;
    }

    /** Sixteen lanes are loaded before their survivors are stored back, so a store never reaches an unread lane. */
    method CompactTile(keep: DistanceEstimate -> bool, read: nat, write0: nat, ghost rows: seq<DistanceEstimate>)
      returns (write: nat)
      requires write0 <= read <= read + 16 <= reservoirSize <= |estimates| == |uncertainties| == |ids|
      requires |rows| == reservoirSize
      requires RowsOf(estimates, uncertainties, ids, write0) == Filter(keep, rows[..read])
      requires forall i :: read <= i < reservoirSize ==> RowAt(estimates, uncertainties, ids, i) == rows[i]
      modifies this`estimates, this`uncertainties, this`ids
      ensures write <= read + 16 && |estimates| == |uncertainties| == |ids| == old(|ids|)
      ensures RowsOf(estimates, uncertainties, ids, write) == Filter(keep, rows[..read + 16])
      ensures forall i :: read + 16 <= i < reservoirSize ==> RowAt(estimates, uncertainties, ids, i) == rows[i]
    {
      var lanes := seq(16, j requires 0 <= j < 16 && read + 16 <= |estimates| == |uncertainties| == |ids| reads this =>
        RowAt(estimates, uncertainties, ids, read + j));
      assert rows[..read + 16] == rows[..read] + lanes;
      FilterConcat(keep, rows[..read], lanes);
      var kept := Filter(keep, lanes);
      StoreRows(estimates, uncertainties, ids, write0, kept);
      estimates := Store(estimates, write0, Estimates(kept));
      uncertainties := Store(uncertainties, write0, Uncertainties(kept));
      ids := Store(ids, write0, Ids(kept));
      write := write0 + |kept|;
    }

    method CompactLanes(keep: DistanceEstimate -> bool)
      returns (write: nat)
      requires reservoirSize <= |estimates| == |uncertainties| == |ids|
      modifies this`estimates, this`uncertainties, this`ids
      ensures write <= |estimates| == |uncertainties| == |ids| == old(|ids|)
      ensures RowsOf(estimates, uncertainties, ids, write) == Filter(keep, old(Held()))
    {
      ghost var rows := Held();
      var read := 0;
      write := 0;
      while read + 16 <= reservoirSize
        invariant write <= read <= reservoirSize
        invariant |estimates| == |uncertainties| == |ids| == old(|ids|)
        invariant RowsOf(estimates, uncertainties, ids, write) == Filter(keep, rows[..read])
        invariant forall i :: read <= i < reservoirSize ==> RowAt(estimates, uncertainties, ids, i) == rows[i]
      {
        write := CompactTile(keep, read, write, rows);
        read := read + 16;
      }
      write := CompactScalar(keep, read, write, rows);
    }

    method Compact(keep: DistanceEstimate -> bool)
      requires reservoirSize <= |estimates| == |uncertainties| == |ids|
      modifies this`estimates, this`uncertainties, this`ids, this`reservoirSize
      ensures reservoirSize <= |estimates| == |uncertainties| == |ids| == old(|ids|)
      ensures Held() == Filter(keep, old(Held()))
    {
      if simd {
        reservoirSize := CompactLanes(keep);
      } else {
        reservoirSize := CompactScalar(keep, 0, 0, Held());
      }
    }

    method FuzzyShrinkShortlist(qMin: nat, qMax: nat, ghost rows: seq<DistanceEstimate>)
      requires reservoirSize <= |estimates| == |uncertainties| == |ids|
      requires 0 < qMin == maxCandidates <= qMax
      requires Holds(Held(), rows, threshold, maxCandidates)
      modifies this`estimates, this`uncertainties, this`ids, this`reservoirSize, this`threshold
      ensures reservoirSize <= |estimates| == |uncertainties| == |ids| == old(|ids|)
      ensures Holds(Held(), rows, threshold, maxCandidates)
      ensures reservoirSize <= qMax
    {
      if reservoirSize <= qMax {
        return;
      }
      ghost var held := Held();
      var e, i := estimates[..reservoirSize], ids[..reservoirSize];
      assert Distinct(i) by {
        forall a, b | 0 <= a < b < |i| ensures i[a] != i[b] { assert held[a].id != held[b].id; }
      }
      var found := FindFuzzyRankThreshold(e, i, qMin, qMax);
      var cut := found.value;
      KeptLength(cut, held, e, i);
      HoldsAfterFuzzyShrink(held, rows, threshold, maxCandidates, cut);
      threshold := At(cut.estimate, cut.id);
      Compact(KeptUnder(cut));
      // The source's size-mismatch error is unreachable.
      assert reservoirSize == cut.outputSize;
    }

    method ShrinkIfFull(ghost rows: seq<DistanceEstimate>)
      requires Planes(16) && Holds(Held(), rows, threshold, maxCandidates)
      modifies this`estimates, this`uncertainties, this`ids, this`reservoirSize, this`threshold
      ensures Planes(0) && Holds(Held(), rows, threshold, maxCandidates)
    {
      if maxCandidates == 0 || reservoirSize < reservoirCapacity {
        return;
      }
      var fuzzyMax := maxCandidates + (reservoirCapacity - maxCandidates) / 2;
      FuzzyShrinkShortlist(maxCandidates, fuzzyMax, rows);
    }

    method AppendScalar(e: DistanceEstimate, ghost rows: seq<DistanceEstimate>)
      requires Planes(0) && Holds(Held(), rows, threshold, maxCandidates)
      requires Admits(threshold, e) && DistinctIds(rows + [e])
      modifies this`estimates, this`uncertainties, this`ids, this`reservoirSize, this`threshold
      ensures Planes(0) && Holds(Held(), rows + [e], threshold, maxCandidates)
    {
      ghost var held := Held();
      EnsureUncappedSpace(1);
      estimates := estimates[reservoirSize := e.estimate];
      uncertainties := uncertainties[reservoirSize := e.uncertainty];
      ids := ids[reservoirSize := e.id];
      reservoirSize := reservoirSize + 1;
      assert Held() == held + [e];
      FilterOne(AdmittedBy(threshold), e);
      HoldsAfterBatch(held, rows, threshold, maxCandidates, [e]);
      ShrinkIfFull(rows + [e]);
    }

    // -------------------------------------------------------------- scanning

    method OfferLane(e: DistanceEstimate, ghost rows: seq<DistanceEstimate>)
      requires Planes(0) && Holds(Held(), rows, threshold, maxCandidates) && DistinctIds(rows + [e])
      modifies this`estimates, this`uncertainties, this`ids, this`reservoirSize, this`threshold
      ensures Planes(0) && Holds(Held(), rows + [e], threshold, maxCandidates)
    {
      if Admits(threshold, e) {
        AppendScalar(e, rows);
      } else {
        FilterOne(AdmittedBy(threshold), e);
        HoldsAfterBatch(Held(), rows, threshold, maxCandidates, [e]);
        assert Held() + [] == Held();
      }
    }

    method OfferLanes(batch: seq<DistanceEstimate>, ghost rows: seq<DistanceEstimate>)
      requires Planes(0) && Holds(Held(), rows, threshold, maxCandidates) && DistinctIds(rows + batch)
      modifies this`estimates, this`uncertainties, this`ids, this`reservoirSize, this`threshold
      ensures Planes(0) && Holds(Held(), rows + batch, threshold, maxCandidates)
    {
      assert rows + batch[..0] == rows;
      for lane := 0 to |batch|
        invariant Planes(0) && Holds(Held(), rows + batch[..lane], threshold, maxCandidates)
      {
        ghost var before := rows + batch[..lane];
        assert before + [batch[lane]] == rows + batch[..lane + 1];
        assert rows + batch == (before + [batch[lane]]) + batch[lane + 1..];
        BatchDistinct(before + [batch[lane]], batch[lane + 1..]);
        OfferLane(batch[lane], before);
      }
      assert batch[..|batch|] == batch;
    }

    /** The portable path: all upper endpoints first, then admission lane by lane. */
    method AddScalarBlock(batch: seq<DistanceEstimate>, newUppers: seq<Ext>)
      requires Valid() && |batch| == |newUppers| && DistinctIds(scanned + batch)
      modifies this
      ensures Valid()
      ensures scanned == old(scanned) + batch && uppers == old(uppers) + newUppers
    {
      seen := seen + |batch|;
      UpperStage(newUppers);
      OfferLanes(batch, scanned);
      scanned := scanned + batch;
    }

    method StoreLanes(lanes: seq<DistanceEstimate>)
      requires Planes(0) && |lanes| <= 16
      modifies this`estimates, this`uncertainties, this`ids, this`reservoirSize
      ensures Planes(16) && Held() == old(Held()) + lanes
    {
      EnsureUncappedSpace(|lanes|);
      StoreRows(estimates, uncertainties, ids, reservoirSize, lanes);
      estimates := Store(estimates, reservoirSize, Estimates(lanes));
      uncertainties := Store(uncertainties, reservoirSize, Uncertainties(lanes));
      ids := Store(ids, reservoirSize, Ids(lanes));
      reservoirSize := reservoirSize + |lanes|;
    }

    /** The rows the admission mask lets through, compress-stored as one run, then one shrink test. */
    method StoreAdmitted(batch: seq<DistanceEstimate>, ghost rows: seq<DistanceEstimate>)
      requires |batch| <= 16
      requires Planes(0) && Holds(Held(), rows, threshold, maxCandidates) && DistinctIds(rows + batch)
      modifies this`estimates, this`uncertainties, this`ids, this`reservoirSize, this`threshold
      ensures Planes(0) && Holds(Held(), rows + batch, threshold, maxCandidates)
    {
      ghost var held := Held();
      var admitted := Filter(AdmittedBy(threshold), batch);
      HoldsAfterBatch(held, rows, threshold, maxCandidates, batch);
      if admitted == [] {
        assert held + [] == held;
        return;
      }
      StoreLanes(admitted);
      ShrinkIfFull(rows + batch);
    }

    /** The register path: at most sixteen lanes, masked by the heap top and the threshold they started with. */
    method Add16(batch: seq<DistanceEstimate>, newUppers: seq<Ext>)
      requires Valid() && |batch| == |newUppers| <= 16 && DistinctIds(scanned + batch)
      modifies this
      ensures Valid()
      ensures scanned == old(scanned) + batch && uppers == old(uppers) + newUppers
    {
      if |batch| == 0 {
        assert scanned + batch == scanned && uppers + newUppers == uppers;
        return;
      }
      seen := seen + |batch|;
      MaskedUpperStage(newUppers);
      StoreAdmitted(batch, scanned);
      scanned := scanned + batch;
    }

    // -------------------------------------------------------------- finishing

    /** The final exact cut, on packed rank keys. */
    method ShrinkShortlist(keep: nat, ghost rows: seq<DistanceEstimate>)
      requires reservoirSize <= |estimates| == |uncertainties| == |ids| && keep > 0
      requires DistinctIds(Held()) && DistinctIds(rows) && RankPrefix(Held(), rows)
      modifies this`estimates, this`uncertainties, this`ids, this`reservoirSize, this`threshold
      ensures reservoirSize <= |estimates| == |uncertainties| == |ids|
      ensures DistinctIds(Held()) && RankPrefix(Held(), rows)
      ensures |Held()| == if old(|Held()|) <= keep then old(|Held()|) else keep
      ensures old(|Held()|) <= keep ==> Held() == old(Held())
    {
      if reservoirSize <= keep {
        return;
      }
      ghost var held := Held();
      var rankKeys := Keys(RowsOf(estimates, uncertainties, ids, reservoirSize));
      ExactCut(held, keep);
      var thresholdKey := Sort(KeyLess, rankKeys)[keep - 1];
      threshold := ThresholdOf(thresholdKey);
      FilterDistinct(WithinThreshold(threshold), held);
      Compact(WithinThreshold(threshold));
      reservoirSize := Min(reservoirSize, keep);
      RankPrefixTransitive(Held(), held, rows);
    }

    method CutToShortlist()
      requires Valid()
      modifies this`estimates, this`uncertainties, this`ids, this`reservoirSize, this`threshold
      ensures reservoirSize <= |estimates| == |uncertainties| == |ids|
      ensures DistinctIds(Held()) && Sort(Before, Held()) == Shortlist(scanned, maxCandidates)
    {
      HeldIsRankPrefix(Held(), scanned, threshold, maxCandidates);
      ghost var complete := threshold.Open? && (maxCandidates == 0 || reservoirSize <= maxCandidates);
      if maxCandidates > 0 {
        ShrinkShortlist(maxCandidates, scanned);
      }
      ShortlistOfPrefix(Held(), scanned, maxCandidates, complete);
    }

    method CollectCandidates(kthUpper: Ext) returns (candidates: seq<DistanceEstimate>)
      requires reservoirSize <= |estimates| == |uncertainties| == |ids| && DistinctIds(Held())
      modifies this`estimates, this`uncertainties, this`ids, this`reservoirSize
      ensures candidates == Filter(LowerTest(simd, zScore, kthUpper), Sort(Before, old(Held())))
    {
      SortFilter(LowerTest(simd, zScore, kthUpper), Held());
      Compact(LowerTest(simd, zScore, kthUpper));
      candidates := Sort(Before, RowsOf(estimates, uncertainties, ids, reservoirSize));
    }

    /**
     For every way the rows were split into blocks and batches, and on both instruction paths: the candidates are
     the rows that fewer than R scanned rows outrank and that pass the lower test against the K-th smallest upper
     endpoint, in rank order.
     */
    method Finish() returns (r: Result<SelectionResult>)
      requires Valid()
      modifies this
      ensures r.Ok? <==> topk <= |old(scanned)|
      ensures r.Err? ==> r.error == InvalidArgument
      ensures r.Ok? ==> Chosen(simd, old(scanned), old(uppers), topk, zScore, maxCandidates, r.value)
      ensures r.Ok? ==> r.value == Select(simd, old(scanned), old(uppers), topk, zScore, maxCandidates)
    {
      if seen < topk {
        return Err(InvalidArgument);
      }
      SelectIsChosen(simd, scanned, uppers, topk, zScore, maxCandidates);
      var selection := SelectScanned();
      return Ok(selection);
    }

    /** The bound, the exact cut, the lower test and the order. */
    method SelectScanned() returns (s: SelectionResult)
      requires Valid() && topk <= seen
      modifies this`estimates, this`uncertainties, this`ids, this`reservoirSize, this`threshold
      ensures s == Select(simd, old(scanned), old(uppers), topk, zScore, maxCandidates)
    {
      var kthUpper := UpperHeap.Top(smallestUppers);
      assert kthUpper == KthUpper(uppers, topk);
      CutToShortlist();
      var candidates := CollectCandidates(kthUpper);
      s := SelectionResult(candidates, kthUpper, maxCandidates > 0 && seen > maxCandidates);
    }
  }

  lemma RankPrefixTransitive(a: seq<DistanceEstimate>, b: seq<DistanceEstimate>, c: seq<DistanceEstimate>)
    requires RankPrefix(a, b) && RankPrefix(b, c)
    ensures RankPrefix(a, c)
  {
  }

  /** A rank prefix of the right length is the shortlist, once sorted. */
  lemma ShortlistOfPrefix(short: seq<DistanceEstimate>, rows: seq<DistanceEstimate>, r: nat, complete: bool)
    requires DistinctIds(short) && DistinctIds(rows) && RankPrefix(short, rows)
    requires complete ==> (forall y :: y in rows ==> y in short) && (r == 0 || |short| <= r)
    requires !complete ==> r > 0 && |short| == r
    ensures Sort(Before, short) == Shortlist(rows, r)
  {
    RankPrefixIsTake(short, rows);
    var ranked := Sort(Before, rows);
    assert ranked[..|ranked|] == ranked;
  }

  lemma FilterOne<T>(p: T -> bool, x: T)
    ensures Filter(p, [x]) == if p(x) then [x] else []
  {
    assert [x][..0] == [];
  }

  /** The fuzzy search counts over the planes; the reservoir counts over rows. */
  lemma {:induction false} KeptLength(cut: FuzzyRankThreshold, rows: seq<DistanceEstimate>,
                                      estimates: seq<Float>, ids: seq<Word>)
    requires |rows| == |estimates| == |ids|
    requires forall i :: 0 <= i < |rows| ==> rows[i].estimate == estimates[i] && rows[i].id == ids[i]
    ensures |Filter(KeptUnder(cut), rows)| == Count(KeptBy(cut), Zip(estimates, ids))
  {
    if rows != [] {
      var n := |rows| - 1;
      KeptLength(cut, rows[..n], estimates[..n], ids[..n]);
      assert Zip(estimates, ids)[..n] == Zip(estimates[..n], ids[..n]);
      assert Zip(estimates, ids)[n] == (estimates[n], ids[n]);
    }
  }
}
