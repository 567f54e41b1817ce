/** Reading one plan and feeding its records to the exact heap. */
module PlanProcessing {
  import opened Arithmetic
  import opened Extended
  import opened Outcomes
  import opened Permutations
  import opened RecordPages
  import opened ReadPlans
  import opened ExactTopK

  /** A refinement request: candidates, the files they point into, and the distance to the query. */
  datatype Request = Request(files: seq<seq<Page>>, layout: Layout, candidates: seq<ListCandidate>, score: Payload -> Ext)

  ghost predicate ValidRequest(q: Request) {
    && ValidLayout(q.layout)
    && (forall l :: 0 <= l < |q.files| ==> Uniform(q.files[l], q.layout.recordsPerPage))
    && (forall i :: 0 <= i < |q.candidates| ==> q.candidates[i].listNo < |q.files| && q.candidates[i].listNo < UINT32_MAX)
  }

  /** The record a candidate stands for. */
  function CandidateSlot(q: Request, i: nat): Slot
    requires q.layout.recordsPerPage > 0
  {
    if i < |q.candidates| && q.candidates[i].listNo < |q.files|
    then SlotAt(q.files[q.candidates[i].listNo], q.layout.recordsPerPage, q.candidates[i].offset)
    else NoSlot
  }

  function NeighborOf(record: Record, score: Payload -> Ext): Neighbor {
    var d := score(record.payload);
    Neighbor(record.id, if d.Fin? then d.r else 0.0)
  }

  predicate Scorable(record: Record, score: Payload -> Ext) {
    score(record.payload).Fin? && score(record.payload).r >= 0.0
  }

  /** The exact (Logical ID, distance) pair of a candidate. */
  function CandidateNeighbor(q: Request): nat -> seq<Neighbor> {
    (i: nat) =>
      if q.layout.recordsPerPage > 0 && CandidateSlot(q, i).Holds? then [NeighborOf(CandidateSlot(q, i).record, q.score)] else []
  }

  ghost predicate CandidateSound(q: Request, i: nat)
    requires q.layout.recordsPerPage > 0
  {
    CandidateSlot(q, i).Holds? && Scorable(CandidateSlot(q, i).record, q.score)
  }

  /** What processing the plan contributes. */
  function PlanFound(q: Request, plan: ReadPlan): seq<Neighbor> {
    FlatMap(CandidateNeighbor(q), ItemIndices(plan.candidates))
  }

  ghost predicate ItemServes(q: Request, plan: ReadPlan, item: CandidateInRequest)
    requires q.layout.recordsPerPage > 0
  {
    && item.candidateIndex < |q.candidates|
    && Addresses(plan, q.layout, item, LocationOf(q.candidates[item.candidateIndex], item.candidateIndex, q.layout))
  }

  /** The plan addresses its candidates' records. */
  ghost predicate Serves(q: Request, plan: ReadPlan)
    requires ValidLayout(q.layout)
  {
    && plan.listNo < |q.files|
    && CoversPages(plan, q.layout, plan.alignedOffset / q.layout.pageSize)
    && (forall k :: 0 <= k < |plan.candidates| ==> ItemServes(q, plan, plan.candidates[k]))
  }

  /** Every plan that was built for the request serves it. */
  lemma PlansServe(q: Request, plans: seq<ReadPlan>, j: nat)
    requires ValidRequest(q) && j < |plans|
    requires PlansAll(plans, q.layout, Runs(Sorting.Sort(LocationLess, Locations(q.candidates, q.layout))))
    ensures Serves(q, plans[j])
  {
    var sorted := Sorting.Sort(LocationLess, Locations(q.candidates, q.layout));
    var runs, plan := Runs(sorted), plans[j];
    RunsConcat(sorted);
    PlanSpan(plan, q.layout, runs[j]);
    forall k | 0 <= k < |plan.candidates| ensures ItemServes(q, plan, plan.candidates[k]) && plan.listNo < |q.files| {
      assert Addresses(plan, q.layout, plan.candidates[k], runs[j][k]);
      InConcat(runs, j, runs[j][k]);
      Sorting.SortMembers(LocationLess, Locations(q.candidates, q.layout), runs[j][k]);
      LocationFits(q.candidates, q.layout, runs[j][k]);
    }
    assert Addresses(plan, q.layout, plan.candidates[0], runs[j][0]);
  }

  lemma {:induction false} InConcat<T>(runs: seq<seq<T>>, j: nat, x: T)
    requires j < |runs| && x in runs[j]
    ensures x in Concat(runs)
  {
    if j < |runs| - 1 { InConcat(runs[..|runs| - 1], j, x); }
  }

  // ---------------------------------------------------------------- the buffer

  function FirstPage(plan: ReadPlan, layout: Layout): nat
    requires layout.pageSize > 0
  {
    plan.alignedOffset / layout.pageSize
  }

  /** A positioned read of the whole request; a file that ends earlier gives a short read. */
  function ReadPages(file: seq<Page>, plan: ReadPlan, layout: Layout): Result<seq<Page>>
    requires layout.pageSize > 0
  {
    if FirstPage(plan, layout) + plan.pageCount <= |file|
    then Ok(file[FirstPage(plan, layout)..FirstPage(plan, layout) + plan.pageCount])
    else Err(RuntimeError)
  }

  /** The record at a byte position of a buffer of pages. */
  function BufferSlot(buffer: seq<Page>, layout: Layout, at: nat): Slot
    requires layout.pageSize > 0 && layout.recordStride > 0
  {
    LaneAt(buffer, at / layout.pageSize, at % layout.pageSize / layout.recordStride)
  }

  lemma BufferPosition(aligned: nat, at: nat, pageNo: nat, first: nat, slot: nat, layout: Layout)
    requires ValidLayout(layout) && slot < layout.recordsPerPage
    requires aligned == first * layout.pageSize && first <= pageNo
    requires aligned + at == pageNo * layout.pageSize + slot * layout.recordStride
    ensures at / layout.pageSize == pageNo - first && at % layout.pageSize / layout.recordStride == slot
  {
    MulMonotone(slot + 1, layout.recordsPerPage, layout.recordStride);
    assert (slot + 1) * layout.recordStride == slot * layout.recordStride + layout.recordStride;
    assert pageNo * layout.pageSize == first * layout.pageSize + (pageNo - first) * layout.pageSize;
    QuotientOf(pageNo - first, slot * layout.recordStride, layout.pageSize);
    QuotientOf(slot, 0, layout.recordStride);
  }

  lemma FirstPageBelow(aligned: nat, at: nat, pageNo: nat, first: nat, inPage: nat, size: nat)
    requires aligned == first * size && aligned + at == pageNo * size + inPage && inPage < size
    ensures first <= pageNo
  {
    assert (pageNo + 1) * size == pageNo * size + size;
    if pageNo < first { MulMonotone(pageNo + 1, first, size); }
  }

  /** The buffer holds the candidate's record at the item's position. */
  lemma ItemRecord(q: Request, plan: ReadPlan, buffer: seq<Page>, item: CandidateInRequest)
    requires ValidRequest(q) && Serves(q, plan) && ItemServes(q, plan, item)
    requires ReadPages(q.files[plan.listNo], plan, q.layout) == Ok(buffer)
    ensures BufferSlot(buffer, q.layout, item.recordInBuffer) == CandidateSlot(q, item.candidateIndex)
    ensures CandidateSlot(q, item.candidateIndex).Holds?
  {
    var c, first := q.candidates[item.candidateIndex], FirstPage(plan, q.layout);
    var pageNo, slot := c.offset / q.layout.recordsPerPage, c.offset % q.layout.recordsPerPage;
    MulMonotone(slot + 1, q.layout.recordsPerPage, q.layout.recordStride);
    assert (slot + 1) * q.layout.recordStride == slot * q.layout.recordStride + q.layout.recordStride;
    FirstPageBelow(plan.alignedOffset, item.recordInBuffer, pageNo, first, slot * q.layout.recordStride, q.layout.pageSize);
    BufferPosition(plan.alignedOffset, item.recordInBuffer, pageNo, first, slot, q.layout);
    ItemPage(item.recordInBuffer, plan, q.layout);
  }

  lemma ItemPage(at: nat, plan: ReadPlan, layout: Layout)
    requires ValidLayout(layout) && plan.requestBytes == plan.pageCount * layout.pageSize
    requires at + layout.recordStride <= plan.requestBytes
    ensures at / layout.pageSize < plan.pageCount
  {
    QuotientParts(at, layout.pageSize);
    if plan.pageCount <= at / layout.pageSize {
      MulMonotone(plan.pageCount, at / layout.pageSize, layout.pageSize);
    }
  }

  // ---------------------------------------------------------------- processing

  ghost predicate PlanSound(q: Request, plan: ReadPlan)
    requires q.layout.recordsPerPage > 0
  {
    forall k :: 0 <= k < |plan.candidates| ==> CandidateSound(q, plan.candidates[k].candidateIndex)
  }

  method ProcessItem(q: Request, plan: ReadPlan, buffer: seq<Page>, item: CandidateInRequest, k: nat, heap: seq<Neighbor>,
                     ghost all: seq<Neighbor>)
    returns (r: Result<seq<Neighbor>>)
    requires ValidRequest(q) && Serves(q, plan) && ItemServes(q, plan, item)
    requires ReadPages(q.files[plan.listNo], plan, q.layout) == Ok(buffer) && heap == TopK(all, k)
    ensures r.Ok? <==> CandidateSound(q, item.candidateIndex)
    ensures r.Err? ==> r.error == RuntimeError
    ensures r.Ok? ==> r.value == TopK(all + CandidateNeighbor(q)(item.candidateIndex), k)
  {
    ItemRecord(q, plan, buffer, item);
    // A record never reaches outside its request.
    assert item.recordInBuffer + q.layout.recordStride <= plan.requestBytes;
    var record := BufferSlot(buffer, q.layout, item.recordInBuffer).record;
    r := InsertExact(heap, k, record.id, q.score(record.payload), all);
  }

  /** Every record of the plan goes into the heap; a distance that is not finite and non-negative is refused. */
  method ProcessPlan(q: Request, plan: ReadPlan, buffer: seq<Page>, k: nat, heap: seq<Neighbor>, ghost all: seq<Neighbor>)
    returns (r: Result<seq<Neighbor>>)
    requires ValidRequest(q) && Serves(q, plan)
    requires ReadPages(q.files[plan.listNo], plan, q.layout) == Ok(buffer) && heap == TopK(all, k)
    ensures r.Ok? <==> PlanSound(q, plan)
    ensures r.Err? ==> r.error == RuntimeError
    ensures r.Ok? ==> r.value == TopK(all + PlanFound(q, plan), k)
  {
    var top := heap;
    assert FoundUpTo(q, plan, all, 0) == all;
    for i := 0 to |plan.candidates|
      invariant top == TopK(FoundUpTo(q, plan, all, i), k)
      invariant SoundUpTo(q, plan, i)
    {
      var pushed := ProcessAt(q, plan, buffer, i, k, top, all);
      if pushed.Err? {
        return pushed;
      }
      top := pushed.value;
    }
    FoundAll(q, plan, all);
    return Ok(top);
  }

  method ProcessAt(q: Request, plan: ReadPlan, buffer: seq<Page>, i: nat, k: nat, heap: seq<Neighbor>, ghost all: seq<Neighbor>)
    returns (r: Result<seq<Neighbor>>)
    requires ValidRequest(q) && Serves(q, plan) && i < |plan.candidates|
    requires ReadPages(q.files[plan.listNo], plan, q.layout) == Ok(buffer) && heap == TopK(FoundUpTo(q, plan, all, i), k)
    ensures r.Ok? ==> r.value == TopK(FoundUpTo(q, plan, all, i + 1), k) && CandidateSound(q, plan.candidates[i].candidateIndex)
    ensures r.Err? ==> r.error == RuntimeError && !PlanSound(q, plan)
  {
    r := ProcessItem(q, plan, buffer, plan.candidates[i], k, heap, FoundUpTo(q, plan, all, i));
    FoundNext(q, plan, all, i);
    if r.Err? { NotSound(q, plan, i); }
  }

  lemma NotSound(q: Request, plan: ReadPlan, i: nat)
    requires q.layout.recordsPerPage > 0 && i < |plan.candidates| && !CandidateSound(q, plan.candidates[i].candidateIndex)
    ensures !PlanSound(q, plan)
  {
  }

  ghost predicate SoundUpTo(q: Request, plan: ReadPlan, n: nat)
    requires q.layout.recordsPerPage > 0 && n <= |plan.candidates|
  {
    forall k :: 0 <= k < n ==> CandidateSound(q, plan.candidates[k].candidateIndex)
  }

  ghost function FoundUpTo(q: Request, plan: ReadPlan, all: seq<Neighbor>, n: nat): seq<Neighbor>
    requires n <= |plan.candidates|
  {
    all + FlatMap(CandidateNeighbor(q), ItemIndices(plan.candidates)[..n])
  }

  lemma FoundNext(q: Request, plan: ReadPlan, all: seq<Neighbor>, i: nat)
    requires i < |plan.candidates|
    ensures FoundUpTo(q, plan, all, i + 1) == FoundUpTo(q, plan, all, i) + CandidateNeighbor(q)(plan.candidates[i].candidateIndex)
  {
    FlatMapNext(CandidateNeighbor(q), ItemIndices(plan.candidates), i);
  }

  lemma FoundAll(q: Request, plan: ReadPlan, all: seq<Neighbor>)
    ensures FoundUpTo(q, plan, all, |plan.candidates|) == all + PlanFound(q, plan)
  {
    assert ItemIndices(plan.candidates)[..|plan.candidates|] == ItemIndices(plan.candidates);
  }
}
