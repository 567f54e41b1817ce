/** Refinement of candidates from their list files: planning, batches of open files, and the exact result. */
module Refiner {
  import opened Arithmetic
  import opened Outcomes
  import opened Permutations
  import opened Sorting
  import opened ReadPlans
  import opened PlanProcessing
  import opened AioPipeline
  import opened ExactTopK

  datatype RefineOptions = RefineOptions(queueDepth: nat, maxOpenFiles: nat)

  ghost predicate ListsAscend(plans: seq<ReadPlan>) {
    forall i, j :: 0 <= i < j < |plans| ==> plans[i].listNo <= plans[j].listNo
  }

  /** The lists of the plans, each once, in ascending order. */
  method DistinctLists(plans: seq<ReadPlan>) returns (lists: seq<nat>)
    requires ListsAscend(plans)
    ensures Ascending(lists)
    ensures forall l :: l in lists <==> exists j :: 0 <= j < |plans| && plans[j].listNo == l
  {
    lists := [];
    for i := 0 to |plans|
      invariant forall a, b :: 0 <= a < b < |lists| ==> lists[a] < lists[b]
      invariant forall l :: l in lists <==> exists j :: 0 <= j < i && plans[j].listNo == l
      invariant i > 0 ==> lists != [] && lists[|lists| - 1] == plans[i - 1].listNo
    {
      ghost var before := lists;
      if |lists| == 0 || lists[|lists| - 1] != plans[i].listNo {
        forall a | 0 <= a < |lists| ensures lists[a] < plans[i].listNo {
          assert lists[a] in lists;
        }
        lists := lists + [plans[i].listNo];
      }
      forall l ensures l in lists <==> exists j :: 0 <= j < i + 1 && plans[j].listNo == l {
        assert l in lists <==> l in before || l == plans[i].listNo by {
          if before == lists { assert before[|before| - 1] in before; }
        }
      }
    }
  }

  /** The remaining plans belong to the remaining lists. */
  ghost predicate Remaining(plans: seq<ReadPlan>, lists: seq<nat>, planBegin: nat, listBegin: nat) {
    && planBegin <= |plans| && listBegin <= |lists|
    && forall j: nat :: planBegin <= j ==> PlanRemains(plans, j, lists, listBegin)
  }

  ghost predicate PlanRemains(plans: seq<ReadPlan>, j: nat, lists: seq<nat>, listBegin: nat) {
    j < |plans| && listBegin <= |lists| ==> plans[j].listNo in lists[listBegin..]
  }

  /** The plans of one batch of lists: every one of them has its file open, and none is left behind. */
  method BatchEnd(plans: seq<ReadPlan>, lists: seq<nat>, planBegin: nat, listBegin: nat, listEnd: nat) returns (planEnd: nat)
    requires ListsAscend(plans) && Ascending(lists)
    requires listBegin < listEnd <= |lists| && Remaining(plans, lists, planBegin, listBegin)
    ensures planBegin <= planEnd && Remaining(plans, lists, planEnd, listEnd)
    ensures Opened(plans, lists[listBegin..listEnd], planBegin, planEnd)
  {
    planEnd := planBegin;
    while planEnd < |plans| && plans[planEnd].listNo <= lists[listEnd - 1]
      invariant planBegin <= planEnd <= |plans|
      invariant forall j :: planBegin <= j < planEnd ==> plans[j].listNo <= lists[listEnd - 1]
    {
      planEnd := planEnd + 1;
    }
    forall j | planBegin <= j < planEnd ensures plans[j].listNo in lists[listBegin..listEnd] {
      assert PlanRemains(plans, j, lists, listBegin);
      var i :| listBegin <= i < |lists| && lists[i] == plans[j].listNo;
      assert i < listEnd;
      assert lists[listBegin..listEnd][i - listBegin] == lists[i];
    }
    forall j: nat | planEnd <= j < |plans| ensures PlanRemains(plans, j, lists, listEnd) {
      assert PlanRemains(plans, j, lists, listBegin);
      var i :| listBegin <= i < |lists| && lists[i] == plans[j].listNo;
      assert plans[planEnd].listNo <= plans[j].listNo;
      assert listEnd <= i;
      assert lists[listEnd..][i - listEnd] == lists[i];
    }
  }

  ghost predicate Opened(plans: seq<ReadPlan>, files: seq<nat>, begin: nat, end: nat) {
    end <= |plans| && forall j :: begin <= j < end ==> plans[j].listNo in files
  }

  /** One batch, whose files are open: blocking when the queue holds one request, through the pipeline otherwise. */
  method RefineBatch(q: Request, plans: seq<ReadPlan>, begin: nat, end: nat, files: seq<nat>, options: RefineOptions,
                     kernel: Kernel, k: nat, heap: seq<Neighbor>, ghost all: seq<Neighbor>)
    returns (r: Result<seq<Neighbor>>)
    requires ValidRequest(q) && AllServe(q, plans) && begin <= end && Opened(plans, files, begin, end)
    requires options.queueDepth > 0 && |files| <= options.maxOpenFiles && heap == TopK(all, k)
    requires Faithful(q, plans, kernel)
    ensures r.Ok? ==> r.value == TopK(FoundBy(q, plans, all, Range(begin, end)), k) && SoundRange(q, plans, begin, end)
    ensures (options.queueDepth == 1 || Reliable(q, plans, kernel)) && RefinableRange(q, plans, begin, end) ==> r.Ok?
    ensures r.Err? ==> r.error == RuntimeError
  {
    if options.queueDepth == 1 {
      r := RefineBlocking(q, plans, begin, end, k, heap, all);
      if r.Ok? {
        forall j | begin <= j < end ensures PlanSound(q, plans[j]) { assert Refinable(q, plans[j]); }
      }
    } else {
      ghost var processed, peak;
      r, processed, peak := RefineAio(q, plans, begin, end, options.queueDepth, kernel, k, heap, all);
    }
  }

  lemma BatchesJoin(q: Request, plans: seq<ReadPlan>, a: nat, b: nat)
    requires a <= b
    ensures FoundBy(q, plans, FoundBy(q, plans, [], Range(0, a)), Range(a, b)) == FoundBy(q, plans, [], Range(0, b))
  {
    assert Range(0, b) == Range(0, a) + Range(a, b);
    FlatMapConcat(FoundAt(q, plans), Range(0, a), Range(a, b));
  }

  // ---------------------------------------------------------------- the whole refinement

  /** The exact pairs of all candidates, in input order. */
  function AllNeighbors(q: Request): seq<Neighbor> {
    FlatMap(CandidateNeighbor(q), UpTo(|q.candidates|))
  }

  lemma {:induction false} ItemsFound(q: Request, plans: seq<ReadPlan>, n: nat)
    requires n <= |plans|
    ensures FlatMap(FoundAt(q, plans), Range(0, n)) == FlatMap(CandidateNeighbor(q), AllItems(plans[..n]))
  {
    if n > 0 {
      ItemsFound(q, plans, n - 1);
      RangeStep(0, n - 1);
      assert Range(0, n)[..n - 1] == Range(0, n - 1);
      assert plans[..n][..n - 1] == plans[..n - 1];
      FlatMapConcat(CandidateNeighbor(q), AllItems(plans[..n - 1]), ItemIndices(plans[n - 1].candidates));
    }
  }

  /** Whatever the plans and their order, the heap ends up with the best of all candidates. */
  lemma PlansFindAll(q: Request, plans: seq<ReadPlan>, k: nat)
    requires ValidRequest(q)
    requires PlansAll(plans, q.layout, Runs(Sort(LocationLess, Locations(q.candidates, q.layout))))
    ensures TopK(FoundBy(q, plans, [], Range(0, |plans|)), k) == TopK(AllNeighbors(q), k)
  {
    ItemsFound(q, plans, |plans|);
    assert plans[..|plans|] == plans;
    EachCandidateOnce(plans, q.layout, q.candidates);
    FlatMapPermuted(CandidateNeighbor(q), AllItems(plans), UpTo(|q.candidates|));
    var found := FlatMap(FoundAt(q, plans), Range(0, |plans|));
    assert FoundBy(q, plans, [], Range(0, |plans|)) == found;
    OrderIrrelevant(found, AllNeighbors(q), k);
  }

  lemma PlanFacts(q: Request, plans: seq<ReadPlan>)
    requires ValidRequest(q)
    requires PlansAll(plans, q.layout, Runs(Sort(LocationLess, Locations(q.candidates, q.layout))))
    ensures AllServe(q, plans) && ListsAscend(plans)
  {
    forall j | 0 <= j < |plans| ensures Serves(q, plans[j]) {
      PlansServe(q, plans, j);
    }
    forall i, j | 0 <= i < j < |plans| ensures plans[i].listNo <= plans[j].listNo {
      PlansApart(plans, q.layout, q.candidates, i, j);
    }
  }

  ghost predicate RequestAccepted(q: Request, nlist: nat, k: nat) {
    k > 0 && |q.candidates| >= k && forall i :: 0 <= i < |q.candidates| ==> q.candidates[i].listNo < nlist
  }

  /** Every candidate has a record with a proper distance. */
  ghost predicate AllSound(q: Request)
    requires q.layout.recordsPerPage > 0
  {
    forall i :: 0 <= i < |q.candidates| ==> CandidateSound(q, i)
  }

  /** The files with their layout, as far as a well-formed store guarantees it. */
  ghost predicate StoreShape(q: Request, nlist: nat) {
    && ValidLayout(q.layout) && |q.files| == nlist <= UINT32_MAX
    && forall l :: 0 <= l < nlist ==> Uniform(q.files[l], q.layout.recordsPerPage)
  }

  /** If every candidate's record exists with a proper distance, every plan can be read and processed. */
  lemma PlanRefinable(q: Request, plans: seq<ReadPlan>, j: nat)
    requires ValidRequest(q) && j < |plans| && AllServe(q, plans)
    requires PlansAll(plans, q.layout, Runs(Sort(LocationLess, Locations(q.candidates, q.layout))))
    requires AllSound(q)
    ensures Refinable(q, plans[j])
  {
    var run, plan := Runs(Sort(LocationLess, Locations(q.candidates, q.layout)))[j], plans[j];
    assert Serves(q, plan);
    PlanSpan(plan, q.layout, run);
    var last := plan.candidates[|run| - 1];
    assert Addresses(plan, q.layout, last, run[|run| - 1]) && ItemServes(q, plan, last);
    RunLast(q, plans, j);
    assert CandidateSound(q, last.candidateIndex);
    forall k | 0 <= k < |plan.candidates| ensures CandidateSound(q, plan.candidates[k].candidateIndex) {
      assert ItemServes(q, plan, plan.candidates[k]);
    }
  }

  /** The last page of a plan is the page of its last candidate. */
  lemma RunLast(q: Request, plans: seq<ReadPlan>, j: nat)
    requires ValidRequest(q) && j < |plans|
    requires PlansAll(plans, q.layout, Runs(Sort(LocationLess, Locations(q.candidates, q.layout))))
    ensures var (plan, run) := (plans[j], Runs(Sort(LocationLess, Locations(q.candidates, q.layout)))[j]);
      && run != [] && |plan.candidates| == |run|
      && var i := plan.candidates[|run| - 1].candidateIndex;
         i < |q.candidates| && q.candidates[i].offset / q.layout.recordsPerPage == run[|run| - 1].pageNo
         && q.candidates[i].listNo == plan.listNo
  {
    var sorted := Sort(LocationLess, Locations(q.candidates, q.layout));
    var runs, plan := Runs(sorted), plans[j];
    var x := runs[j][|runs[j]| - 1];
    assert Addresses(plan, q.layout, plan.candidates[|runs[j]| - 1], x);
    RunsConcat(sorted);
    InConcat(runs, j, x);
    SortMembers(LocationLess, Locations(q.candidates, q.layout), x);
    LocationFits(q.candidates, q.layout, x);
  }

  /** Every candidate is processed with one of the plans, so none of them was unsound. */
  lemma PlansSound(q: Request, plans: seq<ReadPlan>, i: nat)
    requires ValidRequest(q) && i < |q.candidates|
    requires PlansAll(plans, q.layout, Runs(Sort(LocationLess, Locations(q.candidates, q.layout))))
    requires SoundRange(q, plans, 0, |plans|)
    ensures CandidateSound(q, i)
  {
    EachCandidateOnce(plans, q.layout, q.candidates);
    assert UpTo(|q.candidates|)[i] == i;
    assert i in multiset(UpTo(|q.candidates|)) && i in AllItems(plans);
    ItemOfPlan(plans, i);
  }

  lemma {:induction false} ItemOfPlan(plans: seq<ReadPlan>, i: nat)
    requires i in AllItems(plans)
    ensures exists j, n :: 0 <= j < |plans| && 0 <= n < |plans[j].candidates| && plans[j].candidates[n].candidateIndex == i
  {
    var last := |plans| - 1;
    if i in ItemIndices(plans[last].candidates) {
      var n :| 0 <= n < |plans[last].candidates| && ItemIndices(plans[last].candidates)[n] == i;
      assert plans[last].candidates[n].candidateIndex == i;
    } else {
      ItemOfPlan(plans[..last], i);
      var j, n :| 0 <= j < last && 0 <= n < |plans[..last][j].candidates| && plans[..last][j].candidates[n].candidateIndex == i;
      assert plans[j].candidates[n].candidateIndex == i;
    }
  }

  /** The pair is the Logical ID and the exact distance of the record at the candidate's offset: its page, its lane. */
  ghost predicate PairOf(q: Request, i: nat, n: Neighbor)
    requires q.layout.recordsPerPage > 0 && i < |q.candidates|
  {
    var c, perPage := q.candidates[i], q.layout.recordsPerPage;
    && c.listNo < |q.files| && c.offset / perPage < |q.files[c.listNo]| && c.offset % perPage < |q.files[c.listNo][c.offset / perPage]|
    && var record := q.files[c.listNo][c.offset / perPage][c.offset % perPage];
       n.id == record.id && q.score(record.payload).Fin? && n.distance == q.score(record.payload).r >= 0.0
  }

  ghost predicate CandidatePairs(q: Request, pairs: seq<Neighbor>)
    requires q.layout.recordsPerPage > 0
  {
    |pairs| == |q.candidates| && forall i :: 0 <= i < |pairs| ==> PairOf(q, i, pairs[i])
  }

  lemma {:induction false} PairsFound(q: Request, n: nat)
    requires ValidLayout(q.layout) && AllSound(q) && n <= |q.candidates|
    ensures var pairs := FlatMap(CandidateNeighbor(q), UpTo(n));
      |pairs| == n && forall i :: 0 <= i < n ==> PairOf(q, i, pairs[i])
  {
    if n > 0 {
      PairsFound(q, n - 1);
      assert UpTo(n)[..n - 1] == UpTo(n - 1);
      assert CandidateSound(q, n - 1);
    }
  }

  /** Requests are answered: they are blocking, or the kernel reads whatever lies inside the files. */
  ghost predicate Answers(q: Request, options: RefineOptions, kernel: seq<ReadPlan> -> Kernel) {
    options.queueDepth == 1 || forall plans :: Reliable(q, plans, kernel(plans))
  }

  /**
   Exact refinement: the K nearest candidates by (distance, Logical ID), for every queue depth and every kernel.
   It succeeds exactly on accepted requests whose candidates all have a record with a proper distance.
   */
  method Refine(q: Request, nlist: nat, options: RefineOptions, kernel: seq<ReadPlan> -> Kernel, k: nat) returns (r: Result<seq<Neighbor>>)
    requires StoreShape(q, nlist) && 0 < options.queueDepth <= options.maxOpenFiles
    requires forall plans :: Faithful(q, plans, kernel(plans))
    ensures r.Ok? ==> RequestAccepted(q, nlist, k) && AllSound(q) && r.value == TopK(AllNeighbors(q), k)
    ensures r.Ok? ==> CandidatePairs(q, AllNeighbors(q)) && Nearest(r.value, AllNeighbors(q), k)
    ensures !RequestAccepted(q, nlist, k) ==> r.Err? && r.error in {InvalidArgument, OutOfRange}
    ensures r.Err? ==> r.error in {InvalidArgument, OutOfRange, Overflow, RuntimeError}
    ensures Answers(q, options, kernel) && Representable(q.candidates, q.layout) ==>
      (r.Ok? <==> RequestAccepted(q, nlist, k) && AllSound(q))
  {
    if k == 0 || |q.candidates| < k {
      return Err(InvalidArgument);
    }
    for i := 0 to |q.candidates|
      invariant forall j :: 0 <= j < i ==> q.candidates[j].listNo < nlist
    {
      if q.candidates[i].listNo >= nlist {
        return Err(OutOfRange);
      }
    }
    var planned := BuildReadPlans(q.candidates, q.layout);
    if planned.Err? {
      return Err(planned.error);
    }
    var plans := planned.value;
    PlanFacts(q, plans);
    assert Faithful(q, plans, kernel(plans));
    r := RefinePlans(q, plans, options, kernel(plans), k);
    PlansFindAll(q, plans, k);
    if r.Ok? {
      forall i | 0 <= i < |q.candidates| ensures CandidateSound(q, i) { PlansSound(q, plans, i); }
      PairsFound(q, |q.candidates|);
      TopKNearest(AllNeighbors(q), k);
    }
    if AllSound(q) {
      forall j | 0 <= j < |plans| ensures Refinable(q, plans[j]) { PlanRefinable(q, plans, j); }
    }
  }

  /** The heap holds the best of the first `n` plans. */
  ghost predicate RefinedUpTo(q: Request, plans: seq<ReadPlan>, n: nat, k: nat, heap: seq<Neighbor>)
    requires ValidLayout(q.layout)
  {
    n <= |plans| && heap == TopK(FoundBy(q, plans, [], Range(0, n)), k) && SoundRange(q, plans, 0, n)
  }

  method RefineNext(q: Request, plans: seq<ReadPlan>, begin: nat, end: nat, files: seq<nat>, options: RefineOptions,
                    kernel: Kernel, k: nat, heap: seq<Neighbor>)
    returns (r: Result<seq<Neighbor>>)
    requires ValidRequest(q) && AllServe(q, plans) && begin <= end && Opened(plans, files, begin, end)
    requires options.queueDepth > 0 && |files| <= options.maxOpenFiles && RefinedUpTo(q, plans, begin, k, heap)
    requires Faithful(q, plans, kernel)
    ensures r.Ok? ==> RefinedUpTo(q, plans, end, k, r.value)
    ensures (options.queueDepth == 1 || Reliable(q, plans, kernel)) && RefinableRange(q, plans, 0, |plans|) ==> r.Ok?
    ensures r.Err? ==> r.error == RuntimeError
  {
    r := RefineBatch(q, plans, begin, end, files, options, kernel, k, heap, FoundBy(q, plans, [], Range(0, begin)));
    BatchesJoin(q, plans, begin, end);
  }

  lemma NoneRemaining(plans: seq<ReadPlan>, lists: seq<nat>, planBegin: nat)
    requires Remaining(plans, lists, planBegin, |lists|)
    ensures planBegin == |plans|
  {
    assert PlanRemains(plans, planBegin, lists, |lists|);
  }

  lemma NothingRefined(q: Request, plans: seq<ReadPlan>, k: nat)
    requires ValidLayout(q.layout)
    ensures RefinedUpTo(q, plans, 0, k, [])
  {
    RangeStep(0, 0);
  }

  method ListsToOpen(plans: seq<ReadPlan>) returns (lists: seq<nat>)
    requires ListsAscend(plans)
    ensures Ascending(lists) && Remaining(plans, lists, 0, 0)
  {
    lists := DistinctLists(plans);
    assert lists[0..] == lists;
  }

  method RefinePlans(q: Request, plans: seq<ReadPlan>, options: RefineOptions, kernel: Kernel, k: nat) returns (r: Result<seq<Neighbor>>)
    requires ValidRequest(q) && AllServe(q, plans) && ListsAscend(plans)
    requires 0 < options.queueDepth <= options.maxOpenFiles && Faithful(q, plans, kernel)
    ensures r.Ok? ==> RefinedUpTo(q, plans, |plans|, k, r.value)
    ensures (options.queueDepth == 1 || Reliable(q, plans, kernel)) && RefinableRange(q, plans, 0, |plans|) ==> r.Ok?
    ensures r.Err? ==> r.error == RuntimeError
  {
    var lists := ListsToOpen(plans);
    var heap: seq<Neighbor> := [];
    var listBegin, planBegin := 0, 0;
    NothingRefined(q, plans, k);
    while listBegin < |lists|
      invariant Remaining(plans, lists, planBegin, listBegin)
      invariant RefinedUpTo(q, plans, planBegin, k, heap)
    {
      var listEnd := if |lists| - listBegin < options.maxOpenFiles then |lists| else listBegin + options.maxOpenFiles;
      var planEnd := BatchEnd(plans, lists, planBegin, listBegin, listEnd);
      var refined := RefineNext(q, plans, planBegin, planEnd, lists[listBegin..listEnd], options, kernel, k, heap);
      if refined.Err? {
        return Err(refined.error);
      }
      heap, planBegin, listBegin := refined.value, planEnd, listEnd;
    }
    NoneRemaining(plans, lists, planBegin);
    return Ok(heap);
  }
}
