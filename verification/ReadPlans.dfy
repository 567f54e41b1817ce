/** Merging candidate reads into page runs (`build_read_plans` of adapters/list_file_aio_refiner.cpp). */
module ReadPlans {
  import opened Arithmetic
  import opened Sorting
  import opened Permutations
  import opened Outcomes

  const OFF_T_MAX: nat := 0x7fff_ffff_ffff_ffff

  datatype ListCandidate = ListCandidate(listNo: nat, offset: nat)

  /** How records lie in a file: `recordsPerPage` strides from the start of every page. */
  datatype Layout = Layout(pageSize: nat, recordStride: nat, recordsPerPage: nat)

  ghost predicate ValidLayout(layout: Layout) {
    && layout.pageSize > 0 && layout.recordStride > 0 && layout.recordsPerPage > 0
    && layout.recordsPerPage * layout.recordStride <= layout.pageSize
  }

  datatype Location = Location(listNo: nat, pageNo: nat, candidateIndex: nat, recordInPage: nat)

  datatype CandidateInRequest = CandidateInRequest(candidateIndex: nat, recordInBuffer: nat)

  datatype ReadPlan = ReadPlan(listNo: nat, alignedOffset: nat, requestBytes: nat, pageCount: nat, candidates: seq<CandidateInRequest>)

  predicate LocationLess(a: Location, b: Location) {
    a.listNo < b.listNo || (a.listNo == b.listNo
      && (a.pageNo < b.pageNo || (a.pageNo == b.pageNo && a.candidateIndex < b.candidateIndex)))
  }

  function LocationOf(c: ListCandidate, i: nat, layout: Layout): Location
    requires layout.recordsPerPage > 0
  {
    Location(c.listNo, c.offset / layout.recordsPerPage, i, c.offset % layout.recordsPerPage * layout.recordStride)
  }

  function Locations(candidates: seq<ListCandidate>, layout: Layout): (s: seq<Location>)
    requires layout.recordsPerPage > 0
    ensures |s| == |candidates|
  {
    seq(|candidates|, i requires 0 <= i < |candidates| && layout.recordsPerPage > 0 => LocationOf(candidates[i], i, layout))
  }

  // ---------------------------------------------------------------- what a plan reads

  /** The plan covers pages [first, first + pageCount) of its list. */
  ghost predicate CoversPages(plan: ReadPlan, layout: Layout, first: nat) {
    plan.alignedOffset == first * layout.pageSize && plan.requestBytes == plan.pageCount * layout.pageSize && plan.pageCount > 0
  }

  /** The plan's item lies inside its request, at the byte address of the candidate's record in the list file. */
  ghost predicate Addresses(plan: ReadPlan, layout: Layout, item: CandidateInRequest, location: Location) {
    && item.candidateIndex == location.candidateIndex && plan.listNo == location.listNo
    && plan.alignedOffset + item.recordInBuffer == location.pageNo * layout.pageSize + location.recordInPage
    && item.recordInBuffer + layout.recordStride <= plan.requestBytes
  }

  /** What one plan says about the run of sorted locations it was made from. */
  ghost predicate Plans(plan: ReadPlan, layout: Layout, run: seq<Location>) {
    && |plan.candidates| == |run| && run != []
    && (forall k :: 0 <= k < |run| ==> Addresses(plan, layout, plan.candidates[k], run[k]))
    && CoversPages(plan, layout, run[0].pageNo)
    && run[0].pageNo + plan.pageCount == run[|run| - 1].pageNo + 1
    && (forall k :: 0 < k < |run| ==> Touching(run[k - 1], run[k]))
  }

  /** Neighbours in a run: the same page or the next one of the same list. */
  predicate Touching(a: Location, b: Location) {
    a.listNo == b.listNo && (b.pageNo == a.pageNo || b.pageNo == a.pageNo + 1)
  }

  /** Cutting the sorted locations wherever neighbours do not touch. */
  function Runs(sorted: seq<Location>): (runs: seq<seq<Location>>)
    ensures sorted == [] <==> runs == []
    ensures runs != [] ==> runs[|runs| - 1] != [] && runs[|runs| - 1][|runs[|runs| - 1]| - 1] == sorted[|sorted| - 1]
  {
    if sorted == [] then [] else
      var rest, x := Runs(sorted[..|sorted| - 1]), sorted[|sorted| - 1];
      if rest == [] || !Touching(sorted[|sorted| - 2], x) then rest + [[x]]
      else rest[..|rest| - 1] + [rest[|rest| - 1] + [x]]
  }

  ghost predicate PlansAll(plans: seq<ReadPlan>, layout: Layout, runs: seq<seq<Location>>) {
    |plans| == |runs| && forall j :: 0 <= j < |plans| ==> Plans(plans[j], layout, runs[j])
  }

  // ---------------------------------------------------------------- building

  function NewPlan(location: Location, layout: Layout): ReadPlan {
    ReadPlan(location.listNo, location.pageNo * layout.pageSize, 0, 0, [])
  }

  /** One location added to the last plan; `newPage` when it opens a page the plan did not have. */
  function WithLocation(plan: ReadPlan, location: Location, layout: Layout, newPage: bool): ReadPlan
    requires layout.pageSize > 0
  {
    var count := if newPage then plan.pageCount + 1 else plan.pageCount;
    var firstPage := plan.alignedOffset / layout.pageSize;
    var pageInRequest := if location.pageNo >= firstPage then location.pageNo - firstPage else 0;
    plan.(pageCount := count, requestBytes := count * layout.pageSize,
          candidates := plan.candidates + [CandidateInRequest(location.candidateIndex,
                                                              pageInRequest * layout.pageSize + location.recordInPage)])
  }

  lemma ItemFits(location: Location, layout: Layout, firstPage: nat, aligned: nat, pageCount: nat, pageInRequest: nat)
    requires layout.pageSize > 0 && location.recordInPage + layout.recordStride <= layout.pageSize
    requires aligned == firstPage * layout.pageSize && location.pageNo == firstPage + pageInRequest
    requires pageInRequest < pageCount
    ensures aligned + (pageInRequest * layout.pageSize + location.recordInPage) == location.pageNo * layout.pageSize + location.recordInPage
    ensures pageInRequest * layout.pageSize + location.recordInPage + layout.recordStride <= pageCount * layout.pageSize
  {
    assert location.pageNo * layout.pageSize == firstPage * layout.pageSize + pageInRequest * layout.pageSize;
    MulMonotone(pageInRequest + 1, pageCount, layout.pageSize);
    assert (pageInRequest + 1) * layout.pageSize == pageInRequest * layout.pageSize + layout.pageSize;
  }

  lemma FirstPlan(location: Location, layout: Layout)
    requires layout.pageSize > 0 && location.recordInPage + layout.recordStride <= layout.pageSize
    ensures Plans(WithLocation(NewPlan(location, layout), location, layout, true), layout, [location])
  {
    QuotientOf(location.pageNo, 0, layout.pageSize);
    ItemFits(location, layout, location.pageNo, location.pageNo * layout.pageSize, 1, 0);
  }

  lemma NextPlan(plan: ReadPlan, layout: Layout, run: seq<Location>, location: Location)
    requires layout.pageSize > 0 && location.recordInPage + layout.recordStride <= layout.pageSize
    requires Plans(plan, layout, run) && Touching(run[|run| - 1], location)
    ensures Plans(WithLocation(plan, location, layout, location.pageNo != run[|run| - 1].pageNo), layout, run + [location])
  {
    var last, first := run[|run| - 1], run[0].pageNo;
    var newPage := location.pageNo != last.pageNo;
    var next := WithLocation(plan, location, layout, newPage);
    QuotientOf(first, 0, layout.pageSize);
    assert plan.alignedOffset / layout.pageSize == first;
    SameList(plan, layout, run);
    ItemFits(location, layout, first, plan.alignedOffset, next.pageCount, location.pageNo - first);
    MulMonotone(plan.pageCount, next.pageCount, layout.pageSize);
    forall k | 0 <= k < |run| + 1 ensures Addresses(next, layout, next.candidates[k], (run + [location])[k]) {
      if k < |run| { assert Addresses(plan, layout, plan.candidates[k], run[k]); }
    }
  }

  lemma SameList(plan: ReadPlan, layout: Layout, run: seq<Location>)
    requires Plans(plan, layout, run)
    ensures forall k :: 0 <= k < |run| ==> run[k].listNo == plan.listNo
    ensures run[0].pageNo <= run[|run| - 1].pageNo
  {
    forall k | 0 <= k < |run| ensures run[k].listNo == plan.listNo {
      assert Addresses(plan, layout, plan.candidates[k], run[k]);
    }
  }

  /** Whether every product the source checks fits its type. */
  ghost predicate Representable(candidates: seq<ListCandidate>, layout: Layout)
    requires layout.recordsPerPage > 0
  {
    forall i :: 0 <= i < |candidates| ==> (candidates[i].offset / layout.recordsPerPage + 1) * layout.pageSize <= OFF_T_MAX
  }

  lemma LocationFits(candidates: seq<ListCandidate>, layout: Layout, location: Location)
    requires ValidLayout(layout) && location in Locations(candidates, layout)
    ensures location.recordInPage + layout.recordStride <= layout.pageSize
    ensures location.candidateIndex < |candidates|
    ensures location == LocationOf(candidates[location.candidateIndex], location.candidateIndex, layout)
  {
    var all := Locations(candidates, layout);
    var i :| 0 <= i < |all| && all[i] == location;
    var slot := candidates[i].offset % layout.recordsPerPage;
    MulMonotone(slot + 1, layout.recordsPerPage, layout.recordStride);
    assert (slot + 1) * layout.recordStride == slot * layout.recordStride + layout.recordStride;
  }

  /** The sorted locations, merged into plans run by run. */
  method BuildReadPlans(candidates: seq<ListCandidate>, layout: Layout) returns (r: Result<seq<ReadPlan>>)
    requires ValidLayout(layout)
    requires forall i :: 0 <= i < |candidates| ==> candidates[i].listNo < UINT32_MAX
    ensures r.Ok? ==> PlansAll(r.value, layout, Runs(Sort(LocationLess, Locations(candidates, layout))))
    ensures r.Err? ==> r.error == Overflow
    ensures Representable(candidates, layout) ==> r.Ok?
  {
    var sorted := Sort(LocationLess, Locations(candidates, layout));
    AllFit(candidates, layout, sorted);
    var plans: seq<ReadPlan> := [];
    var previousList, previousPage := UINT32_MAX, SIZE_MAX;
    for i := 0 to |sorted|
      invariant PlansAll(plans, layout, Runs(sorted[..i]))
      invariant Follows(Runs(sorted[..i]), previousList, previousPage)
    {
      var added := AddNext(plans, layout, sorted, i, previousList, previousPage, candidates);
      if added.Err? {
        return Err(Overflow);
      }
      plans, previousList, previousPage := added.value, sorted[i].listNo, sorted[i].pageNo;
    }
    assert sorted[..|sorted|] == sorted;
    return Ok(plans);
  }

  method AddNext(plans: seq<ReadPlan>, layout: Layout, sorted: seq<Location>, i: nat, previousList: nat, previousPage: nat,
                 ghost candidates: seq<ListCandidate>)
    returns (r: Result<seq<ReadPlan>>)
    requires ValidLayout(layout) && i < |sorted| && Fits(candidates, layout, sorted[i]) && sorted[i].listNo < UINT32_MAX
    requires PlansAll(plans, layout, Runs(sorted[..i])) && Follows(Runs(sorted[..i]), previousList, previousPage)
    ensures r.Ok? ==> PlansAll(r.value, layout, Runs(sorted[..i + 1]))
    ensures r.Err? ==> r.error == Overflow && !Representable(candidates, layout)
    ensures Follows(Runs(sorted[..i + 1]), sorted[i].listNo, sorted[i].pageNo)
  {
    RunsNext(sorted, i);
    r := AddSorted(plans, layout, sorted[i], previousList, previousPage, Runs(sorted[..i]));
    if r.Err? {
      Unrepresentable(candidates, layout, sorted[i]);
    }
  }

  /** The previous list and page are those of the last location, or the sentinels. */
  ghost predicate Follows(runs: seq<seq<Location>>, previousList: nat, previousPage: nat) {
    if runs == [] then previousList == UINT32_MAX
    else runs[|runs| - 1] != [] && previousList == LastOf(runs).listNo && previousPage == LastOf(runs).pageNo
  }

  function LastOf(runs: seq<seq<Location>>): Location
    requires runs != [] && runs[|runs| - 1] != []
  {
    runs[|runs| - 1][|runs[|runs| - 1]| - 1]
  }

  /** One more location: a new run, or the last run extended. */
  function Grown(runs: seq<seq<Location>>, x: Location): seq<seq<Location>>
    requires runs != [] ==> runs[|runs| - 1] != []
  {
    AddToRuns(runs, x, runs == [] || !Touching(LastOf(runs), x))
  }

  /** A location of some candidate, whose record lies within one page. */
  ghost predicate Fits(candidates: seq<ListCandidate>, layout: Layout, location: Location)
    requires layout.recordsPerPage > 0
  {
    && location in Locations(candidates, layout)
    && location.recordInPage + layout.recordStride <= layout.pageSize
    && location.candidateIndex < |candidates| && location.listNo == candidates[location.candidateIndex].listNo
  }

  lemma AllFit(candidates: seq<ListCandidate>, layout: Layout, sorted: seq<Location>)
    requires ValidLayout(layout) && sorted == Sort(LocationLess, Locations(candidates, layout))
    ensures forall i :: 0 <= i < |sorted| ==> Fits(candidates, layout, sorted[i])
  {
    forall i | 0 <= i < |sorted| ensures Fits(candidates, layout, sorted[i]) {
      SortedLocationFits(candidates, layout, i);
    }
  }

  /** One location: a new plan, a new page of the last plan, or one more record of its last page. */
  method AddSorted(plans: seq<ReadPlan>, layout: Layout, location: Location, previousList: nat, previousPage: nat,
                   ghost runs: seq<seq<Location>>)
    returns (r: Result<seq<ReadPlan>>)
    requires layout.pageSize > 0 && location.recordInPage + layout.recordStride <= layout.pageSize && PlansAll(plans, layout, runs)
    requires Follows(runs, previousList, previousPage) && location.listNo < UINT32_MAX
    ensures r.Ok? ==> PlansAll(r.value, layout, Grown(runs, location))
    ensures r.Err? ==> r.error == Overflow && (location.pageNo + 1) * layout.pageSize > OFF_T_MAX
  {
    var sameList := location.listNo == previousList;
    var newPage := !(sameList && location.pageNo == previousPage);
    var newPlan := newPage && !(sameList && location.pageNo == previousPage + 1);
    if newPlan && location.pageNo * layout.pageSize > OFF_T_MAX {
      NextPageBeyond(location.pageNo, layout.pageSize);
      return Err(Overflow);
    }
    AddStep(plans, layout, runs, location, newPlan, newPage);
    var next := AddLocation(plans, location, layout, newPlan, newPage);
    if next[|next| - 1].requestBytes > SIZE_MAX {
      ghost var all := AddToRuns(runs, location, newPlan);
      RequestBytes(next[|next| - 1], layout, all[|all| - 1], location);
      return Err(Overflow);
    }
    return Ok(next);
  }

  lemma NextPageBeyond(page: nat, size: nat)
    ensures page * size <= (page + 1) * size
  {
    MulMonotone(page, page + 1, size);
  }

  function AddLocation(plans: seq<ReadPlan>, location: Location, layout: Layout, newPlan: bool, newPage: bool): (r: seq<ReadPlan>)
    requires layout.pageSize > 0 && (plans == [] ==> newPlan)
    ensures |r| > 0
  {
    if newPlan then plans + [WithLocation(NewPlan(location, layout), location, layout, true)]
    else plans[|plans| - 1 := WithLocation(plans[|plans| - 1], location, layout, newPage)]
  }

  function AddToRuns(runs: seq<seq<Location>>, x: Location, newRun: bool): seq<seq<Location>>
    requires runs == [] ==> newRun
  {
    if newRun then runs + [[x]] else runs[|runs| - 1 := runs[|runs| - 1] + [x]]
  }

  lemma AddStep(plans: seq<ReadPlan>, layout: Layout, runs: seq<seq<Location>>, x: Location, newPlan: bool, newPage: bool)
    requires layout.pageSize > 0 && x.recordInPage + layout.recordStride <= layout.pageSize && PlansAll(plans, layout, runs)
    requires runs == [] ==> newPlan
    requires !newPlan ==>
      && runs[|runs| - 1] != [] && Touching(runs[|runs| - 1][|runs[|runs| - 1]| - 1], x)
      && (newPage <==> x.pageNo != runs[|runs| - 1][|runs[|runs| - 1]| - 1].pageNo)
    ensures PlansAll(AddLocation(plans, x, layout, newPlan, newPage), layout, AddToRuns(runs, x, newPlan))
  {
    if newPlan {
      AddPlan(plans, layout, runs, x);
    } else {
      ExtendPlan(plans, layout, runs, x, newPage);
    }
  }

  lemma AddPlan(plans: seq<ReadPlan>, layout: Layout, runs: seq<seq<Location>>, x: Location)
    requires layout.pageSize > 0 && x.recordInPage + layout.recordStride <= layout.pageSize && PlansAll(plans, layout, runs)
    ensures PlansAll(plans + [WithLocation(NewPlan(x, layout), x, layout, true)], layout, runs + [[x]])
  {
    FirstPlan(x, layout);
  }

  lemma ExtendPlan(plans: seq<ReadPlan>, layout: Layout, runs: seq<seq<Location>>, x: Location, newPage: bool)
    requires layout.pageSize > 0 && x.recordInPage + layout.recordStride <= layout.pageSize && PlansAll(plans, layout, runs)
    requires runs != [] && runs[|runs| - 1] != [] && Touching(runs[|runs| - 1][|runs[|runs| - 1]| - 1], x)
    requires newPage <==> x.pageNo != runs[|runs| - 1][|runs[|runs| - 1]| - 1].pageNo
    ensures PlansAll(plans[|plans| - 1 := WithLocation(plans[|plans| - 1], x, layout, newPage)], layout,
                     runs[|runs| - 1 := runs[|runs| - 1] + [x]])
  {
    NextPlan(plans[|plans| - 1], layout, runs[|runs| - 1], x);
  }

  lemma SortedLocationFits(candidates: seq<ListCandidate>, layout: Layout, i: nat)
    requires ValidLayout(layout) && i < |candidates|
    ensures var location := Sort(LocationLess, Locations(candidates, layout))[i];
      && location in Locations(candidates, layout)
      && location.recordInPage + layout.recordStride <= layout.pageSize
      && location.candidateIndex < |candidates| && location.listNo == candidates[location.candidateIndex].listNo
  {
    var sorted := Sort(LocationLess, Locations(candidates, layout));
    assert sorted[i] in sorted;
    SortMembers(LocationLess, Locations(candidates, layout), sorted[i]);
    LocationFits(candidates, layout, sorted[i]);
  }

  lemma RunsNext(sorted: seq<Location>, i: nat)
    requires i < |sorted|
    ensures Runs(sorted[..i + 1]) == Grown(Runs(sorted[..i]), sorted[i])
    ensures LastOf(Runs(sorted[..i + 1])) == sorted[i]
    ensures i > 0 ==> LastOf(Runs(sorted[..i])) == sorted[i - 1]
    ensures i == 0 ==> Runs(sorted[..i]) == []
  {
    assert sorted[..i + 1][..i] == sorted[..i];
  }

  lemma Unrepresentable(candidates: seq<ListCandidate>, layout: Layout, location: Location)
    requires ValidLayout(layout) && location in Locations(candidates, layout)
    requires (location.pageNo + 1) * layout.pageSize > OFF_T_MAX
    ensures !Representable(candidates, layout)
  {
    LocationFits(candidates, layout, location);
  }

  lemma RequestBytes(plan: ReadPlan, layout: Layout, run: seq<Location>, location: Location)
    requires Plans(plan, layout, run) && run[|run| - 1] == location
    ensures plan.requestBytes <= (location.pageNo + 1) * layout.pageSize
  {
    MulMonotone(plan.pageCount, location.pageNo + 1, layout.pageSize);
  }

  // ---------------------------------------------------------------- each candidate once

  /** All plans' candidates, in plan order. */
  function AllItems(plans: seq<ReadPlan>): seq<nat> {
    if plans == [] then [] else AllItems(plans[..|plans| - 1]) + ItemIndices(plans[|plans| - 1].candidates)
  }

  function ItemIndices(items: seq<CandidateInRequest>): (s: seq<nat>)
    ensures |s| == |items|
  {
    seq(|items|, k requires 0 <= k < |items| => items[k].candidateIndex)
  }

  function Indices(locations: seq<Location>): (s: seq<nat>)
    ensures |s| == |locations|
  {
    seq(|locations|, k requires 0 <= k < |locations| => locations[k].candidateIndex)
  }

  function Concat<T>(runs: seq<seq<T>>): seq<T> {
    if runs == [] then [] else Concat(runs[..|runs| - 1]) + runs[|runs| - 1]
  }

  lemma {:induction false} RunsConcat(sorted: seq<Location>)
    ensures Concat(Runs(sorted)) == sorted
  {
    if sorted != [] {
      var front, x := sorted[..|sorted| - 1], sorted[|sorted| - 1];
      RunsConcat(front);
      var rest, runs := Runs(front), Runs(sorted);
      assert runs[..|runs| - 1] == if rest == [] || !Touching(sorted[|sorted| - 2], x) then rest else rest[..|rest| - 1];
      assert sorted == front + [x];
    }
  }

  lemma {:induction false} ItemsOfRuns(plans: seq<ReadPlan>, layout: Layout, runs: seq<seq<Location>>)
    requires PlansAll(plans, layout, runs)
    ensures AllItems(plans) == Indices(Concat(runs))
  {
    if plans != [] {
      var n := |plans| - 1;
      ItemsOfRuns(plans[..n], layout, runs[..n]);
      ItemsOfRun(plans[n], layout, runs[n]);
      IndicesConcat(Concat(runs[..n]), runs[n]);
    }
  }

  lemma ItemsOfRun(plan: ReadPlan, layout: Layout, run: seq<Location>)
    requires Plans(plan, layout, run)
    ensures ItemIndices(plan.candidates) == Indices(run)
  {
    forall k | 0 <= k < |run| ensures plan.candidates[k].candidateIndex == run[k].candidateIndex {
      assert Addresses(plan, layout, plan.candidates[k], run[k]);
    }
  }

  lemma IndicesConcat(a: seq<Location>, b: seq<Location>)
    ensures Indices(a + b) == Indices(a) + Indices(b)
  {
  }

  function IndexOf(location: Location): seq<nat> {
    [location.candidateIndex]
  }

  lemma {:induction false} IndicesMapped(locations: seq<Location>)
    ensures Indices(locations) == FlatMap(IndexOf, locations)
  {
    if locations != [] {
      IndicesMapped(locations[..|locations| - 1]);
    }
  }

  lemma SortedIndices(locations: seq<Location>)
    ensures multiset(Indices(Sort(LocationLess, locations))) == multiset(Indices(locations))
  {
    SortMultiset(LocationLess, locations);
    IndicesMapped(locations);
    IndicesMapped(Sort(LocationLess, locations));
    FlatMapPermuted(IndexOf, Sort(LocationLess, locations), locations);
  }

  /** Every candidate is read by exactly one plan, once. */
  lemma EachCandidateOnce(plans: seq<ReadPlan>, layout: Layout, candidates: seq<ListCandidate>)
    requires layout.recordsPerPage > 0
    requires PlansAll(plans, layout, Runs(Sort(LocationLess, Locations(candidates, layout))))
    ensures multiset(AllItems(plans)) == multiset(UpTo(|candidates|))
  {
    var locations := Locations(candidates, layout);
    ItemsOfRuns(plans, layout, Runs(Sort(LocationLess, locations)));
    RunsConcat(Sort(LocationLess, locations));
    SortedIndices(locations);
    assert Indices(locations) == UpTo(|candidates|);
  }

  // ---------------------------------------------------------------- plans do not meet

  predicate PageBefore(a: Location, b: Location) {
    a.listNo < b.listNo || (a.listNo == b.listNo && a.pageNo <= b.pageNo)
  }

  ghost predicate PageSorted(s: seq<Location>) {
    forall i, j :: 0 <= i < j < |s| ==> PageBefore(s[i], s[j])
  }

  lemma SortedPages(locations: seq<Location>)
    ensures PageSorted(Sort(LocationLess, locations))
  {
    LocationOrder();
    SortSorted(LocationLess, locations);
    var s := Sort(LocationLess, locations);
    forall i, j | 0 <= i < j < |s| ensures PageBefore(s[i], s[j]) {
      assert !LocationLess(s[j], s[i]);
    }
  }

  lemma LocationOrder()
    ensures StrictWeakOrder(LocationLess)
  {
  }

  /** At least one page lies between the two, or a list boundary. */
  predicate Gap(a: Location, b: Location) {
    a.listNo < b.listNo || (a.listNo == b.listNo && a.pageNo + 1 < b.pageNo)
  }

  ghost predicate RunsApart(runs: seq<seq<Location>>) {
    && (forall i :: 0 <= i < |runs| ==> runs[i] != [])
    && (forall i, j :: 0 <= i < j < |runs| ==> Gap(runs[i][|runs[i]| - 1], runs[j][0]))
  }

  ghost predicate StartBefore(runs: seq<seq<Location>>, x: Location) {
    forall i :: 0 <= i < |runs| && runs[i] != [] ==> PageBefore(runs[i][0], x)
  }

  lemma {:induction false} RunsDoNotMeet(sorted: seq<Location>)
    requires PageSorted(sorted)
    ensures RunsApart(Runs(sorted))
    ensures sorted != [] ==> StartBefore(Runs(sorted), sorted[|sorted| - 1])
  {
    if sorted != [] {
      var front, x := sorted[..|sorted| - 1], sorted[|sorted| - 1];
      RunsDoNotMeet(front);
      var rest := Runs(front);
      if rest != [] {
        var y := front[|front| - 1];
        assert PageBefore(y, x);
        forall i | 0 <= i < |rest| ensures PageBefore(rest[i][0], x) { assert PageBefore(rest[i][0], y); }
        if !Touching(y, x) { NewRunApart(rest, y, x); }
      }
    }
  }

  lemma NewRunApart(rest: seq<seq<Location>>, y: Location, x: Location)
    requires RunsApart(rest) && StartBefore(rest, y) && rest != []
    requires rest[|rest| - 1][|rest[|rest| - 1]| - 1] == y && PageBefore(y, x) && !Touching(y, x)
    ensures RunsApart(rest + [[x]])
  {
    var runs := rest + [[x]];
    forall i | 0 <= i < |rest| ensures Gap(rest[i][|rest[i]| - 1], x) {
      if i < |rest| - 1 {
        assert Gap(rest[i][|rest[i]| - 1], rest[|rest| - 1][0]) && PageBefore(rest[|rest| - 1][0], y);
      }
    }
  }

  /** The later plan is of a later list, or starts at least two pages behind the earlier one's last page. */
  ghost predicate Apart(a: ReadPlan, b: ReadPlan, layout: Layout)
    requires layout.pageSize > 0
  {
    || a.listNo < b.listNo
    || (a.listNo == b.listNo && a.alignedOffset / layout.pageSize + a.pageCount < b.alignedOffset / layout.pageSize)
  }

  /** Plans of one list are disjoint and not even adjacent, in ascending order; lists ascend. */
  lemma PlansApart(plans: seq<ReadPlan>, layout: Layout, candidates: seq<ListCandidate>, i: nat, j: nat)
    requires ValidLayout(layout) && i < j < |plans|
    requires PlansAll(plans, layout, Runs(Sort(LocationLess, Locations(candidates, layout))))
    ensures Apart(plans[i], plans[j], layout)
  {
    var runs := Runs(Sort(LocationLess, Locations(candidates, layout)));
    SortedPages(Locations(candidates, layout));
    RunsDoNotMeet(Sort(LocationLess, Locations(candidates, layout)));
    PlanSpan(plans[i], layout, runs[i]);
    PlanSpan(plans[j], layout, runs[j]);
    assert Gap(runs[i][|runs[i]| - 1], runs[j][0]);
  }

  lemma PlanSpan(plan: ReadPlan, layout: Layout, run: seq<Location>)
    requires layout.pageSize > 0 && Plans(plan, layout, run)
    ensures plan.alignedOffset / layout.pageSize == run[0].pageNo
    ensures plan.alignedOffset / layout.pageSize + plan.pageCount == run[|run| - 1].pageNo + 1
    ensures run[0].listNo == plan.listNo == run[|run| - 1].listNo
  {
    SameList(plan, layout, run);
    QuotientOf(run[0].pageNo, 0, layout.pageSize);
  }

  // ---------------------------------------------------------------- no page is read for nothing

  type PageId = (nat, nat)

  function PageOf(x: Location): PageId {
    (x.listNo, x.pageNo)
  }

  /** The pages of sorted locations, each once. */
  function DistinctPages(sorted: seq<Location>): seq<PageId> {
    if sorted == [] then [] else
      var rest, x := DistinctPages(sorted[..|sorted| - 1]), sorted[|sorted| - 1];
      if |sorted| > 1 && PageOf(sorted[|sorted| - 2]) == PageOf(x) then rest else rest + [PageOf(x)]
  }

  predicate PageIdLess(a: PageId, b: PageId) {
    a.0 < b.0 || (a.0 == b.0 && a.1 < b.1)
  }

  lemma {:induction false} DistinctPagesAscend(sorted: seq<Location>)
    requires PageSorted(sorted)
    ensures var d := DistinctPages(sorted);
      && (forall i, j :: 0 <= i < j < |d| ==> PageIdLess(d[i], d[j]))
      && (sorted != [] ==> d != [] && d[|d| - 1] == PageOf(sorted[|sorted| - 1]))
      && (forall id :: id in d <==> exists k :: 0 <= k < |sorted| && PageOf(sorted[k]) == id)
  {
    if sorted != [] {
      var n := |sorted| - 1;
      DistinctPagesAscend(sorted[..n]);
      var rest := DistinctPages(sorted[..n]);
      if n > 0 { assert PageBefore(sorted[n - 1], sorted[n]); }
      forall id ensures id in DistinctPages(sorted) <==> id in rest || id == PageOf(sorted[n]) {
        if n > 0 && PageOf(sorted[n - 1]) == PageOf(sorted[n]) { assert rest[|rest| - 1] in rest; }
      }
    }
  }

  function TotalPages(plans: seq<ReadPlan>): nat {
    if plans == [] then 0 else TotalPages(plans[..|plans| - 1]) + plans[|plans| - 1].pageCount
  }

  function SpanOf(run: seq<Location>): int {
    if run == [] then 0 else run[|run| - 1].pageNo - run[0].pageNo + 1
  }

  function Spans(runs: seq<seq<Location>>): int {
    if runs == [] then 0 else Spans(runs[..|runs| - 1]) + SpanOf(runs[|runs| - 1])
  }

  lemma {:induction false} TotalIsSpans(plans: seq<ReadPlan>, layout: Layout, runs: seq<seq<Location>>)
    requires PlansAll(plans, layout, runs)
    ensures TotalPages(plans) == Spans(runs)
  {
    if plans != [] {
      TotalIsSpans(plans[..|plans| - 1], layout, runs[..|runs| - 1]);
    }
  }

  lemma {:induction false} SpansAreDistinctPages(sorted: seq<Location>)
    ensures Spans(Runs(sorted)) == |DistinctPages(sorted)|
    ensures forall i :: 0 <= i < |Runs(sorted)| ==> Runs(sorted)[i] != []
  {
    if sorted != [] {
      var n := |sorted| - 1;
      SpansAreDistinctPages(sorted[..n]);
      assert sorted[..n + 1] == sorted;
      RunsNext(sorted, n);
      var rest, runs := Runs(sorted[..n]), Runs(sorted);
      if n == 0 || !Touching(sorted[n - 1], sorted[n]) {
        assert runs[..|runs| - 1] == rest;
      } else {
        assert runs[..|runs| - 1] == rest[..|rest| - 1];
      }
    }
  }

  /** The plans read exactly as many pages as there are distinct (list, page) pairs among the candidates. */
  lemma PagesExact(plans: seq<ReadPlan>, layout: Layout, candidates: seq<ListCandidate>) returns (pages: seq<PageId>)
    requires ValidLayout(layout)
    requires PlansAll(plans, layout, Runs(Sort(LocationLess, Locations(candidates, layout))))
    ensures TotalPages(plans) == |pages|
    ensures forall i, j :: 0 <= i < j < |pages| ==> PageIdLess(pages[i], pages[j])
    ensures forall id :: id in pages <==>
      exists c :: c in candidates && id == (c.listNo, c.offset / layout.recordsPerPage)
  {
    var locations := Locations(candidates, layout);
    var sorted := Sort(LocationLess, locations);
    SortedPages(locations);
    TotalIsSpans(plans, layout, Runs(sorted));
    SpansAreDistinctPages(sorted);
    DistinctPagesAscend(sorted);
    pages := DistinctPages(sorted);
    forall id ensures id in pages <==> exists c :: c in candidates && id == (c.listNo, c.offset / layout.recordsPerPage) {
      if id in pages { CandidateOfPage(candidates, layout, id); }
      if c :| c in candidates && id == (c.listNo, c.offset / layout.recordsPerPage) {
        PageOfCandidate(candidates, layout, c);
      }
    }
  }

  lemma CandidateOfPage(candidates: seq<ListCandidate>, layout: Layout, id: PageId)
    requires ValidLayout(layout)
    requires exists k :: 0 <= k < |candidates| && PageOf(Sort(LocationLess, Locations(candidates, layout))[k]) == id
    ensures exists c :: c in candidates && id == (c.listNo, c.offset / layout.recordsPerPage)
  {
    var sorted := Sort(LocationLess, Locations(candidates, layout));
    var k :| 0 <= k < |sorted| && PageOf(sorted[k]) == id;
    SortedLocationFits(candidates, layout, k);
    LocationFits(candidates, layout, sorted[k]);
    assert candidates[sorted[k].candidateIndex] in candidates;
  }

  lemma PageOfCandidate(candidates: seq<ListCandidate>, layout: Layout, c: ListCandidate)
    requires ValidLayout(layout) && c in candidates
    ensures var sorted := Sort(LocationLess, Locations(candidates, layout));
      exists k :: 0 <= k < |sorted| && PageOf(sorted[k]) == (c.listNo, c.offset / layout.recordsPerPage)
  {
    var locations := Locations(candidates, layout);
    var sorted := Sort(LocationLess, locations);
    var i :| 0 <= i < |candidates| && candidates[i] == c;
    assert locations[i] in locations;
    SortMembers(LocationLess, locations, locations[i]);
    var k :| 0 <= k < |sorted| && sorted[k] == locations[i];
  }
}
