/**
 The asynchronous slot pipeline of `refine_aio`, over every order and grouping of completions, and the
 blocking loop it must agree with.
 */
module AioPipeline {
  import opened Outcomes
  import opened Permutations
  import opened ReadPlans
  import opened PlanProcessing
  import opened ExactTopK

  datatype SlotState = Idle | Armed(plan: nat)

  /** A completion: the slot and the number of bytes read; a negative number is an error. */
  datatype Event = Event(slot: nat, bytes: int)

  /** The kernel's answer to the n-th wait, given what is in flight. */
  type Kernel = (nat, seq<SlotState>) -> seq<Event>

  function PlanOf(s: SlotState): seq<nat> {
    if s.Armed? then [s.plan] else []
  }

  function InFlight(slots: seq<SlotState>): seq<nat> {
    FlatMap(PlanOf, slots)
  }

  function Range(begin: nat, end: nat): (s: seq<nat>)
    requires begin <= end
    ensures |s| == end - begin
  {
    seq(end - begin, i requires 0 <= i => begin + i)
  }

  function FoundAt(q: Request, plans: seq<ReadPlan>): nat -> seq<Neighbor> {
    (i: nat) => if i < |plans| then PlanFound(q, plans[i]) else []
  }

  ghost predicate AllServe(q: Request, plans: seq<ReadPlan>)
    requires ValidLayout(q.layout)
  {
    forall j :: 0 <= j < |plans| ==> Serves(q, plans[j])
  }

  ghost predicate SoundRange(q: Request, plans: seq<ReadPlan>, begin: nat, end: nat)
    requires ValidLayout(q.layout) && end <= |plans|
  {
    forall j :: begin <= j < end ==> PlanSound(q, plans[j])
  }

  /** The plan's request lies inside its file, and every record in it has a proper distance. */
  ghost predicate Refinable(q: Request, plan: ReadPlan)
    requires ValidLayout(q.layout) && Serves(q, plan)
  {
    PlanSound(q, plan) && ReadPages(q.files[plan.listNo], plan, q.layout).Ok?
  }

  ghost predicate RefinableRange(q: Request, plans: seq<ReadPlan>, begin: nat, end: nat)
    requires ValidLayout(q.layout) && AllServe(q, plans) && end <= |plans|
  {
    forall j :: begin <= j < end ==> Refinable(q, plans[j])
  }

  // ---------------------------------------------------------------- the blocking loop

  /** Everything in the heap once the given plans have been processed, in the given order. */
  ghost function FoundBy(q: Request, plans: seq<ReadPlan>, all: seq<Neighbor>, processed: seq<nat>): seq<Neighbor> {
    all + FlatMap(FoundAt(q, plans), processed)
  }

  lemma FoundOneMore(q: Request, plans: seq<ReadPlan>, all: seq<Neighbor>, processed: seq<nat>, i: nat)
    requires i < |plans|
    ensures FoundBy(q, plans, all, processed + [i]) == FoundBy(q, plans, all, processed) + PlanFound(q, plans[i])
    ensures FoundBy(q, plans, all, []) == all
  {
    assert (processed + [i])[..|processed|] == processed;
  }

  lemma RangeStep(begin: nat, i: nat)
    requires begin <= i
    ensures Range(begin, i + 1) == Range(begin, i) + [i] && Range(begin, begin) == []
  {
  }

  /** Reads and processes one plan. */
  method RefinePlan(q: Request, plan: ReadPlan, k: nat, heap: seq<Neighbor>, ghost all: seq<Neighbor>) returns (r: Result<seq<Neighbor>>)
    requires ValidRequest(q) && Serves(q, plan) && heap == TopK(all, k)
    ensures r.Ok? <==> Refinable(q, plan)
    ensures r.Ok? ==> r.value == TopK(all + PlanFound(q, plan), k)
    ensures r.Err? ==> r.error == RuntimeError
  {
    var buffer := ReadPages(q.files[plan.listNo], plan, q.layout);
    if buffer.Err? {
      return Err(buffer.error);
    }
    r := ProcessPlan(q, plan, buffer.value, k, heap, all);
  }

  /** One plan after the other. */
  method RefineBlocking(q: Request, plans: seq<ReadPlan>, begin: nat, end: nat, k: nat, heap: seq<Neighbor>, ghost all: seq<Neighbor>)
    returns (r: Result<seq<Neighbor>>)
    requires ValidRequest(q) && AllServe(q, plans) && begin <= end <= |plans| && heap == TopK(all, k)
    ensures r.Ok? <==> RefinableRange(q, plans, begin, end)
    ensures r.Ok? ==> r.value == TopK(FoundBy(q, plans, all, Range(begin, end)), k)
    ensures r.Err? ==> r.error == RuntimeError
  {
    var top := heap;
    RangeStep(begin, begin);
    assert FoundBy(q, plans, all, []) == all;
    for i := begin to end
      invariant top == TopK(FoundBy(q, plans, all, Range(begin, i)), k)
      invariant RefinableRange(q, plans, begin, i)
    {
      assert Serves(q, plans[i]);
      var processed := RefinePlan(q, plans[i], k, top, FoundBy(q, plans, all, Range(begin, i)));
      if processed.Err? {
        return Err(processed.error);
      }
      RangeStep(begin, i);
      FoundOneMore(q, plans, all, Range(begin, i), i);
      top := processed.value;
    }
    return Ok(top);
  }

  // ---------------------------------------------------------------- the pipeline

  datatype Pipeline = Pipeline(slots: seq<SlotState>, nextPlan: nat, inflight: nat, pending: nat, heap: seq<Neighbor>)

  /** What the kernel may report: distinct slots that are in flight, and a full read only of bytes that exist. */
  ghost predicate Completions(q: Request, plans: seq<ReadPlan>, events: seq<Event>, slots: seq<SlotState>) {
    && |events| <= |InFlight(slots)|
    && (forall i, j :: 0 <= i < j < |events| ==> events[i].slot != events[j].slot)
    && (forall i :: 0 <= i < |events| ==> Completion(q, plans, events[i], slots))
  }

  ghost predicate Completion(q: Request, plans: seq<ReadPlan>, e: Event, slots: seq<SlotState>) {
    && e.slot < |slots| && slots[e.slot].Armed? && slots[e.slot].plan < |plans|
    && var plan := plans[slots[e.slot].plan];
       e.bytes == plan.requestBytes ==> InFile(q, plan)
  }

  /** The whole request lies inside the plan's file. */
  predicate InFile(q: Request, plan: ReadPlan) {
    q.layout.pageSize > 0 && plan.listNo < |q.files| && ReadPages(q.files[plan.listNo], plan, q.layout).Ok?
  }

  ghost predicate Faithful(q: Request, plans: seq<ReadPlan>, kernel: Kernel) {
    forall n: nat, slots: seq<SlotState> :: Armable(slots, |plans|) ==> Completions(q, plans, kernel(n, slots), slots)
  }

  ghost predicate Armable(slots: seq<SlotState>, plans: nat) {
    forall i :: 0 <= i < |slots| ==> slots[i].Armed? ==> slots[i].plan < plans
  }

  /** A kernel that makes progress and reads in full every request that lies inside its file. */
  ghost predicate Reliable(q: Request, plans: seq<ReadPlan>, kernel: Kernel) {
    forall n: nat, slots: seq<SlotState> :: Armable(slots, |plans|) ==> ReliableAt(q, plans, kernel(n, slots), slots)
  }

  ghost predicate ReliableAt(q: Request, plans: seq<ReadPlan>, events: seq<Event>, slots: seq<SlotState>) {
    && (InFlight(slots) != [] ==> events != [])
    && (forall i :: 0 <= i < |events| ==> FullRead(q, plans, events[i], slots))
  }

  ghost predicate FullRead(q: Request, plans: seq<ReadPlan>, e: Event, slots: seq<SlotState>) {
    (e.slot < |slots| && slots[e.slot].Armed? && slots[e.slot].plan < |plans| && InFile(q, plans[slots[e.slot].plan])) ==>
      e.bytes == plans[slots[e.slot].plan].requestBytes
  }

  // A kernel of this kind exists: it answers everything in flight at once, with an error outside the file.

  function Answer(q: Request, plans: seq<ReadPlan>, slots: seq<SlotState>): (events: seq<Event>) {
    if slots == [] then [] else
      var slot := |slots| - 1;
      var earlier := Answer(q, plans, slots[..slot]);
      match slots[slot]
      case Idle => earlier
      case Armed(plan) =>
        earlier + [Event(slot, if plan < |plans| && InFile(q, plans[plan]) then plans[plan].requestBytes else -1)]
  }

  lemma {:induction false} AnswerCompletes(q: Request, plans: seq<ReadPlan>, slots: seq<SlotState>)
    requires Armable(slots, |plans|)
    ensures Completions(q, plans, Answer(q, plans, slots), slots) && ReliableAt(q, plans, Answer(q, plans, slots), slots)
    ensures |Answer(q, plans, slots)| == |InFlight(slots)|
  {
    if slots != [] {
      var front, last := slots[..|slots| - 1], slots[|slots| - 1];
      AnswerCompletes(q, plans, front);
      var events, earlier := Answer(q, plans, slots), Answer(q, plans, front);
      forall i | 0 <= i < |events| ensures Completion(q, plans, events[i], slots) && FullRead(q, plans, events[i], slots) {
        if i < |earlier| {
          assert Completion(q, plans, earlier[i], front) && FullRead(q, plans, earlier[i], front);
          assert front[earlier[i].slot] == slots[earlier[i].slot];
        }
      }
    }
  }

  function Honest(q: Request): seq<ReadPlan> -> Kernel {
    (plans: seq<ReadPlan>) => (n: nat, slots: seq<SlotState>) => Answer(q, plans, slots)
  }

  /** Faithful and reliable at once, for every request and all its plans. */
  lemma HonestKernel(q: Request, plans: seq<ReadPlan>)
    ensures Faithful(q, plans, Honest(q)(plans)) && Reliable(q, plans, Honest(q)(plans))
  {
    forall n: nat, slots: seq<SlotState> | Armable(slots, |plans|)
      ensures Completions(q, plans, Honest(q)(plans)(n, slots), slots)
      ensures ReliableAt(q, plans, Honest(q)(plans)(n, slots), slots)
    {
      AnswerCompletes(q, plans, slots);
    }
  }

  /** Conservation: what has been processed and what is in flight are together the plans handed out so far. */
  ghost predicate Conserved(slots: seq<SlotState>, processed: seq<nat>, begin: nat, next: nat) {
    begin <= next && multiset(processed) + multiset(InFlight(slots)) == multiset(Range(begin, next))
  }

  ghost predicate Invariant(q: Request, plans: seq<ReadPlan>, begin: nat, end: nat, p: Pipeline, processed: seq<nat>,
                            k: nat, all: seq<Neighbor>)
    requires ValidLayout(q.layout)
  {
    && p.nextPlan <= end <= |plans|
    && Conserved(p.slots, processed, begin, p.nextPlan)
    && p.inflight + p.pending == |InFlight(p.slots)|
    && p.heap == TopK(FoundBy(q, plans, all, processed), k)
    && (forall i :: 0 <= i < |processed| ==> processed[i] < |plans| && PlanSound(q, plans[processed[i]]))
  }

  function Work(p: Pipeline, end: nat): int {
    end - p.nextPlan + |InFlight(p.slots)|
  }

  lemma RangeMembers(begin: nat, end: nat, i: nat)
    requires begin <= end
    ensures i in multiset(Range(begin, end)) <==> begin <= i < end
  {
    if begin <= i < end { assert Range(begin, end)[i - begin] == i; }
    assert i in Range(begin, end) <==> i in multiset(Range(begin, end));
  }

  /** A slot in flight holds a plan that was handed out. */
  lemma ArmedPlan(slots: seq<SlotState>, processed: seq<nat>, begin: nat, next: nat, slot: nat)
    requires Conserved(slots, processed, begin, next) && slot < |slots| && slots[slot].Armed?
    ensures begin <= slots[slot].plan < next
  {
    FlatMapRemoved(PlanOf, slots, slot);
    assert slots[slot].plan in multiset(PlanOf(slots[slot]));
    assert slots[slot].plan in multiset(InFlight(slots));
    RangeMembers(begin, next, slots[slot].plan);
  }

  lemma Complete(slots: seq<SlotState>, processed: seq<nat>, begin: nat, next: nat, slot: nat)
    requires Conserved(slots, processed, begin, next) && slot < |slots| && slots[slot].Armed?
    ensures Conserved(slots[slot := Idle], processed + [slots[slot].plan], begin, next)
    ensures |InFlight(slots[slot := Idle])| + 1 == |InFlight(slots)|
  {
    var plan, now := slots[slot].plan, slots[slot := Idle];
    SlotUpdated(slots, slot, Idle);
    assert multiset(InFlight(now)) + multiset{plan} == multiset(InFlight(slots));
    assert multiset(processed + [plan]) == multiset(processed) + multiset{plan};
  }

  lemma SlotUpdated(slots: seq<SlotState>, slot: nat, state: SlotState)
    requires slot < |slots|
    ensures multiset(InFlight(slots[slot := state])) + multiset(PlanOf(slots[slot])) == multiset(InFlight(slots)) + multiset(PlanOf(state))
    ensures |InFlight(slots[slot := state])| + |PlanOf(slots[slot])| == |InFlight(slots)| + |PlanOf(state)|
  {
    FlatMapUpdated(PlanOf, slots, slot, state);
  }

  /** Only an idle slot is armed. */
  lemma Arm(slots: seq<SlotState>, processed: seq<nat>, begin: nat, next: nat, slot: nat)
    requires Conserved(slots, processed, begin, next) && slot < |slots| && slots[slot].Idle?
    ensures Conserved(slots[slot := Armed(next)], processed, begin, next + 1)
    ensures |InFlight(slots[slot := Armed(next)])| == |InFlight(slots)| + 1
  {
    var now := slots[slot := Armed(next)];
    SlotUpdated(slots, slot, Armed(next));
    assert multiset(InFlight(now)) == multiset(InFlight(slots)) + multiset{next};
    RangeStep(begin, next);
    assert multiset(Range(begin, next + 1)) == multiset(Range(begin, next)) + multiset{next};
  }

  lemma {:induction false} InFlightBound(slots: seq<SlotState>)
    ensures |InFlight(slots)| <= |slots|
  {
    if slots != [] {
      InFlightBound(slots[..|slots| - 1]);
      assert |PlanOf(slots[|slots| - 1])| <= 1;
    }
  }

  /** A slot whose read was processed becomes idle. */
  lemma CompleteStep(q: Request, plans: seq<ReadPlan>, begin: nat, end: nat, p: Pipeline, processed: seq<nat>, k: nat,
                     all: seq<Neighbor>, slot: nat, heap: seq<Neighbor>)
    requires ValidLayout(q.layout) && Invariant(q, plans, begin, end, p, processed, k, all)
    requires slot < |p.slots| && p.slots[slot].Armed? && p.slots[slot].plan < |plans| && p.inflight > 0
    requires PlanSound(q, plans[p.slots[slot].plan])
    requires heap == TopK(FoundBy(q, plans, all, processed) + PlanFound(q, plans[p.slots[slot].plan]), k)
    ensures var next := p.(slots := p.slots[slot := Idle], inflight := p.inflight - 1, heap := heap);
      && Invariant(q, plans, begin, end, next, processed + [p.slots[slot].plan], k, all)
      && Work(next, end) + 1 == Work(p, end)
  {
    Complete(p.slots, processed, begin, p.nextPlan, slot);
    FoundOneMore(q, plans, all, processed, p.slots[slot].plan);
  }

  /** An idle slot takes the next plan. */
  lemma ArmStep(q: Request, plans: seq<ReadPlan>, begin: nat, end: nat, p: Pipeline, processed: seq<nat>, k: nat,
                all: seq<Neighbor>, slot: nat)
    requires ValidLayout(q.layout) && Invariant(q, plans, begin, end, p, processed, k, all)
    requires slot < |p.slots| && p.slots[slot].Idle? && p.nextPlan < end
    ensures Invariant(q, plans, begin, end, WithNext(p, slot), processed, k, all) && Work(WithNext(p, slot), end) == Work(p, end)
  {
    Arm(p.slots, processed, begin, p.nextPlan, slot);
  }

  function WithNext(p: Pipeline, slot: nat): Pipeline
    requires slot < |p.slots|
  {
    p.(slots := p.slots[slot := Armed(p.nextPlan)], nextPlan := p.nextPlan + 1, pending := p.pending + 1)
  }

  /** One completion: its record run goes to the heap, and its slot takes the next plan if there is one. */
  method HandleEvent(q: Request, plans: seq<ReadPlan>, end: nat, p: Pipeline, e: Event, k: nat,
                     ghost begin: nat, ghost processed: seq<nat>, ghost all: seq<Neighbor>)
    returns (r: Result<Pipeline>, ghost done: seq<nat>)
    requires ValidRequest(q) && AllServe(q, plans) && Invariant(q, plans, begin, end, p, processed, k, all)
    requires Completion(q, plans, e, p.slots) && p.inflight > 0
    ensures r.Err? ==> r.error == RuntimeError && done == processed
    ensures r.Ok? ==> Invariant(q, plans, begin, end, r.value, done, k, all)
    ensures r.Ok? ==> Work(r.value, end) + 1 == Work(p, end) && r.value.inflight + 1 == p.inflight
    ensures r.Ok? && r.value.nextPlan < end ==> p.nextPlan < end && |InFlight(r.value.slots)| == |InFlight(p.slots)|
    ensures r.Ok? ==> |r.value.slots| == |p.slots| && forall i :: 0 <= i < |p.slots| && i != e.slot ==> r.value.slots[i] == p.slots[i]
    ensures FullRead(q, plans, e, p.slots) && Refinable(q, plans[p.slots[e.slot].plan]) ==> r.Ok?
  {
    done := processed;
    var planIndex := p.slots[e.slot].plan;
    assert Serves(q, plans[planIndex]);
    if e.bytes < 0 || e.bytes != plans[planIndex].requestBytes {
      return Err(RuntimeError), done;
    }
    var pushed := RefinePlan(q, plans[planIndex], k, p.heap, FoundBy(q, plans, all, processed));
    if pushed.Err? {
      return Err(pushed.error), done;
    }
    CompleteStep(q, plans, begin, end, p, processed, k, all, e.slot, pushed.value);
    done := processed + [planIndex];
    var next := p.(slots := p.slots[e.slot := Idle], inflight := p.inflight - 1, heap := pushed.value);
    if next.nextPlan < end {
      ArmStep(q, plans, begin, end, next, done, k, all, e.slot);
      next := WithNext(next, e.slot);
    }
    return Ok(next), done;
  }

  // ---------------------------------------------------------------- rounds

  /** All completions of one wait, in the order they were reported. */
  method HandleEvents(q: Request, plans: seq<ReadPlan>, end: nat, p0: Pipeline, events: seq<Event>, k: nat,
                      ghost begin: nat, ghost processed: seq<nat>, ghost all: seq<Neighbor>)
    returns (r: Result<Pipeline>, ghost done: seq<nat>)
    requires ValidRequest(q) && AllServe(q, plans) && Invariant(q, plans, begin, end, p0, processed, k, all)
    requires Completions(q, plans, events, p0.slots) && p0.pending == 0
    ensures r.Err? ==> r.error == RuntimeError && Once(done, begin, end)
    ensures r.Ok? ==> Invariant(q, plans, begin, end, r.value, done, k, all)
    ensures r.Ok? ==> |r.value.slots| == |p0.slots| && Work(r.value, end) + |events| == Work(p0, end)
    ensures r.Ok? && r.value.nextPlan < end ==> p0.nextPlan < end && |InFlight(r.value.slots)| == |InFlight(p0.slots)|
    ensures ReliableAt(q, plans, events, p0.slots) && RefinableRange(q, plans, begin, end) ==> r.Ok?
  {
    var p := p0;
    done := processed;
    NothingHandled(q, plans, events, p0.slots);
    for i := 0 to |events|
      invariant Invariant(q, plans, begin, end, p, done, k, all)
      invariant |p.slots| == |p0.slots| && Work(p, end) + i == Work(p0, end) && p.inflight + i == p0.inflight
      invariant p.nextPlan < end ==> p0.nextPlan < end && |InFlight(p.slots)| == |InFlight(p0.slots)|
      invariant Unhandled(events, i, p0.slots, p.slots)
    {
      OnceSoFar(q, plans, begin, end, p, done, k, all);
      StillCompletion(q, plans, events, i, p0.slots, p.slots, done, begin, p.nextPlan);
      ReadableEvent(q, plans, events, i, p0.slots, p.slots, begin, end);
      var handled, now := HandleEvent(q, plans, end, p, events[i], k, begin, done, all);
      if handled.Err? {
        return Err(handled.error), done;
      }
      StayUnhandled(q, plans, events, i, p0.slots, p.slots, handled.value.slots);
      p, done := handled.value, now;
    }
    return Ok(p), done;
  }

  /** The slots of the events from the i-th on are as the kernel saw them. */
  ghost predicate Unhandled(events: seq<Event>, i: nat, reported: seq<SlotState>, slots: seq<SlotState>) {
    |slots| == |reported| &&
    forall j :: i <= j < |events| ==> events[j].slot < |slots| && slots[events[j].slot] == reported[events[j].slot]
  }

  lemma NothingHandled(q: Request, plans: seq<ReadPlan>, events: seq<Event>, slots: seq<SlotState>)
    requires Completions(q, plans, events, slots)
    ensures Unhandled(events, 0, slots, slots)
  {
    forall j | 0 <= j < |events| ensures events[j].slot < |slots| { assert Completion(q, plans, events[j], slots); }
  }

  lemma StayUnhandled(q: Request, plans: seq<ReadPlan>, events: seq<Event>, i: nat, reported: seq<SlotState>, slots: seq<SlotState>,
                      next: seq<SlotState>)
    requires Completions(q, plans, events, reported) && i < |events| && Unhandled(events, i, reported, slots)
    requires |next| == |slots| && forall s :: 0 <= s < |slots| && s != events[i].slot ==> next[s] == slots[s]
    ensures Unhandled(events, i + 1, reported, next)
  {
  }

  lemma StillCompletion(q: Request, plans: seq<ReadPlan>, events: seq<Event>, i: nat, reported: seq<SlotState>, slots: seq<SlotState>,
                        processed: seq<nat>, begin: nat, next: nat)
    requires Completions(q, plans, events, reported) && i < |events| && |slots| == |reported|
    requires slots[events[i].slot] == reported[events[i].slot] && Conserved(slots, processed, begin, next)
    ensures Completion(q, plans, events[i], slots) && begin <= slots[events[i].slot].plan < next
  {
    assert Completion(q, plans, events[i], reported);
    ArmedPlan(slots, processed, begin, next, events[i].slot);
  }

  lemma ReadableEvent(q: Request, plans: seq<ReadPlan>, events: seq<Event>, i: nat, reported: seq<SlotState>, slots: seq<SlotState>,
                      begin: nat, end: nat)
    requires ValidLayout(q.layout) && AllServe(q, plans) && end <= |plans| && i < |events|
    requires Completion(q, plans, events[i], slots) && begin <= slots[events[i].slot].plan < end
    requires |slots| == |reported| && slots[events[i].slot] == reported[events[i].slot]
    ensures ReliableAt(q, plans, events, reported) && RefinableRange(q, plans, begin, end) ==>
      FullRead(q, plans, events[i], slots) && Refinable(q, plans[slots[events[i].slot].plan])
  {
    if ReliableAt(q, plans, events, reported) {
      assert FullRead(q, plans, events[i], reported);
    }
  }

  /** No plan was processed twice, and none that is not part of this batch of files. */
  ghost predicate Once(processed: seq<nat>, begin: nat, end: nat) {
    begin <= end && multiset(processed) <= multiset(Range(begin, end))
  }

  lemma OnceSoFar(q: Request, plans: seq<ReadPlan>, begin: nat, end: nat, p: Pipeline, processed: seq<nat>, k: nat, all: seq<Neighbor>)
    requires ValidLayout(q.layout) && Invariant(q, plans, begin, end, p, processed, k, all)
    ensures Once(processed, begin, end)
  {
    assert Range(begin, end) == Range(begin, p.nextPlan) + Range(p.nextPlan, end);
  }

  lemma {:induction false} IdleSlots(slots: seq<SlotState>)
    requires forall i :: 0 <= i < |slots| ==> slots[i].Idle?
    ensures InFlight(slots) == []
  {
    if slots != [] {
      IdleSlots(slots[..|slots| - 1]);
      assert PlanOf(slots[|slots| - 1]) == [];
    }
  }

  /** The first requests: one per slot, as long as there are plans. */
  method FillSlots(q: Request, plans: seq<ReadPlan>, begin: nat, end: nat, queueDepth: nat, k: nat, heap: seq<Neighbor>, ghost all: seq<Neighbor>)
    returns (p: Pipeline)
    requires ValidLayout(q.layout) && begin <= end <= |plans| && heap == TopK(all, k)
    ensures Invariant(q, plans, begin, end, p, [], k, all) && p.pending == 0
    ensures |p.slots| == queueDepth && (p.nextPlan < end ==> |InFlight(p.slots)| == |p.slots|)
  {
    var initial := if queueDepth < end - begin then queueDepth else end - begin;
    var slots := ArmInitial(begin, initial, queueDepth);
    assert FoundBy(q, plans, all, []) == all;
    p := Pipeline(slots, begin + initial, initial, 0, heap);
  }

  method ArmInitial(begin: nat, initial: nat, queueDepth: nat) returns (slots: seq<SlotState>)
    requires initial <= queueDepth
    ensures |slots| == queueDepth && Conserved(slots, [], begin, begin + initial) && |InFlight(slots)| == initial
  {
    slots := seq(queueDepth, _ => Idle);
    IdleSlots(slots);
    RangeStep(begin, begin);
    for i := 0 to initial
      invariant ArmedUpTo(slots, begin, begin + i, queueDepth)
    {
      ArmNext(slots, begin, begin + i, i, queueDepth);
      slots := slots[i := Armed(begin + i)];
    }
  }

  ghost predicate ArmedUpTo(slots: seq<SlotState>, begin: nat, next: nat, queueDepth: nat) {
    && begin <= next && |slots| == queueDepth && IdleFrom(slots, next - begin)
    && Conserved(slots, [], begin, next) && |InFlight(slots)| == next - begin
  }

  ghost predicate IdleFrom(slots: seq<SlotState>, i: nat) {
    forall j :: i <= j < |slots| ==> slots[j].Idle?
  }

  lemma ArmNext(slots: seq<SlotState>, begin: nat, next: nat, i: nat, queueDepth: nat)
    requires ArmedUpTo(slots, begin, next, queueDepth) && next == begin + i && i < queueDepth
    ensures ArmedUpTo(slots[i := Armed(next)], begin, next + 1, queueDepth)
  {
    Arm(slots, [], begin, next, i);
    StillIdle(slots, i, Armed(next));
  }

  lemma StillIdle(slots: seq<SlotState>, i: nat, state: SlotState)
    requires IdleFrom(slots, i) && i < |slots|
    ensures IdleFrom(slots[i := state], i + 1)
  {
  }

  /** What the kernel reports while the pipeline runs. */
  lemma Reported(q: Request, plans: seq<ReadPlan>, kernel: Kernel, n: nat, slots: seq<SlotState>,
                 processed: seq<nat>, begin: nat, next: nat)
    requires Conserved(slots, processed, begin, next) && next <= |plans| && Faithful(q, plans, kernel)
    ensures Completions(q, plans, kernel(n, slots), slots)
    ensures Reliable(q, plans, kernel) ==> ReliableAt(q, plans, kernel(n, slots), slots)
  {
    forall i | 0 <= i < |slots| && slots[i].Armed? ensures slots[i].plan < |plans| {
      ArmedPlan(slots, processed, begin, next, i);
    }
    assert Armable(slots, |plans|);
  }

  /** The order of processing does not show in the result. */
  lemma SameAsInOrder(q: Request, plans: seq<ReadPlan>, all: seq<Neighbor>, processed: seq<nat>, begin: nat, end: nat, k: nat)
    requires begin <= end && multiset(processed) == multiset(Range(begin, end))
    ensures TopK(FoundBy(q, plans, all, processed), k) == TopK(FoundBy(q, plans, all, Range(begin, end)), k)
  {
    FlatMapPermuted(FoundAt(q, plans), processed, Range(begin, end));
    OrderIrrelevant(FoundBy(q, plans, all, processed), FoundBy(q, plans, all, Range(begin, end)), k);
  }

  /**
   The pipeline, for every kernel that reports only what is in flight: no plan is processed twice, never more
   than `queueDepth` requests are in flight, the loop ends, and a completed run leaves the same heap as the
   blocking loop.
   */
  method RefineAio(q: Request, plans: seq<ReadPlan>, begin: nat, end: nat, queueDepth: nat, kernel: Kernel, k: nat,
                   heap: seq<Neighbor>, ghost all: seq<Neighbor>)
    returns (r: Result<seq<Neighbor>>, ghost processed: seq<nat>, ghost peak: nat)
    requires ValidRequest(q) && AllServe(q, plans) && begin <= end <= |plans| && queueDepth > 0 && heap == TopK(all, k)
    requires Faithful(q, plans, kernel)
    ensures Once(processed, begin, end) && peak <= queueDepth
    ensures r.Ok? ==> multiset(processed) == multiset(Range(begin, end))
    ensures r.Ok? ==> r.value == TopK(FoundBy(q, plans, all, Range(begin, end)), k)
    ensures r.Ok? ==> SoundRange(q, plans, begin, end)
    ensures Reliable(q, plans, kernel) && RefinableRange(q, plans, begin, end) ==> r.Ok?
    ensures r.Err? ==> r.error == RuntimeError
  {
    var p := FillSlots(q, plans, begin, end, queueDepth, k, heap, all);
    processed, peak := [], p.inflight;
    InFlightBound(p.slots);
    var step := 0;
    while p.inflight != 0
      invariant Invariant(q, plans, begin, end, p, processed, k, all) && p.pending == 0
      invariant |p.slots| == queueDepth && (p.nextPlan < end ==> |InFlight(p.slots)| == |p.slots|)
      invariant peak <= queueDepth
      decreases Work(p, end)
    {
      var events := kernel(step, p.slots);
      Reported(q, plans, kernel, step, p.slots, processed, begin, p.nextPlan);
      if |events| == 0 {
        OnceSoFar(q, plans, begin, end, p, processed, k, all);
        return Err(RuntimeError), processed, peak;
      }
      var handled, done := HandleEvents(q, plans, end, p, events, k, begin, processed, all);
      processed := done;
      if handled.Err? {
        return Err(handled.error), processed, peak;
      }
      // Submission: everything armed in this round is in flight from here on.
      p := handled.value.(inflight := handled.value.inflight + handled.value.pending, pending := 0);
      InFlightBound(p.slots);
      peak := if p.inflight > peak then p.inflight else peak;
      step := step + 1;
    }
    Drained(q, plans, begin, end, p, processed, k, all);
    SameAsInOrder(q, plans, all, processed, begin, end, k);
    return Ok(p.heap), processed, peak;
  }

  /** With nothing in flight and nothing left to submit, everything has been processed. */
  lemma Drained(q: Request, plans: seq<ReadPlan>, begin: nat, end: nat, p: Pipeline, processed: seq<nat>, k: nat, all: seq<Neighbor>)
    requires ValidLayout(q.layout) && Invariant(q, plans, begin, end, p, processed, k, all)
    requires p.inflight == 0 && p.pending == 0 && |p.slots| > 0 && (p.nextPlan < end ==> |InFlight(p.slots)| == |p.slots|)
    ensures begin <= end && multiset(processed) == multiset(Range(begin, end))
    ensures Once(processed, begin, end) && SoundRange(q, plans, begin, end)
  {
    assert InFlight(p.slots) == [];
    forall j | begin <= j < end ensures PlanSound(q, plans[j]) {
      RangeMembers(begin, end, j);
      var i := MemberIndex(processed, j);
    }
  }
}
