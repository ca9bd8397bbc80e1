/**
 The priority scheduler: a queue searched for its best request on every dequeue, and the
 execution of a plan through it.
 */
module Scheduler {
  import opened Ir
  import opened Sequences
  import opened Sorting
  import opened Spelling
  import opened Text

  datatype SyscallRequest = SyscallRequest(
    syscallId: nat, stepId: string, capability: string, input: string, priority: nat, seqNo: nat)

  datatype Output = Output(stepId: string, output: string, costUnits: nat)

  /** The outcome of the n-th capability call of a run; None is an error. */
  type Calls = (nat, SyscallRequest, ExecutionStep) -> Option<string>

  // ---------------------------------------------------------------- order of execution

  /** Higher priority first, then the older request. */
  predicate Before(a: SyscallRequest, b: SyscallRequest) {
    a.priority > b.priority || (a.priority == b.priority && a.seqNo < b.seqNo)
  }

  predicate NotAfter(a: SyscallRequest, b: SyscallRequest) {
    !Before(b, a)
  }

  /** Sequence numbers are never shared. */
  ghost predicate DistinctSeq(q: seq<SyscallRequest>) {
    forall i, j :: 0 <= i < j < |q| ==> q[i].seqNo != q[j].seqNo
  }

  /** The order in which a queue is worked off. */
  function ScheduleOrder(q: seq<SyscallRequest>): seq<SyscallRequest> {
    Sort(NotAfter, q)
  }

  lemma NotAfterIsPreorder()
    ensures TotalPreorder(NotAfter)
  {
  }

  lemma DistinctSeqTells(q: seq<SyscallRequest>)
    requires DistinctSeq(q)
    ensures AntisymmetricOn(NotAfter, q)
  {
    forall x, y | x in q && y in q && NotAfter(x, y) && NotAfter(y, x) ensures x == y {
      var i :| 0 <= i < |q| && q[i] == x;
      var j :| 0 <= j < |q| && q[j] == y;
      if i != j {
        assert q[i].seqNo != q[j].seqNo;
      }
    }
  }

  /** Taking the best request out and scheduling the rest is scheduling the whole queue. */
  lemma BestIsScheduledFirst(q: seq<SyscallRequest>, k: nat)
    requires DistinctSeq(q) && k < |q|
    requires forall i :: 0 <= i < |q| ==> NotAfter(q[k], q[i])
    ensures ScheduleOrder(q) == [q[k]] + ScheduleOrder(RemoveAt(q, k))
    ensures DistinctSeq(RemoveAt(q, k))
  {
    NotAfterIsPreorder();
    DistinctSeqTells(q);
    LeastComesFirst(NotAfter, q, k);
  }

  // ---------------------------------------------------------------- the queue

  class SyscallQueue {
    var queue: seq<SyscallRequest>

    constructor ()
      ensures queue == []
    {
      queue := [];
    }

    method Enqueue(req: SyscallRequest)
      modifies this
      ensures queue == old(queue) + [req]
    {
      queue := queue + [req];
    }

    /** Takes out the first of the best requests. */
    method Dequeue() returns (req: Option<SyscallRequest>, ghost at: nat)
      modifies this
      ensures old(queue) == [] ==> req == None && queue == []
      ensures old(queue) != [] ==>
        && at < |old(queue)| && req == Some(old(queue)[at]) && queue == RemoveAt(old(queue), at)
        && (forall i :: 0 <= i < |old(queue)| ==> NotAfter(old(queue)[at], old(queue)[i]))
        && (forall i :: 0 <= i < at ==> Before(old(queue)[at], old(queue)[i]))
    {
      at := 0;
      if queue == [] {
        return None, 0;
      }
      var best := 0;
      for i := 0 to |queue|
        invariant 0 <= best < |queue| && queue == old(queue)
        invariant best <= i
        invariant forall j :: 0 <= j < i ==> NotAfter(queue[best], queue[j])
        invariant forall j :: 0 <= j < best ==> Before(queue[best], queue[j])
      {
        var higher := queue[i].priority > queue[best].priority;
        var equalOlder := queue[i].priority == queue[best].priority && queue[i].seqNo < queue[best].seqNo;
        if higher || equalOlder {
          best := i;
        }
      }
      at := best;
      req := Some(queue[best]);
      queue := queue[..best] + queue[best + 1..];
    }
  }

  // ---------------------------------------------------------------- running requests

  datatype RunResult = Ran(outputs: seq<Output>) | Failed

  function CostUnits(capability: string): nat {
    if capability == "llm.route" then 2 else 1
  }

  /** One capability call, on behalf of the first step with the request's id. */
  function Call(steps: seq<ExecutionStep>, calls: Calls, n: nat, req: SyscallRequest): Option<Output> {
    var step :- FindStep(steps, req.stepId);
    var output :- calls(n, req, step);
    Some(Output(req.stepId, output, CostUnits(req.capability)))
  }

  /** Runs the requests in the given order, after `before` earlier calls, up to the first error. */
  function RunRequests(steps: seq<ExecutionStep>, calls: Calls, before: nat, order: seq<SyscallRequest>): RunResult
    decreases |order|
  {
    if order == [] then Ran([])
    else
      match Call(steps, calls, before, order[0])
      case None => Failed
      case Some(out) =>
        match RunRequests(steps, calls, before + 1, order[1..])
        case Failed => Failed
        case Ran(outs) => Ran([out] + outs)
  }

  /** Puts outputs already collected in front of the result of the remaining requests. */
  function Collected(outputs: seq<Output>, result: RunResult): RunResult {
    match result
    case Failed => Failed
    case Ran(outs) => Ran(outputs + outs)
  }

  lemma CollectNext(
    steps: seq<ExecutionStep>, calls: Calls, outputs: seq<Output>, req: SyscallRequest, rest: seq<SyscallRequest>)
    ensures Collected(outputs, RunRequests(steps, calls, |outputs|, [req] + rest)) ==
            match Call(steps, calls, |outputs|, req)
            case None => Failed
            case Some(out) => Collected(outputs + [out], RunRequests(steps, calls, |outputs| + 1, rest))
  {
    assert ([req] + rest)[1..] == rest;
    var call := Call(steps, calls, |outputs|, req);
    var tail := RunRequests(steps, calls, |outputs| + 1, rest);
    if call.Some? && tail.Ran? {
      assert outputs + ([call.value] + tail.outputs) == (outputs + [call.value]) + tail.outputs;
    }
  }

  /**
   Works the queue off. After an error the requests split into those executed, in scheduling
   order, the one that failed, and those still queued.
   */
  method Drain(q: SyscallQueue, steps: seq<ExecutionStep>, calls: Calls)
    returns (result: RunResult, ghost executed: seq<SyscallRequest>, ghost failed: seq<SyscallRequest>)
    requires DistinctSeq(q.queue)
    modifies q
    ensures result == RunRequests(steps, calls, 0, ScheduleOrder(old(q.queue)))
    ensures ScheduleOrder(old(q.queue)) == executed + failed + ScheduleOrder(q.queue)
    ensures result.Ran? ==> failed == [] && q.queue == []
    ensures result.Failed? ==> |failed| == 1
  {
    var outputs := [];
    executed, failed := [], [];
    ghost var order := ScheduleOrder(q.queue);
    CollectNothing(RunRequests(steps, calls, 0, order));
    assert order == [] + order;
    while q.queue != []
      invariant DistinctSeq(q.queue)
      invariant order == executed + ScheduleOrder(q.queue)
      invariant RunRequests(steps, calls, 0, order) ==
                Collected(outputs, RunRequests(steps, calls, |outputs|, ScheduleOrder(q.queue)))
      decreases |q.queue|
    {
      ghost var before := q.queue;
      var req, at := q.Dequeue();
      BestIsScheduledFirst(before, at);
      CollectNext(steps, calls, outputs, req.value, ScheduleOrder(q.queue));
      ConcatAssociates(executed, [req.value], ScheduleOrder(q.queue));
      var out := Call(steps, calls, |outputs|, req.value);
      if out == None {
        return Failed, executed, [req.value];
      }
      outputs := outputs + [out.value];
      executed := executed + [req.value];
    }
    assert outputs + [] == outputs && executed + [] + [] == executed;
    result := Ran(outputs);
  }

  lemma CollectNothing(result: RunResult)
    ensures Collected([], result) == result
  {
    if result.Ran? {
      assert [] + result.outputs == result.outputs;
    }
  }

  // ---------------------------------------------------------------- plans

  /** The step's own priority where it parses as a byte, and 1 otherwise. */
  function Priority(step: ExecutionStep): nat {
    match Constraint(step, "priority")
    case None => 1
    case Some(text) =>
      match ParseUnsigned(text, 255)
      case None => 1
      case Some(p) => p
  }

  predicate AllCapable(steps: seq<ExecutionStep>) {
    forall i :: 0 <= i < |steps| ==> steps[i].capabilityRef.Some?
  }

  /** The request made from the step at position i of the plan. */
  function RequestOf(step: ExecutionStep, i: nat): SyscallRequest
    requires step.capabilityRef.Some?
  {
    SyscallRequest(i + 1, step.stepId, step.capabilityRef.value, step.input, Priority(step), i + 1)
  }

  function Submitted(steps: seq<ExecutionStep>): (r: seq<SyscallRequest>)
    requires AllCapable(steps)
    ensures |r| == |steps|
    ensures forall i :: 0 <= i < |r| ==> r[i] == RequestOf(steps[i], i)
  {
    if steps == [] then [] else Submitted(steps[..|steps| - 1]) + [RequestOf(Last(steps), |steps| - 1)]
  }

  lemma SubmittedNext(steps: seq<ExecutionStep>, i: nat)
    requires i < |steps| && AllCapable(steps[..i]) && steps[i].capabilityRef.Some?
    ensures AllCapable(steps[..i + 1])
    ensures Submitted(steps[..i + 1]) == Submitted(steps[..i]) + [RequestOf(steps[i], i)]
  {
    var more := steps[..i + 1];
    assert more[..i] == steps[..i] && Last(more) == steps[i];
    forall j | 0 <= j < |more| ensures more[j].capabilityRef.Some? {
      if j < i {
        assert more[j] == steps[..i][j];
      }
    }
  }

  lemma SubmittedInOrder(steps: seq<ExecutionStep>)
    requires AllCapable(steps)
    ensures DistinctSeq(Submitted(steps))
  {
  }

  /** The steps of a plan in the order in which they run. */
  function PlanOrder(steps: seq<ExecutionStep>): seq<SyscallRequest>
    requires AllCapable(steps)
  {
    ScheduleOrder(Submitted(steps))
  }

  function PlanResult(steps: seq<ExecutionStep>, calls: Calls): RunResult {
    if AllCapable(steps) then RunRequests(steps, calls, 0, PlanOrder(steps)) else Failed
  }

  /** A step without a capability fails the plan before any call is made. */
  method RunPlan(steps: seq<ExecutionStep>, calls: Calls) returns (result: RunResult)
    ensures result == PlanResult(steps, calls)
  {
    var q := new SyscallQueue();
    var counter := 0;
    for i := 0 to |steps|
      invariant AllCapable(steps[..i]) && q.queue == Submitted(steps[..i]) && counter == i
      invariant fresh(q)
    {
      if steps[i].capabilityRef == None {
        return Failed;
      }
      counter := counter + 1;
      q.Enqueue(SyscallRequest(counter, steps[i].stepId, steps[i].capabilityRef.value,
                               steps[i].input, Priority(steps[i]), counter));
      SubmittedNext(steps, i);
    }
    assert steps[..|steps|] == steps;
    SubmittedInOrder(steps);
    ghost var executed, failed;
    result, executed, failed := Drain(q, steps, calls);
  }

  /** Every step runs once: by falling priority, and in plan order within a priority. */
  lemma PlanOrderIsStableSort(steps: seq<ExecutionStep>)
    requires AllCapable(steps)
    ensures multiset(PlanOrder(steps)) == multiset(Submitted(steps)) && |PlanOrder(steps)| == |steps|
    ensures forall i, j :: 0 <= i < j < |steps| ==> Before(PlanOrder(steps)[i], PlanOrder(steps)[j])
  {
    var requests, order := Submitted(steps), PlanOrder(steps);
    NotAfterIsPreorder();
    SortOrders(NotAfter, requests);
    SortPermutes(NotAfter, requests);
    SortKeepsDistinct(NotAfter, requests);
    SortKeepsEntries(NotAfter, requests);
    DistinctSeqTells(requests);
    forall i, j | 0 <= i < j < |steps| ensures Before(order[i], order[j]) {
      assert order[i] != order[j];
      assert order[i] in requests && order[j] in requests;
    }
  }

  /** A successful run has one output per request, in order: the answer to its own call, at its price. */
  lemma {:induction false} OutputsFollowOrder(
    steps: seq<ExecutionStep>, calls: Calls, before: nat, order: seq<SyscallRequest>)
    requires RunRequests(steps, calls, before, order).Ran?
    ensures var outs := RunRequests(steps, calls, before, order).outputs;
            && |outs| == |order|
            && forall i :: 0 <= i < |outs| ==>
                 && Call(steps, calls, before + i, order[i]) == Some(outs[i])
                 && outs[i].stepId == order[i].stepId && outs[i].costUnits == CostUnits(order[i].capability)
    decreases |order|
  {
    if order != [] {
      var outs, rest := RunRequests(steps, calls, before, order).outputs, order[1..];
      OutputsFollowOrder(steps, calls, before + 1, rest);
      forall i | 0 <= i < |outs| ensures Call(steps, calls, before + i, order[i]) == Some(outs[i]) {
        if i > 0 {
          assert order[i] == rest[i - 1] && outs[i] == outs[1..][i - 1];
          assert Call(steps, calls, before + 1 + (i - 1), rest[i - 1]) == Some(outs[1..][i - 1]);
        }
      }
    }
  }

  /** The run succeeds exactly when every call does. */
  lemma {:induction false} RunsIffEveryCallSucceeds(
    steps: seq<ExecutionStep>, calls: Calls, before: nat, order: seq<SyscallRequest>)
    ensures RunRequests(steps, calls, before, order).Ran? <==>
            forall i :: 0 <= i < |order| ==> Call(steps, calls, before + i, order[i]).Some?
    decreases |order|
  {
    if RunRequests(steps, calls, before, order).Ran? {
      OutputsFollowOrder(steps, calls, before, order);
    } else if Call(steps, calls, before, order[0]) == None {
      assert Call(steps, calls, before + 0, order[0]) == None;
    } else {
      var rest := order[1..];
      RunsIffEveryCallSucceeds(steps, calls, before + 1, rest);
      var i :| 0 <= i < |rest| && Call(steps, calls, before + 1 + i, rest[i]) == None;
      assert Call(steps, calls, before + (i + 1), order[i + 1]) == None;
    }
  }

  // ---------------------------------------------------------------- cost of a plan

  function TotalCost(outs: seq<Output>): nat {
    if outs == [] then 0 else TotalCost(outs[..|outs| - 1]) + Last(outs).costUnits
  }

  function RequestCost(requests: seq<SyscallRequest>): nat {
    if requests == [] then 0 else RequestCost(requests[..|requests| - 1]) + CostUnits(Last(requests).capability)
  }

  /** How many steps of the plan are routed to a model. */
  function RoutedSteps(steps: seq<ExecutionStep>): nat {
    if steps == [] then 0
    else RoutedSteps(steps[..|steps| - 1]) + if Last(steps).capabilityRef == Some("llm.route") then 1 else 0
  }

  lemma {:induction false} InsertCost(s: seq<SyscallRequest>, x: SyscallRequest)
    ensures RequestCost(Insert(NotAfter, s, x)) == RequestCost(s) + CostUnits(x.capability)
  {
    var t := Insert(NotAfter, s, x);
    if s == [] || NotAfter(Last(s), x) {
      assert t[..|t| - 1] == s;
    } else {
      InsertCost(s[..|s| - 1], x);
      assert t[..|t| - 1] == Insert(NotAfter, s[..|s| - 1], x);
    }
  }

  lemma {:induction false} SortCost(s: seq<SyscallRequest>)
    ensures RequestCost(Sort(NotAfter, s)) == RequestCost(s)
  {
    if s != [] {
      SortCost(s[..|s| - 1]);
      InsertCost(Sort(NotAfter, s[..|s| - 1]), Last(s));
    }
  }

  lemma {:induction false} SubmittedCost(steps: seq<ExecutionStep>)
    requires AllCapable(steps)
    ensures RequestCost(Submitted(steps)) == |steps| + RoutedSteps(steps)
  {
    if steps != [] {
      var front := steps[..|steps| - 1];
      SubmittedCost(front);
      assert Submitted(steps)[..|steps| - 1] == Submitted(front);
    }
  }

  lemma {:induction false} OutputCost(outs: seq<Output>, order: seq<SyscallRequest>)
    requires |outs| == |order|
    requires forall i :: 0 <= i < |outs| ==> outs[i].costUnits == CostUnits(order[i].capability)
    ensures TotalCost(outs) == RequestCost(order)
  {
    if outs != [] {
      OutputCost(outs[..|outs| - 1], order[..|order| - 1]);
    }
  }

  /** A plan that ran costs one unit per step and one more per routed step. */
  lemma PlanCost(steps: seq<ExecutionStep>, calls: Calls)
    requires PlanResult(steps, calls).Ran?
    ensures TotalCost(PlanResult(steps, calls).outputs) == |steps| + RoutedSteps(steps)
    ensures |PlanResult(steps, calls).outputs| == |steps|
  {
    OutputsFollowOrder(steps, calls, 0, PlanOrder(steps));
    OutputCost(PlanResult(steps, calls).outputs, PlanOrder(steps));
    SortCost(Submitted(steps));
    SubmittedCost(steps);
    SortPermutes(NotAfter, Submitted(steps));
  }

  lemma OrderFindsStep(steps: seq<ExecutionStep>, i: nat)
    requires AllCapable(steps) && i < |PlanOrder(steps)|
    ensures FindStep(steps, PlanOrder(steps)[i].stepId).Some?
  {
    var order := PlanOrder(steps);
    SortKeepsEntries(NotAfter, Submitted(steps));
    assert order[i] in Submitted(steps);
    var k :| 0 <= k < |steps| && Submitted(steps)[k] == order[i];
    FindStepFinds(steps, order[i].stepId, k);
  }

  /** Every output of a plan belongs to one of its steps. */
  lemma PlanOutputsAreSteps(steps: seq<ExecutionStep>, calls: Calls, i: nat)
    requires PlanResult(steps, calls).Ran? && i < |PlanResult(steps, calls).outputs|
    ensures FindStep(steps, PlanResult(steps, calls).outputs[i].stepId).Some?
  {
    OutputsFollowOrder(steps, calls, 0, PlanOrder(steps));
    OrderFindsStep(steps, i);
  }

  /** A plan whose calls all answer runs. */
  lemma AnsweredPlansRun(steps: seq<ExecutionStep>, calls: Calls)
    requires AllCapable(steps) && forall n, req, step :: calls(n, req, step).Some?
    ensures PlanResult(steps, calls).Ran?
  {
    var order := PlanOrder(steps);
    forall i | 0 <= i < |order| ensures Call(steps, calls, 0 + i, order[i]).Some? {
      OrderFindsStep(steps, i);
    }
    RunsIffEveryCallSucceeds(steps, calls, 0, order);
  }

  // ---------------------------------------------------------------- plans, said about their steps

  /** The priority a step gives itself in decimal, where that fits a byte, and 1 otherwise. */
  ghost predicate HasPriority(step: ExecutionStep, p: nat) {
    if GivesPriority(step) then "priority" in step.localConstraints && Denotes(step.localConstraints["priority"], p)
    else p == 1
  }

  ghost predicate GivesPriority(step: ExecutionStep) {
    "priority" in step.localConstraints
    && exists n: nat :: Denotes(step.localConstraints["priority"], n) && n <= 255
  }

  lemma PriorityIsGiven(step: ExecutionStep)
    ensures HasPriority(step, Priority(step)) && Priority(step) <= 255
  {
    if "priority" in step.localConstraints {
      var text := step.localConstraints["priority"];
      ParsesToNothingIff(text, 255);
      if ParseUnsigned(text, 255).Some? {
        ParsesIff(text, 255, ParseUnsigned(text, 255).value);
      }
    }
  }

  /** The request asks for what the step at place j of the plan asks for. */
  ghost predicate AsksFor(req: SyscallRequest, steps: seq<ExecutionStep>, j: nat) {
    && j < |steps| && req.stepId == steps[j].stepId && steps[j].capabilityRef == Some(req.capability)
    && req.input == steps[j].input && HasPriority(steps[j], req.priority)
  }

  /** Each place of the plan stands at one place of the order, and at one only. */
  ghost predicate IsArrangement(places: seq<nat>, n: nat) {
    && |places| == n && Distinct(places) && forall j: nat :: j < n <==> j in places
  }

  /** By falling priority, and within a priority in the order of the plan. */
  ghost predicate RunsByPriority(order: seq<SyscallRequest>, places: seq<nat>) {
    |order| == |places| && forall k, l :: 0 <= k < l < |order| ==>
      order[k].priority > order[l].priority || (order[k].priority == order[l].priority && places[k] < places[l])
  }

  function PlacesOf(order: seq<SyscallRequest>): (r: seq<nat>)
    requires forall k :: 0 <= k < |order| ==> order[k].seqNo >= 1
    ensures |r| == |order| && forall k :: 0 <= k < |r| ==> r[k] == order[k].seqNo - 1
  {
    if order == [] then [] else PlacesOf(order[..|order| - 1]) + [Last(order).seqNo - 1]
  }

  lemma OrderAsksForSteps(steps: seq<ExecutionStep>, k: nat)
    requires AllCapable(steps) && k < |PlanOrder(steps)|
    ensures var req := PlanOrder(steps)[k]; req.seqNo >= 1 && AsksFor(req, steps, req.seqNo - 1)
  {
    var j := SortedEntry(NotAfter, Submitted(steps), k);
    RequestAsksFor(steps, j);
  }

  lemma RequestAsksFor(steps: seq<ExecutionStep>, j: nat)
    requires AllCapable(steps) && j < |steps|
    ensures RequestOf(steps[j], j).seqNo == j + 1 && AsksFor(RequestOf(steps[j], j), steps, j)
  {
    PriorityIsGiven(steps[j]);
  }

  lemma EveryStepIsOrdered(steps: seq<ExecutionStep>, j: nat) returns (k: nat)
    requires AllCapable(steps) && j < |steps|
    ensures k < |PlanOrder(steps)| && PlanOrder(steps)[k].seqNo == j + 1
  {
    SortKeepsEntries(NotAfter, Submitted(steps));
    assert Submitted(steps)[j] in PlanOrder(steps);
    k :| 0 <= k < |PlanOrder(steps)| && PlanOrder(steps)[k] == Submitted(steps)[j];
  }

  /** The places of the plan at which its requests were made, in the order in which they run. */
  ghost predicate ArePlanPlaces(steps: seq<ExecutionStep>, places: seq<nat>)
    requires AllCapable(steps)
  {
    |places| == |PlanOrder(steps)| && forall k :: 0 <= k < |places| ==> places[k] + 1 == PlanOrder(steps)[k].seqNo
  }

  lemma PlanPlaces(steps: seq<ExecutionStep>) returns (places: seq<nat>)
    requires AllCapable(steps)
    ensures ArePlanPlaces(steps, places)
  {
    var order := PlanOrder(steps);
    forall k | 0 <= k < |order| ensures order[k].seqNo >= 1 {
      OrderAsksForSteps(steps, k);
    }
    places := PlacesOf(order);
  }

  lemma PlanPlacesArrange(steps: seq<ExecutionStep>, places: seq<nat>)
    requires AllCapable(steps) && ArePlanPlaces(steps, places)
    ensures IsArrangement(places, |steps|)
  {
    PlanOrderIsStableSort(steps);
    forall k, l | 0 <= k < l < |places| ensures places[k] != places[l] {
      OrderDiffers(steps, k, l);
    }
    forall j: nat ensures j < |steps| <==> j in places {
      if j < |steps| {
        var k := EveryStepIsOrdered(steps, j);
        assert places[k] == j;
      }
      if j in places {
        var k :| 0 <= k < |places| && places[k] == j;
        OrderAsksForSteps(steps, k);
      }
    }
  }

  lemma PlanPlacesInOrder(steps: seq<ExecutionStep>, places: seq<nat>)
    requires AllCapable(steps) && ArePlanPlaces(steps, places)
    ensures RunsByPriority(PlanOrder(steps), places)
  {
    var order := PlanOrder(steps);
    PlanOrderIsStableSort(steps);
    forall k, l | 0 <= k < l < |order|
      ensures order[k].priority > order[l].priority || (order[k].priority == order[l].priority && places[k] < places[l])
    {
      assert Before(order[k], order[l]);
    }
  }

  /** Every step of the plan is asked for once: by falling priority, and in plan order within a priority. */
  lemma PlanRunsByPriority(steps: seq<ExecutionStep>) returns (places: seq<nat>)
    requires AllCapable(steps)
    ensures IsArrangement(places, |steps|) && RunsByPriority(PlanOrder(steps), places)
    ensures forall k :: 0 <= k < |places| ==> AsksFor(PlanOrder(steps)[k], steps, places[k])
  {
    places := PlanPlaces(steps);
    PlanPlacesArrange(steps, places);
    PlanPlacesInOrder(steps, places);
    forall k | 0 <= k < |places| ensures AsksFor(PlanOrder(steps)[k], steps, places[k]) {
      OrderAsksForSteps(steps, k);
    }
  }

  lemma OrderDiffers(steps: seq<ExecutionStep>, k: nat, l: nat)
    requires AllCapable(steps) && k < l < |PlanOrder(steps)|
    ensures PlanOrder(steps)[k].seqNo != PlanOrder(steps)[l].seqNo
  {
    var i := SortedEntry(NotAfter, Submitted(steps), k);
    var j := SortedEntry(NotAfter, Submitted(steps), l);
    OrderIsBefore(steps, k, l);
  }

  lemma OrderIsBefore(steps: seq<ExecutionStep>, k: nat, l: nat)
    requires AllCapable(steps) && k < l < |PlanOrder(steps)|
    ensures Before(PlanOrder(steps)[k], PlanOrder(steps)[l])
  {
    PlanOrderIsStableSort(steps);
  }

  /** The k-th output of a plan that ran is the answer to the k-th request, made for the first step with its id. */
  ghost predicate Answers(steps: seq<ExecutionStep>, calls: Calls, k: nat, req: SyscallRequest, out: Output) {
    && out.stepId == req.stepId && out.costUnits == (if req.capability == "llm.route" then 2 else 1)
    && exists j: nat :: IsFirstStep(steps, req.stepId, j) && calls(k, req, steps[j]) == Some(out.output)
  }

  /** Where a plan runs, its outputs are the answers to its requests, one for each, in the order in which they run. */
  lemma OutputsAreAnswers(steps: seq<ExecutionStep>, calls: Calls, k: nat)
    requires PlanResult(steps, calls).Ran? && k < |PlanOrder(steps)|
    ensures |PlanResult(steps, calls).outputs| == |PlanOrder(steps)|
    ensures Answers(steps, calls, k, PlanOrder(steps)[k], PlanResult(steps, calls).outputs[k])
  {
    var order, outs := PlanOrder(steps), PlanResult(steps, calls).outputs;
    OutputsFollowOrder(steps, calls, 0, order);
    assert Call(steps, calls, 0 + k, order[k]) == Some(outs[k]);
    var j := FindStepIsFirst(steps, order[k].stepId);
    assert calls(k, order[k], steps[j]) == Some(outs[k].output);
  }

  /** The k-th request is answered, on behalf of the first step with its id. */
  ghost predicate IsAnswered(steps: seq<ExecutionStep>, calls: Calls, k: nat, req: SyscallRequest) {
    exists j: nat :: IsFirstStep(steps, req.stepId, j) && calls(k, req, steps[j]).Some?
  }

  /** A plan runs exactly when every step has a capability and every request is answered. */
  lemma PlanRunsIff(steps: seq<ExecutionStep>, calls: Calls)
    ensures PlanResult(steps, calls).Ran? <==>
            && (forall i :: 0 <= i < |steps| ==> steps[i].capabilityRef.Some?)
            && (forall k :: 0 <= k < |PlanOrder(steps)| ==> IsAnswered(steps, calls, k, PlanOrder(steps)[k]))
  {
    if AllCapable(steps) {
      var order := PlanOrder(steps);
      forall k | 0 <= k < |order|
        ensures Call(steps, calls, 0 + k, order[k]).Some? <==> IsAnswered(steps, calls, k, order[k])
      {
        AnsweredIff(steps, calls, k);
      }
      RunsIffEveryCallSucceeds(steps, calls, 0, order);
    }
  }

  lemma AnsweredIff(steps: seq<ExecutionStep>, calls: Calls, k: nat)
    requires AllCapable(steps) && k < |PlanOrder(steps)|
    ensures Call(steps, calls, k, PlanOrder(steps)[k]).Some? <==> IsAnswered(steps, calls, k, PlanOrder(steps)[k])
  {
    OrderFindsStep(steps, k);
    var j := FindStepIsFirst(steps, PlanOrder(steps)[k].stepId);
    if IsAnswered(steps, calls, k, PlanOrder(steps)[k]) {
      var i: nat :| IsFirstStep(steps, PlanOrder(steps)[k].stepId, i)
                    && calls(k, PlanOrder(steps)[k], steps[i]).Some?;
      assert i == j;
    }
  }
}
