/**
 How far an execution on its own gets: where every gate is open it reaches consumption, and there
 its routed steps decide.
 */
module KernelProgress {
  import opened Ir
  import opened Kernel
  import KernelAccounting
  import opened KernelSafety
  import opened NoumenonCore
  import opened Replay
  import opened Resource
  import Scheduler
  import opened Sequences
  import opened Text

  // ---------------------------------------------------------------- open gates

  /** Every gate passes, the budget ledger answers, and the plan runs. */
  ghost predicate Open(r: Request, w: World) {
    GatesPassed(r, w) && w.budgetReachable && Scheduler.PlanResult(r.steps, w.calls).Ran?
  }

  /** Somewhere before or at consumption, with the resources still to be had where they have not been taken. */
  ghost predicate UnderWay(sh: Shared, p: Process) {
    && Sound(p) && Open(p.request, p.world) && PhaseRank(p.phase) >= 4
    && (PhaseRank(p.phase) >= 9 ==> Grants(sh.pool, Requirements(p)))
  }

  lemma AdmitPasses(p: Process)
    requires Sound(p) && p.phase.Admission? && AdmissionPassed(p.request, p.world)
    ensures Admit(p).phase == EnteringEnforcement
  {
  }

  lemma AttestPasses(p: Process)
    requires p.phase.Attesting? && AttestationPassed(p.request, p.world)
    ensures Attest(p).phase == GatingStep(0)
  {
  }

  lemma GatePasses(p: Process, i: nat)
    requires p.phase == GatingStep(i) && StepsPassed(p.request, p.world, |p.request.steps|)
    ensures GateStep(p, i).phase == if i < |p.request.steps| then GatingStep(i + 1) else TakingResources
  {
  }

  lemma ReservePasses(sh: Shared, p: Process)
    requires Sound(p) && p.phase.ReservingBudget? && p.world.budgetReachable
    ensures ReserveBudget(sh, p).1.phase == RunningPlan
  {
  }

  lemma PlanPasses(p: Process)
    requires Sound(p) && p.phase.RunningPlan? && Scheduler.PlanResult(p.request.steps, p.world.calls).Ran?
    ensures RunPlan(p).phase == RecordingContext
  {
  }

  lemma RecordingPasses(digest: Digest, sh: Shared, p: Process, i: nat)
    requires Sound(p) && p.phase == RecordingStep(i)
    ensures RecordStep(digest, sh, p, i).1.phase == if i < |p.outputs| then RecordingStep(i + 1) else ConsumingBudget
  {
    if i < |p.outputs| {
      Scheduler.PlanOutputsAreSteps(p.request.steps, p.world.calls, i);
    }
  }

  /** The next step leads closer to consumption, not past it, and leaves the pool alone as long as it is needed. */
  ghost predicate GoesOn(digest: Digest, sh: Shared, p: Process) {
    var (after, q) := Step(digest, sh, p);
    4 <= PhaseRank(q.phase) <= PhaseRank(p.phase) && (PhaseRank(q.phase) >= 9 ==> after == sh)
  }

  lemma AdmissionStep(digest: Digest, sh: Shared, p: Process)
    requires UnderWay(sh, p) && p.phase == Admission
    ensures GoesOn(digest, sh, p)
  {
    AdmitPasses(p);
  }

  lemma EnforcementStep(digest: Digest, sh: Shared, p: Process)
    requires UnderWay(sh, p) && p.phase == EnteringEnforcement
    ensures GoesOn(digest, sh, p)
  {
  }

  lemma AttestationStep(digest: Digest, sh: Shared, p: Process)
    requires UnderWay(sh, p) && p.phase == Attesting
    ensures GoesOn(digest, sh, p)
  {
    AttestPasses(p);
  }

  lemma GatingStepPasses(digest: Digest, sh: Shared, p: Process, i: nat)
    requires UnderWay(sh, p) && p.phase == GatingStep(i)
    ensures GoesOn(digest, sh, p)
  {
    GatePasses(p, i);
  }

  lemma ResourceStep(digest: Digest, sh: Shared, p: Process)
    requires UnderWay(sh, p) && p.phase == TakingResources
    ensures GoesOn(digest, sh, p)
  {
  }

  lemma BudgetStep(digest: Digest, sh: Shared, p: Process)
    requires UnderWay(sh, p) && p.phase == ReservingBudget
    ensures GoesOn(digest, sh, p)
  {
    ReservePasses(sh, p);
  }

  lemma PlanStep(digest: Digest, sh: Shared, p: Process)
    requires UnderWay(sh, p) && p.phase == RunningPlan
    ensures GoesOn(digest, sh, p)
  {
    PlanPasses(p);
  }

  lemma ContextStep(digest: Digest, sh: Shared, p: Process)
    requires UnderWay(sh, p) && p.phase == RecordingContext
    ensures GoesOn(digest, sh, p)
  {
  }

  lemma RecordingStepPasses(digest: Digest, sh: Shared, p: Process, i: nat)
    requires UnderWay(sh, p) && p.phase == RecordingStep(i)
    ensures GoesOn(digest, sh, p)
  {
    RecordingPasses(digest, sh, p, i);
  }

  lemma StepGoesOn(digest: Digest, sh: Shared, p: Process)
    requires UnderWay(sh, p) && p.phase != ConsumingBudget
    ensures GoesOn(digest, sh, p)
  {
    match p.phase
    case Admission => AdmissionStep(digest, sh, p);
    case EnteringEnforcement => EnforcementStep(digest, sh, p);
    case Attesting => AttestationStep(digest, sh, p);
    case GatingStep(i) => GatingStepPasses(digest, sh, p, i);
    case TakingResources => ResourceStep(digest, sh, p);
    case ReservingBudget => BudgetStep(digest, sh, p);
    case RunningPlan => PlanStep(digest, sh, p);
    case RecordingContext => ContextStep(digest, sh, p);
    case RecordingStep(i) => RecordingStepPasses(digest, sh, p, i);
  }

  lemma StepsUnderWay(digest: Digest, sh: Shared, p: Process)
    requires UnderWay(sh, p) && p.phase != ConsumingBudget
    ensures var (after, q) := Step(digest, sh, p); UnderWay(after, q)
  {
    var (after, q) := Step(digest, sh, p);
    StepSound(digest, sh, p);
    StepGoesOn(digest, sh, p);
    StaysUnderWay(sh, p, after, q);
  }

  lemma StaysUnderWay(sh: Shared, p: Process, after: Shared, q: Process)
    requires UnderWay(sh, p) && Sound(q) && q.request == p.request && q.world == p.world
    requires 4 <= PhaseRank(q.phase) <= PhaseRank(p.phase) && (PhaseRank(q.phase) >= 9 ==> after == sh)
    ensures UnderWay(after, q)
  {
  }

  /** Scheduled on its own, the execution reaches consumption. */
  lemma {:induction false} ReachesConsumption(digest: Digest, s: State, i: nat) returns (schedule: seq<nat>)
    requires i < |s.procs| && UnderWay(s.shared, s.procs[i])
    ensures var t := Run(digest, s, schedule);
            && t.procs[i].phase.ConsumingBudget?
            && Finish(digest, s.shared, s.procs[i]) == Finish(digest, t.shared, t.procs[i])
    decreases PhaseRank(s.procs[i].phase), Remaining(s.procs[i])
  {
    if s.procs[i].phase.ConsumingBudget? {
      schedule := [];
    } else {
      StepsUnderWay(digest, s.shared, s.procs[i]);
      StepAdvances(digest, s.shared, s.procs[i]);
      FinishStep(digest, s.shared, s.procs[i]);
      var rest := ReachesConsumption(digest, Next(digest, s, i), i);
      RunAppend(digest, s, [i], rest);
      assert Run(digest, s, [i][..0]) == s;
      schedule := [i] + rest;
    }
  }

  // ---------------------------------------------------------------- the outcome

  lemma {:induction false} EndingNeverFails(digest: Digest, sh: Shared, p: Process)
    requires p.phase.Validating? || p.phase.Recovering? || p.phase.Leaving? || p.phase.Done?
    requires !KernelAccounting.ConsumptionFailed(p)
    ensures !KernelAccounting.ConsumptionFailed(Finish(digest, sh, p).1)
    decreases PhaseRank(p.phase)
  {
    if !p.phase.Done? {
      var (after, q) := Step(digest, sh, p);
      EndingStep(digest, sh, p);
      FinishStep(digest, sh, p);
      EndingNeverFails(digest, after, q);
    }
  }

  lemma EndingStep(digest: Digest, sh: Shared, p: Process)
    requires p.phase.Validating? || p.phase.Recovering? || p.phase.Leaving?
    requires !KernelAccounting.ConsumptionFailed(p)
    ensures var q := Step(digest, sh, p).1;
            && !KernelAccounting.ConsumptionFailed(q) && PhaseRank(q.phase) < PhaseRank(p.phase) <= 3
  {
    KernelAccounting.OnlyConsumingFails(digest, sh, p);
    EndingAdvances(digest, sh, p);
  }

  lemma ConsumptionDecides(digest: Digest, sh: Shared, p: Process)
    requires p.phase.ConsumingBudget? && !p.consumed
    ensures Finish(digest, sh, p).1.phase.outcome == Errored(ConsumeFailed) <==> !Consume(digest, sh, p).1.consumed
  {
    var (after, q) := Consume(digest, sh, p);
    FinishConsume(digest, sh, p);
    if q.consumed {
      KernelAccounting.ConsumedOrFailed(digest, sh, p);
      EndingNeverFails(digest, after, q);
    } else {
      ConsumeGaveUp(digest, sh, p);
      FinishLeaving(digest, after, q);
    }
  }

  lemma ConsumeGaveUp(digest: Digest, sh: Shared, p: Process)
    requires !p.consumed && !Consume(digest, sh, p).1.consumed
    ensures Consume(digest, sh, p).1.phase == Leaving(Errored(ConsumeFailed))
  {
  }

  /**
   On a fresh account, with every gate open and the resources granted, an execution of its own fails
   at consumption exactly when its plan routes a step.
   */
  lemma RoutedExecutionsFail(digest: Digest, sh: Shared, r: Request, w: World)
    requires Open(r, w) && AccountId(r) !in sh.accounts && Grants(sh.pool, FromConstraints(r.constraints))
    ensures RunAlone(digest, sh, r, w).1 == Errored(ConsumeFailed) <==> Scheduler.RoutedSteps(r.steps) > 0
  {
    var s := State(sh, [Start(r, w)]);
    StartSound(r, w);
    var schedule := ReachesConsumption(digest, s, 0);
    var t := Run(digest, s, schedule);
    KernelAccounting.LoneExecutionConsumesIffUnrouted(digest, s, schedule, 0);
    KernelAccounting.RunKeepsBooks(digest, s, schedule, 0);
    ConsumptionDecides(digest, t.shared, t.procs[0]);
  }

  // ---------------------------------------------------------------- an execution that fails

  lemma {:induction false} NotContained(s: string, part: string)
    requires part != "" && part[0] !in s
    ensures !Contains(s, part)
  {
    if s != "" {
      NotContained(s[1..], part);
    }
  }

  lemma {:induction false} LowerStays(s: string)
    requires forall i :: 0 <= i < |s| ==> !('A' <= s[i] <= 'Z')
    ensures AsciiLower(s) == s
  {
    if s != "" {
      LowerStays(s[1..]);
    }
  }

  const ROUTED := "llm.route"

  function RoutedStep(): ExecutionStep {
    ExecutionStep(
      "s1", Some(ROUTED), Trusted,
      HardeningPolicy(None, None, [], None, false, false, false, false, None, None, None), "", map[])
  }

  function RoutedRequest(): Request {
    Request("e1", "t1", "run", [RoutedStep()], ConstraintSet(1000, 1, 64), false, false, "soft",
            Closure("", "", [], "", "", ""), SupplyChain("", "", ""))
  }

  function WillingWorld(): World {
    World(true, true, true, true, _ => true, (_, _) => true, true, (_, _, _) => Some("ok"), "", _ => 0,
          true, true, true, "")
  }

  lemma RoutedInfersNothing()
    ensures InferIsland(Some(ROUTED)) == None
  {
    RoutedIsLower();
    RoutedLacks("wasm");
    RoutedLacks("ffi");
    RoutedLacks("cabi");
    RoutedLacks("plugin");
  }

  lemma RoutedIsLower()
    ensures AsciiLower(ROUTED) == ROUTED
  {
    LowerStays(ROUTED);
  }

  lemma RoutedLacks(part: string)
    requires part != "" && (part[0] == 'w' || part[0] == 'f' || part[0] == 'c' || part[0] == 'p')
    ensures !Contains(ROUTED, part)
  {
    NotContained(ROUTED, part);
  }

  lemma TrustedByName(step: ExecutionStep)
    requires step.localConstraints == map[] && step.runtimeIsland == Trusted && InferIsland(step.capabilityRef) == None
    ensures !HighRisk(step)
  {
  }

  lemma RoutedGatesPass()
    ensures GatesPassed(RoutedRequest(), WillingWorld())
  {
    var r, w := RoutedRequest(), WillingWorld();
    RoutedInfersNothing();
    TrustedByName(RoutedStep());
    assert |r.operation| == 3;
    assert AdmissionPassed(r, w);
    assert HardeningPasses(r, w, 0);
  }

  lemma RoutedRequestIsOpen()
    ensures Open(RoutedRequest(), WillingWorld())
  {
    RoutedGatesPass();
    Scheduler.AnsweredPlansRun(RoutedRequest().steps, WillingWorld().calls);
  }

  /** A request with one routed step, on a new kernel, with everything granted. */
  lemma RoutedRequestFails(digest: Digest)
    ensures RunAlone(digest, Shared([], map[], Pool(8, 1024, 0, 0)), RoutedRequest(), WillingWorld()).1
         == Errored(ConsumeFailed)
  {
    RoutedRequestIsOpen();
    var steps := RoutedRequest().steps;
    assert steps[..0] == [] && Scheduler.RoutedSteps(steps) == 1;
    RoutedExecutionsFail(digest, Shared([], map[], Pool(8, 1024, 0, 0)), RoutedRequest(), WillingWorld());
  }
}
