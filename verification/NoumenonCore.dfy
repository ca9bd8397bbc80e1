/**
 The kernel object: `execute` as sequential code over the ledgers and the resource governor.
 Its effect is that of one process of the interleaving model running on its own.
 */
module NoumenonCore {
  import BudgetLedger
  import opened EvidenceLedger
  import opened Ir
  import opened Kernel
  import KernelRecords
  import KernelSafety
  import KernelVerdicts
  import opened Numbers
  import opened Replay
  import opened Resource
  import Scheduler
  import opened Sequences
  import opened StateMachine

  // ---------------------------------------------------------------- running one process to its end

  function PhaseRank(phase: Phase): nat {
    match phase
    case Admission => 13
    case EnteringEnforcement => 12
    case Attesting => 11
    case GatingStep(_) => 10
    case TakingResources => 9
    case ReservingBudget => 8
    case RunningPlan => 7
    case RecordingContext => 6
    case RecordingStep(_) => 5
    case ConsumingBudget => 4
    case Validating(_) => 3
    case Recovering(_) => 2
    case Leaving(_) => 1
    case Done(_) => 0
  }

  /** How many turns of the loop of the present phase are left. */
  function Remaining(p: Process): nat {
    match p.phase
    case GatingStep(i) => if i < |p.request.steps| then |p.request.steps| - i else 0
    case RecordingStep(i) => if i < |p.outputs| then |p.outputs| - i else 0
    case _ => 0
  }

  ghost predicate Advances(p: Process, q: Process) {
    || PhaseRank(q.phase) < PhaseRank(p.phase)
    || (PhaseRank(q.phase) == PhaseRank(p.phase) && Remaining(q) < Remaining(p))
  }

  lemma LoopsAdvance(digest: Digest, sh: Shared, p: Process)
    requires p.phase.GatingStep? || p.phase.RecordingStep?
    ensures Advances(p, Step(digest, sh, p).1)
  {
  }

  lemma GatesAdvance(digest: Digest, sh: Shared, p: Process)
    requires p.phase.Admission? || p.phase.EnteringEnforcement? || p.phase.Attesting? ||
             p.phase.TakingResources? || p.phase.ReservingBudget?
    ensures Advances(p, Step(digest, sh, p).1)
  {
  }

  lemma RunPlanAdvances(p: Process)
    ensures PhaseRank(RunPlan(p).phase) < 7
  {
  }

  lemma ConsumeAdvances(digest: Digest, sh: Shared, p: Process)
    ensures PhaseRank(Consume(digest, sh, p).1.phase) < 4
  {
  }

  lemma RunningAdvances(digest: Digest, sh: Shared, p: Process)
    requires p.phase == RunningPlan || p.phase == RecordingContext || p.phase == ConsumingBudget
    ensures Advances(p, Step(digest, sh, p).1)
  {
    if p.phase.RunningPlan? {
      RunPlanAdvances(p);
    } else if p.phase.ConsumingBudget? {
      ConsumeAdvances(digest, sh, p);
    }
  }

  lemma EndingAdvances(digest: Digest, sh: Shared, p: Process)
    requires p.phase.Validating? || p.phase.Recovering? || p.phase.Leaving?
    ensures Advances(p, Step(digest, sh, p).1)
  {
  }

  /** Every step of an execution brings it closer to its end. */
  lemma StepAdvances(digest: Digest, sh: Shared, p: Process)
    requires !p.phase.Done?
    ensures Advances(p, Step(digest, sh, p).1)
  {
    if p.phase.GatingStep? || p.phase.RecordingStep? {
      LoopsAdvance(digest, sh, p);
    } else if PhaseRank(p.phase) > 7 {
      GatesAdvance(digest, sh, p);
    } else if PhaseRank(p.phase) > 3 {
      RunningAdvances(digest, sh, p);
    } else {
      EndingAdvances(digest, sh, p);
    }
  }

  function Finish(digest: Digest, sh: Shared, p: Process): (r: (Shared, Process))
    ensures r.1.phase.Done?
    decreases PhaseRank(p.phase), Remaining(p)
  {
    if p.phase.Done? then (sh, p)
    else
      StepAdvances(digest, sh, p);
      var (after, q) := Step(digest, sh, p);
      Finish(digest, after, q)
  }

  lemma FinishStep(digest: Digest, sh: Shared, p: Process)
    requires !p.phase.Done?
    ensures Finish(digest, sh, p) == Finish(digest, Step(digest, sh, p).0, Step(digest, sh, p).1)
  {
  }

  lemma FinishContext(digest: Digest, sh: Shared, p: Process)
    requires p.phase == RecordingContext
    ensures var (after, q) := RecordContext(digest, sh, p); Finish(digest, sh, p) == Finish(digest, after, q)
  {
    FinishStep(digest, sh, p);
  }

  lemma FinishRecord(digest: Digest, sh: Shared, p: Process, i: nat)
    requires p.phase == RecordingStep(i)
    ensures var (after, q) := RecordStep(digest, sh, p, i); Finish(digest, sh, p) == Finish(digest, after, q)
  {
    FinishStep(digest, sh, p);
  }

  lemma FinishConsume(digest: Digest, sh: Shared, p: Process)
    requires p.phase == ConsumingBudget
    ensures var (after, q) := Consume(digest, sh, p); Finish(digest, sh, p) == Finish(digest, after, q)
  {
    FinishStep(digest, sh, p);
  }

  lemma FinishPlan(digest: Digest, sh: Shared, p: Process)
    requires p.phase == RunningPlan
    ensures Finish(digest, sh, p) == Finish(digest, sh, RunPlan(p))
  {
    FinishStep(digest, sh, p);
  }

  lemma FinishValidate(digest: Digest, sh: Shared, p: Process, record: ExecutionRecord)
    requires p.phase == Validating(record)
    ensures Finish(digest, sh, p) == Finish(digest, sh, Validate(p, record))
  {
    FinishStep(digest, sh, p);
  }

  lemma FinishRecover(digest: Digest, sh: Shared, p: Process, record: ExecutionRecord)
    requires p.phase == Recovering(record)
    ensures Finish(digest, sh, p) == Finish(digest, sh, Recover(p, record))
  {
    FinishStep(digest, sh, p);
  }

  /** Where the end of an execution leads once its record has been made. */
  function Settled(p: Process, record: ExecutionRecord): (q: Process)
    ensures SameBooks(p, q)
  {
    var q := Validate(p, record);
    if q.phase.Recovering? then Recover(q, q.phase.record) else q
  }

  lemma FinishSettled(digest: Digest, sh: Shared, p: Process, record: ExecutionRecord)
    requires p.phase == Validating(record)
    ensures Finish(digest, sh, p) == Finish(digest, sh, Settled(p, record))
  {
    FinishValidate(digest, sh, p, record);
    var q := Validate(p, record);
    if q.phase.Recovering? {
      FinishRecover(digest, sh, q, q.phase.record);
    }
  }

  lemma FinishLeaving(digest: Digest, sh: Shared, p: Process)
    requires p.phase.Leaving?
    ensures Finish(digest, sh, p) == Leave(sh, p, p.phase.outcome)
  {
    FinishStep(digest, sh, p);
  }

  /** What a lone execution leaves behind and returns. */
  function RunAlone(digest: Digest, sh: Shared, request: Request, world: World): (Shared, Outcome) {
    var (after, p) := Finish(digest, sh, Start(request, world));
    (after, p.phase.outcome)
  }

  /** To its end, an execution stays one whose outcome is explained by the answers it got. */
  lemma {:induction false} FinishTells(digest: Digest, sh: Shared, p: Process)
    requires KernelSafety.Sound(p) && KernelVerdicts.Tells(p)
    ensures KernelVerdicts.Tells(Finish(digest, sh, p).1) && Finish(digest, sh, p).1.request == p.request
    ensures Finish(digest, sh, p).1.world == p.world
    decreases PhaseRank(p.phase), Remaining(p)
  {
    if !p.phase.Done? {
      var (after, q) := Step(digest, sh, p);
      StepAdvances(digest, sh, p);
      KernelSafety.StepSound(digest, sh, p);
      KernelVerdicts.StepTells(digest, sh, p);
      FinishStep(digest, sh, p);
      FinishTells(digest, after, q);
    }
  }

  lemma {:induction false} FinishRecorded(digest: Digest, sh: Shared, p: Process, outs: seq<Scheduler.Output>)
    requires KernelSafety.Sound(p) && KernelRecords.PlanYields(p, outs) && KernelRecords.Recorded(digest, p, outs)
    ensures KernelRecords.Recorded(digest, Finish(digest, sh, p).1, outs)
    decreases PhaseRank(p.phase), Remaining(p)
  {
    if !p.phase.Done? {
      var (after, q) := Step(digest, sh, p);
      StepAdvances(digest, sh, p);
      KernelSafety.StepSound(digest, sh, p);
      KernelRecords.StepRecorded(digest, sh, p, outs);
      FinishStep(digest, sh, p);
      FinishRecorded(digest, after, q, outs);
    }
  }

  lemma AloneIsRecorded(digest: Digest, sh: Shared, request: Request, world: World)
    ensures KernelRecords.OutcomeRecorded(digest, request, world, RunAlone(digest, sh, request, world).1)
  {
    var start := Start(request, world);
    var p := Finish(digest, sh, start).1;
    AloneIsExplained(digest, sh, request, world);
    forall outs | KernelRecords.PlanYields(p, outs) ensures KernelRecords.Recorded(digest, p, outs) {
      KernelSafety.StartSound(request, world);
      FinishRecorded(digest, sh, start, outs);
    }
    KernelRecords.DoneIsRecorded(digest, p);
  }

  lemma AloneIsExplained(digest: Digest, sh: Shared, request: Request, world: World)
    ensures KernelVerdicts.OutcomeTells(RunAlone(digest, sh, request, world).1, request, world)
    ensures var p := Finish(digest, sh, Start(request, world)).1; p.request == request && p.world == world
  {
    KernelSafety.StartSound(request, world);
    FinishTells(digest, sh, Start(request, world));
  }

  // ---------------------------------------------------------------- the object

  class Core {
    const digest: Digest
    const evidence: EvidenceLedger.InMemoryLedger
    const budget: BudgetLedger.InMemoryLedger
    const governor: Governor

    constructor (digest: Digest, cpuLimit: u32, memoryLimit: u32)
      ensures fresh(evidence) && fresh(budget) && fresh(governor) && this.digest == digest
      ensures SharedState() == Shared([], map[], Pool(cpuLimit, memoryLimit, 0, 0))
    {
      this.digest := digest;
      evidence := new EvidenceLedger.InMemoryLedger();
      budget := new BudgetLedger.InMemoryLedger();
      governor := new Governor(cpuLimit, memoryLimit);
    }

    ghost function SharedState(): Shared
      reads evidence, budget, governor
    {
      Shared(evidence.records, budget.accounts, governor.pool)
    }

    /** Moves to Rejected; an illegal move would take the place of the reason. */
    method Refuse(sm: Machine, reason: Reason, ghost p: Process) returns (given: Reason)
      requires p.status == sm.state
      modifies sm
      ensures Reject(p, reason).phase == Leaving(Errored(given)) && Reject(p, reason).status == sm.state
    {
      var ok := sm.Transit(Rejected);
      given := if ok then reason else IllegalTransition;
    }

    /** Operation mode, identity, supply chain and rollout. */
    method AdmitRequest(request: Request, world: World, sm: Machine, ghost p: Process) returns (refusal: Option<Reason>)
      requires p.request == request && p.world == world && p.phase == Admission && p.status == sm.state
      modifies sm
      ensures Admit(p).status == sm.state
      ensures Admit(p).phase == if refusal.Some? then Leaving(Errored(refusal.value)) else EnteringEnforcement
    {
      var reason: Reason;
      if request.operation == "replay_only" || request.operation == "audit_only" {
        reason := Refuse(sm, OutsideKernelPath, p);
        return Some(reason);
      }
      if !world.identityOk {
        reason := Refuse(sm, IdentityRejected, p);
        return Some(reason);
      }
      if !world.supplyChainOk {
        reason := Refuse(sm, SupplyChainRejected, p);
        return Some(reason);
      }
      if !world.rolloutOk {
        reason := Refuse(sm, RolloutRejected, p);
        return Some(reason);
      }
      var ok := sm.Transit(Admitted);
      refusal := if ok then None else Some(IllegalTransition);
    }

    /** Tenant authority and hardening, step by step. */
    method GateSteps(request: Request, world: World, sm: Machine, ghost sh: Shared, ghost before: Process)
      returns (refusal: Option<Reason>, ghost p: Process)
      requires before.request == request && before.world == world &&
               before.phase == GatingStep(0) && before.status == sm.state
      modifies sm
      ensures Finish(digest, sh, before) == Finish(digest, sh, p)
      ensures SameBooks(before, p) && p.status == sm.state
      ensures p.phase == if refusal.Some? then Leaving(Errored(refusal.value)) else TakingResources
    {
      p := before;
      var i := 0;
      while i < |request.steps|
        invariant i <= |request.steps| && SameBooks(before, p)
        invariant p.phase == GatingStep(i) && p.status == sm.state
        invariant Finish(digest, sh, before) == Finish(digest, sh, p)
      {
        FinishStep(digest, sh, p);
        var reason: Reason;
        if request.steps[i].capabilityRef.Some? && !world.tenantAllows(i) {
          reason := Refuse(sm, TenantRejected, p);
          p := GateStep(p, i);
          return Some(reason), p;
        }
        if !HardeningPasses(request, world, i) {
          reason := Refuse(sm, HardeningRejected, p);
          p := GateStep(p, i);
          return Some(reason), p;
        }
        p := GateStep(p, i);
        i := i + 1;
      }
      FinishStep(digest, sh, p);
      p := GateStep(p, i);
      refusal := None;
    }

    /** Everything that must be passed before resources are taken. */
    method PassGates(request: Request, world: World, sm: Machine, ghost sh: Shared)
      returns (refusal: Option<Reason>, ghost p: Process)
      requires sm.state == PendingAdmission
      modifies sm
      ensures Finish(digest, sh, Start(request, world)) == Finish(digest, sh, p)
      ensures SameBooks(Start(request, world), p) && p.status == sm.state
      ensures p.phase == if refusal.Some? then Leaving(Errored(refusal.value)) else TakingResources
    {
      p := Start(request, world);
      FinishStep(digest, sh, p);
      refusal := AdmitRequest(request, world, sm, p);
      p := Admit(p);
      if refusal.Some? {
        return;
      }
      FinishStep(digest, sh, p);
      var ok := sm.Transit(Enforcing);
      p := Move(p, Enforcing, Attesting);
      if !ok {
        return Some(IllegalTransition), p;
      }
      FinishStep(digest, sh, p);
      if request.verifyEnvironment && HardTrust(request) && !world.attestationOk {
        var reason := Refuse(sm, AttestationRejected, p);
        p := Attest(p);
        return Some(reason), p;
      }
      p := Attest(p);
      refusal, p := GateSteps(request, world, sm, sh, p);
    }

    /** Appends the context record and one record per output, each naming the hash before it. */
    method RecordEvidence(request: Request, world: World, outputs: seq<Scheduler.Output>, ghost before: Process)
      returns (found: bool, stepRecords: seq<StepRecord>, evidenceIds: seq<string>, ghost p: Process)
      requires before.request == request && before.world == world && before.outputs == outputs
      requires before.phase == RecordingContext && before.prevHash == GENESIS
      requires before.stepRecords == [] && before.evidenceIds == []
      modifies evidence
      ensures Finish(digest, old(SharedState()), before) == Finish(digest, SharedState(), p)
      ensures p.request == request && p.world == world && p.status == before.status && p.holding == before.holding
      ensures p.phase == if found then ConsumingBudget else Leaving(Errored(StepNotFound))
      ensures p.stepRecords == stepRecords && p.evidenceIds == evidenceIds
    {
      FinishContext(digest, SharedState(), before);
      var prevHash, contextId;
      prevHash, contextId, p := RecordAdmission(request, world, before);
      found, stepRecords, evidenceIds, p := RecordOutputs(request, world, outputs, prevHash, [contextId], p);
    }

    method RecordOutputs(request: Request, world: World, outputs: seq<Scheduler.Output>, contextHash: string,
                         contextIds: seq<string>, ghost before: Process)
      returns (found: bool, stepRecords: seq<StepRecord>, evidenceIds: seq<string>, ghost p: Process)
      requires before.request == request && before.world == world && before.outputs == outputs
      requires before.phase == RecordingStep(0) && before.prevHash == contextHash
      requires before.stepRecords == [] && before.evidenceIds == contextIds
      modifies evidence
      ensures Finish(digest, old(SharedState()), before) == Finish(digest, SharedState(), p)
      ensures p.request == request && p.world == world && p.status == before.status && p.holding == before.holding
      ensures p.phase == if found then ConsumingBudget else Leaving(Errored(StepNotFound))
      ensures p.stepRecords == stepRecords && p.evidenceIds == evidenceIds
    {
      p := before;
      stepRecords, evidenceIds := [], contextIds;
      var prevHash := contextHash;
      ghost var end := Finish(digest, SharedState(), p);
      for i := 0 to |outputs|
        invariant p.request == request && p.world == world && p.outputs == outputs
        invariant p.status == before.status && p.holding == before.holding
        invariant p.phase == RecordingStep(i) && p.prevHash == prevHash
        invariant p.stepRecords == stepRecords && p.evidenceIds == evidenceIds
        invariant end == Finish(digest, SharedState(), p)
      {
        FinishRecord(digest, SharedState(), p, i);
        var step := FindStep(request.steps, outputs[i].stepId);
        if step == None {
          p := RecordStep(digest, SharedState(), p, i).1;
          return false, stepRecords, evidenceIds, p;
        }
        var record, id;
        record, prevHash, id, p := RecordOutput(request, world, outputs[i], step.value, prevHash, i, p);
        evidenceIds := evidenceIds + [id];
        stepRecords := stepRecords + [record];
      }
      FinishRecord(digest, SharedState(), p, |outputs|);
      p := RecordStep(digest, SharedState(), p, |outputs|).1;
      found := true;
    }

    /** The record that binds the context of the admission, first in the chain. */
    method RecordAdmission(request: Request, world: World, ghost before: Process)
      returns (hash: string, id: string, ghost p: Process)
      requires before.request == request && before.world == world && before.prevHash == GENESIS
      modifies evidence
      ensures (SharedState(), p) == RecordContext(digest, old(SharedState()), before)
      ensures p.outputs == before.outputs && p.stepRecords == before.stepRecords &&
              p.evidenceIds == before.evidenceIds + [id]
      ensures p.prevHash == hash && p.status == before.status
    {
      var contextDigest := digest(world.contextPayload);
      hash := digest(RecordText(RecordPrefix(request.executionId, CONTEXT_STEP, "context", contextDigest), GENESIS));
      id := request.executionId + ":" + CONTEXT_STEP;
      evidence.Append(EvidenceRecord(id, StreamId(request), request.executionId, CONTEXT_STEP, CONTEXT_BOUND,
                                     contextDigest, GENESIS, hash, world.clock(0)));
      p := RecordContext(digest, old(SharedState()), before).1;
    }

    method RecordOutput(request: Request, world: World, out: Scheduler.Output,
                        step: ExecutionStep, prevHash: string, i: nat,
                        ghost before: Process)
      returns (record: StepRecord, hash: string, id: string, ghost p: Process)
      requires before.request == request && before.world == world && i < |before.outputs| && before.outputs[i] == out
      requires before.prevHash == prevHash && before.phase == RecordingStep(i)
      requires FindStep(request.steps, out.stepId) == Some(step)
      modifies evidence
      ensures (SharedState(), p) == RecordStep(digest, old(SharedState()), before, i)
      ensures p.stepRecords == before.stepRecords + [record] && p.evidenceIds == before.evidenceIds + [id]
      ensures p.prevHash == hash && p.phase == RecordingStep(i + 1) && p.status == before.status
    {
      var inputDigest, outputDigest := digest(step.input), digest(out.output);
      hash := digest(RecordText(RecordPrefix(request.executionId, out.stepId, inputDigest, outputDigest), prevHash));
      id := request.executionId + ":" + out.stepId;
      evidence.Append(EvidenceRecord(id, StreamId(request), request.executionId, out.stepId,
                                     STEP_EXECUTED, outputDigest,
                                     prevHash, hash, world.clock(2 * i + 1)));
      record := StepRecord(out.stepId, step.capabilityRef, inputDigest,
                           outputDigest, out.costUnits, world.clock(2 * i + 2));
      p := RecordStep(digest, old(SharedState()), before, i).1;
    }

    /** Consumes the budget, builds the record, and completes or rolls back. */
    method Conclude(request: Request, world: World, sm: Machine, stepRecords: seq<StepRecord>, evidenceIds: seq<string>,
                    ghost before: Process)
      returns (outcome: Outcome, ghost p: Process)
      requires before.request == request && before.world == world && before.phase == ConsumingBudget
      requires before.status == sm.state && before.stepRecords == stepRecords && before.evidenceIds == evidenceIds
      modifies budget, sm
      ensures Finish(digest, old(SharedState()), before) == Finish(digest, SharedState(), p)
      ensures p.request == request && p.holding == before.holding && p.phase == Leaving(outcome)
    {
      var ok: bool;
      ok, p := ConsumeBudget(request, stepRecords, before);
      if !ok {
        return Errored(ConsumeFailed), p;
      }
      var record := BuildRecord(request, stepRecords, evidenceIds, before);
      ok := sm.Transit(Verifying);
      if !ok {
        return Errored(IllegalTransition), p;
      }
      assert p.phase == Validating(record);
      ghost var shared := SharedState();
      FinishSettled(digest, shared, p, record);
      outcome, p := Verify(request, world, sm, record, p);
      assert SharedState() == shared;
    }

    method ConsumeBudget(request: Request, stepRecords: seq<StepRecord>, ghost before: Process)
      returns (ok: bool, ghost p: Process)
      requires before.request == request && before.stepRecords == stepRecords && before.phase == ConsumingBudget
      modifies budget
      ensures Finish(digest, old(SharedState()), before) == Finish(digest, SharedState(), p)
      ensures p.request == before.request && p.world == before.world && p.holding == before.holding
      ensures !ok ==> p.phase == Leaving(Errored(ConsumeFailed))
      ensures ok && CanTransition(before.status, Verifying) ==>
        p.phase == Validating(CompletedRecord(digest, before)) && p.status == Verifying
      ensures ok && !CanTransition(before.status, Verifying) ==> p.phase == Leaving(Errored(IllegalTransition))
    {
      FinishConsume(digest, SharedState(), before);
      var reply := budget.Consume(AccountId(request), AsU64(CostOf(stepRecords)));
      p := Consume(digest, old(SharedState()), before).1;
      ok := reply == BudgetLedger.Done;
    }

    method BuildRecord(request: Request, stepRecords: seq<StepRecord>, evidenceIds: seq<string>, ghost p: Process)
      returns (record: ExecutionRecord)
      requires p.request == request && p.stepRecords == stepRecords && p.evidenceIds == evidenceIds
      ensures record == CompletedRecord(digest, p)
    {
      var material := BuildMaterial(request.closure, request.supply, digest);
      var chainDigest := OutputChainDigestFromStepRecords(stepRecords, digest);
      var finalOutput := if stepRecords == [] then None else Some("output_digest:" + Last(stepRecords).outputDigest);
      record := ExecutionRecord(request.executionId, "Completed", finalOutput, stepRecords, evidenceIds,
                                Fingerprint(material, chainDigest, digest), material, None,
                                AccountId(request), StreamId(request));
    }

    method Verify(request: Request, world: World, sm: Machine, record: ExecutionRecord, ghost before: Process)
      returns (outcome: Outcome, ghost p: Process)
      requires before.request == request && before.world == world && before.phase == Validating(record)
      requires before.status == sm.state
      modifies sm
      ensures p == Settled(before, record) && p.phase == Leaving(outcome)
      ensures old(sm.state) == Verifying && (request.validateOutput ==> world.outputValid) && world.learningAllowed ==>
        outcome == Returned(record) && sm.state == Completed
      ensures old(sm.state) == Verifying &&
              ((request.validateOutput && !world.outputValid) || !world.learningAllowed) ==>
        if world.recovered then
          && sm.state == RolledBack
          && outcome == Returned(record.(finalStatus := "RolledBack", mismatch := Some(world.failureText)))
        else outcome == Errored(RecoveryFailed) && sm.state == Failed
    {
      p := Validate(before, record);
      var ok: bool;
      if (request.validateOutput && !world.outputValid) || !world.learningAllowed {
        ok := sm.Transit(Failed);
        if !ok {
          return Errored(IllegalTransition), p;
        }
        var rolled := record.(finalStatus := "RolledBack", mismatch := Some(world.failureText));
        outcome, p := RollBack(request, world, sm, rolled, p);
        return;
      }
      ok := sm.Transit(Completed);
      outcome := if ok then Returned(record) else Errored(IllegalTransition);
    }

    /** Recovery comes first; only then does the execution count as rolled back. */
    method RollBack(request: Request, world: World, sm: Machine, record: ExecutionRecord, ghost before: Process)
      returns (outcome: Outcome, ghost p: Process)
      requires before.request == request && before.world == world && before.phase == Recovering(record)
      requires before.status == sm.state
      modifies sm
      ensures p == Recover(before, record) && p.phase == Leaving(outcome)
      ensures !world.recovered ==> outcome == Errored(RecoveryFailed) && sm.state == old(sm.state)
      ensures world.recovered && old(sm.state) == Failed ==> outcome == Returned(record) && sm.state == RolledBack
    {
      p := Recover(before, record);
      if !world.recovered {
        return Errored(RecoveryFailed), p;
      }
      var ok := sm.Transit(RolledBack);
      outcome := if ok then Returned(record) else Errored(IllegalTransition);
    }

    /** The part of `execute` that runs while the resource reservation is held. */
    method ExecuteReserved(request: Request, world: World, sm: Machine, ghost before: Process)
      returns (outcome: Outcome, ghost p: Process)
      requires before.request == request && before.world == world && before.phase == ReservingBudget
      requires before.status == sm.state && before.prevHash == GENESIS &&
               before.stepRecords == [] && before.evidenceIds == []
      modifies evidence, budget, sm
      ensures Finish(digest, old(SharedState()), before) == Finish(digest, SharedState(), p)
      ensures p.request == request && p.holding == before.holding && p.phase == Leaving(outcome)
    {
      p := before;
      FinishStep(digest, SharedState(), p);
      ghost var (shared, q) := ReserveBudget(SharedState(), p);
      if !world.budgetReachable {
        var reason := Refuse(sm, BudgetRejected, p);
        return Errored(reason), q;
      }
      budget.Reserve(AccountId(request), request.tenantId, |request.steps|);
      p := q;
      assert SharedState() == shared;
      var ok := sm.Transit(Executing);
      if !ok {
        return Errored(IllegalTransition), p;
      }
      outcome, p := RunAndRecord(request, world, sm, p);
    }

    method RunAndRecord(request: Request, world: World, sm: Machine, ghost before: Process)
      returns (outcome: Outcome, ghost p: Process)
      requires before.request == request && before.world == world && before.phase == RunningPlan
      requires before.status == sm.state && before.prevHash == GENESIS &&
               before.stepRecords == [] && before.evidenceIds == []
      modifies evidence, budget, sm
      ensures Finish(digest, old(SharedState()), before) == Finish(digest, SharedState(), p)
      ensures p.request == request && p.holding == before.holding && p.phase == Leaving(outcome)
    {
      p := before;
      var ok: bool;
      ghost var q := RunPlan(p);
      FinishPlan(digest, SharedState(), p);
      var run := Scheduler.RunPlan(request.steps, world.calls);
      if run.Failed? {
        ok := sm.Transit(Failed);
        if !ok {
          return Errored(IllegalTransition), q;
        }
        var record := ExecutionRecord(request.executionId, "RolledBack", Some(world.failureText),
                                      [], [], "", EMPTY_MATERIAL,
                                      None, AccountId(request), StreamId(request));
        FinishRecover(digest, SharedState(), q, record);
        outcome, p := RollBack(request, world, sm, record, q);
        return;
      }
      ok := sm.Transit(RecordingEvidence);
      if !ok {
        return Errored(IllegalTransition), q;
      }
      outcome, p := RecordAndConclude(request, world, sm, run.outputs, q);
    }

    method RecordAndConclude(request: Request, world: World, sm: Machine, outputs: seq<Scheduler.Output>,
                             ghost before: Process)
      returns (outcome: Outcome, ghost p: Process)
      requires before.request == request && before.world == world && before.outputs == outputs
      requires before.phase == RecordingContext && before.prevHash == GENESIS && before.status == sm.state
      requires before.stepRecords == [] && before.evidenceIds == []
      modifies evidence, budget, sm
      ensures Finish(digest, old(SharedState()), before) == Finish(digest, SharedState(), p)
      ensures p.request == request && p.holding == before.holding && p.phase == Leaving(outcome)
    {
      var found, stepRecords, evidenceIds;
      found, stepRecords, evidenceIds, p := RecordEvidence(request, world, outputs, before);
      if !found {
        return Errored(StepNotFound), p;
      }
      outcome, p := Conclude(request, world, sm, stepRecords, evidenceIds, p);
    }

    /**
     One execution on its own does what its process does when no other is scheduled, and what it
     returns is explained by the answers it got.
     */
    method Execute(request: Request, world: World) returns (outcome: Outcome)
      modifies evidence, budget, governor
      ensures (SharedState(), outcome) == RunAlone(digest, old(SharedState()), request, world)
      ensures KernelVerdicts.OutcomeTells(outcome, request, world)
      ensures KernelRecords.OutcomeRecorded(digest, request, world, outcome)
    {
      AloneIsExplained(digest, SharedState(), request, world);
      AloneIsRecorded(digest, SharedState(), request, world);
      var sm := new Machine();
      var refusal; ghost var p;
      refusal, p := PassGates(request, world, sm, SharedState());
      if refusal.Some? {
        FinishLeaving(digest, SharedState(), p);
        return Errored(refusal.value);
      }
      outcome, p := ExecuteAdmitted(request, world, sm, p);
    }

    /** Takes the resources, executes, and gives them back whatever the outcome. */
    method ExecuteAdmitted(request: Request, world: World, sm: Machine, ghost before: Process)
      returns (outcome: Outcome, ghost p: Process)
      requires before.phase == TakingResources && before.status == sm.state && SameBooks(Start(request, world), before)
      modifies evidence, budget, governor, sm
      ensures Finish(digest, old(SharedState()), before) == (SharedState(), p) && p.phase == Done(outcome)
    {
      FinishStep(digest, SharedState(), before);
      var requirement := FromConstraints(request.constraints);
      ghost var (shared, q) := TakeResources(SharedState(), before);
      var granted := governor.Reserve(requirement);
      assert SharedState() == shared;
      if !granted {
        var reason := Refuse(sm, ResourceRejected, before);
        FinishLeaving(digest, SharedState(), q);
        return Errored(reason), Leave(shared, q, Errored(reason)).1;
      }
      outcome, p := ExecuteReserved(request, world, sm, q);
      FinishLeaving(digest, SharedState(), p);
      shared, p := Leave(SharedState(), p, outcome).0, Leave(SharedState(), p, outcome).1;
      governor.Release(requirement);
      assert SharedState() == shared;
    }

    /** Rebuilds the fingerprint of a record from the ledger. */
    method CheckReplay(record: ExecutionRecord) returns (reply: ReplayReply)
      ensures reply == ReplayCheck(digest, evidence.records, record)
    {
      var events := evidence.ByExecution(record.executionId);
      if events == [] {
        return NoEvidence;
      }
      var chainDigest := OutputChainDigestFromEvidence(events, digest);
      var replay := Fingerprint(record.material, chainDigest, digest);
      reply := if replay == record.fingerprint then Matches(replay) else Mismatch;
    }
  }

  // ---------------------------------------------------------------- a lone run is an interleaving

  lemma {:induction false} RunAppend(digest: Digest, s: State, first: seq<nat>, second: seq<nat>)
    ensures Run(digest, s, first + second) == Run(digest, Run(digest, s, first), second)
  {
    if second == [] {
      assert first + second == first;
    } else {
      RunAppend(digest, s, first, second[..|second| - 1]);
      assert (first + second)[..|first + second| - 1] == first + second[..|second| - 1];
    }
  }

  lemma {:induction false} AloneIsASchedule(digest: Digest, s: State, pid: nat) returns (schedule: seq<nat>)
    requires pid < |s.procs|
    ensures var (after, p) := Finish(digest, s.shared, s.procs[pid]);
            Run(digest, s, schedule) == State(after, s.procs[pid := p])
    decreases PhaseRank(s.procs[pid].phase), Remaining(s.procs[pid])
  {
    if s.procs[pid].phase.Done? {
      assert s.procs[pid := s.procs[pid]] == s.procs;
      schedule := [];
    } else {
      StepAdvances(digest, s.shared, s.procs[pid]);
      var t := Next(digest, s, pid);
      var rest := AloneIsASchedule(digest, t, pid);
      RunAppend(digest, s, [pid], rest);
      assert Run(digest, s, [pid][..0]) == s;
      var (after, p) := Finish(digest, t.shared, t.procs[pid]);
      assert t.procs[pid := p] == s.procs[pid := p];
      schedule := [pid] + rest;
    }
  }
}
