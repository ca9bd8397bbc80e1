/**
 Why an execution ended as it did: what its outcome says about the answers it got, in every
 interleaving. Each refusal names the first gate that was not passed; a record says whether the
 plan ran, and whether what it produced was verified.
 */
module KernelVerdicts {
  import Hardening
  import opened Ir
  import opened Kernel
  import opened KernelSafety
  import opened Replay
  import Scheduler
  import opened Sequences
  import opened Spelling
  import opened StateMachine

  // ---------------------------------------------------------------- what an outcome means

  ghost predicate PlanRuns(r: Request, w: World) {
    Scheduler.PlanResult(r.steps, w.calls).Ran?
  }

  /** The validator, where it was asked for, and the learning gate have let the outputs through. */
  predicate Verified(r: Request, w: World) {
    (r.validateOutput ==> w.outputValid) && w.learningAllowed
  }

  /** The execution got past all gates and could reserve its budget. */
  ghost predicate LetIn(r: Request, w: World) {
    GatesPassed(r, w) && w.budgetReachable
  }

  /** Everything before the gates of step i is passed. */
  ghost predicate PassedUpTo(r: Request, w: World, i: nat) {
    i < |r.steps| && AdmissionPassed(r, w) && AttestationPassed(r, w) && StepsPassed(r, w, i)
  }

  predicate TenantRefuses(r: Request, w: World, i: nat)
    requires i < |r.steps|
  {
    r.steps[i].capabilityRef.Some? && !w.tenantAllows(i)
  }

  predicate InKernelPath(r: Request) {
    r.operation != "replay_only" && r.operation != "audit_only"
  }

  /** What must have been the case for an execution to end with this error. */
  ghost predicate Explains(reason: Reason, r: Request, w: World) {
    match reason
    case OutsideKernelPath => !InKernelPath(r)
    case IdentityRejected => InKernelPath(r) && !w.identityOk
    case SupplyChainRejected => InKernelPath(r) && w.identityOk && !w.supplyChainOk
    case RolloutRejected => InKernelPath(r) && w.identityOk && w.supplyChainOk && !w.rolloutOk
    case AttestationRejected => AdmissionPassed(r, w) && r.verifyEnvironment && HardTrust(r) && !w.attestationOk
    case TenantRejected => exists i: nat :: PassedUpTo(r, w, i) && TenantRefuses(r, w, i)
    case HardeningRejected =>
      exists i: nat :: PassedUpTo(r, w, i) && !TenantRefuses(r, w, i) && !HardeningPasses(r, w, i)
    case ResourceRejected => GatesPassed(r, w)
    case BudgetRejected => GatesPassed(r, w) && !w.budgetReachable
    case ConsumeFailed => LetIn(r, w) && PlanRuns(r, w)
    case RecoveryFailed => LetIn(r, w) && !w.recovered && !(PlanRuns(r, w) && Verified(r, w))
    case IllegalTransition => false
    case StepNotFound => false
  }

  /** The record says what became of the execution, and why where its outputs were not let through. */
  ghost predicate RecordTells(record: ExecutionRecord, r: Request, w: World) {
    if PlanRuns(r, w) && Verified(r, w) then record.finalStatus == "Completed" && record.mismatch == None
    else
      && record.finalStatus == "RolledBack"
      && record.mismatch == (if PlanRuns(r, w) then Some(w.failureText) else None)
      && (!PlanRuns(r, w) ==> NamesFailedPlan(record, r, w))
  }

  /** The record of an execution whose plan failed has the failure for its output, and nothing to replay. */
  predicate NamesFailedPlan(record: ExecutionRecord, r: Request, w: World) {
    && record.executionId == r.executionId && record.finalOutput == Some(w.failureText)
    && record.stepRecords == [] && record.evidenceIds == [] && record.fingerprint == ""
    && record.budgetAccountId == "budget:" + r.tenantId && record.evidenceStreamId == "evidence:" + r.executionId
  }

  ghost predicate OutcomeTells(outcome: Outcome, r: Request, w: World) {
    match outcome
    case Errored(reason) => Explains(reason, r, w)
    case Returned(record) =>
      && LetIn(r, w) && RecordTells(record, r, w)
      && (!(PlanRuns(r, w) && Verified(r, w)) ==> w.recovered)
  }

  /** An execution has completed exactly when its plan ran and its outputs were verified, and returned its record. */
  ghost predicate StatusTells(outcome: Outcome, status: Status, r: Request, w: World) {
    && (status == Completed <==> outcome.Returned? && PlanRuns(r, w) && Verified(r, w))
    && (status == RolledBack <==> outcome.Returned? && !(PlanRuns(r, w) && Verified(r, w)))
  }

  // ---------------------------------------------------------------- on the way

  /** What each point of `execute` says about the answers so far. */
  ghost predicate TellsAt(phase: Phase, status: Status, r: Request, w: World) {
    match phase
    case RunningPlan => LetIn(r, w)
    case RecordingContext => LetIn(r, w) && PlanRuns(r, w)
    case RecordingStep(_) => LetIn(r, w) && PlanRuns(r, w)
    case ConsumingBudget => LetIn(r, w) && PlanRuns(r, w)
    case Validating(record) =>
      LetIn(r, w) && PlanRuns(r, w) && record.finalStatus == "Completed" && record.mismatch == None
    case Recovering(record) => LetIn(r, w) && !(PlanRuns(r, w) && Verified(r, w)) && RecordTells(record, r, w)
    case Leaving(outcome) => OutcomeTells(outcome, r, w) && StatusTells(outcome, status, r, w)
    case Done(outcome) => OutcomeTells(outcome, r, w) && StatusTells(outcome, status, r, w)
    case _ => true
  }

  ghost predicate Tells(p: Process) {
    TellsAt(p.phase, p.status, p.request, p.world)
  }

  lemma MoveTells(p: Process, next: Status, phase: Phase)
    requires CanTransition(p.status, next) && TellsAt(phase, next, p.request, p.world)
    ensures Tells(Move(p, next, phase))
  {
  }

  lemma ErrorTells(reason: Reason, status: Status, r: Request, w: World)
    requires Explains(reason, r, w) && status != Completed && status != RolledBack
    ensures TellsAt(Leaving(Errored(reason)), status, r, w)
  {
  }

  lemma RefusalTells(p: Process, reason: Reason)
    requires CanTransition(p.status, Rejected) && Explains(reason, p.request, p.world)
    ensures Tells(Reject(p, reason))
  {
    ErrorTells(reason, Rejected, p.request, p.world);
    MoveTells(p, Rejected, Leaving(Errored(reason)));
  }

  lemma AdmitTells(p: Process)
    requires Sound(p) && p.phase == Admission
    ensures Tells(Admit(p))
  {
    var r, w := p.request, p.world;
    if !InKernelPath(r) {
      RefusalTells(p, OutsideKernelPath);
    } else if !w.identityOk {
      RefusalTells(p, IdentityRejected);
    } else if !w.supplyChainOk {
      RefusalTells(p, SupplyChainRejected);
    } else if !w.rolloutOk {
      RefusalTells(p, RolloutRejected);
    }
  }

  lemma AttestTells(p: Process)
    requires Sound(p) && p.phase == Attesting
    ensures Tells(Attest(p))
  {
    if !AttestationPassed(p.request, p.world) {
      RefusalTells(p, AttestationRejected);
    }
  }

  lemma GateTells(p: Process, i: nat)
    requires Sound(p) && p.phase == GatingStep(i)
    ensures Tells(GateStep(p, i))
  {
    if i < |p.request.steps| {
      assert PassedUpTo(p.request, p.world, i);
      if TenantRefuses(p.request, p.world, i) {
        RefusalTells(p, TenantRejected);
      } else if !HardeningPasses(p.request, p.world, i) {
        RefusalTells(p, HardeningRejected);
      }
    }
  }

  lemma TakingTells(sh: Shared, p: Process)
    requires Sound(p) && p.phase == TakingResources
    ensures Tells(TakeResources(sh, p).1)
  {
    RefusalTells(p, ResourceRejected);
  }

  lemma ReservingTells(sh: Shared, p: Process)
    requires Sound(p) && p.phase == ReservingBudget
    ensures Tells(ReserveBudget(sh, p).1)
  {
    if !p.world.budgetReachable {
      RefusalTells(p, BudgetRejected);
    }
  }

  lemma PlanTells(p: Process)
    requires Sound(p) && p.phase == RunningPlan && Tells(p)
    ensures Tells(RunPlan(p))
  {
    var q := Log(p, RanCapabilities(p.status));
    if PlanRuns(p.request, p.world) {
      var outputs := Scheduler.PlanResult(p.request.steps, p.world.calls).outputs;
      MoveTells(Log(p.(outputs := outputs), RanCapabilities(p.status)), RecordingEvidence, RecordingContext);
    } else {
      MoveTells(q, Failed, Recovering(FailedRecord(p)));
    }
  }

  lemma RecordingTells(digest: Digest, sh: Shared, p: Process, i: nat)
    requires Sound(p) && p.phase == RecordingStep(i) && Tells(p)
    ensures Tells(RecordStep(digest, sh, p, i).1)
  {
    if i < |p.outputs| {
      Scheduler.PlanOutputsAreSteps(p.request.steps, p.world.calls, i);
    }
  }

  lemma ConsumptionTells(digest: Digest, sh: Shared, p: Process)
    requires Sound(p) && p.phase == ConsumingBudget && Tells(p)
    ensures Tells(Consume(digest, sh, p).1)
  {
    ErrorTells(ConsumeFailed, p.status, p.request, p.world);
    ConsumedTells(p, CompletedRecord(digest, p));
    ConsumeWays(digest, sh, p);
  }

  lemma ConsumeWays(digest: Digest, sh: Shared, p: Process)
    ensures var q, record := Consume(digest, sh, p).1, CompletedRecord(digest, p);
            || q == p.(phase := Leaving(Errored(ConsumeFailed)))
            || q == Move(Log(p.(consumed := true), ConsumedBudget(p.status)), Verifying, Validating(record))
  {
  }

  lemma ConsumedTells(p: Process, record: ExecutionRecord)
    requires Sound(p) && p.phase == ConsumingBudget && Tells(p)
    requires record.finalStatus == "Completed" && record.mismatch == None
    ensures Tells(Move(Log(p.(consumed := true), ConsumedBudget(p.status)), Verifying, Validating(record)))
  {
    MoveTells(Log(p.(consumed := true), ConsumedBudget(p.status)), Verifying, Validating(record));
  }

  lemma ValidationTells(p: Process, record: ExecutionRecord)
    requires Sound(p) && p.phase == Validating(record) && Tells(p)
    ensures Tells(Validate(p, record))
  {
    if Verified(p.request, p.world) {
      MoveTells(p, Completed, Leaving(Returned(record)));
    } else {
      var rolled := record.(finalStatus := "RolledBack", mismatch := Some(p.world.failureText));
      MoveTells(p, Failed, Recovering(rolled));
    }
  }

  lemma RecoveryTells(p: Process, record: ExecutionRecord)
    requires Sound(p) && p.phase == Recovering(record) && Tells(p)
    ensures Tells(Recover(p, record))
  {
    if p.world.recovered {
      MoveTells(p, RolledBack, Leaving(Returned(record)));
    } else {
      ErrorTells(RecoveryFailed, p.status, p.request, p.world);
    }
  }

  lemma LeavingTells(sh: Shared, p: Process, outcome: Outcome)
    requires p.phase == Leaving(outcome) && Tells(p)
    ensures Tells(Leave(sh, p, outcome).1)
  {
  }

  lemma GatingTells(digest: Digest, sh: Shared, p: Process)
    requires Sound(p) && p.status in {PendingAdmission, Admitted, Enforcing}
    ensures Tells(Step(digest, sh, p).1)
  {
    match p.phase
    case Admission => AdmitTells(p);
    case EnteringEnforcement => MoveTells(p, Enforcing, Attesting);
    case Attesting => AttestTells(p);
    case GatingStep(i) => GateTells(p, i);
    case TakingResources => TakingTells(sh, p);
    case ReservingBudget => ReservingTells(sh, p);
  }

  lemma ContextTells(digest: Digest, sh: Shared, p: Process)
    requires p.phase == RecordingContext && Tells(p)
    ensures Tells(RecordContext(digest, sh, p).1)
  {
  }

  lemma WorkingTells(digest: Digest, sh: Shared, p: Process)
    requires Sound(p) && Tells(p)
    requires p.phase.RunningPlan? || p.phase.RecordingContext? || p.phase.RecordingStep? || p.phase.ConsumingBudget?
    ensures Tells(Step(digest, sh, p).1)
  {
    match p.phase
    case RunningPlan => PlanTells(p);
    case RecordingContext => ContextTells(digest, sh, p);
    case RecordingStep(i) => RecordingTells(digest, sh, p, i);
    case ConsumingBudget => ConsumptionTells(digest, sh, p);
  }

  lemma EndingTells(digest: Digest, sh: Shared, p: Process)
    requires Sound(p) && Tells(p)
    requires p.phase.Validating? || p.phase.Recovering? || p.phase.Leaving? || p.phase.Done?
    ensures Tells(Step(digest, sh, p).1)
  {
    match p.phase
    case Validating(record) => ValidationTells(p, record);
    case Recovering(record) => RecoveryTells(p, record);
    case Leaving(outcome) => LeavingTells(sh, p, outcome);
    case Done(_) =>
  }

  lemma StepTells(digest: Digest, sh: Shared, p: Process)
    requires Sound(p) && Tells(p)
    ensures Tells(Step(digest, sh, p).1)
  {
    if p.status == Executing || p.status == RecordingEvidence {
      if p.phase.Leaving? || p.phase.Done? {
        EndingTells(digest, sh, p);
      } else {
        WorkingTells(digest, sh, p);
      }
    } else if p.phase.Validating? || p.phase.Recovering? || p.phase.Leaving? || p.phase.Done? {
      EndingTells(digest, sh, p);
    } else {
      GatingTells(digest, sh, p);
    }
  }

  // ---------------------------------------------------------------- all interleavings

  lemma {:induction false} RunTells(digest: Digest, s: State, schedule: seq<nat>, i: nat)
    requires Started(s) && i < |s.procs|
    ensures Tells(Run(digest, s, schedule).procs[i])
  {
    if schedule != [] {
      var before := schedule[..|schedule| - 1];
      RunTells(digest, s, before, i);
      RunSound(digest, s, before, i);
      StepTells(digest, Run(digest, s, before).shared, Run(digest, s, before).procs[i]);
    }
  }

  /** In every interleaving, what an execution returns, and the state it ends in, is explained by the answers it got. */
  lemma OutcomesAreExplained(digest: Digest, s: State, schedule: seq<nat>, i: nat)
    requires Started(s) && i < |s.procs| && Run(digest, s, schedule).procs[i].phase.Done?
    ensures var p := Run(digest, s, schedule).procs[i];
            && OutcomeTells(p.phase.outcome, p.request, p.world)
            && StatusTells(p.phase.outcome, p.status, p.request, p.world)
  {
    RunTells(digest, s, schedule, i);
  }

  /**
   In every interleaving, once a record has been returned: an execution whose plan ran is completed
   exactly when the validator, where it was asked for, and the learning gate let its outputs
   through; its record says so; and the record carries an explanation exactly when they did not.
   */
  lemma CompletedIffVerified(digest: Digest, s: State, schedule: seq<nat>, i: nat)
    requires Started(s) && i < |s.procs|
    requires var p := Run(digest, s, schedule).procs[i]; p.phase.Done? && p.phase.outcome.Returned?
    ensures var p := Run(digest, s, schedule).procs[i];
            var record, r, w := p.phase.outcome.record, p.request, p.world;
            && (p.status == Completed <==>
                  PlanRuns(r, w) && (r.validateOutput ==> w.outputValid) && w.learningAllowed)
            && (record.finalStatus == "Completed" <==> p.status == Completed)
            && (record.finalStatus == "RolledBack" <==> p.status == RolledBack)
            && (record.mismatch.Some? <==> PlanRuns(r, w) && p.status == RolledBack)
            && (record.mismatch.Some? ==> record.mismatch == Some(w.failureText))
  {
    OutcomesAreExplained(digest, s, schedule, i);
    assert |"Completed"| != |"RolledBack"|;
  }

  /** The trust level is hard in capitals or small letters. */
  lemma HardTrustIff(r: Request)
    ensures HardTrust(r) <==> SameLetters(r.trustLevel, "hard")
  {
    LowerIsWord(r.trustLevel, "hard");
  }

  /** Behind the gates every step has its tenant's consent, and is trusted or carries every safeguard. */
  lemma GatesGuardSteps(r: Request, w: World, j: nat)
    requires GatesPassed(r, w) && j < |r.steps|
    ensures r.steps[j].capabilityRef.Some? ==> w.tenantAllows(j)
    ensures || Hardening.RunsOn(r.steps[j], Trusted)
            || Hardening.Guarded(r.steps[j], r.constraints, name => w.backendAvailable(j, name))
  {
    assert TenantPasses(r, w, j) && HardeningPasses(r, w, j);
    Hardening.AcceptedIff(r.steps[j], r.constraints, name => w.backendAvailable(j, name));
  }
}
