/** What every execution keeps to, in every interleaving and for every answer it gets. */
module KernelSafety {
  import opened EvidenceLedger
  import opened Ir
  import opened Kernel
  import opened Replay
  import Scheduler
  import opened Sequences
  import opened StateMachine

  // ---------------------------------------------------------------- gates

  predicate AdmissionPassed(r: Request, w: World) {
    && r.operation != "replay_only" && r.operation != "audit_only"
    && w.identityOk && w.supplyChainOk && w.rolloutOk
  }

  predicate AttestationPassed(r: Request, w: World) {
    r.verifyEnvironment && HardTrust(r) ==> w.attestationOk
  }

  ghost predicate StepsPassed(r: Request, w: World, n: nat) {
    forall j :: 0 <= j < n && j < |r.steps| ==> TenantPasses(r, w, j) && HardeningPasses(r, w, j)
  }

  ghost predicate GatesPassed(r: Request, w: World) {
    AdmissionPassed(r, w) && AttestationPassed(r, w) && StepsPassed(r, w, |r.steps|)
  }

  // ---------------------------------------------------------------- traces

  /** The states visited, read off the moves. */
  function Visited(events: seq<Event>): (r: seq<Status>)
    ensures r != []
  {
    if events == [] then [PendingAdmission]
    else Visited(events[..|events| - 1]) + if Last(events).Moved? then [Last(events).to] else []
  }

  predicate InPlace(e: Event) {
    match e
    case Moved(from, to) => CanTransition(from, to)
    case RanCapabilities(status) => status == Executing && AllowsSideEffect(status)
    case AppendedEvidence(status) => status == RecordingEvidence && AllowsLedgerWrite(status)
    case ConsumedBudget(status) => status == RecordingEvidence
  }

  /** The state an event was logged in. */
  function At(e: Event): Status {
    match e
    case Moved(from, _) => from
    case RanCapabilities(status) => status
    case AppendedEvidence(status) => status
    case ConsumedBudget(status) => status
  }

  /** Every event was allowed in the very state it happened in; the last one led to `status`. */
  ghost predicate LegalTrace(events: seq<Event>, status: Status) {
    if events == [] then status == PendingAdmission
    else
      var e := Last(events);
      && InPlace(e) && status == (if e.Moved? then e.to else At(e))
      && LegalTrace(events[..|events| - 1], At(e))
  }

  lemma TraceSnoc(events: seq<Event>, status: Status, e: Event)
    requires LegalTrace(events, status) && InPlace(e) && At(e) == status
    ensures LegalTrace(events + [e], if e.Moved? then e.to else status)
  {
    assert (events + [e])[..|events|] == events;
  }

  lemma {:induction false} LegalTraceIsRun(events: seq<Event>, status: Status)
    requires LegalTrace(events, status)
    ensures IsRun(Visited(events)) && Last(Visited(events)) == status
  {
    if events != [] {
      LegalTraceIsRun(events[..|events| - 1], At(Last(events)));
    }
  }

  lemma {:induction false} EventsWereAllowed(events: seq<Event>, status: Status, i: nat)
    requires LegalTrace(events, status) && i < |events|
    ensures InPlace(events[i]) && At(events[i]) in Visited(events)
  {
    var front := events[..|events| - 1];
    if i < |front| {
      EventsWereAllowed(front, At(Last(events)), i);
    } else {
      LegalTraceIsRun(front, At(Last(events)));
    }
  }

  // ---------------------------------------------------------------- phases

  predicate IsRejection(reason: Reason) {
    match reason
    case IllegalTransition => false
    case StepNotFound => false
    case ConsumeFailed => false
    case RecoveryFailed => false
    case _ => true
  }

  ghost predicate OutcomeFits(outcome: Outcome, status: Status, gates: bool) {
    match outcome
    case Returned(_) => (status == Completed || status == RolledBack) && gates
    case Errored(reason) =>
      || (IsRejection(reason) && status == Rejected)
      || (reason == ConsumeFailed && status == RecordingEvidence && gates)
      || (reason == RecoveryFailed && status == Failed && gates)
  }

  /** The state the state machine is in at each point of `execute`. */
  ghost predicate StatusFits(phase: Phase, status: Status, gates: bool) {
    match phase
    case Admission => status == PendingAdmission
    case EnteringEnforcement => status == Admitted
    case Attesting => status == Enforcing
    case GatingStep(i) => status == Enforcing
    case TakingResources => status == Enforcing && gates
    case ReservingBudget => status == Enforcing && gates
    case RunningPlan => status == Executing && gates
    case RecordingContext => status == RecordingEvidence && gates
    case RecordingStep(_) => status == RecordingEvidence && gates
    case ConsumingBudget => status == RecordingEvidence && gates
    case Validating(_) => status == Verifying && gates
    case Recovering(_) => status == Failed && gates
    case Leaving(outcome) => OutcomeFits(outcome, status, gates)
    case Done(outcome) => OutcomeFits(outcome, status, gates)
  }

  /** The gates passed on the way to the last of them. */
  ghost predicate GatesFit(phase: Phase, r: Request, w: World) {
    && (phase.EnteringEnforcement? || phase.Attesting? || phase.GatingStep? ==> AdmissionPassed(r, w))
    && (phase.GatingStep? ==> AttestationPassed(r, w) && StepsPassed(r, w, phase.i))
  }

  ghost predicate PlanRan(p: Process) {
    p.phase.RecordingContext? || p.phase.RecordingStep? || p.phase.ConsumingBudget? ==>
      Scheduler.PlanResult(p.request.steps, p.world.calls) == Scheduler.Ran(p.outputs)
  }

  /** Evidence and consumption leave their mark in the trace. */
  ghost predicate Traced(p: Process) {
    && LegalTrace(p.events, p.status)
    && (p.chain != [] ==> AppendedEvidence(RecordingEvidence) in p.events)
    && (p.consumed ==> ConsumedBudget(RecordingEvidence) in p.events)
  }

  ghost predicate Sound(p: Process) {
    && StatusFits(p.phase, p.status, GatesPassed(p.request, p.world)) && GatesFit(p.phase, p.request, p.world)
    && PlanRan(p) && Traced(p)
  }

  lemma MoveTraced(p: Process, next: Status, phase: Phase)
    requires Traced(p) && CanTransition(p.status, next)
    ensures Traced(Move(p, next, phase))
  {
    TraceSnoc(p.events, p.status, Moved(p.status, next));
  }

  lemma LogTraced(p: Process, e: Event)
    requires Traced(p) && !e.Moved? && InPlace(e) && At(e) == p.status
    ensures Traced(Log(p, e))
  {
    TraceSnoc(p.events, p.status, e);
  }

  lemma MoveSound(p: Process, next: Status, phase: Phase)
    requires Traced(p) && CanTransition(p.status, next)
    requires StatusFits(phase, next, GatesPassed(p.request, p.world)) && GatesFit(phase, p.request, p.world)
    requires PlanRan(p.(phase := phase))
    ensures Sound(Move(p, next, phase))
  {
    MoveTraced(p, next, phase);
  }

  lemma RejectSound(p: Process, reason: Reason)
    requires Traced(p) && CanTransition(p.status, Rejected) && IsRejection(reason)
    ensures Sound(Reject(p, reason))
  {
    MoveSound(p, Rejected, Leaving(Errored(reason)));
  }

  lemma AdmitSound(p: Process)
    requires Sound(p) && p.phase.Admission?
    ensures Sound(Admit(p))
  {
    RejectSound(p, OutsideKernelPath);
    RejectSound(p, IdentityRejected);
    RejectSound(p, SupplyChainRejected);
    RejectSound(p, RolloutRejected);
    if AdmissionPassed(p.request, p.world) {
      MoveSound(p, Admitted, EnteringEnforcement);
    }
  }

  lemma AttestSound(p: Process)
    requires Sound(p) && p.phase.Attesting?
    ensures Sound(Attest(p))
  {
    RejectSound(p, AttestationRejected);
  }

  lemma GateStepSound(p: Process)
    requires Sound(p) && p.phase.GatingStep?
    ensures Sound(GateStep(p, p.phase.i))
  {
    var i := p.phase.i;
    if i < |p.request.steps| {
      if !TenantPasses(p.request, p.world, i) {
        RejectSound(p, TenantRejected);
      } else if !HardeningPasses(p.request, p.world, i) {
        RejectSound(p, HardeningRejected);
      } else {
        OneMorePassed(p.request, p.world, i);
      }
    }
  }

  lemma OneMorePassed(r: Request, w: World, i: nat)
    requires i < |r.steps| && StepsPassed(r, w, i) && TenantPasses(r, w, i) && HardeningPasses(r, w, i)
    ensures StepsPassed(r, w, i + 1)
  {
  }

  lemma TakeResourcesSound(sh: Shared, p: Process)
    requires Sound(p) && p.phase.TakingResources?
    ensures Sound(TakeResources(sh, p).1)
  {
    RejectSound(p, ResourceRejected);
  }

  lemma ReserveBudgetSound(sh: Shared, p: Process)
    requires Sound(p) && p.phase.ReservingBudget?
    ensures Sound(ReserveBudget(sh, p).1)
  {
    RejectSound(p, BudgetRejected);
    MoveSound(p.(reserved := true), Executing, RunningPlan);
  }

  lemma RunPlanSound(p: Process)
    requires Sound(p) && p.phase == RunningPlan
    ensures Sound(RunPlan(p))
  {
    match Scheduler.PlanResult(p.request.steps, p.world.calls)
    case Failed =>
      LogTraced(p, RanCapabilities(p.status));
      MoveSound(Log(p, RanCapabilities(p.status)), Failed, Recovering(FailedRecord(p)));
    case Ran(outputs) =>
      var q := p.(outputs := outputs);
      LogTraced(q, RanCapabilities(p.status));
      MoveSound(Log(q, RanCapabilities(p.status)), RecordingEvidence, RecordingContext);
  }

  lemma ExtendTraced(p: Process, e: EvidenceRecord, prefix: string)
    requires Traced(p) && p.status == RecordingEvidence
    ensures Traced(Extend(p, e, prefix))
  {
    TraceSnoc(p.events, p.status, AppendedEvidence(p.status));
    assert AppendedEvidence(p.status) in Extend(p, e, prefix).events;
  }

  lemma RecordContextSound(digest: Digest, sh: Shared, p: Process)
    requires Sound(p) && p.phase.RecordingContext?
    ensures Sound(RecordContext(digest, sh, p).1)
  {
    ExtendTraced(p, ContextEvidence(digest, p), ContextPrefix(digest, p));
  }

  lemma RecordStepSound(digest: Digest, sh: Shared, p: Process, i: nat)
    requires Sound(p) && p.phase == RecordingStep(i)
    ensures Sound(RecordStep(digest, sh, p, i).1)
  {
    if i < |p.outputs| {
      Scheduler.PlanOutputsAreSteps(p.request.steps, p.world.calls, i);
      var out := p.outputs[i];
      var step := FindStep(p.request.steps, out.stepId).value;
      ExtendTraced(p, StepEvidence(digest, p, out, step, 2 * i + 1), StepPrefix(digest, p, out, step));
    }
  }

  lemma ConsumedTraced(p: Process)
    requires Traced(p) && p.status == RecordingEvidence
    ensures Traced(Log(p.(consumed := true), ConsumedBudget(p.status)))
  {
    var e := ConsumedBudget(p.status);
    TraceSnoc(p.events, p.status, e);
    assert e in p.events + [e];
  }

  lemma ConsumeSound(digest: Digest, sh: Shared, p: Process)
    requires Sound(p) && p.phase == ConsumingBudget
    ensures Sound(Consume(digest, sh, p).1)
  {
    ConsumedSound(p, CompletedRecord(digest, p));
  }

  lemma ConsumedSound(p: Process, record: ExecutionRecord)
    requires Sound(p) && p.phase == ConsumingBudget
    ensures Sound(Move(Log(p.(consumed := true), ConsumedBudget(p.status)), Verifying, Validating(record)))
  {
    ConsumedTraced(p);
    MoveSound(Log(p.(consumed := true), ConsumedBudget(p.status)), Verifying, Validating(record));
  }

  lemma ValidateSound(p: Process)
    requires Sound(p) && p.phase.Validating?
    ensures Sound(Validate(p, p.phase.record))
  {
    var rolled := p.phase.record.(finalStatus := "RolledBack", mismatch := Some(p.world.failureText));
    MoveSound(p, Failed, Recovering(rolled));
    MoveSound(p, Completed, Leaving(Returned(p.phase.record)));
  }

  lemma RecoverSound(p: Process)
    requires Sound(p) && p.phase.Recovering?
    ensures Sound(Recover(p, p.phase.record))
  {
    MoveSound(p, RolledBack, Leaving(Returned(p.phase.record)));
  }

  lemma GatingSound(digest: Digest, sh: Shared, p: Process)
    requires Sound(p) && p.status in {PendingAdmission, Admitted, Enforcing}
    ensures Sound(Step(digest, sh, p).1)
  {
    match p.phase
    case Admission => AdmitSound(p);
    case EnteringEnforcement => MoveSound(p, Enforcing, Attesting);
    case Attesting => AttestSound(p);
    case GatingStep(_) => GateStepSound(p);
    case TakingResources => TakeResourcesSound(sh, p);
    case ReservingBudget => ReserveBudgetSound(sh, p);
  }

  lemma LeavingSound(digest: Digest, sh: Shared, p: Process)
    requires Sound(p) && (p.phase.Leaving? || p.phase.Done?)
    ensures Sound(Step(digest, sh, p).1)
  {
  }

  lemma StepSound(digest: Digest, sh: Shared, p: Process)
    requires Sound(p)
    ensures Sound(Step(digest, sh, p).1)
  {
    match p.phase
    case RunningPlan => RunPlanSound(p);
    case RecordingContext => RecordContextSound(digest, sh, p);
    case RecordingStep(i) => RecordStepSound(digest, sh, p, i);
    case ConsumingBudget => ConsumeSound(digest, sh, p);
    case Validating(_) => ValidateSound(p);
    case Recovering(_) => RecoverSound(p);
    case Leaving(_) => LeavingSound(digest, sh, p);
    case Done(_) => LeavingSound(digest, sh, p);
    case _ => GatingSound(digest, sh, p);
  }

  // ---------------------------------------------------------------- all interleavings

  lemma StartSound(r: Request, w: World)
    ensures Sound(Start(r, w))
  {
    assert Visited([]) == [PendingAdmission];
  }

  lemma {:induction false} RunSound(digest: Digest, s: State, schedule: seq<nat>, i: nat)
    requires Started(s) && i < |s.procs|
    ensures Sound(Run(digest, s, schedule).procs[i])
  {
    if schedule == [] {
      StartSound(s.procs[i].request, s.procs[i].world);
    } else {
      RunSound(digest, s, schedule[..|schedule| - 1], i);
      var t := Run(digest, s, schedule[..|schedule| - 1]);
      StepSound(digest, t.shared, t.procs[i]);
    }
  }

  /** Before it is rejected, an execution has been pending, admitted or enforcing only. */
  lemma RejectedRunIsShort(run: seq<Status>)
    requires IsRun(run) && Last(run) == Rejected
    ensures Executing !in run && RecordingEvidence !in run
  {
    var front := run[..|run| - 1];
    assert run == front + [Rejected];
    assert CanTransition(Last(front), Rejected);
    OnMandatoryPath(front);
  }

  /** A rejected execution ran no capability, appended no evidence and consumed no budget. */
  lemma RejectedLeavesNoTrace(p: Process)
    requires Sound(p) && p.status == Rejected
    ensures p.chain == [] && !p.consumed && forall i :: 0 <= i < |p.events| ==> p.events[i].Moved?
  {
    LegalTraceIsRun(p.events, p.status);
    RejectedRunIsShort(Visited(p.events));
    forall i | 0 <= i < |p.events| ensures p.events[i].Moved? {
      EventsWereAllowed(p.events, p.status, i);
    }
  }

  /**
   The execution has moved legally only, used capabilities, evidence and budget in their own
   states only, left nothing behind when rejected, and returned a record only after every gate
   was passed for every step: as completed, by the one mandatory path, or as rolled back.
   */
  ghost predicate Safe(p: Process) {
    && LegalTrace(p.events, p.status) && IsRun(Visited(p.events)) && Last(Visited(p.events)) == p.status
    && (p.status == Rejected ==>
          p.chain == [] && !p.consumed && forall j :: 0 <= j < |p.events| ==> p.events[j].Moved?)
    && (p.status == Completed ==> Visited(p.events) == MANDATORY_PATH)
    && (p.phase.Done? && p.phase.outcome.Returned? ==>
          GatesPassed(p.request, p.world) && (p.status == Completed || p.status == RolledBack))
    && (p.phase.Done? && p.phase.outcome.Errored? ==>
          p.phase.outcome.reason != IllegalTransition && p.phase.outcome.reason != StepNotFound)
  }

  lemma SoundIsSafe(p: Process)
    requires Sound(p)
    ensures Safe(p)
  {
    LegalTraceIsRun(p.events, p.status);
    assert p.status == Completed ==> Visited(p.events) == MANDATORY_PATH by {
      if p.status == Completed {
        CompletedMeansMandatoryPath(Visited(p.events));
      }
    }
    if p.status == Rejected {
      RejectedLeavesNoTrace(p);
    }
  }

  /** In every interleaving, and whatever answers they get, all executions are safe. */
  lemma ExecutionsAreSafe(digest: Digest, s: State, schedule: seq<nat>, i: nat)
    requires Started(s) && i < |s.procs|
    ensures Safe(Run(digest, s, schedule).procs[i])
  {
    RunSound(digest, s, schedule, i);
    SoundIsSafe(Run(digest, s, schedule).procs[i]);
  }
}
