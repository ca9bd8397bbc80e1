/**
 The trusted execution kernel as a set of processes, one per call of `execute`, that share an
 evidence ledger, a budget ledger and a resource pool. A step of a process does at most one
 operation on the shared state, so that a schedule of steps is an arbitrary interleaving of
 concurrent executions. What lies outside the kernel (authorities, capabilities, validators,
 the clock) answers through an arbitrary `World`.
 */
module Kernel {
  import BudgetLedger
  import opened EvidenceLedger
  import opened Ir
  import opened Numbers
  import opened Replay
  import opened Resource
  import Scheduler
  import opened Sequences
  import opened StateMachine
  import opened Text

  // ---------------------------------------------------------------- requests and answers

  /** A vector holds fewer than 2^63 elements. */
  type Plan = s: seq<ExecutionStep> | |s| < 0x8000_0000_0000_0000

  datatype Request = Request(
    executionId: string, tenantId: string, operation: string, steps: Plan, constraints: ConstraintSet,
    verifyEnvironment: bool, validateOutput: bool, trustLevel: string, closure: Closure, supply: SupplyChain)

  /** The answers one execution gets; the n-th step and the n-th clock reading are numbered. */
  datatype World = World(
    identityOk: bool, supplyChainOk: bool, rolloutOk: bool, attestationOk: bool,
    tenantAllows: nat -> bool, backendAvailable: (nat, string) -> bool, budgetReachable: bool,
    calls: Scheduler.Calls, contextPayload: string, clock: nat -> u128,
    outputValid: bool, learningAllowed: bool, recovered: bool, failureText: string)

  datatype StepRecord = StepRecord(
    stepId: string, capabilityRef: Option<string>, inputDigest: string, outputDigest: string, costUnits: nat,
    timestampMs: u128)

  datatype ExecutionRecord = ExecutionRecord(
    executionId: string, finalStatus: string, finalOutput: Option<string>, stepRecords: seq<StepRecord>,
    evidenceIds: seq<string>, fingerprint: string, material: Material, mismatch: Option<string>,
    budgetAccountId: string, evidenceStreamId: string)

  datatype Reason =
    | OutsideKernelPath | IdentityRejected | SupplyChainRejected | RolloutRejected | AttestationRejected
    | TenantRejected | HardeningRejected | ResourceRejected | BudgetRejected
    | IllegalTransition | StepNotFound | ConsumeFailed | RecoveryFailed

  datatype Outcome = Returned(record: ExecutionRecord) | Errored(reason: Reason)

  // ---------------------------------------------------------------- processes

  datatype Phase =
    | Admission
    | EnteringEnforcement
    | Attesting
    | GatingStep(i: nat)
    | TakingResources
    | ReservingBudget
    | RunningPlan
    | RecordingContext
    | RecordingStep(i: nat)
    | ConsumingBudget
    | Validating(record: ExecutionRecord)
    | Recovering(record: ExecutionRecord)
    | Leaving(outcome: Outcome)
    | Done(outcome: Outcome)

  /** What an execution did, and in which state it did it. */
  datatype Event =
    | Moved(from: Status, to: Status)
    | RanCapabilities(status: Status)
    | AppendedEvidence(status: Status)
    | ConsumedBudget(status: Status)

  datatype Process = Process(
    request: Request, world: World, status: Status, phase: Phase,
    holding: bool,                     // a resource reservation is held
    outputs: seq<Scheduler.Output>,
    prevHash: string,
    stepRecords: seq<StepRecord>,
    evidenceIds: seq<string>,
    reserved: bool, consumed: bool,    // history: budget operations that succeeded
    chain: seq<EvidenceRecord>,        // history: the evidence appended so far
    prefixes: seq<string>,             // history: what was hashed into it, before the previous hash
    events: seq<Event>)                // history

  datatype Shared = Shared(ledger: seq<EvidenceRecord>, accounts: BudgetLedger.Accounts, pool: Pool)

  function Start(request: Request, world: World): Process {
    Process(request, world, PendingAdmission, Admission, false, [], GENESIS, [], [], false, false, [], [], [])
  }

  function AccountId(r: Request): string {
    "budget:" + r.tenantId
  }

  function StreamId(r: Request): string {
    "evidence:" + r.executionId
  }

  function AsU64(n: nat): u64 {
    if n <= U64_MAX then n else n % (U64_MAX + 1)
  }

  predicate HardTrust(r: Request) {
    AsciiLower(r.trustLevel) == "hard"
  }

  // ---------------------------------------------------------------- moves

  /** Nothing changed but the state, the phase, the outputs and the trace. */
  ghost predicate SameBooks(p: Process, q: Process) {
    && q.request == p.request && q.world == p.world
    && q.holding == p.holding && q.reserved == p.reserved && q.consumed == p.consumed
    && q.prevHash == p.prevHash && q.stepRecords == p.stepRecords && q.chain == p.chain && q.prefixes == p.prefixes
    && q.evidenceIds == p.evidenceIds
  }

  /** No evidence was added. */
  ghost predicate SameEvidence(p: Process, q: Process) {
    && q.request == p.request && q.world == p.world
    && q.prevHash == p.prevHash && q.stepRecords == p.stepRecords && q.chain == p.chain && q.prefixes == p.prefixes
    && q.evidenceIds == p.evidenceIds
  }

  function Log(p: Process, e: Event): (q: Process)
    ensures SameBooks(p, q) && q.phase == p.phase && q.outputs == p.outputs
  {
    p.(events := p.events + [e])
  }

  /** An illegal transition makes the execution return an error at once. */
  function Move(p: Process, next: Status, phase: Phase): (q: Process)
    ensures SameBooks(p, q) && q.outputs == p.outputs &&
            (q.phase == phase || q.phase == Leaving(Errored(IllegalTransition)))
  {
    if CanTransition(p.status, next) then Log(p.(status := next, phase := phase), Moved(p.status, next))
    else p.(phase := Leaving(Errored(IllegalTransition)))
  }

  function Reject(p: Process, reason: Reason): (q: Process)
    ensures SameBooks(p, q) && q.phase.Leaving? &&
            q.phase.outcome.Errored? && q.phase.outcome.reason in {reason, IllegalTransition}
  {
    Move(p, Rejected, Leaving(Errored(reason)))
  }

  /** On the way out with an error that is not about the budget or the recovery. */
  predicate Refused(p: Process) {
    && p.phase.Leaving? && p.phase.outcome.Errored?
    && p.phase.outcome.reason != ConsumeFailed && p.phase.outcome.reason != RecoveryFailed
  }

  function Admit(p: Process): (q: Process)
    ensures SameBooks(p, q) && (q.phase == EnteringEnforcement || Refused(q))
  {
    if p.request.operation == "replay_only" || p.request.operation == "audit_only" then Reject(p, OutsideKernelPath)
    else if !p.world.identityOk then Reject(p, IdentityRejected)
    else if !p.world.supplyChainOk then Reject(p, SupplyChainRejected)
    else if !p.world.rolloutOk then Reject(p, RolloutRejected)
    else Move(p, Admitted, EnteringEnforcement)
  }

  function Attest(p: Process): (q: Process)
    ensures SameBooks(p, q) && (q.phase == GatingStep(0) || Refused(q))
  {
    if p.request.verifyEnvironment && HardTrust(p.request) && !p.world.attestationOk then Reject(p, AttestationRejected)
    else p.(phase := GatingStep(0))
  }

  predicate TenantPasses(r: Request, w: World, i: nat)
    requires i < |r.steps|
  {
    r.steps[i].capabilityRef.Some? ==> w.tenantAllows(i)
  }

  predicate HardeningPasses(r: Request, w: World, i: nat)
    requires i < |r.steps|
  {
    EnforceHardening(r.steps[i], r.constraints, name => w.backendAvailable(i, name)) == Accepted
  }

  function GateStep(p: Process, i: nat): (q: Process)
    ensures SameBooks(p, q) && (q.phase == GatingStep(i + 1) || q.phase == TakingResources || Refused(q))
  {
    if i >= |p.request.steps| then p.(phase := TakingResources)
    else if !TenantPasses(p.request, p.world, i) then Reject(p, TenantRejected)
    else if !HardeningPasses(p.request, p.world, i) then Reject(p, HardeningRejected)
    else p.(phase := GatingStep(i + 1))
  }

  function RunPlan(p: Process): (q: Process)
    ensures SameBooks(p, q) && (q.phase == RecordingContext || q.phase == Recovering(FailedRecord(p)) || Refused(q))
  {
    match Scheduler.PlanResult(p.request.steps, p.world.calls)
    case Failed => Move(Log(p, RanCapabilities(p.status)), Failed, Recovering(FailedRecord(p)))
    case Ran(outputs) =>
      Move(Log(p.(outputs := outputs), RanCapabilities(p.status)), RecordingEvidence, RecordingContext)
  }

  /** The record of an execution whose plan failed: no steps, no evidence, no fingerprint. */
  function FailedRecord(p: Process): ExecutionRecord {
    ExecutionRecord(p.request.executionId, "RolledBack", Some(p.world.failureText), [], [], "", EMPTY_MATERIAL, None,
                    AccountId(p.request), StreamId(p.request))
  }

  // ---------------------------------------------------------------- evidence

  const CONTEXT_STEP := "admission-context"
  const CONTEXT_BOUND := "EXECUTION_CONTEXT_BOUND"

  function ContextPrefix(digest: Digest, p: Process): string {
    RecordPrefix(p.request.executionId, CONTEXT_STEP, "context", digest(p.world.contextPayload))
  }

  function ContextEvidence(digest: Digest, p: Process): EvidenceRecord {
    EvidenceRecord(p.request.executionId + ":" + CONTEXT_STEP, StreamId(p.request), p.request.executionId, CONTEXT_STEP,
                   CONTEXT_BOUND, digest(p.world.contextPayload), p.prevHash,
                   digest(RecordText(ContextPrefix(digest, p), p.prevHash)), p.world.clock(0))
  }

  function StepPrefix(digest: Digest, p: Process, out: Scheduler.Output, step: ExecutionStep): string {
    RecordPrefix(p.request.executionId, out.stepId, digest(step.input), digest(out.output))
  }

  function StepEvidence(
    digest: Digest, p: Process, out: Scheduler.Output, step: ExecutionStep, reading: nat): EvidenceRecord
  {
    EvidenceRecord(p.request.executionId + ":" + out.stepId, StreamId(p.request), p.request.executionId, out.stepId,
                   STEP_EXECUTED, digest(out.output), p.prevHash,
                   digest(RecordText(StepPrefix(digest, p, out, step), p.prevHash)), p.world.clock(reading))
  }

  /** Appends one record to the chain of the process. */
  function Extend(p: Process, e: EvidenceRecord, prefix: string): (q: Process)
    ensures q.request == p.request && q.world == p.world && q.phase == p.phase && q.outputs == p.outputs
    ensures q.holding == p.holding && q.reserved == p.reserved &&
            q.consumed == p.consumed && q.stepRecords == p.stepRecords
  {
    Log(p.(prevHash := e.recordHash, evidenceIds := p.evidenceIds + [e.recordId],
           chain := p.chain + [e], prefixes := p.prefixes + [prefix]),
        AppendedEvidence(p.status))
  }

  function RecordContext(digest: Digest, sh: Shared, p: Process): (r: (Shared, Process))
    ensures r.1.request == p.request && r.1.world == p.world
    ensures r.1.holding == p.holding && r.1.reserved == p.reserved && r.1.consumed == p.consumed
    ensures r.1.stepRecords == p.stepRecords && r.1.phase == RecordingStep(0)
    ensures r.0.pool == sh.pool && r.0.accounts == sh.accounts
  {
    var e := ContextEvidence(digest, p);
    (sh.(ledger := sh.ledger + [e]), Extend(p, e, ContextPrefix(digest, p)).(phase := RecordingStep(0)))
  }

  function RecordStep(digest: Digest, sh: Shared, p: Process, i: nat): (r: (Shared, Process))
    ensures r.1.request == p.request && r.1.world == p.world
    ensures r.1.holding == p.holding && r.1.reserved == p.reserved && r.1.consumed == p.consumed
    ensures r.1.outputs == p.outputs
    ensures (r.1.phase == RecordingStep(i + 1) && i < |p.outputs|) || r.1.phase == ConsumingBudget || Refused(r.1)
    ensures r.0.pool == sh.pool && r.0.accounts == sh.accounts
  {
    if i >= |p.outputs| then (sh, p.(phase := ConsumingBudget))
    else
      var out := p.outputs[i];
      match FindStep(p.request.steps, out.stepId)
      case None => (sh, p.(phase := Leaving(Errored(StepNotFound))))
      case Some(step) =>
        var e := StepEvidence(digest, p, out, step, 2 * i + 1);
        var r := StepRecord(out.stepId, step.capabilityRef, digest(step.input), digest(out.output), out.costUnits,
                            p.world.clock(2 * i + 2));
        (sh.(ledger := sh.ledger + [e]),
         Extend(p, e, StepPrefix(digest, p, out, step)).(
           stepRecords := p.stepRecords + [r], phase := RecordingStep(i + 1)))
  }

  // ---------------------------------------------------------------- completion

  function CostOf(records: seq<StepRecord>): nat {
    if records == [] then 0 else CostOf(records[..|records| - 1]) + Last(records).costUnits
  }

  /** The output digests of the step records, in order. */
  function RecordedOutputs(records: seq<StepRecord>): string {
    if records == [] then "" else RecordedOutputs(records[..|records| - 1]) + Last(records).outputDigest
  }

  /** The loop over the step records; the evidence yields the same digest when it is replayed. */
  method OutputChainDigestFromStepRecords(records: seq<StepRecord>, digest: Digest) returns (r: string)
    ensures r == digest(RecordedOutputs(records))
  {
    var chain := "";
    for i := 0 to |records|
      invariant chain == RecordedOutputs(records[..i])
    {
      assert records[..i + 1][..i] == records[..i];
      chain := chain + records[i].outputDigest;
    }
    assert records[..|records|] == records;
    r := digest(chain);
  }

  function CompletedRecord(digest: Digest, p: Process): ExecutionRecord {
    var material := BuildMaterial(p.request.closure, p.request.supply, digest);
    var chainDigest := digest(RecordedOutputs(p.stepRecords));
    ExecutionRecord(
      p.request.executionId, "Completed",
      if p.stepRecords == [] then None else Some("output_digest:" + Last(p.stepRecords).outputDigest),
      p.stepRecords, p.evidenceIds, Fingerprint(material, chainDigest, digest), material, None,
      AccountId(p.request), StreamId(p.request))
  }

  function Consume(digest: Digest, sh: Shared, p: Process): (r: (Shared, Process))
    ensures SameEvidence(p, r.1)
    ensures r.1.holding == p.holding && r.1.reserved == p.reserved && r.1.stepRecords == p.stepRecords
    ensures r.1.phase.Leaving? || (r.1.phase.Validating? && r.1.consumed)
    ensures r.0.pool == sh.pool && r.0.ledger == sh.ledger
  {
    var (accounts, reply) :=
      BudgetLedger.MemoryStep(sh.accounts, BudgetLedger.Consume(AccountId(p.request), AsU64(CostOf(p.stepRecords))));
    if reply != BudgetLedger.Done then (sh, p.(phase := Leaving(Errored(ConsumeFailed))))
    else
      (sh.(accounts := accounts),
       Move(Log(p.(consumed := true), ConsumedBudget(p.status)), Verifying, Validating(CompletedRecord(digest, p))))
  }

  function Validate(p: Process, record: ExecutionRecord): (q: Process)
    ensures SameBooks(p, q)
    ensures q.phase.Recovering? || q.phase == Leaving(Returned(record)) || Refused(q)
  {
    if (p.request.validateOutput && !p.world.outputValid) || !p.world.learningAllowed then
      Move(p, Failed, Recovering(record.(finalStatus := "RolledBack", mismatch := Some(p.world.failureText))))
    else Move(p, Completed, Leaving(Returned(record)))
  }

  function Recover(p: Process, record: ExecutionRecord): (q: Process)
    ensures SameBooks(p, q)
    ensures q.phase == Leaving(Returned(record)) || q.phase == Leaving(Errored(RecoveryFailed)) || Refused(q)
  {
    if p.world.recovered then Move(p, RolledBack, Leaving(Returned(record)))
    else p.(phase := Leaving(Errored(RecoveryFailed)))
  }

  // ---------------------------------------------------------------- shared operations and steps

  function Requirements(p: Process): Requirement {
    FromConstraints(p.request.constraints)
  }

  function TakeResources(sh: Shared, p: Process): (r: (Shared, Process))
    ensures SameEvidence(p, r.1)
    ensures r.1.reserved == p.reserved && r.1.consumed == p.consumed && r.1.stepRecords == p.stepRecords
    ensures (r.1.phase == ReservingBudget && r.1.holding) || Refused(r.1)
    ensures r.0.ledger == sh.ledger && r.0.accounts == sh.accounts
  {
    if Grants(sh.pool, Requirements(p)) then
      (sh.(pool := Reserved(sh.pool, Requirements(p))), p.(holding := true, phase := ReservingBudget))
    else (sh, Reject(p, ResourceRejected))
  }

  function ReserveBudget(sh: Shared, p: Process): (r: (Shared, Process))
    ensures SameEvidence(p, r.1)
    ensures r.1.holding == p.holding && r.1.consumed == p.consumed && r.1.stepRecords == p.stepRecords
    ensures (r.1.phase == RunningPlan && r.1.reserved) || Refused(r.1)
    ensures r.0.pool == sh.pool && r.0.ledger == sh.ledger
  {
    if p.world.budgetReachable then
      var op := BudgetLedger.Reserve(AccountId(p.request), p.request.tenantId, |p.request.steps|);
      (sh.(accounts := BudgetLedger.MemoryStep(sh.accounts, op).0), Move(p.(reserved := true), Executing, RunningPlan))
    else (sh, Reject(p, BudgetRejected))
  }

  /** Returning drops the resource reservation, if there is one. */
  function Leave(sh: Shared, p: Process, outcome: Outcome): (r: (Shared, Process))
    ensures SameEvidence(p, r.1)
    ensures r.1.reserved == p.reserved && r.1.consumed == p.consumed && !r.1.holding && r.1.phase == Done(outcome)
    ensures r.0.ledger == sh.ledger && r.0.accounts == sh.accounts
  {
    (if p.holding then sh.(pool := Released(sh.pool, Requirements(p))) else sh,
     p.(holding := false, phase := Done(outcome)))
  }

  function Step(digest: Digest, sh: Shared, p: Process): (r: (Shared, Process))
    ensures r.1.request == p.request && r.1.world == p.world
  {
    match p.phase
    case Admission => (sh, Admit(p))
    case EnteringEnforcement => (sh, Move(p, Enforcing, Attesting))
    case Attesting => (sh, Attest(p))
    case GatingStep(i) => (sh, GateStep(p, i))
    case TakingResources => TakeResources(sh, p)
    case ReservingBudget => ReserveBudget(sh, p)
    case RunningPlan => (sh, RunPlan(p))
    case RecordingContext => RecordContext(digest, sh, p)
    case RecordingStep(i) => RecordStep(digest, sh, p, i)
    case ConsumingBudget => Consume(digest, sh, p)
    case Validating(record) => (sh, Validate(p, record))
    case Recovering(record) => (sh, Recover(p, record))
    case Leaving(outcome) => Leave(sh, p, outcome)
    case Done(_) => (sh, p)
  }

  // ---------------------------------------------------------------- interleavings

  datatype State = State(shared: Shared, procs: seq<Process>)

  function Next(digest: Digest, s: State, pid: nat): (t: State)
    ensures |t.procs| == |s.procs|
  {
    if pid < |s.procs| then
      var (shared, p) := Step(digest, s.shared, s.procs[pid]);
      State(shared, s.procs[pid := p])
    else s
  }

  function Run(digest: Digest, s: State, schedule: seq<nat>): (t: State)
    ensures |t.procs| == |s.procs|
  {
    if schedule == [] then s
    else Next(digest, Run(digest, s, schedule[..|schedule| - 1]), Last(schedule))
  }

  /** No execution has begun; ledger, accounts and pool may already have been used. */
  ghost predicate Started(s: State) {
    forall i :: 0 <= i < |s.procs| ==> s.procs[i] == Start(s.procs[i].request, s.procs[i].world)
  }

  // ---------------------------------------------------------------- replay

  datatype ReplayReply = Matches(fingerprint: string) | NoEvidence | Mismatch

  /** Rebuilds the fingerprint from the ledger alone and compares it with the record. */
  function ReplayCheck(digest: Digest, ledger: seq<EvidenceRecord>, record: ExecutionRecord): ReplayReply {
    var events := Select(ledger, record.executionId);
    if events == [] then NoEvidence
    else
      var replay := Fingerprint(record.material, digest(Outputs(ReplayOrder(events))), digest);
      if replay == record.fingerprint then Matches(replay) else Mismatch
  }
}
