/**
 What an execution writes down: the records of its steps, its evidence, and the record it returns,
 said about the request and about the outputs of its plan.
 */
module KernelRecords {
  import opened EvidenceLedger
  import opened Ir
  import opened Kernel
  import KernelSafety
  import opened KernelVerdicts
  import opened Replay
  import Scheduler
  import opened Sequences
  import opened Sorting
  import opened Text

  // ---------------------------------------------------------------- one step

  /** The record of a step names the first step with the id of the output, and digests its input and the output. */
  ghost predicate StepTold(digest: Digest, steps: seq<ExecutionStep>, out: Scheduler.Output, record: StepRecord) {
    exists j: nat :: IsFirstStep(steps, out.stepId, j) && IsRecordOf(digest, steps[j], out, record)
  }

  predicate IsRecordOf(digest: Digest, step: ExecutionStep, out: Scheduler.Output, record: StepRecord) {
    && record.stepId == out.stepId && record.capabilityRef == step.capabilityRef
    && record.inputDigest == digest(step.input) && record.outputDigest == digest(out.output)
    && record.costUnits == out.costUnits
  }

  /** The text hashed into a record of the evidence. */
  function HashedText(id: string, stepId: string, input: string, output: string, prev: string): string {
    Join([id, stepId, input, output, prev], ':')
  }

  /** The evidence of a step: who did what, what came out, and which record is before it. */
  ghost predicate EventTold(
    digest: Digest, r: Request, out: Scheduler.Output, prev: string, e: EvidenceRecord)
  {
    exists j: nat :: IsFirstStep(r.steps, out.stepId, j) && IsEventOf(digest, r, r.steps[j], out, prev, e)
  }

  predicate IsEventOf(
    digest: Digest, r: Request, step: ExecutionStep, out: Scheduler.Output, prev: string, e: EvidenceRecord)
  {
    && e.recordId == r.executionId + ":" + out.stepId && e.streamId == "evidence:" + r.executionId
    && e.executionId == r.executionId && e.stepId == out.stepId && e.eventType == "STEP_EXECUTED"
    && e.payloadDigest == digest(out.output) && e.prevHash == prev
    && e.recordHash == digest(HashedText(r.executionId, out.stepId, digest(step.input), digest(out.output), prev))
  }

  /** The first record of the evidence binds the context of the admission. */
  predicate ContextTold(digest: Digest, r: Request, w: World, e: EvidenceRecord) {
    var context := digest(w.contextPayload);
    && e.recordId == r.executionId + ":admission-context" && e.streamId == "evidence:" + r.executionId
    && e.executionId == r.executionId && e.stepId == "admission-context" && e.eventType == "EXECUTION_CONTEXT_BOUND"
    && e.payloadDigest == context && e.prevHash == "genesis"
    && e.recordHash == digest(HashedText(r.executionId, "admission-context", "context", context, "genesis"))
    && e.timestampMs == w.clock(0)
  }

  // ---------------------------------------------------------------- all steps

  /** The clock is read for the context, and then for each output twice: for its evidence, and for its record. */
  ghost predicate StepsTold(
    digest: Digest, w: World, steps: seq<ExecutionStep>, outs: seq<Scheduler.Output>, records: seq<StepRecord>, n: nat)
  {
    && n <= |outs| && |records| == n
    && (forall i :: 0 <= i < n ==> StepTold(digest, steps, outs[i], records[i]))
    && (forall i :: 0 <= i < n ==> records[i].timestampMs == w.clock(2 * i + 2))
  }

  ghost predicate ChainTold(
    digest: Digest, r: Request, w: World, outs: seq<Scheduler.Output>, chain: seq<EvidenceRecord>, n: nat)
  {
    && n <= |outs| && |chain| == n + 1 && ContextTold(digest, r, w, chain[0])
    && (forall i :: 0 <= i < n ==> EventTold(digest, r, outs[i], chain[i].recordHash, chain[i + 1]))
    && (forall i :: 0 <= i < n ==> chain[i + 1].timestampMs == w.clock(2 * i + 1))
  }

  ghost predicate IdsTold(chain: seq<EvidenceRecord>, ids: seq<string>) {
    |ids| == |chain| && forall i :: 0 <= i < |ids| ==> ids[i] == chain[i].recordId
  }

  /** The context and the first n outputs have been written down. */
  ghost predicate Written(digest: Digest, p: Process, outs: seq<Scheduler.Output>, n: nat) {
    && StepsTold(digest, p.world, p.request.steps, outs, p.stepRecords, n)
    && ChainTold(digest, p.request, p.world, outs, p.chain, n)
    && IdsTold(p.chain, p.evidenceIds) && p.prevHash == Last(p.chain).recordHash
  }

  predicate NothingWritten(p: Process) {
    p.stepRecords == [] && p.chain == [] && p.evidenceIds == [] && p.prevHash == "genesis"
  }

  // ---------------------------------------------------------------- the fingerprint

  /** The digests of the outputs, one after the other. */
  function OutputDigests(digest: Digest, outs: seq<Scheduler.Output>): string {
    if outs == [] then "" else OutputDigests(digest, outs[..|outs| - 1]) + digest(Last(outs).output)
  }

  /** The eleven parts of what is fingerprinted, for the store paths in the given order. */
  function FingerprintParts(
    digest: Digest, closure: Closure, supply: SupplyChain, paths: seq<string>, outs: seq<Scheduler.Output>): seq<string>
  {
    [closure.flakeLockDigest, closure.derivationDigest, Join(paths, '|'), digest(Join(paths, '|')),
     closure.runtimeClosureHash, supply.policyBundleDigest, supply.capabilityPackageDigest, supply.verifierDigest,
     closure.configDigest, closure.generationId, digest(OutputDigests(digest, outs))]
  }

  predicate InOrder(paths: seq<string>, storePaths: seq<string>) {
    multiset(paths) == multiset(storePaths) && forall i, j :: 0 <= i < j < |paths| ==> StrLeq(paths[i], paths[j])
  }

  /** The material of the record carries the closure and the supply chain of the request, store paths sorted. */
  ghost predicate MaterialTold(digest: Digest, r: Request, m: Material) {
    && m.flakeLockDigest == r.closure.flakeLockDigest && m.derivationDigest == r.closure.derivationDigest
    && InOrder(m.canonicalStorePaths, r.closure.storePaths)
    && m.storePathsDigest == digest(Join(m.canonicalStorePaths, '|'))
    && m.runtimeClosureHash == r.closure.runtimeClosureHash
    && m.policyBundleDigest == r.supply.policyBundleDigest
    && m.wasmPluginDigest == r.supply.capabilityPackageDigest
    && m.verifierDigest == r.supply.verifierDigest
    && m.configDigest == r.closure.configDigest && m.generationId == r.closure.generationId
  }

  ghost predicate FingerprintTold(digest: Digest, r: Request, outs: seq<Scheduler.Output>, record: ExecutionRecord) {
    var paths := record.material.canonicalStorePaths;
    && MaterialTold(digest, r, record.material)
    && record.fingerprint == digest(Join(FingerprintParts(digest, r.closure, r.supply, paths, outs), '|'))
  }

  /** What the record of an execution whose plan ran says about it. */
  ghost predicate RecordTold(
    digest: Digest, r: Request, w: World, chain: seq<EvidenceRecord>, outs: seq<Scheduler.Output>,
    record: ExecutionRecord)
  {
    && record.executionId == r.executionId
    && record.budgetAccountId == "budget:" + r.tenantId && record.evidenceStreamId == "evidence:" + r.executionId
    && record.finalOutput == (if outs == [] then None else Some("output_digest:" + digest(Last(outs).output)))
    && StepsTold(digest, w, r.steps, outs, record.stepRecords, |outs|) && IdsTold(chain, record.evidenceIds)
    && FingerprintTold(digest, r, outs, record)
  }

  // ---------------------------------------------------------------- writing

  lemma HashedTextIsRecordText(id: string, stepId: string, input: string, output: string, prev: string)
    ensures HashedText(id, stepId, input, output, prev) == RecordText(RecordPrefix(id, stepId, input, output), prev)
  {
    JoinAppend([id], [stepId], ':');
    JoinAppend([id, stepId], [input], ':');
    JoinAppend([id, stepId, input], [output], ':');
    JoinAppend([id, stepId, input, output], [prev], ':');
    assert [id] + [stepId] == [id, stepId] && [id, stepId] + [input] == [id, stepId, input];
    assert [id, stepId, input] + [output] == [id, stepId, input, output];
    assert [id, stepId, input, output] + [prev] == [id, stepId, input, output, prev];
  }

  lemma ContextIsTold(digest: Digest, p: Process)
    requires p.prevHash == "genesis"
    ensures ContextTold(digest, p.request, p.world, ContextEvidence(digest, p))
  {
    HashedTextIsRecordText(
      p.request.executionId, "admission-context", "context", digest(p.world.contextPayload), "genesis");
    assert p.request.executionId + ":" + "admission-context" == p.request.executionId + ":admission-context";
  }

  lemma ContextIsWritten(digest: Digest, sh: Shared, p: Process, outs: seq<Scheduler.Output>)
    requires NothingWritten(p)
    ensures Written(digest, RecordContext(digest, sh, p).1, outs, 0)
  {
    ContextIsTold(digest, p);
  }

  lemma StepIsTold(digest: Digest, p: Process, out: Scheduler.Output, step: ExecutionStep, reading: nat)
    requires FindStep(p.request.steps, out.stepId) == Some(step)
    ensures EventTold(digest, p.request, out, p.prevHash, StepEvidence(digest, p, out, step, reading))
    ensures forall at :: StepTold(digest, p.request.steps, out, StepRecord(
              out.stepId, step.capabilityRef, digest(step.input), digest(out.output), out.costUnits, at))
  {
    var j := FindStepIsFirst(p.request.steps, out.stepId);
    HashedTextIsRecordText(p.request.executionId, out.stepId, digest(step.input), digest(out.output), p.prevHash);
    var e := StepEvidence(digest, p, out, step, reading);
    assert IsEventOf(digest, p.request, p.request.steps[j], out, p.prevHash, e);
    forall at
      ensures StepTold(digest, p.request.steps, out, StepRecord(
                out.stepId, step.capabilityRef, digest(step.input), digest(out.output), out.costUnits, at))
    {
      assert IsRecordOf(digest, p.request.steps[j], out, StepRecord(
                out.stepId, step.capabilityRef, digest(step.input), digest(out.output), out.costUnits, at));
    }
  }

  lemma OneMoreEvent(
    digest: Digest, r: Request, w: World, outs: seq<Scheduler.Output>, chain: seq<EvidenceRecord>, n: nat,
    e: EvidenceRecord)
    requires ChainTold(digest, r, w, outs, chain, n) && n < |outs|
    requires EventTold(digest, r, outs[n], Last(chain).recordHash, e) && e.timestampMs == w.clock(2 * n + 1)
    ensures ChainTold(digest, r, w, outs, chain + [e], n + 1)
  {
    var more := chain + [e];
    forall i | 0 <= i < n + 1
      ensures EventTold(digest, r, outs[i], more[i].recordHash, more[i + 1])
      ensures more[i + 1].timestampMs == w.clock(2 * i + 1)
    {
      if i < n {
        assert more[i] == chain[i] && more[i + 1] == chain[i + 1];
      }
    }
  }

  lemma OneMoreStep(
    digest: Digest, w: World, steps: seq<ExecutionStep>, outs: seq<Scheduler.Output>, records: seq<StepRecord>, n: nat,
    record: StepRecord)
    requires StepsTold(digest, w, steps, outs, records, n) && n < |outs|
    requires StepTold(digest, steps, outs[n], record) && record.timestampMs == w.clock(2 * n + 2)
    ensures StepsTold(digest, w, steps, outs, records + [record], n + 1)
  {
    var more := records + [record];
    forall i | 0 <= i < n + 1 ensures StepTold(digest, steps, outs[i], more[i]) {
      if i < n {
        assert more[i] == records[i] && StepTold(digest, steps, outs[i], records[i]);
      }
    }
    forall i | 0 <= i < n + 1 ensures more[i].timestampMs == w.clock(2 * i + 2) {
      if i < n {
        assert more[i] == records[i] && records[i].timestampMs == w.clock(2 * i + 2);
      }
    }
  }

  lemma OneMoreId(chain: seq<EvidenceRecord>, ids: seq<string>, e: EvidenceRecord)
    requires IdsTold(chain, ids)
    ensures IdsTold(chain + [e], ids + [e.recordId])
  {
  }

  lemma OutputIsWritten(digest: Digest, sh: Shared, p: Process, i: nat)
    requires Written(digest, p, p.outputs, i) && i < |p.outputs|
    requires FindStep(p.request.steps, p.outputs[i].stepId).Some?
    ensures Written(digest, RecordStep(digest, sh, p, i).1, p.outputs, i + 1)
  {
    var out := p.outputs[i];
    var step := FindStep(p.request.steps, out.stepId).value;
    var e := StepEvidence(digest, p, out, step, 2 * i + 1);
    var record := StepRecord(out.stepId, step.capabilityRef, digest(step.input), digest(out.output), out.costUnits,
                             p.world.clock(2 * i + 2));
    StepIsTold(digest, p, out, step, 2 * i + 1);
    OneMoreEvent(digest, p.request, p.world, p.outputs, p.chain, i, e);
    OneMoreStep(digest, p.world, p.request.steps, p.outputs, p.stepRecords, i, record);
    OneMoreId(p.chain, p.evidenceIds, e);
  }

  lemma MaterialIsTold(digest: Digest, r: Request)
    ensures MaterialTold(digest, r, BuildMaterial(r.closure, r.supply, digest))
  {
    StrLeqIsOrder();
    SortOrders(StrLeq, r.closure.storePaths);
    SortPermutes(StrLeq, r.closure.storePaths);
  }

  lemma {:induction false} RecordedOutputsAreDigests(
    digest: Digest, w: World, steps: seq<ExecutionStep>, outs: seq<Scheduler.Output>, records: seq<StepRecord>)
    requires StepsTold(digest, w, steps, outs, records, |outs|)
    ensures RecordedOutputs(records) == OutputDigests(digest, outs)
    ensures outs != [] ==> Last(records).outputDigest == digest(Last(outs).output)
  {
    if outs != [] {
      assert StepTold(digest, steps, outs[|outs| - 1], records[|outs| - 1]);
      var front, before := outs[..|outs| - 1], records[..|records| - 1];
      forall i | 0 <= i < |front| ensures StepTold(digest, steps, front[i], before[i]) {
        assert StepTold(digest, steps, outs[i], records[i]);
      }
      RecordedOutputsAreDigests(digest, w, steps, front, before);
    }
  }

  lemma PayloadIsJoined(
    digest: Digest, closure: Closure, supply: SupplyChain, m: Material, outs: seq<Scheduler.Output>)
    requires m == BuildMaterial(closure, supply, digest)
    ensures Payload(m, digest(OutputDigests(digest, outs))) ==
            Join(FingerprintParts(digest, closure, supply, m.canonicalStorePaths, outs), '|')
  {
    var chain := digest(OutputDigests(digest, outs));
    assert FrontParts(m) + [Join(m.canonicalStorePaths, '|')] + BackParts(m, chain)
        == FingerprintParts(digest, closure, supply, m.canonicalStorePaths, outs);
  }

  lemma RecordIsTold(digest: Digest, p: Process, outs: seq<Scheduler.Output>)
    requires Written(digest, p, outs, |outs|)
    ensures RecordTold(digest, p.request, p.world, p.chain, outs, CompletedRecord(digest, p))
  {
    MaterialIsTold(digest, p.request);
    RecordedOutputsAreDigests(digest, p.world, p.request.steps, outs, p.stepRecords);
    PayloadIsJoined(digest, p.request.closure, p.request.supply,
                    BuildMaterial(p.request.closure, p.request.supply, digest), outs);
  }

  // ---------------------------------------------------------------- on the way

  /** What has been written down at each point of `execute`, where outs are the outputs of the plan. */
  ghost predicate Recorded(digest: Digest, p: Process, outs: seq<Scheduler.Output>) {
    match p.phase
    case RecordingStep(i) => i <= |outs| && Written(digest, p, outs, i)
    case ConsumingBudget => Written(digest, p, outs, |outs|)
    case Validating(record) => Complete(digest, p, outs, record)
    case Recovering(record) => Complete(digest, p, outs, record)
    case Leaving(outcome) => outcome.Returned? ==> Complete(digest, p, outs, outcome.record)
    case Done(outcome) => outcome.Returned? ==> Complete(digest, p, outs, outcome.record)
    case _ => NothingWritten(p)
  }

  ghost predicate Complete(digest: Digest, p: Process, outs: seq<Scheduler.Output>, record: ExecutionRecord) {
    && ChainTold(digest, p.request, p.world, outs, p.chain, |outs|)
    && RecordTold(digest, p.request, p.world, p.chain, outs, record)
  }

  ghost predicate PlanYields(p: Process, outs: seq<Scheduler.Output>) {
    Scheduler.PlanResult(p.request.steps, p.world.calls) == Scheduler.Ran(outs)
  }

  /** Before evidence is recorded, or on the way out with an error. */
  predicate BeforeRecording(phase: Phase) {
    match phase
    case RecordingStep(_) => false
    case ConsumingBudget => false
    case Validating(_) => false
    case Recovering(_) => false
    case Leaving(outcome) => outcome.Errored?
    case Done(outcome) => outcome.Errored?
    case _ => true
  }

  lemma NothingStays(digest: Digest, p: Process, q: Process, outs: seq<Scheduler.Output>)
    requires NothingWritten(p) && SameEvidence(p, q) && BeforeRecording(q.phase)
    ensures Recorded(digest, q, outs)
  {
  }

  lemma GatesWriteNothing(digest: Digest, sh: Shared, p: Process, outs: seq<Scheduler.Output>)
    requires NothingWritten(p)
    requires p.phase.Admission? || p.phase.EnteringEnforcement? || p.phase.Attesting? || p.phase.GatingStep?
             || p.phase.TakingResources? || p.phase.ReservingBudget?
    ensures Recorded(digest, Step(digest, sh, p).1, outs)
  {
    NothingStays(digest, p, Step(digest, sh, p).1, outs);
  }

  lemma PlanWritesNothing(digest: Digest, p: Process, outs: seq<Scheduler.Output>)
    requires NothingWritten(p) && p.phase == RunningPlan && PlanYields(p, outs)
    ensures Recorded(digest, RunPlan(p), outs)
  {
    NothingStays(digest, p, RunPlan(p), outs);
  }

  lemma RecordingWrites(digest: Digest, sh: Shared, p: Process, i: nat, outs: seq<Scheduler.Output>)
    requires KernelSafety.Sound(p) && PlanYields(p, outs)
    requires p.phase == RecordingStep(i) && Recorded(digest, p, outs)
    ensures Recorded(digest, RecordStep(digest, sh, p, i).1, outs)
  {
    assert p.outputs == outs;
    if i < |outs| {
      Scheduler.PlanOutputsAreSteps(p.request.steps, p.world.calls, i);
      OutputIsWritten(digest, sh, p, i);
    }
  }

  lemma ConsumptionKeeps(digest: Digest, sh: Shared, p: Process, outs: seq<Scheduler.Output>)
    requires p.phase == ConsumingBudget && Recorded(digest, p, outs)
    ensures Recorded(digest, Consume(digest, sh, p).1, outs)
  {
    var q := Consume(digest, sh, p).1;
    RecordIsTold(digest, p, outs);
    ConsumeWays(digest, sh, p);
    CompletesOrErrs(digest, p, q, outs, CompletedRecord(digest, p));
  }

  /** What keeps the evidence, and is about to return the record or a reworded one, keeps it all. */
  lemma CompletesOrErrs(
    digest: Digest, p: Process, q: Process, outs: seq<Scheduler.Output>, record: ExecutionRecord)
    requires SameEvidence(p, q) && Complete(digest, p, outs, record)
    requires || q.phase == Validating(record) || q.phase == Leaving(Returned(record))
             || (q.phase.Recovering? && Reworded(record, q.phase.record))
             || (q.phase.Leaving? && q.phase.outcome.Errored?)
    ensures Recorded(digest, q, outs)
  {
  }

  /** The same record but for its status and its explanation. */
  predicate Reworded(a: ExecutionRecord, b: ExecutionRecord) {
    b == a.(finalStatus := b.finalStatus, mismatch := b.mismatch)
  }

  lemma ValidationKeeps(digest: Digest, p: Process, record: ExecutionRecord, outs: seq<Scheduler.Output>)
    requires p.phase == Validating(record) && Recorded(digest, p, outs)
    ensures Recorded(digest, Validate(p, record), outs)
  {
    CompletesOrErrs(digest, p, Validate(p, record), outs, record);
  }

  lemma RecoveryKeeps(digest: Digest, p: Process, record: ExecutionRecord, outs: seq<Scheduler.Output>)
    requires p.phase == Recovering(record) && Recorded(digest, p, outs)
    ensures Recorded(digest, Recover(p, record), outs)
  {
    CompletesOrErrs(digest, p, Recover(p, record), outs, record);
  }

  lemma LeavingKeeps(digest: Digest, sh: Shared, p: Process, outcome: Outcome, outs: seq<Scheduler.Output>)
    requires p.phase == Leaving(outcome) && Recorded(digest, p, outs)
    ensures Recorded(digest, Leave(sh, p, outcome).1, outs)
  {
  }

  lemma WorkingWrites(digest: Digest, sh: Shared, p: Process, outs: seq<Scheduler.Output>)
    requires KernelSafety.Sound(p) && PlanYields(p, outs) && Recorded(digest, p, outs)
    requires p.phase.RunningPlan? || p.phase.RecordingContext? || p.phase.RecordingStep? || p.phase.ConsumingBudget?
    ensures Recorded(digest, Step(digest, sh, p).1, outs)
  {
    match p.phase
    case RunningPlan => PlanWritesNothing(digest, p, outs);
    case RecordingContext => ContextIsWritten(digest, sh, p, outs);
    case RecordingStep(i) => RecordingWrites(digest, sh, p, i, outs);
    case ConsumingBudget => ConsumptionKeeps(digest, sh, p, outs);
  }

  lemma EndingKeeps(digest: Digest, sh: Shared, p: Process, outs: seq<Scheduler.Output>)
    requires Recorded(digest, p, outs)
    requires p.phase.Validating? || p.phase.Recovering? || p.phase.Leaving? || p.phase.Done?
    ensures Recorded(digest, Step(digest, sh, p).1, outs)
  {
    match p.phase
    case Validating(record) => ValidationKeeps(digest, p, record, outs);
    case Recovering(record) => RecoveryKeeps(digest, p, record, outs);
    case Leaving(outcome) => LeavingKeeps(digest, sh, p, outcome, outs);
    case Done(_) =>
  }

  lemma StepRecorded(digest: Digest, sh: Shared, p: Process, outs: seq<Scheduler.Output>)
    requires KernelSafety.Sound(p) && PlanYields(p, outs) && Recorded(digest, p, outs)
    ensures Recorded(digest, Step(digest, sh, p).1, outs)
  {
    if p.phase.Validating? || p.phase.Recovering? || p.phase.Leaving? || p.phase.Done? {
      EndingKeeps(digest, sh, p, outs);
    } else if p.phase.RunningPlan? || p.phase.RecordingContext? || p.phase.RecordingStep? || p.phase.ConsumingBudget? {
      WorkingWrites(digest, sh, p, outs);
    } else {
      GatesWriteNothing(digest, sh, p, outs);
    }
  }

  // ---------------------------------------------------------------- all interleavings

  lemma {:induction false} RunRecorded(
    digest: Digest, s: State, schedule: seq<nat>, i: nat, outs: seq<Scheduler.Output>)
    requires Started(s) && i < |s.procs| && PlanYields(s.procs[i], outs)
    ensures var p := Run(digest, s, schedule).procs[i]; PlanYields(p, outs) && Recorded(digest, p, outs)
  {
    if schedule != [] {
      var before := schedule[..|schedule| - 1];
      RunRecorded(digest, s, before, i, outs);
      KernelSafety.RunSound(digest, s, before, i);
      NextRecorded(digest, Run(digest, s, before), Last(schedule), i, outs);
    }
  }

  lemma NextRecorded(digest: Digest, t: State, pid: nat, i: nat, outs: seq<Scheduler.Output>)
    requires i < |t.procs| && KernelSafety.Sound(t.procs[i])
    requires PlanYields(t.procs[i], outs) && Recorded(digest, t.procs[i], outs)
    ensures var q := Next(digest, t, pid).procs[i]; PlanYields(q, outs) && Recorded(digest, q, outs)
  {
    StepRecorded(digest, t.shared, t.procs[i], outs);
  }

  /**
   In every interleaving, once the record of an execution has been returned whose plan ran: it has
   one step record for each output of the plan, in order; its evidence is the context of the
   admission and one record for each output, each naming the hash before it; its material is that
   of the request; and its fingerprint is the digest of the eleven parts, in their order.
   */
  lemma ReturnedRecordTells(digest: Digest, s: State, schedule: seq<nat>, i: nat, outs: seq<Scheduler.Output>)
    requires Started(s) && i < |s.procs| && PlanYields(s.procs[i], outs)
    requires var p := Run(digest, s, schedule).procs[i]; p.phase.Done? && p.phase.outcome.Returned?
    ensures var p := Run(digest, s, schedule).procs[i];
            && ChainTold(digest, p.request, p.world, outs, p.chain, |outs|)
            && RecordTold(digest, p.request, p.world, p.chain, outs, p.phase.outcome.record)
  {
    RunRecorded(digest, s, schedule, i, outs);
  }

  /** What a call returns tells of its request, of the outputs of its plan, and of some chain of evidence. */
  ghost predicate OutcomeRecorded(digest: Digest, r: Request, w: World, outcome: Outcome) {
    forall outs :: Scheduler.PlanResult(r.steps, w.calls) == Scheduler.Ran(outs) && outcome.Returned? ==>
      exists chain ::
        ChainTold(digest, r, w, outs, chain, |outs|) && RecordTold(digest, r, w, chain, outs, outcome.record)
  }

  lemma DoneIsRecorded(digest: Digest, p: Process)
    requires p.phase.Done? && forall outs :: PlanYields(p, outs) ==> Recorded(digest, p, outs)
    ensures OutcomeRecorded(digest, p.request, p.world, p.phase.outcome)
  {
    var outcome := p.phase.outcome;
    forall outs | Scheduler.PlanResult(p.request.steps, p.world.calls) == Scheduler.Ran(outs) && outcome.Returned?
      ensures exists chain :: ChainTold(digest, p.request, p.world, outs, chain, |outs|) &&
                              RecordTold(digest, p.request, p.world, chain, outs, outcome.record)
    {
      assert PlanYields(p, outs);
      assert Complete(digest, p, outs, outcome.record);
    }
  }
}
