/**
 The kernel over the file ledgers: the same steps, with evidence and budget kept as text logs that
 are decoded on every read. On logs that end in a line break nothing distinguishes it from the
 kernel over the in-memory ledgers, and what it leaves in the files outlives it.
 */
module FileKernel {
  import BudgetLedger
  import opened EvidenceLedger
  import opened Ir
  import opened Kernel
  import KernelAccounting
  import KernelReplay
  import opened Numbers
  import opened Replay
  import opened Resource
  import opened Sequences
  import opened StateMachine
  import opened Text

  datatype Files = Files(evidenceLog: string, budgetLog: string, pool: Pool)

  /** What the logs are read as. */
  function Read(f: Files): Shared {
    Shared(DecodeAll(Lines(f.evidenceLog)), BudgetLedger.Load(f.budgetLog), f.pool)
  }

  predicate Sane(f: Files) {
    Terminated(f.evidenceLog) && Terminated(f.budgetLog)
  }

  // ---------------------------------------------------------------- steps on files

  function AppendTo(f: Files, e: EvidenceRecord): Files {
    f.(evidenceLog := EvidenceLedger.FileStep(f.evidenceLog, Append(e)).0)
  }

  function ReserveInFile(f: Files, p: Process): (Files, Process) {
    if p.world.budgetReachable then
      var op := BudgetLedger.Reserve(AccountId(p.request), p.request.tenantId, |p.request.steps|);
      (f.(budgetLog := BudgetLedger.FileStep(f.budgetLog, op).0), Move(p.(reserved := true), Executing, RunningPlan))
    else (f, Reject(p, BudgetRejected))
  }

  function RecordContextInFile(digest: Digest, f: Files, p: Process): (Files, Process) {
    var e := ContextEvidence(digest, p);
    (AppendTo(f, e), Extend(p, e, ContextPrefix(digest, p)).(phase := RecordingStep(0)))
  }

  function RecordStepInFile(digest: Digest, f: Files, p: Process, i: nat): (Files, Process) {
    if i >= |p.outputs| then (f, p.(phase := ConsumingBudget))
    else
      var out := p.outputs[i];
      match FindStep(p.request.steps, out.stepId)
      case None => (f, p.(phase := Leaving(Errored(StepNotFound))))
      case Some(step) =>
        var e := StepEvidence(digest, p, out, step, 2 * i + 1);
        var r := StepRecord(out.stepId, step.capabilityRef, digest(step.input), digest(out.output), out.costUnits,
                            p.world.clock(2 * i + 2));
        (AppendTo(f, e),
         Extend(p, e, StepPrefix(digest, p, out, step)).(
           stepRecords := p.stepRecords + [r], phase := RecordingStep(i + 1)))
  }

  function ConsumeInFile(digest: Digest, f: Files, p: Process): (Files, Process) {
    var (log, reply) :=
      BudgetLedger.FileStep(f.budgetLog, BudgetLedger.Consume(AccountId(p.request), AsU64(CostOf(p.stepRecords))));
    if reply != BudgetLedger.Done then (f, p.(phase := Leaving(Errored(ConsumeFailed))))
    else
      (f.(budgetLog := log),
       Move(Log(p.(consumed := true), ConsumedBudget(p.status)), Verifying, Validating(CompletedRecord(digest, p))))
  }

  /** The steps on the pool, and those on nothing shared, are those of the kernel in memory. */
  function FileStep(digest: Digest, f: Files, p: Process): (Files, Process) {
    match p.phase
    case ReservingBudget => ReserveInFile(f, p)
    case RecordingContext => RecordContextInFile(digest, f, p)
    case RecordingStep(i) => RecordStepInFile(digest, f, p, i)
    case ConsumingBudget => ConsumeInFile(digest, f, p)
    case _ =>
      var (after, q) := Step(digest, Read(f), p);
      (f.(pool := after.pool), q)
  }

  // ---------------------------------------------------------------- refinement

  /** The step on files is the step in memory on what the files are read as. */
  ghost predicate Refines(f: Files, after: (Files, Process), step: (Shared, Process)) {
    Sane(f) ==> Sane(after.0) && (Read(after.0), after.1) == step
  }

  lemma AppendRefines(f: Files, e: EvidenceRecord)
    requires Sane(f)
    ensures Sane(AppendTo(f, e)) && Read(AppendTo(f, e)) == Read(f).(ledger := Read(f).ledger + [e])
  {
    AppendExtendsLog(f.evidenceLog, e);
  }

  lemma ReserveRefines(f: Files, p: Process)
    ensures Refines(f, ReserveInFile(f, p), ReserveBudget(Read(f), p))
  {
    if Sane(f) {
      var op := BudgetLedger.Reserve(AccountId(p.request), p.request.tenantId, |p.request.steps|);
      BudgetLedger.StepsAgree(f.budgetLog, op);
    }
  }

  lemma ContextRefines(digest: Digest, f: Files, p: Process)
    ensures Refines(f, RecordContextInFile(digest, f, p), RecordContext(digest, Read(f), p))
  {
    if Sane(f) {
      AppendRefines(f, ContextEvidence(digest, p));
    }
  }

  lemma RecordStepRefines(digest: Digest, f: Files, p: Process, i: nat)
    ensures Refines(f, RecordStepInFile(digest, f, p, i), RecordStep(digest, Read(f), p, i))
  {
    if Sane(f) && i < |p.outputs| && FindStep(p.request.steps, p.outputs[i].stepId).Some? {
      var out := p.outputs[i];
      AppendRefines(f, StepEvidence(digest, p, out, FindStep(p.request.steps, out.stepId).value, 2 * i + 1));
    }
  }

  lemma ConsumeRefines(digest: Digest, f: Files, p: Process)
    ensures Refines(f, ConsumeInFile(digest, f, p), Consume(digest, Read(f), p))
  {
    if Sane(f) {
      var op := BudgetLedger.Consume(AccountId(p.request), AsU64(CostOf(p.stepRecords)));
      BudgetLedger.StepsAgree(f.budgetLog, op);
    }
  }

  predicate TouchesLedgers(p: Process) {
    KernelReplay.Recording(p) || p.phase.ReservingBudget? || p.phase.ConsumingBudget?
  }

  lemma OtherStepsRefine(digest: Digest, f: Files, p: Process)
    requires !TouchesLedgers(p)
    ensures Refines(f, FileStep(digest, f, p), Step(digest, Read(f), p))
  {
    KernelReplay.OtherStepsAddNoEvidence(digest, Read(f), p);
    KernelAccounting.OtherStepsLeaveBudget(digest, Read(f), p, "");
  }

  lemma ReserveStepRefines(digest: Digest, f: Files, p: Process)
    requires p.phase == ReservingBudget
    ensures Refines(f, FileStep(digest, f, p), Step(digest, Read(f), p))
  {
    ReserveRefines(f, p);
  }

  lemma ConsumeStepRefines(digest: Digest, f: Files, p: Process)
    requires p.phase == ConsumingBudget
    ensures Refines(f, FileStep(digest, f, p), Step(digest, Read(f), p))
  {
    ConsumeRefines(digest, f, p);
  }

  lemma ContextStepRefines(digest: Digest, f: Files, p: Process)
    requires p.phase == RecordingContext
    ensures Refines(f, FileStep(digest, f, p), Step(digest, Read(f), p))
  {
    ContextRefines(digest, f, p);
  }

  lemma RecordingStepRefines(digest: Digest, f: Files, p: Process, i: nat)
    requires p.phase == RecordingStep(i)
    ensures Refines(f, FileStep(digest, f, p), Step(digest, Read(f), p))
  {
    RecordStepRefines(digest, f, p, i);
  }

  lemma StepRefines(digest: Digest, f: Files, p: Process)
    ensures Refines(f, FileStep(digest, f, p), Step(digest, Read(f), p))
  {
    match p.phase
    case ReservingBudget => ReserveStepRefines(digest, f, p);
    case RecordingContext => ContextStepRefines(digest, f, p);
    case RecordingStep(i) => RecordingStepRefines(digest, f, p, i);
    case ConsumingBudget => ConsumeStepRefines(digest, f, p);
    case _ => OtherStepsRefine(digest, f, p);
  }

  // ---------------------------------------------------------------- interleavings

  datatype FileState = FileState(files: Files, procs: seq<Process>)

  function InMemory(s: FileState): State {
    State(Read(s.files), s.procs)
  }

  function FileNext(digest: Digest, s: FileState, pid: nat): (t: FileState)
    ensures |t.procs| == |s.procs|
  {
    if pid < |s.procs| then
      var (files, p) := FileStep(digest, s.files, s.procs[pid]);
      FileState(files, s.procs[pid := p])
    else s
  }

  function FileRun(digest: Digest, s: FileState, schedule: seq<nat>): (t: FileState)
    ensures |t.procs| == |s.procs|
  {
    if schedule == [] then s
    else FileNext(digest, FileRun(digest, s, schedule[..|schedule| - 1]), Last(schedule))
  }

  lemma NextRefines(digest: Digest, s: FileState, pid: nat)
    requires Sane(s.files)
    ensures Sane(FileNext(digest, s, pid).files)
    ensures InMemory(FileNext(digest, s, pid)) == Next(digest, InMemory(s), pid)
  {
    if pid < |s.procs| {
      StepRefines(digest, s.files, s.procs[pid]);
    }
  }

  /**
   In every interleaving, on logs that end in a line break: every execution goes through the same
   phases, and comes to the same outcome, as over the in-memory ledgers, and the logs are read as
   what those hold.
   */
  lemma {:induction false} RunRefines(digest: Digest, s: FileState, schedule: seq<nat>)
    requires Sane(s.files)
    ensures Sane(FileRun(digest, s, schedule).files)
    ensures InMemory(FileRun(digest, s, schedule)) == Run(digest, InMemory(s), schedule)
  {
    if schedule != [] {
      RunRefines(digest, s, schedule[..|schedule| - 1]);
      NextRefines(digest, FileRun(digest, s, schedule[..|schedule| - 1]), Last(schedule));
    }
  }

  // ---------------------------------------------------------------- replay and reopening

  /** Rebuilds the fingerprint of a record from the evidence log. */
  method CheckReplayFromFile(digest: Digest, evidence: FileLedger, record: ExecutionRecord) returns (reply: ReplayReply)
    ensures reply == ReplayCheck(digest, DecodeAll(Lines(evidence.log)), record)
  {
    var events := evidence.ByExecution(record.executionId);
    if events == [] {
      return NoEvidence;
    }
    var chainDigest := OutputChainDigestFromEvidence(events, digest);
    var replay := Fingerprint(record.material, chainDigest, digest);
    reply := if replay == record.fingerprint then Matches(replay) else Mismatch;
  }

  /** The logs as a new kernel finds them; its pool is new. */
  function Reopened(f: Files, cpuLimit: u32, memoryLimit: u32): Files {
    f.(pool := Pool(cpuLimit, memoryLimit, 0, 0))
  }

  /** No execution has left evidence under the id. */
  ghost predicate NoneRecorded(procs: seq<Process>, id: string) {
    forall j :: 0 <= j < |procs| && procs[j].request.executionId == id ==> procs[j].chain == []
  }

  lemma NextUntouched(digest: Digest, s: State, pid: nat, id: string)
    requires NoneRecorded(Next(digest, s, pid).procs, id)
    ensures NoneRecorded(s.procs, id)
    ensures Select(Next(digest, s, pid).shared.ledger, id) == Select(s.shared.ledger, id)
  {
    if pid < |s.procs| {
      var t := Next(digest, s, pid);
      var added := KernelReplay.StepOnLedger(digest, s.shared, s.procs[pid]);
      KernelReplay.SelectSnoc(s.shared.ledger, added, id);
      assert t.procs[pid].chain == s.procs[pid].chain + added;
      if t.procs[pid].request.executionId == id {
        assert t.procs[pid].chain == [];
      }
      forall j | 0 <= j < |s.procs| && s.procs[j].request.executionId == id ensures s.procs[j].chain == [] {
        assert t.procs[j].chain == [];
      }
    }
  }

  lemma {:induction false} LedgerUntouched(digest: Digest, s: State, schedule: seq<nat>, id: string)
    requires NoneRecorded(Run(digest, s, schedule).procs, id)
    ensures Select(Run(digest, s, schedule).shared.ledger, id) == Select(s.shared.ledger, id)
  {
    if schedule != [] {
      var before := schedule[..|schedule| - 1];
      NextUntouched(digest, Run(digest, s, before), Last(schedule), id);
      LedgerUntouched(digest, s, before, id);
    }
  }

  /**
   A record returned by a kernel over files replays from the logs after they have been reopened and
   other executions, in any interleaving, have used them: as long as nothing else was recorded
   under its id, replay confirms it, or finds no evidence if its plan had failed.
   */
  lemma ReplaysAfterReopening(
    digest: Digest, s: FileState, schedule: seq<nat>, i: nat, cpuLimit: u32, memoryLimit: u32,
    others: seq<Process>, later: seq<nat>)
    requires Sane(s.files) && Started(InMemory(s)) && i < |s.procs| && HexLike(digest)
    requires Select(Read(s.files).ledger, s.procs[i].request.executionId) == []
    requires var t := FileRun(digest, s, schedule);
             && KernelReplay.OnlyOneRecorded(t.procs, i) && t.procs[i].phase.Done?
             && t.procs[i].phase.outcome.Returned?
             && NoCollision(digest, RecordTexts(t.procs[i].chain, t.procs[i].prefixes))
             && NoneRecorded(
                  FileRun(digest, FileState(Reopened(t.files, cpuLimit, memoryLimit), others), later).procs,
                  s.procs[i].request.executionId)
    ensures var t := FileRun(digest, s, schedule);
            var end := FileRun(digest, FileState(Reopened(t.files, cpuLimit, memoryLimit), others), later);
            var record := t.procs[i].phase.outcome.record;
            ReplayCheck(digest, Read(end.files).ledger, record) ==
            if KernelReplay.PlanFailed(s.procs[i]) then NoEvidence else Matches(record.fingerprint)
  {
    var t := FileRun(digest, s, schedule);
    RunRefines(digest, s, schedule);
    KernelReplay.RunKeepsOwn(digest, InMemory(s), schedule, i);
    KernelReplay.RunKeepsChain(digest, InMemory(s), schedule, i);
    KernelAccounting.RunKeepsRequests(digest, InMemory(s), schedule);
    var again := FileState(Reopened(t.files, cpuLimit, memoryLimit), others);
    RunRefines(digest, again, later);
    LedgerUntouched(digest, InMemory(again), later, s.procs[i].request.executionId);
    KernelReplay.OwnEvidenceReplays(digest, t.procs[i], Read(FileRun(digest, again, later).files).ledger);
  }
}
