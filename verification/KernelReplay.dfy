/**
 Replay after execution: in every interleaving, the evidence an execution left in the shared
 ledger rebuilds exactly the fingerprint of the record it returned.
 */
module KernelReplay {
  import opened EvidenceLedger
  import opened HashChain
  import opened Ir
  import opened Kernel
  import KernelAccounting
  import KernelSafety
  import opened Replay
  import Scheduler
  import opened Sequences
  import opened StateMachine

  // ---------------------------------------------------------------- the chain of one process

  /** A hash chain from "genesis" under one id, with its last hash and its outputs. */
  ghost predicate ChainStands(
    digest: Digest, id: string, c: seq<EvidenceRecord>, prefixes: seq<string>, last: string, outputs: string)
  {
    && HashedFrom(digest, c, prefixes)
    && Linked(PrevHash, RecordHash, c, GENESIS)
    && last == (if c == [] then GENESIS else Last(c).recordHash)
    && (forall i :: 0 <= i < |c| ==> c[i].executionId == id)
    && Outputs(c) == outputs
  }

  ghost predicate ChainFits(digest: Digest, p: Process) {
    ChainStands(digest, p.request.executionId, p.chain, p.prefixes, p.prevHash, RecordedOutputs(p.stepRecords))
  }

  /** The record carries the fingerprint of the outputs recorded so far. */
  ghost predicate RecordFits(digest: Digest, p: Process, record: ExecutionRecord) {
    && record.executionId == p.request.executionId
    && (p.chain != [] ==>
          record.fingerprint == Fingerprint(record.material, digest(RecordedOutputs(p.stepRecords)), digest))
  }

  predicate PlanFailed(p: Process) {
    Scheduler.PlanResult(p.request.steps, p.world.calls).Failed?
  }

  /** Where in `execute` evidence exists: `empty` tells whether there is none, `failed` whether the plan failed. */
  predicate StageFits(phase: Phase, empty: bool, failed: bool) {
    match phase
    case RecordingContext => empty && !failed
    case RecordingStep(_) => !empty && !failed
    case ConsumingBudget => !empty && !failed
    case Validating(_) => !empty && !failed
    case Recovering(_) => empty <==> failed
    case Leaving(outcome) => OutcomeStage(outcome, empty, failed)
    case Done(outcome) => OutcomeStage(outcome, empty, failed)
    case _ => empty
  }

  predicate OutcomeStage(outcome: Outcome, empty: bool, failed: bool) {
    match outcome
    case Returned(_) => empty <==> failed
    case Errored(reason) => reason == ConsumeFailed || reason == RecoveryFailed ==> (empty <==> failed)
  }

  /** The record an execution is about to return, or has returned. */
  function RecordOf(phase: Phase): Option<ExecutionRecord> {
    match phase
    case Validating(record) => Some(record)
    case Recovering(record) => Some(record)
    case Leaving(outcome) => if outcome.Returned? then Some(outcome.record) else None
    case Done(outcome) => if outcome.Returned? then Some(outcome.record) else None
    case _ => None
  }

  ghost predicate RecordStands(digest: Digest, p: Process) {
    RecordOf(p.phase).Some? ==> RecordFits(digest, p, RecordOf(p.phase).value)
  }

  ghost predicate EvidenceFits(digest: Digest, p: Process) {
    StageFits(p.phase, p.chain == [], PlanFailed(p)) && RecordStands(digest, p)
  }

  lemma LinkedSnoc(c: seq<EvidenceRecord>, e: EvidenceRecord)
    requires Linked(PrevHash, RecordHash, c, GENESIS)
    requires e.prevHash == if c == [] then GENESIS else Last(c).recordHash
    ensures Linked(PrevHash, RecordHash, c + [e], GENESIS)
  {
    var d := c + [e];
    forall i | 0 <= i < |d| ensures PrevHash(d[i]) == PrevOf(RecordHash, d, GENESIS, i) {
      if i < |c| {
        assert PrevHash(c[i]) == PrevOf(RecordHash, c, GENESIS, i);
      }
    }
  }

  /** Appending a record that names the last hash keeps the chain. */
  lemma ChainExtends(
    digest: Digest, id: string, c: seq<EvidenceRecord>, prefixes: seq<string>, last: string, outputs: string,
    e: EvidenceRecord, prefix: string)
    requires ChainStands(digest, id, c, prefixes, last, outputs) && e.prevHash == last && e.executionId == id
    requires e.recordHash == digest(RecordText(prefix, last))
    ensures ChainStands(digest, id, c + [e], prefixes + [prefix], e.recordHash, outputs + OutputOf(e))
  {
    LinkedSnoc(c, e);
    OutputsSnoc(c, e);
    HashedSnoc(digest, c, prefixes, e, prefix);
  }

  lemma ExtendFits(digest: Digest, p: Process, e: EvidenceRecord, prefix: string, records: seq<StepRecord>)
    requires ChainFits(digest, p) && e.prevHash == p.prevHash && e.executionId == p.request.executionId
    requires e.recordHash == digest(RecordText(prefix, p.prevHash))
    requires RecordedOutputs(records) == RecordedOutputs(p.stepRecords) + OutputOf(e)
    ensures ChainFits(digest, Extend(p, e, prefix).(stepRecords := records))
  {
    var outputs := RecordedOutputs(p.stepRecords);
    ChainExtends(digest, p.request.executionId, p.chain, p.prefixes, p.prevHash, outputs, e, prefix);
  }

  lemma HashedSnoc(digest: Digest, c: seq<EvidenceRecord>, prefixes: seq<string>, e: EvidenceRecord, prefix: string)
    requires HashedFrom(digest, c, prefixes) && e.recordHash == digest(RecordText(prefix, e.prevHash))
    ensures HashedFrom(digest, c + [e], prefixes + [prefix])
  {
  }

  lemma RecordContextFits(digest: Digest, sh: Shared, p: Process)
    requires ChainFits(digest, p)
    ensures ChainFits(digest, RecordContext(digest, sh, p).1)
  {
    var e := ContextEvidence(digest, p);
    assert RecordedOutputs(p.stepRecords) + "" == RecordedOutputs(p.stepRecords);
    assert e.eventType != STEP_EXECUTED by {
      assert |CONTEXT_BOUND| != |STEP_EXECUTED|;
    }
    ExtendFits(digest, p, e, ContextPrefix(digest, p), p.stepRecords);
  }

  lemma RecordStepFits(digest: Digest, sh: Shared, p: Process, i: nat)
    requires ChainFits(digest, p)
    ensures ChainFits(digest, RecordStep(digest, sh, p, i).1)
  {
    if i < |p.outputs| && FindStep(p.request.steps, p.outputs[i].stepId).Some? {
      var out := p.outputs[i];
      var step := FindStep(p.request.steps, out.stepId).value;
      var e := StepEvidence(digest, p, out, step, 2 * i + 1);
      var r := StepRecord(out.stepId, step.capabilityRef, digest(step.input), digest(out.output), out.costUnits,
                          p.world.clock(2 * i + 2));
      assert (p.stepRecords + [r])[..|p.stepRecords|] == p.stepRecords;
      ExtendFits(digest, p, e, StepPrefix(digest, p, out, step), p.stepRecords + [r]);
    }
  }

  predicate Recording(p: Process) {
    p.phase.RecordingContext? || p.phase.RecordingStep?
  }

  predicate Gating(p: Process) {
    p.phase.Admission? || p.phase.EnteringEnforcement? || p.phase.Attesting? || p.phase.GatingStep?
  }

  lemma GatesAddNoEvidence(digest: Digest, sh: Shared, p: Process)
    requires Gating(p)
    ensures SameEvidence(p, Step(digest, sh, p).1) && Step(digest, sh, p).0.ledger == sh.ledger
  {
  }

  predicate Ending(p: Process) {
    p.phase.Validating? || p.phase.Recovering? || p.phase.Leaving? || p.phase.Done?
  }

  lemma EndingAddsNoEvidence(digest: Digest, sh: Shared, p: Process)
    requires Ending(p)
    ensures SameEvidence(p, Step(digest, sh, p).1) && Step(digest, sh, p).0.ledger == sh.ledger
  {
  }

  /** Only the recording steps touch the ledger. */
  lemma OtherStepsAddNoEvidence(digest: Digest, sh: Shared, p: Process)
    requires !Recording(p)
    ensures SameEvidence(p, Step(digest, sh, p).1) && Step(digest, sh, p).0.ledger == sh.ledger
  {
    if Gating(p) {
      GatesAddNoEvidence(digest, sh, p);
    } else if Ending(p) {
      EndingAddsNoEvidence(digest, sh, p);
    }
  }

  lemma SameEvidenceFits(digest: Digest, p: Process, q: Process)
    requires ChainFits(digest, p) && SameEvidence(p, q)
    ensures ChainFits(digest, q)
  {
  }

  lemma ContextKeepsChain(digest: Digest, sh: Shared, p: Process)
    requires ChainFits(digest, p) && p.phase.RecordingContext?
    ensures ChainFits(digest, Step(digest, sh, p).1)
  {
    RecordContextFits(digest, sh, p);
  }

  lemma RecordingKeepsChain(digest: Digest, sh: Shared, p: Process, i: nat)
    requires ChainFits(digest, p) && p.phase == RecordingStep(i)
    ensures ChainFits(digest, Step(digest, sh, p).1)
  {
    RecordStepFits(digest, sh, p, i);
  }

  lemma StepKeepsChain(digest: Digest, sh: Shared, p: Process)
    requires ChainFits(digest, p)
    ensures ChainFits(digest, Step(digest, sh, p).1)
  {
    if p.phase.RecordingContext? {
      ContextKeepsChain(digest, sh, p);
    } else if p.phase.RecordingStep? {
      RecordingKeepsChain(digest, sh, p, p.phase.i);
    } else {
      OtherStepsAddNoEvidence(digest, sh, p);
      SameEvidenceFits(digest, p, Step(digest, sh, p).1);
    }
  }

  predicate StagedFor(p: Process, q: Process) {
    StageFits(p.phase, p.chain == [], PlanFailed(p)) ==> StageFits(q.phase, q.chain == [], PlanFailed(q))
  }

  lemma GatesKeepStage(digest: Digest, sh: Shared, p: Process)
    requires Gating(p)
    ensures StagedFor(p, Step(digest, sh, p).1)
  {
    if p.phase.Admission? {
      SameEvidenceKeepsStage(p, Admit(p));
    } else if p.phase.GatingStep? {
      SameEvidenceKeepsStage(p, GateStep(p, p.phase.i));
    }
  }

  /** Before the plan has run, what adds no evidence keeps the stage. */
  lemma SameEvidenceKeepsStage(p: Process, q: Process)
    requires SameEvidence(p, q) && (Gating(p) || Reserving(p))
    requires Gating(q) || Reserving(q) || q.phase.RunningPlan? || Refused(q)
    ensures StagedFor(p, q)
  {
  }

  predicate Reserving(p: Process) {
    p.phase.TakingResources? || p.phase.ReservingBudget?
  }

  lemma ReservingKeepsStage(sh: Shared, p: Process)
    ensures p.phase.TakingResources? ==> StagedFor(p, TakeResources(sh, p).1)
    ensures p.phase.ReservingBudget? ==> StagedFor(p, ReserveBudget(sh, p).1)
  {
    if p.phase.TakingResources? {
      SameEvidenceKeepsStage(p, TakeResources(sh, p).1);
    } else if p.phase.ReservingBudget? {
      SameEvidenceKeepsStage(p, ReserveBudget(sh, p).1);
    }
  }

  lemma RunPlanKeepsStage(p: Process)
    requires p.phase.RunningPlan?
    ensures StagedFor(p, RunPlan(p))
  {
  }

  lemma RecordingKeepsStage(digest: Digest, sh: Shared, p: Process, i: nat)
    requires p.phase == RecordingStep(i)
    ensures StagedFor(p, RecordStep(digest, sh, p, i).1)
  {
  }

  lemma ContextKeepsStage(digest: Digest, sh: Shared, p: Process)
    requires p.phase.RecordingContext?
    ensures StagedFor(p, RecordContext(digest, sh, p).1)
  {
  }

  lemma ConsumeKeepsStage(digest: Digest, sh: Shared, p: Process)
    requires p.phase.ConsumingBudget?
    ensures StagedFor(p, Consume(digest, sh, p).1)
  {
  }

  lemma ValidateKeepsStage(p: Process)
    ensures p.phase.Validating? ==> StagedFor(p, Validate(p, p.phase.record))
  {
  }

  lemma RecoverKeepsStage(p: Process, record: ExecutionRecord)
    requires p.phase == Recovering(record)
    ensures StagedFor(p, Recover(p, record))
  {
  }

  lemma StepKeepsStage(digest: Digest, sh: Shared, p: Process)
    ensures StagedFor(p, Step(digest, sh, p).1)
  {
    match p.phase
    case RunningPlan => RunPlanKeepsStage(p);
    case RecordingContext => ContextKeepsStage(digest, sh, p);
    case RecordingStep(i) => RecordingKeepsStage(digest, sh, p, i);
    case ConsumingBudget => ConsumeKeepsStage(digest, sh, p);
    case TakingResources => ReservingKeepsStage(sh, p);
    case ReservingBudget => ReservingKeepsStage(sh, p);
    case Validating(_) => ValidateKeepsStage(p);
    case Recovering(record) => RecoverKeepsStage(p, record);
    case Leaving(_) =>
    case Done(_) =>
    case _ => GatesKeepStage(digest, sh, p);
  }

  /** A record is made from what has been recorded, and kept as it is but for its status and its explanation. */
  lemma ConsumeKeepsRecord(digest: Digest, sh: Shared, p: Process)
    requires p.phase.ConsumingBudget?
    ensures RecordStands(digest, Consume(digest, sh, p).1)
  {
  }

  lemma RunPlanKeepsRecord(digest: Digest, p: Process)
    requires p.phase.RunningPlan? && p.chain == []
    ensures RecordStands(digest, RunPlan(p))
  {
  }

  lemma ValidateKeepsRecord(digest: Digest, p: Process)
    requires p.phase.Validating? && RecordStands(digest, p)
    ensures RecordStands(digest, Validate(p, p.phase.record))
  {
  }

  lemma RecoverKeepsRecord(digest: Digest, p: Process)
    requires p.phase.Recovering? && RecordStands(digest, p)
    ensures RecordStands(digest, Recover(p, p.phase.record))
  {
  }

  lemma EndingKeepsRecord(digest: Digest, sh: Shared, p: Process)
    requires Ending(p) && RecordStands(digest, p)
    ensures RecordStands(digest, Step(digest, sh, p).1)
  {
    if p.phase.Validating? {
      ValidateKeepsRecord(digest, p);
    } else if p.phase.Recovering? {
      RecoverKeepsRecord(digest, p);
    }
  }

  lemma OthersMakeNoRecord(digest: Digest, sh: Shared, p: Process)
    requires !p.phase.RunningPlan? && !p.phase.ConsumingBudget? && !Ending(p)
    ensures RecordOf(Step(digest, sh, p).1.phase) == None
  {
  }

  lemma StepKeepsEvidence(digest: Digest, sh: Shared, p: Process)
    requires EvidenceFits(digest, p)
    ensures EvidenceFits(digest, Step(digest, sh, p).1)
  {
    StepKeepsStage(digest, sh, p);
    StepKeepsRecord(digest, sh, p);
  }

  lemma StepKeepsRecord(digest: Digest, sh: Shared, p: Process)
    requires EvidenceFits(digest, p)
    ensures RecordStands(digest, Step(digest, sh, p).1)
  {
    if p.phase.RunningPlan? {
      RunPlanKeepsRecord(digest, p);
    } else if p.phase.ConsumingBudget? {
      ConsumeKeepsRecord(digest, sh, p);
    } else if Ending(p) {
      EndingKeepsRecord(digest, sh, p);
    } else {
      OthersMakeNoRecord(digest, sh, p);
    }
  }

  // ---------------------------------------------------------------- the shared ledger

  /** The step adds the same records, at most one and under its own id, to the ledger and to its chain. */
  ghost predicate Adds(
    sh: Shared, p: Process, after: Shared, q: Process, added: seq<EvidenceRecord>)
  {
    && after.ledger == sh.ledger + added && q.chain == p.chain + added
    && |added| <= 1 && forall i :: 0 <= i < |added| ==> added[i].executionId == p.request.executionId
  }

  lemma ContextAdds(digest: Digest, sh: Shared, p: Process) returns (added: seq<EvidenceRecord>)
    ensures var (after, q) := RecordContext(digest, sh, p); Adds(sh, p, after, q, added)
  {
    added := [ContextEvidence(digest, p)];
  }

  lemma RecordStepAdds(digest: Digest, sh: Shared, p: Process, i: nat) returns (added: seq<EvidenceRecord>)
    ensures var (after, q) := RecordStep(digest, sh, p, i); Adds(sh, p, after, q, added)
  {
    added := RecordStep(digest, sh, p, i).1.chain[|p.chain|..];
  }

  lemma RecordingAddsOwnEvidence(digest: Digest, sh: Shared, p: Process) returns (added: seq<EvidenceRecord>)
    requires Recording(p)
    ensures var (after, q) := Step(digest, sh, p); Adds(sh, p, after, q, added)
  {
    if p.phase.RecordingContext? {
      added := ContextAdds(digest, sh, p);
    } else {
      added := RecordStepAdds(digest, sh, p, p.phase.i);
    }
  }

  /** A step leaves the ledger alone or adds one record of its own execution to it. */
  lemma StepOnLedger(digest: Digest, sh: Shared, p: Process) returns (added: seq<EvidenceRecord>)
    ensures var (after, q) := Step(digest, sh, p);
            after.ledger == sh.ledger + added && q.chain == p.chain + added
    ensures |added| <= 1 && forall i :: 0 <= i < |added| ==> added[i].executionId == p.request.executionId
  {
    if Recording(p) {
      added := RecordingAddsOwnEvidence(digest, sh, p);
    } else {
      OtherStepsAddNoEvidence(digest, sh, p);
      added := [];
    }
  }

  lemma SelectSnoc(ledger: seq<EvidenceRecord>, added: seq<EvidenceRecord>, id: string)
    requires |added| <= 1
    ensures Select(ledger + added, id) == Select(ledger, id) +
            if added != [] && added[0].executionId == id then added else []
  {
    if added == [] {
      assert ledger + added == ledger;
    } else {
      assert (ledger + added)[..|ledger|] == ledger;
      assert added == [added[0]];
    }
  }

  ghost predicate DistinctIds(procs: seq<Process>) {
    forall i, j :: 0 <= i < j < |procs| ==> procs[i].request.executionId != procs[j].request.executionId
  }

  /** No execution shares its id with another, or with what the ledger already holds. */
  ghost predicate IdsUsedOnce(s: State) {
    && DistinctIds(s.procs)
    && forall i :: 0 <= i < |s.procs| ==> Select(s.shared.ledger, s.procs[i].request.executionId) == []
  }

  /** No other execution under the id of the i-th has left evidence. */
  ghost predicate OnlyOneRecorded(procs: seq<Process>, i: nat)
    requires i < |procs|
  {
    forall j :: 0 <= j < |procs| && j != i && procs[j].request.executionId == procs[i].request.executionId ==>
      procs[j].chain == []
  }

  lemma OnlyOneBefore(digest: Digest, s: State, pid: nat, i: nat)
    requires i < |s.procs| && OnlyOneRecorded(Next(digest, s, pid).procs, i)
    ensures OnlyOneRecorded(s.procs, i)
  {
    if pid < |s.procs| {
      var added := StepOnLedger(digest, s.shared, s.procs[pid]);
      var t := Next(digest, s, pid);
      forall j | 0 <= j < |s.procs| && j != i && s.procs[j].request.executionId == s.procs[i].request.executionId
        ensures s.procs[j].chain == []
      {
        assert t.procs[j].chain == [];
      }
    }
  }

  lemma NextKeepsOwn(digest: Digest, s: State, pid: nat, i: nat)
    requires i < |s.procs| && Select(s.shared.ledger, s.procs[i].request.executionId) == s.procs[i].chain
    requires OnlyOneRecorded(Next(digest, s, pid).procs, i)
    ensures var t := Next(digest, s, pid);
            Select(t.shared.ledger, t.procs[i].request.executionId) == t.procs[i].chain
  {
    if pid < |s.procs| {
      var t, id := Next(digest, s, pid), s.procs[i].request.executionId;
      var added := StepOnLedger(digest, s.shared, s.procs[pid]);
      SelectSnoc(s.shared.ledger, added, id);
      if pid != i && s.procs[pid].request.executionId == id {
        assert t.procs[pid].chain == [];
      }
    }
  }

  /** Where no other one left evidence under its id, the ledger holds for an execution what it appended, in order. */
  lemma {:induction false} RunKeepsOwn(digest: Digest, s: State, schedule: seq<nat>, i: nat)
    requires Started(s) && i < |s.procs| && Select(s.shared.ledger, s.procs[i].request.executionId) == []
    requires OnlyOneRecorded(Run(digest, s, schedule).procs, i)
    ensures var t := Run(digest, s, schedule);
            Select(t.shared.ledger, t.procs[i].request.executionId) == t.procs[i].chain
  {
    if schedule != [] {
      var before := schedule[..|schedule| - 1];
      OnlyOneBefore(digest, Run(digest, s, before), Last(schedule), i);
      RunKeepsOwn(digest, s, before, i);
      KernelAccounting.RunKeepsRequests(digest, s, before);
      NextKeepsOwn(digest, Run(digest, s, before), Last(schedule), i);
    }
  }

  lemma IdsUsedOnceRecordOnce(digest: Digest, s: State, schedule: seq<nat>, i: nat)
    requires IdsUsedOnce(s) && i < |s.procs|
    ensures OnlyOneRecorded(Run(digest, s, schedule).procs, i)
  {
    KernelAccounting.RunKeepsRequests(digest, s, schedule);
  }

  /** An execution that has returned left no evidence exactly when it was rejected or its plan failed. */
  lemma EndedWithoutEvidence(digest: Digest, s: State, schedule: seq<nat>, i: nat)
    requires Started(s) && i < |s.procs| && Run(digest, s, schedule).procs[i].phase.Done?
    ensures var p := Run(digest, s, schedule).procs[i];
            p.chain == [] <==> p.status == Rejected || PlanFailed(p)
  {
    RunKeepsChain(digest, s, schedule, i);
    KernelSafety.RunSound(digest, s, schedule, i);
    DoneWithoutEvidence(digest, Run(digest, s, schedule).procs[i]);
  }

  lemma DoneWithoutEvidence(digest: Digest, p: Process)
    requires EvidenceFits(digest, p) && KernelSafety.Sound(p) && p.phase.Done?
    ensures p.chain == [] <==> p.status == Rejected || PlanFailed(p)
  {
    if p.status == Rejected {
      KernelSafety.RejectedLeavesNoTrace(p);
    }
  }

  lemma {:induction false} RunKeepsChain(digest: Digest, s: State, schedule: seq<nat>, i: nat)
    requires Started(s) && i < |s.procs|
    ensures var t := Run(digest, s, schedule);
            ChainFits(digest, t.procs[i]) && EvidenceFits(digest, t.procs[i])
  {
    if schedule != [] {
      RunKeepsChain(digest, s, schedule[..|schedule| - 1], i);
      var t := Run(digest, s, schedule[..|schedule| - 1]);
      StepKeepsChain(digest, t.shared, t.procs[i]);
      StepKeepsEvidence(digest, t.shared, t.procs[i]);
    }
  }

  // ---------------------------------------------------------------- replay

  /** The chain of an execution is replayed to the fingerprint of its record. */
  lemma ChainReplays(digest: Digest, p: Process, ledger: seq<EvidenceRecord>, record: ExecutionRecord)
    requires ChainFits(digest, p) && RecordFits(digest, p, record) && p.chain != []
    requires Select(ledger, p.request.executionId) == p.chain
    requires HexLike(digest) && NoCollision(digest, RecordTexts(p.chain, p.prefixes))
    ensures ReplayCheck(digest, ledger, record) == Matches(record.fingerprint)
  {
    ChainIsKnownByHash(digest, p.chain, p.prefixes);
    ChainIsReplayedInOrder(p.chain, p.chain);
  }

  /** What a returned record says about the evidence of its execution. */
  lemma ReturnedEvidence(digest: Digest, p: Process)
    requires EvidenceFits(digest, p) && p.phase.Done? && p.phase.outcome.Returned?
    ensures PlanFailed(p) <==> p.chain == []
    ensures RecordFits(digest, p, p.phase.outcome.record)
  {
  }

  lemma NothingReplays(digest: Digest, p: Process, ledger: seq<EvidenceRecord>, record: ExecutionRecord)
    requires RecordFits(digest, p, record) && Select(ledger, p.request.executionId) == p.chain == []
    ensures ReplayCheck(digest, ledger, record) == NoEvidence
  {
  }

  /**
   In every interleaving, and at any time after an execution has returned a record under an id that
   no other execution has left evidence under: replay confirms the record's fingerprint from the
   ledger alone, or, exactly when the plan itself failed, finds no evidence. Only collisions among
   the record hashes of that one execution are excluded.
   */
  lemma ReturnedRecordsReplay(digest: Digest, s: State, schedule: seq<nat>, i: nat)
    requires Started(s) && i < |s.procs| && HexLike(digest)
    requires Select(s.shared.ledger, s.procs[i].request.executionId) == []
    requires var t := Run(digest, s, schedule);
             && OnlyOneRecorded(t.procs, i) && t.procs[i].phase.Done? && t.procs[i].phase.outcome.Returned?
             && NoCollision(digest, RecordTexts(t.procs[i].chain, t.procs[i].prefixes))
    ensures var t := Run(digest, s, schedule);
            var record := t.procs[i].phase.outcome.record;
            ReplayCheck(digest, t.shared.ledger, record) ==
            if PlanFailed(s.procs[i]) then NoEvidence else Matches(record.fingerprint)
  {
    var t := Run(digest, s, schedule);
    RunKeepsOwn(digest, s, schedule, i);
    RunKeepsChain(digest, s, schedule, i);
    KernelAccounting.RunKeepsRequests(digest, s, schedule);
    OwnEvidenceReplays(digest, t.procs[i], t.shared.ledger);
  }

  lemma OwnEvidenceReplays(digest: Digest, p: Process, ledger: seq<EvidenceRecord>)
    requires ChainFits(digest, p) && EvidenceFits(digest, p) && p.phase.Done? && p.phase.outcome.Returned?
    requires Select(ledger, p.request.executionId) == p.chain
    requires HexLike(digest) && NoCollision(digest, RecordTexts(p.chain, p.prefixes))
    ensures ReplayCheck(digest, ledger, p.phase.outcome.record) ==
            if PlanFailed(p) then NoEvidence else Matches(p.phase.outcome.record.fingerprint)
  {
    ReturnedEvidence(digest, p);
    if PlanFailed(p) {
      NothingReplays(digest, p, ledger, p.phase.outcome.record);
    } else {
      ChainReplays(digest, p, ledger, p.phase.outcome.record);
    }
  }
}
