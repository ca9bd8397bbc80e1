/** The resource pool and the budget accounts under every interleaving of executions. */
module KernelAccounting {
  import BudgetLedger
  import Hardening
  import opened Ir
  import opened Kernel
  import KernelSafety
  import opened Numbers
  import opened Replay
  import opened Resource
  import Scheduler
  import opened Sequences

  // ---------------------------------------------------------------- one process

  /** What an execution holds, has reserved and has consumed, at each point of `execute`. */
  ghost predicate BooksFit(p: Process) {
    && (p.consumed ==> p.reserved)
    && match p.phase
       case Admission => !p.holding && !p.reserved
       case EnteringEnforcement => !p.holding && !p.reserved
       case Attesting => !p.holding && !p.reserved
       case GatingStep(_) => !p.holding && !p.reserved
       case TakingResources => !p.holding && !p.reserved
       case ReservingBudget => p.holding && !p.reserved
       case RunningPlan => p.holding && p.reserved && !p.consumed
       case RecordingContext => p.holding && p.reserved && !p.consumed
       case RecordingStep(_) => p.holding && p.reserved && !p.consumed
       case ConsumingBudget => p.holding && p.reserved && !p.consumed
       case Validating(_) => p.holding
       case Recovering(_) => p.holding
       case Leaving(_) => true
       case Done(_) => !p.holding
  }

  /** The first n outputs have been recorded, at their own cost. */
  ghost predicate CostsMatch(records: seq<StepRecord>, outputs: seq<Scheduler.Output>, n: nat) {
    && n <= |outputs| && |records| == n
    && forall j :: 0 <= j < n ==> records[j].costUnits == outputs[j].costUnits
  }

  ghost predicate RecordsFit(p: Process) {
    match p.phase
    case RecordingStep(i) => CostsMatch(p.stepRecords, p.outputs, i)
    case ConsumingBudget => CostsMatch(p.stepRecords, p.outputs, |p.outputs|)
    case RecordingContext => p.stepRecords == []
    case RunningPlan => p.stepRecords == []
    case ReservingBudget => p.stepRecords == []
    case TakingResources => p.stepRecords == []
    case GatingStep(_) => p.stepRecords == []
    case Attesting => p.stepRecords == []
    case EnteringEnforcement => p.stepRecords == []
    case Admission => p.stepRecords == []
    case _ => true
  }

  lemma StepKeepsBooks(digest: Digest, sh: Shared, p: Process)
    requires BooksFit(p)
    ensures BooksFit(Step(digest, sh, p).1)
  {
  }

  lemma RecordStepKeepsCosts(digest: Digest, sh: Shared, p: Process, i: nat)
    requires p.phase == RecordingStep(i) && CostsMatch(p.stepRecords, p.outputs, i)
    ensures RecordsFit(RecordStep(digest, sh, p, i).1)
  {
  }

  lemma GatesKeepRecords(digest: Digest, sh: Shared, p: Process)
    requires p.phase.Admission? || p.phase.EnteringEnforcement? || p.phase.Attesting? || p.phase.GatingStep?
             || p.phase.TakingResources? || p.phase.ReservingBudget?
    requires RecordsFit(p)
    ensures RecordsFit(Step(digest, sh, p).1)
  {
  }

  lemma PlanKeepsRecords(digest: Digest, sh: Shared, p: Process)
    requires p.phase == RunningPlan || p.phase == RecordingContext
    requires RecordsFit(p)
    ensures RecordsFit(Step(digest, sh, p).1)
  {
  }

  lemma EndingKeepsRecords(digest: Digest, sh: Shared, p: Process)
    requires p.phase.ConsumingBudget? || p.phase.Validating? || p.phase.Recovering? || p.phase.Leaving?
             || p.phase.Done?
    ensures RecordsFit(Step(digest, sh, p).1)
  {
  }

  lemma StepKeepsRecords(digest: Digest, sh: Shared, p: Process)
    requires RecordsFit(p)
    ensures RecordsFit(Step(digest, sh, p).1)
  {
    match p.phase
    case RecordingStep(i) => RecordStepKeepsCosts(digest, sh, p, i);
    case RunningPlan => PlanKeepsRecords(digest, sh, p);
    case RecordingContext => PlanKeepsRecords(digest, sh, p);
    case ConsumingBudget => EndingKeepsRecords(digest, sh, p);
    case Validating(_) => EndingKeepsRecords(digest, sh, p);
    case Recovering(_) => EndingKeepsRecords(digest, sh, p);
    case Leaving(_) => EndingKeepsRecords(digest, sh, p);
    case Done(_) => EndingKeepsRecords(digest, sh, p);
    case _ => GatesKeepRecords(digest, sh, p);
  }

  // ---------------------------------------------------------------- the pool

  function HeldCpu(p: Process): nat {
    if p.holding then Requirements(p).cpuUnits else 0
  }

  function HeldMemory(p: Process): nat {
    if p.holding then Requirements(p).memoryMb else 0
  }

  /** Beyond what was in use at the start, the pool knows exactly what the executions hold, within its limits. */
  ghost predicate PoolExact(start: Pool, pool: Pool, procs: seq<Process>) {
    && pool.cpuLimit == start.cpuLimit && pool.memoryLimit == start.memoryLimit
    && pool.cpuUsed == start.cpuUsed + SumOf(HeldCpu, procs) <= pool.cpuLimit
    && pool.memoryUsed == start.memoryUsed + SumOf(HeldMemory, procs) <= pool.memoryLimit
  }

  /** If the next step of p is a granted reservation, its sums do not overflow. */
  predicate GrantFits(pool: Pool, p: Process) {
    p.phase.TakingResources? && Grants(pool, Requirements(p)) ==> NoOverflow(pool, Requirements(p))
  }

  /** Between the pool and the process nothing is lost, and the limits are kept. */
  ghost predicate PoolMoved(before: Pool, p: Process, after: Pool, q: Process) {
    && after.cpuUsed + HeldCpu(p) == before.cpuUsed + HeldCpu(q)
    && after.memoryUsed + HeldMemory(p) == before.memoryUsed + HeldMemory(q)
    && after.cpuUsed <= after.cpuLimit == before.cpuLimit
    && after.memoryUsed <= after.memoryLimit == before.memoryLimit
  }

  lemma TakingMovesPool(sh: Shared, p: Process)
    requires BooksFit(p) && p.phase.TakingResources?
    requires sh.pool.cpuUsed <= sh.pool.cpuLimit && sh.pool.memoryUsed <= sh.pool.memoryLimit
    ensures var (after, q) := TakeResources(sh, p); PoolMoved(sh.pool, p, after.pool, q) <==> GrantFits(sh.pool, p)
  {
  }

  lemma LeavingMovesPool(sh: Shared, p: Process, outcome: Outcome)
    requires sh.pool.cpuUsed <= sh.pool.cpuLimit && sh.pool.memoryUsed <= sh.pool.memoryLimit
    requires HeldCpu(p) <= sh.pool.cpuUsed && HeldMemory(p) <= sh.pool.memoryUsed
    ensures var (after, q) := Leave(sh, p, outcome); PoolMoved(sh.pool, p, after.pool, q)
  {
  }

  lemma OtherStepsLeavePool(digest: Digest, sh: Shared, p: Process)
    requires !p.phase.TakingResources? && !p.phase.Leaving?
    ensures Step(digest, sh, p).0.pool == sh.pool && Step(digest, sh, p).1.holding == p.holding
  {
  }

  /** One step moves a reservation between pool and process, exactly unless it is an overflowing grant. */
  lemma StepOnPool(digest: Digest, sh: Shared, p: Process)
    requires BooksFit(p)
    requires sh.pool.cpuUsed <= sh.pool.cpuLimit && sh.pool.memoryUsed <= sh.pool.memoryLimit
    requires HeldCpu(p) <= sh.pool.cpuUsed && HeldMemory(p) <= sh.pool.memoryUsed
    ensures var (after, q) := Step(digest, sh, p); PoolMoved(sh.pool, p, after.pool, q) <==> GrantFits(sh.pool, p)
  {
    if p.phase.TakingResources? {
      TakingMovesPool(sh, p);
    } else if p.phase.Leaving? {
      LeavingMovesPool(sh, p, p.phase.outcome);
    } else {
      OtherStepsLeavePool(digest, sh, p);
    }
  }

  lemma {:induction false} PartOfSum<T>(f: T -> nat, s: seq<T>, i: nat)
    requires i < |s|
    ensures f(s[i]) <= SumOf(f, s)
  {
    if i < |s| - 1 {
      PartOfSum(f, s[..|s| - 1], i);
    }
  }

  lemma LimitsStay(digest: Digest, sh: Shared, p: Process)
    ensures var after := Step(digest, sh, p).0.pool;
            after.cpuLimit == sh.pool.cpuLimit && after.memoryLimit == sh.pool.memoryLimit
  {
    if !p.phase.TakingResources? && !p.phase.Leaving? {
      OtherStepsLeavePool(digest, sh, p);
    }
  }

  /** One step of the run keeps the pool exact if and only if it is not an overflowing grant. */
  lemma NextKeepsPoolIff(digest: Digest, start: Pool, s: State, pid: nat)
    requires pid < |s.procs| && BooksFit(s.procs[pid]) && PoolExact(start, s.shared.pool, s.procs)
    ensures var t := Next(digest, s, pid);
            PoolExact(start, t.shared.pool, t.procs) <==> GrantFits(s.shared.pool, s.procs[pid])
  {
    var p := s.procs[pid];
    PartOfSum(HeldCpu, s.procs, pid);
    PartOfSum(HeldMemory, s.procs, pid);
    StepOnPool(digest, s.shared, p);
    LimitsStay(digest, s.shared, p);
    var q := Step(digest, s.shared, p).1;
    SumUpdate(HeldCpu, s.procs, pid, q);
    SumUpdate(HeldMemory, s.procs, pid, q);
  }

  /** Requests and answers stay as they were; only the progress of the executions changes. */
  lemma {:induction false} RunKeepsRequests(digest: Digest, s: State, schedule: seq<nat>)
    ensures var t := Run(digest, s, schedule);
            forall i :: 0 <= i < |s.procs| ==>
              t.procs[i].request == s.procs[i].request && t.procs[i].world == s.procs[i].world
  {
    if schedule != [] {
      RunKeepsRequests(digest, s, schedule[..|schedule| - 1]);
    }
  }

  lemma {:induction false} RunKeepsBooks(digest: Digest, s: State, schedule: seq<nat>, i: nat)
    requires Started(s) && i < |s.procs|
    ensures var t := Run(digest, s, schedule);
            BooksFit(t.procs[i]) && RecordsFit(t.procs[i])
  {
    if schedule != [] {
      RunKeepsBooks(digest, s, schedule[..|schedule| - 1], i);
      var t := Run(digest, s, schedule[..|schedule| - 1]);
      StepKeepsBooks(digest, t.shared, t.procs[i]);
      StepKeepsRecords(digest, t.shared, t.procs[i]);
    }
  }

  predicate WithinLimits(pool: Pool) {
    pool.cpuUsed <= pool.cpuLimit && pool.memoryUsed <= pool.memoryLimit
  }

  lemma StartedPoolExact(s: State)
    requires Started(s) && WithinLimits(s.shared.pool)
    ensures PoolExact(s.shared.pool, s.shared.pool, s.procs)
  {
    SumZero(HeldCpu, s.procs);
    SumZero(HeldMemory, s.procs);
  }

  /** The pool is exact after the first k steps of the schedule. */
  ghost predicate ExactAfter(digest: Digest, s: State, schedule: seq<nat>, k: nat)
    requires k <= |schedule|
  {
    var t := Run(digest, s, schedule[..k]);
    PoolExact(s.shared.pool, t.shared.pool, t.procs)
  }

  /** The step at place k of the schedule is no overflowing grant. */
  ghost predicate FitsAt(digest: Digest, s: State, schedule: seq<nat>, k: nat)
    requires k < |schedule|
  {
    var t := Run(digest, s, schedule[..k]);
    schedule[k] < |t.procs| ==> GrantFits(t.shared.pool, t.procs[schedule[k]])
  }

  ghost predicate AlwaysExact(digest: Digest, s: State, schedule: seq<nat>) {
    forall k :: 0 <= k <= |schedule| ==> ExactAfter(digest, s, schedule, k)
  }

  ghost predicate EveryGrantFits(digest: Digest, s: State, schedule: seq<nat>) {
    forall k :: 0 <= k < |schedule| ==> FitsAt(digest, s, schedule, k)
  }

  lemma ExactnessStep(digest: Digest, s: State, schedule: seq<nat>, k: nat)
    requires Started(s) && k < |schedule| && ExactAfter(digest, s, schedule, k)
    ensures ExactAfter(digest, s, schedule, k + 1) <==> FitsAt(digest, s, schedule, k)
  {
    var before, pid := schedule[..k], schedule[k];
    assert schedule[..k + 1][..k] == before && Last(schedule[..k + 1]) == pid;
    if pid < |s.procs| {
      RunKeepsBooks(digest, s, before, pid);
      NextKeepsPoolIff(digest, s.shared.pool, Run(digest, s, before), pid);
    }
  }

  lemma {:induction false} FittingGrantsStayExact(digest: Digest, s: State, schedule: seq<nat>, k: nat)
    requires Started(s) && WithinLimits(s.shared.pool) && EveryGrantFits(digest, s, schedule) && k <= |schedule|
    ensures ExactAfter(digest, s, schedule, k)
  {
    if k == 0 {
      StartedPoolExact(s);
    } else {
      FittingGrantsStayExact(digest, s, schedule, k - 1);
      ExactnessStep(digest, s, schedule, k - 1);
    }
  }

  /**
   In every interleaving, what is used of the pool is at all times what was used at the start and
   the sum of what the executions hold, within the limits, if and only if no reservation that is
   granted along the way overflows 32 bits.
   */
  lemma PoolIsExact(digest: Digest, s: State, schedule: seq<nat>)
    requires Started(s) && WithinLimits(s.shared.pool)
    ensures AlwaysExact(digest, s, schedule) <==> EveryGrantFits(digest, s, schedule)
  {
    if EveryGrantFits(digest, s, schedule) {
      forall k | 0 <= k <= |schedule| ensures ExactAfter(digest, s, schedule, k) {
        FittingGrantsStayExact(digest, s, schedule, k);
      }
    }
    if AlwaysExact(digest, s, schedule) {
      forall k | 0 <= k < |schedule| ensures FitsAt(digest, s, schedule, k) {
        assert ExactAfter(digest, s, schedule, k) && ExactAfter(digest, s, schedule, k + 1);
        ExactnessStep(digest, s, schedule, k);
      }
    }
  }

  /** The request of p could not overflow 32 bits on top of a full pool. */
  predicate FitsFullPool(pool: Pool, p: Process) {
    && pool.cpuLimit + Requirements(p).cpuUnits < U32_RANGE
    && pool.memoryLimit + Requirements(p).memoryMb < U32_RANGE
  }

  ghost predicate AllFitFullPool(s: State) {
    forall i :: 0 <= i < |s.procs| ==> FitsFullPool(s.shared.pool, s.procs[i])
  }

  lemma {:induction false} SmallRequestsStayExact(digest: Digest, s: State, schedule: seq<nat>, n: nat)
    requires Started(s) && WithinLimits(s.shared.pool) && AllFitFullPool(s) && n <= |schedule|
    ensures ExactAfter(digest, s, schedule, n)
  {
    if n == 0 {
      StartedPoolExact(s);
    } else {
      SmallRequestsStayExact(digest, s, schedule, n - 1);
      SmallRequestFitsAt(digest, s, schedule, n - 1);
      ExactnessStep(digest, s, schedule, n - 1);
    }
  }

  /** Requests that fit on top of a full pool never overflow it, whatever the interleaving. */
  lemma SmallRequestsFit(digest: Digest, s: State, schedule: seq<nat>)
    requires Started(s) && WithinLimits(s.shared.pool) && AllFitFullPool(s)
    ensures EveryGrantFits(digest, s, schedule)
  {
    forall k | 0 <= k < |schedule| ensures FitsAt(digest, s, schedule, k) {
      SmallRequestsStayExact(digest, s, schedule, k);
      SmallRequestFitsAt(digest, s, schedule, k);
    }
  }

  lemma SmallRequestFitsAt(digest: Digest, s: State, schedule: seq<nat>, k: nat)
    requires k < |schedule| && ExactAfter(digest, s, schedule, k) && AllFitFullPool(s)
    ensures FitsAt(digest, s, schedule, k)
  {
    RunKeepsRequests(digest, s, schedule[..k]);
    if schedule[k] < |s.procs| {
      assert FitsFullPool(s.shared.pool, s.procs[schedule[k]]);
    }
  }

  /** However they ended, when all executions have returned the pool is what it was at the start. */
  lemma PoolIsFreedAtTheEnd(digest: Digest, s: State, schedule: seq<nat>)
    requires Started(s) && WithinLimits(s.shared.pool) && EveryGrantFits(digest, s, schedule)
    requires forall i :: 0 <= i < |s.procs| ==> Run(digest, s, schedule).procs[i].phase.Done?
    ensures Run(digest, s, schedule).shared.pool == s.shared.pool
  {
    var t := Run(digest, s, schedule);
    FittingGrantsStayExact(digest, s, schedule, |schedule|);
    assert schedule[..|schedule|] == schedule;
    forall i | 0 <= i < |t.procs| ensures HeldCpu(t.procs[i]) == 0 && HeldMemory(t.procs[i]) == 0 {
      RunKeepsBooks(digest, s, schedule, i);
    }
    SumZero(HeldCpu, t.procs);
    SumZero(HeldMemory, t.procs);
  }

  /** Behind the gates, and before the outcome is known. */
  predicate AtWork(p: Process) {
    || p.phase.RunningPlan? || p.phase.RecordingContext? || p.phase.RecordingStep? || p.phase.ConsumingBudget?
    || p.phase.Validating?
  }

  /**
   An execution that got past the gates carries every safeguard for each of its risky steps, and
   holds a reservation of at least what each of them may use.
   */
  lemma AdmittedStepsFitReservation(digest: Digest, s: State, schedule: seq<nat>, i: nat, j: nat)
    requires Started(s) && i < |s.procs| && AtWork(Run(digest, s, schedule).procs[i])
    requires j < |s.procs[i].request.steps| && !Hardening.RunsOn(s.procs[i].request.steps[j], Trusted)
    ensures var p, step := Run(digest, s, schedule).procs[i], s.procs[i].request.steps[j];
            && p.holding && Hardening.CeilingsWithin(step, Requirements(p))
            && Hardening.Guarded(step, p.request.constraints, name => p.world.backendAvailable(j, name))
  {
    KernelSafety.RunSound(digest, s, schedule, i);
    RunKeepsRequests(digest, s, schedule);
    RunKeepsBooks(digest, s, schedule, i);
    var p := Run(digest, s, schedule).procs[i];
    assert HardeningPasses(p.request, p.world, j);
    Hardening.AcceptedStepFitsReservation(
      p.request.steps[j], p.request.constraints, name => p.world.backendAvailable(j, name));
  }

  // ---------------------------------------------------------------- the budget

  /** The units a plan costs: one per step, one more per routed step. */
  function PlanUnits(r: Request): nat {
    |r.steps| + Scheduler.RoutedSteps(r.steps)
  }

  /** What p has reserved on the account: the number of its steps. */
  function ReservedOn(a: string): Process -> nat {
    (p: Process) => if p.reserved && AccountId(p.request) == a then |p.request.steps| else 0
  }

  /** What p has consumed from the account: the cost of its plan. */
  function ConsumedOn(a: string): Process -> nat {
    (p: Process) => if p.consumed && AccountId(p.request) == a then PlanUnits(p.request) else 0
  }

  /** What p may come to reserve on the account. */
  function PlannedOn(a: string): Process -> nat {
    (p: Process) => if AccountId(p.request) == a then |p.request.steps| else 0
  }

  /** Beyond its starting balance, the account is the exact balance of what the executions reserved and consumed. */
  ghost predicate BudgetExact(
    start: BudgetLedger.Accounts, accounts: BudgetLedger.Accounts, procs: seq<Process>, a: string)
  {
    && BudgetLedger.ReservedUnits(accounts, a) + SumOf(ConsumedOn(a), procs)
       == BudgetLedger.ReservedUnits(start, a) + SumOf(ReservedOn(a), procs)
    && BudgetLedger.ConsumedUnits(accounts, a) == BudgetLedger.ConsumedUnits(start, a) + SumOf(ConsumedOn(a), procs)
  }

  /** What one step moves between an execution and the account. */
  ghost predicate BudgetMoved(
    before: BudgetLedger.Accounts, p: Process, after: BudgetLedger.Accounts, q: Process, a: string)
  {
    && BudgetLedger.ReservedUnits(after, a) + ConsumedOn(a)(q) + ReservedOn(a)(p)
       == BudgetLedger.ReservedUnits(before, a) + ConsumedOn(a)(p) + ReservedOn(a)(q)
    && BudgetLedger.ConsumedUnits(after, a) + ConsumedOn(a)(p)
       == BudgetLedger.ConsumedUnits(before, a) + ConsumedOn(a)(q)
  }

  /** If the next step of p adds to the account, the sum fits 64 bits. */
  predicate AddFits(accounts: BudgetLedger.Accounts, p: Process, a: string) {
    AccountId(p.request) == a ==>
      && (p.phase.ReservingBudget? && p.world.budgetReachable ==>
            BudgetLedger.ReservedUnits(accounts, a) + |p.request.steps| <= U64_MAX)
      && (p.phase.ConsumingBudget? && a in accounts && accounts[a].reserved >= PlanUnits(p.request) ==>
            BudgetLedger.ConsumedUnits(accounts, a) + PlanUnits(p.request) <= U64_MAX)
  }

  lemma {:induction false} RoutedAtMostAll(steps: seq<ExecutionStep>)
    ensures Scheduler.RoutedSteps(steps) <= |steps|
  {
    if steps != [] {
      RoutedAtMostAll(steps[..|steps| - 1]);
    }
  }

  lemma {:induction false} RecordedCost(records: seq<StepRecord>, outputs: seq<Scheduler.Output>)
    requires CostsMatch(records, outputs, |outputs|)
    ensures CostOf(records) == Scheduler.TotalCost(outputs)
  {
    if outputs != [] {
      RecordedCost(records[..|records| - 1], outputs[..|outputs| - 1]);
    }
  }

  /** When consumption is due, the cost added up is the cost of the plan. */
  lemma CostIsPlanUnits(p: Process)
    requires KernelSafety.Sound(p) && RecordsFit(p) && p.phase.ConsumingBudget?
    ensures CostOf(p.stepRecords) == PlanUnits(p.request) && AsU64(CostOf(p.stepRecords)) == PlanUnits(p.request)
  {
    RecordedCost(p.stepRecords, p.outputs);
    Scheduler.PlanCost(p.request.steps, p.world.calls);
    RoutedAtMostAll(p.request.steps);
  }

  lemma ReserveMovesBudget(sh: Shared, p: Process, a: string)
    requires p.phase.ReservingBudget? && BooksFit(p)
    ensures var (after, q) := ReserveBudget(sh, p);
            BudgetMoved(sh.accounts, p, after.accounts, q, a) <==> AddFits(sh.accounts, p, a)
  {
  }

  lemma ConsumeMovesBudget(digest: Digest, sh: Shared, p: Process, a: string)
    requires p.phase.ConsumingBudget? && BooksFit(p) && AsU64(CostOf(p.stepRecords)) == PlanUnits(p.request)
    ensures var (after, q) := Consume(digest, sh, p);
            BudgetMoved(sh.accounts, p, after.accounts, q, a) <==> AddFits(sh.accounts, p, a)
  {
  }

  /** No other step touches the accounts. */
  lemma OtherStepsLeaveBudget(digest: Digest, sh: Shared, p: Process, a: string)
    requires !p.phase.ReservingBudget? && !p.phase.ConsumingBudget?
    ensures var (after, q) := Step(digest, sh, p);
            after.accounts == sh.accounts && q.reserved == p.reserved && q.consumed == p.consumed
            && BudgetMoved(sh.accounts, p, after.accounts, q, a)
  {
  }

  /** One step moves units between execution and account, exactly unless a sum is cut off at 64 bits. */
  lemma StepMovesBudget(digest: Digest, sh: Shared, p: Process, a: string)
    requires ProcessFits(p)
    ensures var (after, q) := Step(digest, sh, p);
            BudgetMoved(sh.accounts, p, after.accounts, q, a) <==> AddFits(sh.accounts, p, a)
  {
    if p.phase.ReservingBudget? {
      ReserveMovesBudget(sh, p, a);
    } else if p.phase.ConsumingBudget? {
      CostIsPlanUnits(p);
      ConsumeMovesBudget(digest, sh, p, a);
    } else {
      OtherStepsLeaveBudget(digest, sh, p, a);
    }
  }

  ghost predicate ProcessFits(p: Process) {
    BooksFit(p) && RecordsFit(p) && KernelSafety.Sound(p)
  }

  lemma RunFits(digest: Digest, s: State, schedule: seq<nat>, i: nat)
    requires Started(s) && i < |s.procs|
    ensures ProcessFits(Run(digest, s, schedule).procs[i])
  {
    RunKeepsBooks(digest, s, schedule, i);
    KernelSafety.RunSound(digest, s, schedule, i);
  }

  /** One step of the run keeps the account exact if and only if no sum is cut off. */
  lemma NextKeepsBudgetIff(digest: Digest, start: BudgetLedger.Accounts, s: State, pid: nat, a: string)
    requires pid < |s.procs| && ProcessFits(s.procs[pid]) && BudgetExact(start, s.shared.accounts, s.procs, a)
    ensures var t := Next(digest, s, pid);
            BudgetExact(start, t.shared.accounts, t.procs, a) <==> AddFits(s.shared.accounts, s.procs[pid], a)
  {
    StepMovesBudget(digest, s.shared, s.procs[pid], a);
    var q := Step(digest, s.shared, s.procs[pid]).1;
    SumUpdate(ReservedOn(a), s.procs, pid, q);
    SumUpdate(ConsumedOn(a), s.procs, pid, q);
  }

  /** The account is exact after the first k steps of the schedule. */
  ghost predicate BudgetExactAfter(digest: Digest, s: State, schedule: seq<nat>, a: string, k: nat)
    requires k <= |schedule|
  {
    var t := Run(digest, s, schedule[..k]);
    BudgetExact(s.shared.accounts, t.shared.accounts, t.procs, a)
  }

  /** The step at place k of the schedule adds to the account only what fits. */
  ghost predicate AddFitsAt(digest: Digest, s: State, schedule: seq<nat>, a: string, k: nat)
    requires k < |schedule|
  {
    var t := Run(digest, s, schedule[..k]);
    schedule[k] < |t.procs| ==> AddFits(t.shared.accounts, t.procs[schedule[k]], a)
  }

  ghost predicate BudgetAlwaysExact(digest: Digest, s: State, schedule: seq<nat>, a: string) {
    forall k :: 0 <= k <= |schedule| ==> BudgetExactAfter(digest, s, schedule, a, k)
  }

  ghost predicate EveryAddFits(digest: Digest, s: State, schedule: seq<nat>, a: string) {
    forall k :: 0 <= k < |schedule| ==> AddFitsAt(digest, s, schedule, a, k)
  }

  lemma StartedBudgetExact(s: State, a: string)
    requires Started(s)
    ensures BudgetExact(s.shared.accounts, s.shared.accounts, s.procs, a)
  {
    SumZero(ReservedOn(a), s.procs);
    SumZero(ConsumedOn(a), s.procs);
  }

  lemma BudgetStep(digest: Digest, s: State, schedule: seq<nat>, a: string, k: nat)
    requires Started(s) && k < |schedule| && BudgetExactAfter(digest, s, schedule, a, k)
    ensures BudgetExactAfter(digest, s, schedule, a, k + 1) <==> AddFitsAt(digest, s, schedule, a, k)
  {
    var before, pid := schedule[..k], schedule[k];
    assert schedule[..k + 1][..k] == before && Last(schedule[..k + 1]) == pid;
    if pid < |s.procs| {
      RunFits(digest, s, before, pid);
      NextKeepsBudgetIff(digest, s.shared.accounts, Run(digest, s, before), pid, a);
    }
  }

  lemma {:induction false} FittingAddsStayExact(digest: Digest, s: State, schedule: seq<nat>, a: string, k: nat)
    requires Started(s) && EveryAddFits(digest, s, schedule, a) && k <= |schedule|
    ensures BudgetExactAfter(digest, s, schedule, a, k)
  {
    if k == 0 {
      StartedBudgetExact(s, a);
    } else {
      FittingAddsStayExact(digest, s, schedule, a, k - 1);
      BudgetStep(digest, s, schedule, a, k - 1);
    }
  }

  /**
   In every interleaving, an account's consumed units have at all times grown by the plan costs of
   the executions that consumed, and its reserved units by the steps of those that reserved, less
   those costs, if and only if no sum added to it along the way exceeds 64 bits.
   */
  lemma BudgetIsExact(digest: Digest, s: State, schedule: seq<nat>, a: string)
    requires Started(s)
    ensures BudgetAlwaysExact(digest, s, schedule, a) <==> EveryAddFits(digest, s, schedule, a)
  {
    if EveryAddFits(digest, s, schedule, a) {
      forall k | 0 <= k <= |schedule| ensures BudgetExactAfter(digest, s, schedule, a, k) {
        FittingAddsStayExact(digest, s, schedule, a, k);
      }
    }
    if BudgetAlwaysExact(digest, s, schedule, a) {
      forall k | 0 <= k < |schedule| ensures AddFitsAt(digest, s, schedule, a, k) {
        assert BudgetExactAfter(digest, s, schedule, a, k) && BudgetExactAfter(digest, s, schedule, a, k + 1);
        BudgetStep(digest, s, schedule, a, k);
      }
    }
  }

  /** The starting balance and all plans charged to the account together fit 64 bits. */
  ghost predicate PlansFit(start: BudgetLedger.Accounts, procs: seq<Process>, a: string) {
    BudgetLedger.ReservedUnits(start, a) + BudgetLedger.ConsumedUnits(start, a) + SumOf(PlannedOn(a), procs) <= U64_MAX
  }

  lemma RoomOnAccount(
    start: BudgetLedger.Accounts, accounts: BudgetLedger.Accounts, procs: seq<Process>, pid: nat, a: string)
    requires pid < |procs| && BudgetExact(start, accounts, procs, a) && PlansFit(start, procs, a)
    ensures BudgetLedger.ReservedUnits(accounts, a) + BudgetLedger.ConsumedUnits(accounts, a) <= U64_MAX
    ensures AccountId(procs[pid].request) == a && !procs[pid].reserved ==>
              BudgetLedger.ReservedUnits(accounts, a) + |procs[pid].request.steps| <= U64_MAX
  {
    SumAtMost(ReservedOn(a), PlannedOn(a), procs);
    if AccountId(procs[pid].request) == a && !procs[pid].reserved {
      SumBelow(ReservedOn(a), PlannedOn(a), procs, pid, |procs[pid].request.steps|);
    }
  }

  lemma {:induction false} PlannedSame(a: string, before: seq<Process>, after: seq<Process>)
    requires |before| == |after| && forall i :: 0 <= i < |before| ==> before[i].request == after[i].request
    ensures SumOf(PlannedOn(a), before) == SumOf(PlannedOn(a), after)
  {
    if before != [] {
      PlannedSame(a, before[..|before| - 1], after[..|after| - 1]);
    }
  }

  lemma SmallPlanFitsAt(digest: Digest, s: State, schedule: seq<nat>, a: string, k: nat)
    requires Started(s) && k < |schedule| && BudgetExactAfter(digest, s, schedule, a, k)
    requires PlansFit(s.shared.accounts, s.procs, a)
    ensures AddFitsAt(digest, s, schedule, a, k)
  {
    var t, pid := Run(digest, s, schedule[..k]), schedule[k];
    RunKeepsRequests(digest, s, schedule[..k]);
    PlannedSame(a, s.procs, t.procs);
    if pid < |t.procs| {
      RunKeepsBooks(digest, s, schedule[..k], pid);
      RoomOnAccount(s.shared.accounts, t.shared.accounts, t.procs, pid, a);
    }
  }

  lemma {:induction false} SmallPlansStayExact(digest: Digest, s: State, schedule: seq<nat>, a: string, k: nat)
    requires Started(s) && PlansFit(s.shared.accounts, s.procs, a) && k <= |schedule|
    ensures BudgetExactAfter(digest, s, schedule, a, k)
  {
    if k == 0 {
      StartedBudgetExact(s, a);
    } else {
      SmallPlansStayExact(digest, s, schedule, a, k - 1);
      SmallPlansStep(digest, s, schedule, a, k - 1);
    }
  }

  lemma SmallPlansStep(digest: Digest, s: State, schedule: seq<nat>, a: string, k: nat)
    requires Started(s) && PlansFit(s.shared.accounts, s.procs, a) && k < |schedule|
    requires BudgetExactAfter(digest, s, schedule, a, k)
    ensures BudgetExactAfter(digest, s, schedule, a, k + 1)
  {
    SmallPlanFitsAt(digest, s, schedule, a, k);
    BudgetStep(digest, s, schedule, a, k);
  }

  /** Where the starting balance and all plans together fit 64 bits, no sum is ever cut off. */
  lemma SmallPlansFit(digest: Digest, s: State, schedule: seq<nat>, a: string)
    requires Started(s) && PlansFit(s.shared.accounts, s.procs, a)
    ensures EveryAddFits(digest, s, schedule, a)
  {
    forall k | 0 <= k < |schedule| ensures AddFitsAt(digest, s, schedule, a, k) {
      SmallPlansStayExact(digest, s, schedule, a, k);
      SmallPlanFitsAt(digest, s, schedule, a, k);
    }
  }

  /** An account that was reserved on exists. */
  ghost predicate AccountsOpen(accounts: BudgetLedger.Accounts, procs: seq<Process>) {
    forall i :: 0 <= i < |procs| && procs[i].reserved ==> AccountId(procs[i].request) in accounts
  }

  lemma StepKeepsOpen(digest: Digest, sh: Shared, p: Process)
    ensures var (after, q) := Step(digest, sh, p);
            && sh.accounts.Keys <= after.accounts.Keys
            && (q.reserved ==> p.reserved || AccountId(q.request) in after.accounts)
  {
    if !p.phase.ReservingBudget? && !p.phase.ConsumingBudget? {
      OtherStepsLeaveBudget(digest, sh, p, "");
    }
  }

  lemma {:induction false} RunKeepsOpen(digest: Digest, s: State, schedule: seq<nat>)
    requires Started(s)
    ensures var t := Run(digest, s, schedule); AccountsOpen(t.shared.accounts, t.procs)
  {
    if schedule != [] {
      var before, pid := schedule[..|schedule| - 1], Last(schedule);
      RunKeepsOpen(digest, s, before);
      if pid < |s.procs| {
        StepKeepsOpen(digest, Run(digest, s, before).shared, Run(digest, s, before).procs[pid]);
      }
    }
  }

  // ---------------------------------------------------------------- when consumption succeeds

  /** Consumption succeeds exactly when the account still holds the whole cost of the plan. */
  lemma ConsumeSucceedsIffCovered(digest: Digest, s: State, schedule: seq<nat>, i: nat)
    requires Started(s) && i < |s.procs| && EveryAddFits(digest, s, schedule, AccountId(s.procs[i].request))
    requires Run(digest, s, schedule).procs[i].phase.ConsumingBudget?
    ensures var t, a := Run(digest, s, schedule), AccountId(s.procs[i].request);
            Consume(digest, t.shared, t.procs[i]).1.consumed <==>
            BudgetLedger.ReservedUnits(s.shared.accounts, a) + SumOf(ReservedOn(a), t.procs)
            >= SumOf(ConsumedOn(a), t.procs) + PlanUnits(s.procs[i].request)
  {
    var t, a := Run(digest, s, schedule), AccountId(s.procs[i].request);
    FittingAddsStayExact(digest, s, schedule, a, |schedule|);
    assert schedule[..|schedule|] == schedule;
    RunKeepsOpen(digest, s, schedule);
    RunKeepsRequests(digest, s, schedule);
    RunFits(digest, s, schedule, i);
    CostIsPlanUnits(t.procs[i]);
    assert t.procs[i].reserved && a in t.shared.accounts;
    ConsumeGuard(digest, t.shared, t.procs[i]);
  }

  lemma ConsumeGuard(digest: Digest, sh: Shared, p: Process)
    requires !p.consumed && AccountId(p.request) in sh.accounts
    ensures Consume(digest, sh, p).1.consumed <==>
            sh.accounts[AccountId(p.request)].reserved >= AsU64(CostOf(p.stepRecords))
  {
  }

  lemma {:induction false} SumOnly<T>(f: T -> nat, s: seq<T>, i: nat)
    requires i < |s| && forall j :: 0 <= j < |s| && j != i ==> f(s[j]) == 0
    ensures SumOf(f, s) == f(s[i])
  {
    if i == |s| - 1 {
      SumZero(f, s[..|s| - 1]);
    } else {
      SumOnly(f, s[..|s| - 1], i);
    }
  }

  /** No other execution is charged to the account of the i-th. */
  ghost predicate AloneOnAccount(s: State, i: nat)
    requires i < |s.procs|
  {
    forall j :: 0 <= j < |s.procs| && j != i ==> AccountId(s.procs[j].request) != AccountId(s.procs[i].request)
  }

  /** Alone on its account, an execution passes consumption exactly when its routed steps were already reserved for. */
  lemma LoneExecutionConsumesIffCovered(digest: Digest, s: State, schedule: seq<nat>, i: nat)
    requires Started(s) && i < |s.procs| && AloneOnAccount(s, i)
    requires EveryAddFits(digest, s, schedule, AccountId(s.procs[i].request))
    requires Run(digest, s, schedule).procs[i].phase.ConsumingBudget?
    ensures var t := Run(digest, s, schedule);
            Consume(digest, t.shared, t.procs[i]).1.consumed <==>
            BudgetLedger.ReservedUnits(s.shared.accounts, AccountId(s.procs[i].request))
            >= Scheduler.RoutedSteps(s.procs[i].request.steps)
  {
    var t, a := Run(digest, s, schedule), AccountId(s.procs[i].request);
    RunKeepsRequests(digest, s, schedule);
    RunFits(digest, s, schedule, i);
    ConsumeSucceedsIffCovered(digest, s, schedule, i);
    SumOnly(ReservedOn(a), t.procs, i);
    SumOnly(ConsumedOn(a), t.procs, i);
  }

  /** On a fresh account that means: exactly when it routes no step. */
  lemma LoneExecutionConsumesIffUnrouted(digest: Digest, s: State, schedule: seq<nat>, i: nat)
    requires Started(s) && i < |s.procs| && AloneOnAccount(s, i)
    requires AccountId(s.procs[i].request) !in s.shared.accounts
    requires Run(digest, s, schedule).procs[i].phase.ConsumingBudget?
    ensures var t := Run(digest, s, schedule);
            Consume(digest, t.shared, t.procs[i]).1.consumed <==> Scheduler.RoutedSteps(s.procs[i].request.steps) == 0
  {
    SumOnly(PlannedOn(AccountId(s.procs[i].request)), s.procs, i);
    SmallPlansFit(digest, s, schedule, AccountId(s.procs[i].request));
    LoneExecutionConsumesIffCovered(digest, s, schedule, i);
  }

  predicate ConsumptionFailed(p: Process) {
    (p.phase.Leaving? || p.phase.Done?) && p.phase.outcome == Errored(ConsumeFailed)
  }

  lemma RecordingNeverFails(digest: Digest, sh: Shared, p: Process, i: nat)
    ensures !ConsumptionFailed(RecordContext(digest, sh, p).1) && !ConsumptionFailed(RecordStep(digest, sh, p, i).1)
  {
  }

  lemma EndingNeverFails(digest: Digest, sh: Shared, p: Process)
    requires !ConsumptionFailed(p) && (p.phase.Validating? || p.phase.Recovering? || p.phase.Leaving?)
    ensures !ConsumptionFailed(Step(digest, sh, p).1)
  {
  }

  lemma BeforeConsumingNeverFails(digest: Digest, sh: Shared, p: Process)
    requires p.phase.Admission? || p.phase.EnteringEnforcement? || p.phase.Attesting? || p.phase.GatingStep?
             || p.phase.TakingResources? || p.phase.ReservingBudget? || p.phase.RunningPlan?
    ensures !ConsumptionFailed(Step(digest, sh, p).1)
  {
  }

  lemma OnlyConsumingFails(digest: Digest, sh: Shared, p: Process)
    requires !p.phase.ConsumingBudget? && !ConsumptionFailed(p)
    ensures !ConsumptionFailed(Step(digest, sh, p).1)
  {
    match p.phase
    case RecordingContext => RecordingNeverFails(digest, sh, p, 0);
    case RecordingStep(i) => RecordingNeverFails(digest, sh, p, i);
    case Validating(_) => EndingNeverFails(digest, sh, p);
    case Recovering(_) => EndingNeverFails(digest, sh, p);
    case Leaving(_) => EndingNeverFails(digest, sh, p);
    case Done(_) =>
    case _ => BeforeConsumingNeverFails(digest, sh, p);
  }

  lemma ConsumedOrFailed(digest: Digest, sh: Shared, p: Process)
    requires p.phase.ConsumingBudget? && !p.consumed
    ensures Consume(digest, sh, p).1.consumed ==> !ConsumptionFailed(Consume(digest, sh, p).1)
  {
  }

  lemma NextNeverFails(digest: Digest, t: State, pid: nat, i: nat)
    requires i < |t.procs| && !ConsumptionFailed(t.procs[i])
    requires t.procs[i].phase.ConsumingBudget? ==> !ConsumptionFailed(Consume(digest, t.shared, t.procs[i]).1)
    ensures !ConsumptionFailed(Next(digest, t, pid).procs[i])
  {
    if pid == i && !t.procs[i].phase.ConsumingBudget? {
      OnlyConsumingFails(digest, t.shared, t.procs[i]);
    }
  }

  lemma UnroutedStepConsumes(digest: Digest, s: State, schedule: seq<nat>, i: nat)
    requires Started(s) && i < |s.procs| && EveryAddFits(digest, s, schedule, AccountId(s.procs[i].request))
    requires forall j :: 0 <= j < |s.procs| && AccountId(s.procs[j].request) == AccountId(s.procs[i].request) ==>
               Scheduler.RoutedSteps(s.procs[j].request.steps) == 0
    requires Run(digest, s, schedule).procs[i].phase.ConsumingBudget?
    ensures var t := Run(digest, s, schedule); !ConsumptionFailed(Consume(digest, t.shared, t.procs[i]).1)
  {
    var t := Run(digest, s, schedule);
    UnroutedIsCovered(digest, s, schedule, i);
    ConsumeSucceedsIffCovered(digest, s, schedule, i);
    RunFits(digest, s, schedule, i);
    ConsumedOrFailed(digest, t.shared, t.procs[i]);
  }

  lemma AddsFitBefore(digest: Digest, s: State, schedule: seq<nat>, a: string)
    requires schedule != [] && EveryAddFits(digest, s, schedule, a)
    ensures EveryAddFits(digest, s, schedule[..|schedule| - 1], a)
  {
    var before := schedule[..|schedule| - 1];
    forall k | 0 <= k < |before| ensures AddFitsAt(digest, s, before, a, k) {
      assert before[..k] == schedule[..k];
      assert AddFitsAt(digest, s, schedule, a, k);
    }
  }

  /** On an account whose executions route no step, no consumption ever fails. */
  lemma {:induction false} UnroutedConsumptionNeverFails(digest: Digest, s: State, schedule: seq<nat>, i: nat)
    requires Started(s) && i < |s.procs| && EveryAddFits(digest, s, schedule, AccountId(s.procs[i].request))
    requires forall j :: 0 <= j < |s.procs| && AccountId(s.procs[j].request) == AccountId(s.procs[i].request) ==>
               Scheduler.RoutedSteps(s.procs[j].request.steps) == 0
    ensures !ConsumptionFailed(Run(digest, s, schedule).procs[i])
  {
    if schedule != [] {
      var before := schedule[..|schedule| - 1];
      AddsFitBefore(digest, s, schedule, AccountId(s.procs[i].request));
      UnroutedConsumptionNeverFails(digest, s, before, i);
      var t := Run(digest, s, before);
      if t.procs[i].phase.ConsumingBudget? {
        UnroutedStepConsumes(digest, s, before, i);
      }
      NextNeverFails(digest, t, Last(schedule), i);
    }
  }

  lemma UnroutedIsCovered(digest: Digest, s: State, schedule: seq<nat>, i: nat)
    requires Started(s) && i < |s.procs|
    requires forall j :: 0 <= j < |s.procs| && AccountId(s.procs[j].request) == AccountId(s.procs[i].request) ==>
               Scheduler.RoutedSteps(s.procs[j].request.steps) == 0
    requires Run(digest, s, schedule).procs[i].phase.ConsumingBudget?
    ensures var t, a := Run(digest, s, schedule), AccountId(s.procs[i].request);
            SumOf(ReservedOn(a), t.procs) >= SumOf(ConsumedOn(a), t.procs) + PlanUnits(s.procs[i].request)
  {
    var t, a := Run(digest, s, schedule), AccountId(s.procs[i].request);
    RunKeepsRequests(digest, s, schedule);
    forall j | 0 <= j < |t.procs| ensures ConsumedOn(a)(t.procs[j]) <= ReservedOn(a)(t.procs[j]) {
      RunKeepsBooks(digest, s, schedule, j);
    }
    RunKeepsBooks(digest, s, schedule, i);
    SumBelow(ConsumedOn(a), ReservedOn(a), t.procs, i, PlanUnits(s.procs[i].request));
  }
}
