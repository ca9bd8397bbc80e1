/** The resource pool, the reservation taken for a request, and the hardening of risky steps. */
module Resource {
  import opened Ir
  import opened Numbers
  import opened Sequences
  import opened Text

  datatype Requirement = Requirement(cpuUnits: u32, memoryMb: u32, maxRuntimeMs: u64)

  function FromConstraints(c: ConstraintSet): Requirement {
    Requirement(Max(c.maxCpuUnits, 1), Max(c.maxMemoryMb, 64), Max(c.maxRuntimeMs, 1000))
  }

  // ---------------------------------------------------------------- the pool

  datatype Pool = Pool(cpuLimit: u32, memoryLimit: u32, cpuUsed: u32, memoryUsed: u32)

  predicate Grants(pool: Pool, req: Requirement) {
    && WrappingAdd(pool.cpuUsed, req.cpuUnits) <= pool.cpuLimit
    && WrappingAdd(pool.memoryUsed, req.memoryMb) <= pool.memoryLimit
  }

  function Reserved(pool: Pool, req: Requirement): Pool {
    if Grants(pool, req) then
      pool.(cpuUsed := WrappingAdd(pool.cpuUsed, req.cpuUnits),
            memoryUsed := WrappingAdd(pool.memoryUsed, req.memoryMb))
    else pool
  }

  function Released(pool: Pool, req: Requirement): Pool {
    pool.(cpuUsed := SaturatingSub(pool.cpuUsed, req.cpuUnits),
          memoryUsed := SaturatingSub(pool.memoryUsed, req.memoryMb))
  }

  class Governor {
    var pool: Pool

    constructor (cpuLimit: u32, memoryLimit: u32)
      ensures pool == Pool(cpuLimit, memoryLimit, 0, 0)
    {
      pool := Pool(cpuLimit, memoryLimit, 0, 0);
    }

    method Reserve(req: Requirement) returns (granted: bool)
      modifies this
      ensures granted == Grants(old(pool), req)
      ensures pool == Reserved(old(pool), req)
    {
      if WrappingAdd(pool.cpuUsed, req.cpuUnits) > pool.cpuLimit {
        return false;
      }
      if WrappingAdd(pool.memoryUsed, req.memoryMb) > pool.memoryLimit {
        return false;
      }
      pool := pool.(cpuUsed := WrappingAdd(pool.cpuUsed, req.cpuUnits));
      pool := pool.(memoryUsed := WrappingAdd(pool.memoryUsed, req.memoryMb));
      granted := true;
    }

    method Release(req: Requirement)
      modifies this
      ensures pool == Released(old(pool), req)
    {
      pool := pool.(cpuUsed := SaturatingSub(pool.cpuUsed, req.cpuUnits));
      pool := pool.(memoryUsed := SaturatingSub(pool.memoryUsed, req.memoryMb));
    }
  }

  // ---------------------------------------------------------------- outstanding reservations

  function Cpu(r: Requirement): nat {
    r.cpuUnits
  }

  function Memory(r: Requirement): nat {
    r.memoryMb
  }

  /** The pool knows exactly what is outstanding, and that is within its limits. */
  ghost predicate Balanced(pool: Pool, held: seq<Requirement>) {
    && pool.cpuUsed == SumOf(Cpu, held) <= pool.cpuLimit
    && pool.memoryUsed == SumOf(Memory, held) <= pool.memoryLimit
  }

  predicate NoOverflow(pool: Pool, req: Requirement) {
    pool.cpuUsed + req.cpuUnits < U32_RANGE && pool.memoryUsed + req.memoryMb < U32_RANGE
  }

  /** A granted reservation keeps the books balanced exactly when neither sum overflows. */
  lemma ReserveKeepsBalance(pool: Pool, held: seq<Requirement>, req: Requirement)
    requires Balanced(pool, held) && Grants(pool, req)
    ensures Balanced(Reserved(pool, req), held + [req]) <==> NoOverflow(pool, req)
  {
    SumAppend(Cpu, held, req);
    SumAppend(Memory, held, req);
  }

  /** A pool of ten units grants a request for almost 2^32 more. */
  lemma OverflowIsGranted()
    ensures var pool, req := Pool(10, 1024, 1, 64), Requirement(U32_MAX, 64, 1000);
            Grants(pool, req) && Reserved(pool, req).cpuUsed == 0 && !NoOverflow(pool, req)
  {
  }

  lemma ReleaseKeepsBalance(pool: Pool, held: seq<Requirement>, i: nat)
    requires Balanced(pool, held) && i < |held|
    ensures Balanced(Released(pool, held[i]), RemoveAt(held, i))
  {
    SumRemove(Cpu, held, i);
    SumRemove(Memory, held, i);
  }

  /** Reservations are taken and dropped in any order. */
  datatype PoolStep = Take(req: Requirement) | Drop(slot: nat)

  datatype PoolRun = PoolRun(pool: Pool, held: seq<Requirement>)

  function PoolNext(r: PoolRun, step: PoolStep): PoolRun {
    match step
    case Take(req) =>
      if Grants(r.pool, req) then PoolRun(Reserved(r.pool, req), r.held + [req]) else r
    case Drop(slot) =>
      if slot < |r.held| then PoolRun(Released(r.pool, r.held[slot]), RemoveAt(r.held, slot)) else r
  }

  function RunPool(r: PoolRun, steps: seq<PoolStep>): PoolRun {
    if steps == [] then r else PoolNext(RunPool(r, steps[..|steps| - 1]), Last(steps))
  }

  /** If the step is a granted reservation, its sums do not overflow. */
  predicate GrantFits(r: PoolRun, step: PoolStep) {
    step.Take? && Grants(r.pool, step.req) ==> NoOverflow(r.pool, step.req)
  }

  /** One step keeps the books balanced exactly when it is not an overflowing grant. */
  lemma StepKeepsBalanceIff(r: PoolRun, step: PoolStep)
    requires Balanced(r.pool, r.held)
    ensures Balanced(PoolNext(r, step).pool, PoolNext(r, step).held) <==> GrantFits(r, step)
  {
    if step.Take? && Grants(r.pool, step.req) {
      ReserveKeepsBalance(r.pool, r.held, step.req);
    } else if step.Drop? && step.slot < |r.held| {
      ReleaseKeepsBalance(r.pool, r.held, step.slot);
    }
  }

  ghost predicate AlwaysBalanced(r: PoolRun, steps: seq<PoolStep>) {
    forall k :: 0 <= k <= |steps| ==> Balanced(RunPool(r, steps[..k]).pool, RunPool(r, steps[..k]).held)
  }

  ghost predicate EveryGrantFits(r: PoolRun, steps: seq<PoolStep>) {
    forall k :: 0 <= k < |steps| ==> GrantFits(RunPool(r, steps[..k]), steps[k])
  }

  lemma RunPoolNext(r: PoolRun, steps: seq<PoolStep>, k: nat)
    requires k < |steps|
    ensures RunPool(r, steps[..k + 1]) == PoolNext(RunPool(r, steps[..k]), steps[k])
  {
    assert steps[..k + 1][..k] == steps[..k];
  }

  lemma {:induction false} FittingGrantsKeepBalance(r: PoolRun, steps: seq<PoolStep>, k: nat)
    requires Balanced(r.pool, r.held) && EveryGrantFits(r, steps) && k <= |steps|
    ensures Balanced(RunPool(r, steps[..k]).pool, RunPool(r, steps[..k]).held)
  {
    if k > 0 {
      FittingGrantsKeepBalance(r, steps, k - 1);
      RunPoolNext(r, steps, k - 1);
      StepKeepsBalanceIff(RunPool(r, steps[..k - 1]), steps[k - 1]);
    }
  }

  /** All along a run the books are balanced exactly when no granted reservation overflows. */
  lemma PoolStaysBalanced(r: PoolRun, steps: seq<PoolStep>)
    requires Balanced(r.pool, r.held)
    ensures AlwaysBalanced(r, steps) <==> EveryGrantFits(r, steps)
  {
    if EveryGrantFits(r, steps) {
      forall k | 0 <= k <= |steps| ensures Balanced(RunPool(r, steps[..k]).pool, RunPool(r, steps[..k]).held) {
        FittingGrantsKeepBalance(r, steps, k);
      }
    }
    if AlwaysBalanced(r, steps) {
      forall k | 0 <= k < |steps| ensures GrantFits(RunPool(r, steps[..k]), steps[k]) {
        RunPoolNext(r, steps, k);
        StepKeepsBalanceIff(RunPool(r, steps[..k]), steps[k]);
      }
    }
  }

  // ---------------------------------------------------------------- hardening

  function ParseRuntimeIsland(name: string): Option<RuntimeIsland> {
    var l := AsciiLower(Trim(name));
    if l == "trusted" then Some(Trusted)
    else if l == "wasm" then Some(Wasm)
    else if l == "ffi" then Some(Ffi)
    else if l == "plugin" then Some(Plugin)
    else None
  }

  function InferIsland(capability: Option<string>): Option<RuntimeIsland> {
    var name :- capability;
    var cap := AsciiLower(name);
    if Contains(cap, "wasm") then Some(Wasm)
    else if Contains(cap, "ffi") || Contains(cap, "cabi") then Some(Ffi)
    else if Contains(cap, "plugin") then Some(Plugin)
    else None
  }

  /** The explicit label wins, then the declared island, then what the capability name suggests. */
  function EffectiveIsland(step: ExecutionStep): RuntimeIsland {
    var named := Constraint(step, "runtime_island");
    var parsed := if named.Some? then ParseRuntimeIsland(named.value) else None;
    if parsed.Some? then parsed.value
    else if step.runtimeIsland != Trusted then step.runtimeIsland
    else
      match InferIsland(step.capabilityRef)
      case Some(island) => island
      case None => Trusted
  }

  function NonEmpty(value: Option<string>): Option<string> {
    var v :- value;
    if Trim(v) == "" then None else Some(Trim(v))
  }

  function OrElse<T>(first: Option<T>, second: Option<T>): Option<T> {
    if first.Some? then first else second
  }

  function HardeningProfile(step: ExecutionStep): Option<string> {
    OrElse(NonEmpty(step.hardening.hardeningProfile), NonEmpty(Constraint(step, "hardening_profile")))
  }

  predicate HasSyscallConstraints(step: ExecutionStep) {
    || NonEmpty(step.hardening.syscallPolicyRef).Some?
    || step.hardening.syscallAllowlist != []
    || NonEmpty(Constraint(step, "syscall_policy_ref")).Some?
    || NonEmpty(Constraint(step, "syscall_allowlist")).Some?
  }

  predicate HasSeccompProfile(step: ExecutionStep) {
    NonEmpty(step.hardening.seccompProfileRef).Some? || NonEmpty(Constraint(step, "seccomp_profile_ref")).Some?
  }

  predicate SaysYes(step: ExecutionStep, key: string) {
    var text := Constraint(step, key);
    text.Some? && AsciiLower(Trim(text.value)) in ["1", "true", "yes", "on"]
  }

  predicate Isolated(step: ExecutionStep) {
    && (step.hardening.enforceNamespaceIsolation || SaysYes(step, "enforce_namespace_isolation"))
    && (step.hardening.enforceCgroupIsolation || SaysYes(step, "enforce_cgroup_isolation"))
    && (step.hardening.enforceFsIsolation || SaysYes(step, "enforce_fs_isolation"))
    && (step.hardening.enforceNetworkIsolation || SaysYes(step, "enforce_network_isolation"))
  }

  const ISOLATION_BACKENDS :=
    ["auto", "nsjail", "bwrap", "bubblewrap", "firejail", "unshare", "job_object", "windows-job-object"]

  /** Whether a backend can run here is left to `available`; which backends an island accepts is not. */
  predicate BackendAccepted(step: ExecutionStep, backend: string, available: string -> bool) {
    var name := AsciiLower(Trim(backend));
    && available(name)
    && match EffectiveIsland(step)
       case Trusted => true
       case Wasm => name == "wasmtime" || name in ISOLATION_BACKENDS
       case _ => name in ISOLATION_BACKENDS
  }

  function ParsedConstraint(step: ExecutionStep, key: string, max: nat): (r: Option<nat>)
    ensures r.Some? ==> r.value <= max
  {
    var text :- Constraint(step, key);
    ParseUnsigned(text, max)
  }

  function StepRuntimeMs(step: ExecutionStep): Option<u64> {
    OrElse(step.hardening.maxRuntimeMs, ParsedConstraint(step, "step_max_runtime_ms", U64_MAX))
  }

  function StepMemoryMb(step: ExecutionStep): Option<u32> {
    OrElse(step.hardening.maxMemoryMb, ParsedConstraint(step, "step_max_memory_mb", U32_MAX))
  }

  function StepCpuUnits(step: ExecutionStep): Option<u32> {
    OrElse(step.hardening.maxCpuUnits, ParsedConstraint(step, "step_max_cpu_units", U32_MAX))
  }

  /** The ceilings of a step, where all three are given. */
  function StepCeilings(step: ExecutionStep): Option<Requirement> {
    var runtime :- StepRuntimeMs(step);
    var memory :- StepMemoryMb(step);
    var cpu :- StepCpuUnits(step);
    Some(Requirement(cpu, memory, runtime))
  }

  predicate HighRisk(step: ExecutionStep) {
    EffectiveIsland(step) != Trusted
  }

  datatype Verdict =
    | Accepted | MissingProfile | ForbiddenProfile | MissingSeccomp | MissingSyscallConstraint | MissingIsolation
    | MissingBackend | BackendRefused | MissingCeiling | ZeroCeiling | CeilingTooHigh

  /** Whether a high-risk step is guarded at all. */
  function CheckSafeguards(step: ExecutionStep, available: string -> bool): Verdict {
    var profile := HardeningProfile(step);
    var backend := NonEmpty(Constraint(step, "isolation_backend"));
    if profile == None then MissingProfile
    else if AsciiLower(profile.value) == "none" then ForbiddenProfile
    else if !HasSeccompProfile(step) then MissingSeccomp
    else if !HasSyscallConstraints(step) then MissingSyscallConstraint
    else if !Isolated(step) then MissingIsolation
    else if backend == None then MissingBackend
    else if !BackendAccepted(step, backend.value, available) then BackendRefused
    else Accepted
  }

  function EnforceHardening(step: ExecutionStep, c: ConstraintSet, available: string -> bool): Verdict {
    if !HighRisk(step) then Accepted
    else if CheckSafeguards(step, available) != Accepted then CheckSafeguards(step, available)
    else
      match StepCeilings(step)
      case None => MissingCeiling
      case Some(ceilings) => CheckCeilings(ceilings, c)
  }

  function CheckCeilings(r: Requirement, c: ConstraintSet): Verdict {
    if r.maxRuntimeMs == 0 || r.memoryMb == 0 || r.cpuUnits == 0 then ZeroCeiling
    else if r.maxRuntimeMs > Max(c.maxRuntimeMs, 1) || r.memoryMb > Max(c.maxMemoryMb, 1) ||
            r.cpuUnits > Max(c.maxCpuUnits, 1)
      then CeilingTooHigh
    else Accepted
  }

  /** The ceilings are positive and lie within the reservation. */
  predicate Within(r: Requirement, reservation: Requirement) {
    && 0 < r.cpuUnits <= reservation.cpuUnits
    && 0 < r.memoryMb <= reservation.memoryMb
    && 0 < r.maxRuntimeMs <= reservation.maxRuntimeMs
  }

  /**
   Accepted ceilings lie within the reservation. The converse fails where a floor of the reservation
   exceeds what the request asked for, which is what the ceilings are measured against. It holds for
   all ceilings exactly when neither the memory floor nor the runtime floor does.
   */
  lemma ReservationIsGrantedIff(c: ConstraintSet)
    ensures (forall r :: Within(r, FromConstraints(c)) ==> CheckCeilings(r, c) == Accepted)
            <==> c.maxMemoryMb >= 64 && c.maxRuntimeMs >= 1000
  {
    if c.maxMemoryMb < 64 {
      assert Within(Requirement(1, 64, 1), FromConstraints(c));
      assert CheckCeilings(Requirement(1, 64, 1), c) == CeilingTooHigh;
    } else if c.maxRuntimeMs < 1000 {
      assert Within(Requirement(1, 1, 1000), FromConstraints(c));
      assert CheckCeilings(Requirement(1, 1, 1000), c) == CeilingTooHigh;
    }
  }
}
