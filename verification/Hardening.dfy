/**
 The hardening of risky steps, said about the fields and the constraints of the step: which steps
 are risky, and exactly what one of them must carry to be let through.
 */
module Hardening {
  import opened Ir
  import opened Numbers
  import opened Resource
  import opened Sequences
  import opened Spelling
  import opened Text

  // ---------------------------------------------------------------- islands

  ghost predicate LabelSays(step: ExecutionStep, word: string) {
    "runtime_island" in step.localConstraints && Spells(step.localConstraints["runtime_island"], word)
  }

  /** There is no label, or it names no island. */
  ghost predicate Unlabelled(step: ExecutionStep) {
    !LabelSays(step, "trusted") && !LabelSays(step, "wasm") && !LabelSays(step, "ffi") && !LabelSays(step, "plugin")
  }

  ghost predicate NameMentions(step: ExecutionStep, word: string) {
    step.capabilityRef.Some? && Mentions(step.capabilityRef.value, word)
  }

  ghost predicate NameSuggests(step: ExecutionStep, island: RuntimeIsland) {
    var ffi := NameMentions(step, "ffi") || NameMentions(step, "cabi");
    match island
    case Wasm => NameMentions(step, "wasm")
    case Ffi => !NameMentions(step, "wasm") && ffi
    case Plugin => !NameMentions(step, "wasm") && !ffi && NameMentions(step, "plugin")
    case Trusted => !NameMentions(step, "wasm") && !ffi && !NameMentions(step, "plugin")
  }

  function IslandWord(island: RuntimeIsland): string {
    match island
    case Trusted => "trusted"
    case Wasm => "wasm"
    case Ffi => "ffi"
    case Plugin => "plugin"
  }

  /** A label decides; without one the declared island, and where that is the trusted one the name. */
  ghost predicate RunsOn(step: ExecutionStep, island: RuntimeIsland) {
    || LabelSays(step, IslandWord(island))
    || (Unlabelled(step) &&
        if step.runtimeIsland == Trusted then NameSuggests(step, island) else step.runtimeIsland == island)
  }

  lemma LabelIff(step: ExecutionStep, island: RuntimeIsland)
    ensures var named := Constraint(step, "runtime_island");
            named.Some? && ParseRuntimeIsland(named.value) == Some(island) <==> LabelSays(step, IslandWord(island))
  {
    var named := Constraint(step, "runtime_island");
    if named.Some? {
      SpelledIff(named.value, IslandWord(island));
      var word := AsciiLower(Trim(named.value));
      assert ParseRuntimeIsland(named.value) == Some(island) <==> word == IslandWord(island) by {
        WordsDiffer();
      }
    }
  }

  lemma WordsDiffer()
    ensures |"trusted"| == 7 && |"wasm"| == 4 && |"ffi"| == 3 && |"plugin"| == 6
  {
  }

  lemma NameIff(step: ExecutionStep, island: RuntimeIsland)
    ensures (match InferIsland(step.capabilityRef) case Some(i) => i case None => Trusted) == island
            <==> NameSuggests(step, island)
  {
    if step.capabilityRef.Some? {
      var name := step.capabilityRef.value;
      MentionedIff(name, "wasm");
      MentionedIff(name, "ffi");
      MentionedIff(name, "cabi");
      MentionedIff(name, "plugin");
    }
  }

  lemma IslandIff(step: ExecutionStep, island: RuntimeIsland)
    ensures EffectiveIsland(step) == island <==> RunsOn(step, island)
  {
    LabelIff(step, Trusted);
    LabelIff(step, Wasm);
    LabelIff(step, Ffi);
    LabelIff(step, Plugin);
    NameIff(step, island);
  }

  // ---------------------------------------------------------------- safeguards

  /** The text of a field, or of the constraint that may stand for it, is not blank. */
  predicate Given(declared: Option<string>, step: ExecutionStep, key: string) {
    || (declared.Some? && !IsBlank(declared.value))
    || (key in step.localConstraints && !IsBlank(step.localConstraints[key]))
  }

  /** The profile counts that is given first: the field before the constraint. It must not be "none". */
  ghost predicate ProfileGuards(step: ExecutionStep) {
    var declared, key := step.hardening.hardeningProfile, "hardening_profile";
    if declared.Some? && !IsBlank(declared.value) then !Spells(declared.value, "none")
    else
      && key in step.localConstraints && !IsBlank(step.localConstraints[key])
      && !Spells(step.localConstraints[key], "none")
  }

  ghost predicate SyscallsGuard(step: ExecutionStep) {
    || Given(step.hardening.syscallPolicyRef, step, "syscall_policy_ref")
    || step.hardening.syscallAllowlist != []
    || Given(None, step, "syscall_allowlist")
  }

  /** A flag is set, or the constraint that may stand for it says so. */
  ghost predicate Enforced(flag: bool, step: ExecutionStep, key: string) {
    || flag
    || (key in step.localConstraints &&
        exists yes :: (yes == "1" || yes == "true" || yes == "yes" || yes == "on")
                      && Spells(step.localConstraints[key], yes))
  }

  predicate IsSandbox(name: string) {
    || name == "auto" || name == "nsjail" || name == "bwrap" || name == "bubblewrap" || name == "firejail"
    || name == "unshare" || name == "job_object" || name == "windows-job-object"
  }

  /** A backend is named that is available here and allowed for the island. */
  ghost predicate BackendGuards(step: ExecutionStep, available: string -> bool) {
    var key := "isolation_backend";
    && key in step.localConstraints
    && exists name :: (IsSandbox(name) || (name == "wasmtime" && RunsOn(step, Wasm)))
                      && Spells(step.localConstraints[key], name) && available(name)
  }

  // ---------------------------------------------------------------- ceilings

  /** The ceiling is declared, or given by a constraint that denotes a number in range. */
  ghost predicate CeilingIs(declared: Option<int>, step: ExecutionStep, key: string, max: nat, n: nat) {
    if declared.Some? then n == declared.value
    else key in step.localConstraints && Denotes(step.localConstraints[key], n) && n <= max
  }

  /** There is a positive ceiling within what the request asked for. */
  ghost predicate Capped(declared: Option<int>, step: ExecutionStep, key: string, max: nat, asked: nat) {
    exists n: nat :: CeilingIs(declared, step, key, max, n) && 0 < n <= Max(asked, 1)
  }

  ghost predicate CeilingsGuard(step: ExecutionStep, c: ConstraintSet) {
    && Capped(step.hardening.maxRuntimeMs, step, "step_max_runtime_ms", U64_MAX, c.maxRuntimeMs)
    && Capped(step.hardening.maxMemoryMb, step, "step_max_memory_mb", U32_MAX, c.maxMemoryMb)
    && Capped(step.hardening.maxCpuUnits, step, "step_max_cpu_units", U32_MAX, c.maxCpuUnits)
  }

  ghost predicate SafeguardsHold(step: ExecutionStep, available: string -> bool) {
    && ProfileGuards(step)
    && Given(step.hardening.seccompProfileRef, step, "seccomp_profile_ref")
    && SyscallsGuard(step)
    && Enforced(step.hardening.enforceNamespaceIsolation, step, "enforce_namespace_isolation")
    && Enforced(step.hardening.enforceCgroupIsolation, step, "enforce_cgroup_isolation")
    && Enforced(step.hardening.enforceFsIsolation, step, "enforce_fs_isolation")
    && Enforced(step.hardening.enforceNetworkIsolation, step, "enforce_network_isolation")
    && BackendGuards(step, available)
  }

  /** Everything a risky step must carry. */
  ghost predicate Guarded(step: ExecutionStep, c: ConstraintSet, available: string -> bool) {
    SafeguardsHold(step, available) && CeilingsGuard(step, c)
  }

  // ---------------------------------------------------------------- what the checks come to

  lemma NonEmptyIff(value: Option<string>)
    ensures NonEmpty(value).Some? <==> value.Some? && !IsBlank(value.value)
    ensures NonEmpty(value).Some? ==> NonEmpty(value).value == Trim(value.value)
  {
    if value.Some? {
      BlankIffTrimmedAway(value.value);
    }
  }

  lemma GivenIff(declared: Option<string>, step: ExecutionStep, key: string)
    ensures NonEmpty(declared).Some? || NonEmpty(Constraint(step, key)).Some? <==> Given(declared, step, key)
  {
    NonEmptyIff(declared);
    NonEmptyIff(Constraint(step, key));
  }

  lemma ProfileIff(step: ExecutionStep)
    ensures HardeningProfile(step).Some? && AsciiLower(HardeningProfile(step).value) != "none" <==> ProfileGuards(step)
  {
    var declared, other := step.hardening.hardeningProfile, Constraint(step, "hardening_profile");
    NonEmptyIff(declared);
    NonEmptyIff(other);
    if declared.Some? {
      SpelledIff(declared.value, "none");
    }
    if other.Some? {
      SpelledIff(other.value, "none");
    }
  }

  lemma SyscallsIff(step: ExecutionStep)
    ensures HasSyscallConstraints(step) <==> SyscallsGuard(step)
  {
    GivenIff(step.hardening.syscallPolicyRef, step, "syscall_policy_ref");
    GivenIff(None, step, "syscall_allowlist");
  }

  lemma EnforcedIff(flag: bool, step: ExecutionStep, key: string)
    ensures flag || SaysYes(step, key) <==> Enforced(flag, step, key)
  {
    if key in step.localConstraints {
      var text := step.localConstraints[key];
      SpelledIff(text, "1");
      SpelledIff(text, "true");
      SpelledIff(text, "yes");
      SpelledIff(text, "on");
    }
  }

  lemma IsolatedIff(step: ExecutionStep)
    ensures Isolated(step) <==>
            && Enforced(step.hardening.enforceNamespaceIsolation, step, "enforce_namespace_isolation")
            && Enforced(step.hardening.enforceCgroupIsolation, step, "enforce_cgroup_isolation")
            && Enforced(step.hardening.enforceFsIsolation, step, "enforce_fs_isolation")
            && Enforced(step.hardening.enforceNetworkIsolation, step, "enforce_network_isolation")
  {
    EnforcedIff(step.hardening.enforceNamespaceIsolation, step, "enforce_namespace_isolation");
    EnforcedIff(step.hardening.enforceCgroupIsolation, step, "enforce_cgroup_isolation");
    EnforcedIff(step.hardening.enforceFsIsolation, step, "enforce_fs_isolation");
    EnforcedIff(step.hardening.enforceNetworkIsolation, step, "enforce_network_isolation");
  }

  lemma SandboxIsListed(name: string)
    ensures IsSandbox(name) <==> name in ISOLATION_BACKENDS
    ensures IsSandbox(name) || name == "wasmtime" ==> IsSmall(name) && name != ""
  {
  }

  lemma TrimIsIdempotent(text: string)
    ensures Trim(Trim(text)) == Trim(text)
  {
    var a, b := TrimIsCore(text);
    assert text[a..b][0..b - a] == text[a..b];
    CoreIsTrimmed(text[a..b], 0, b - a);
  }

  lemma BackendIff(step: ExecutionStep, available: string -> bool)
    requires HighRisk(step)
    ensures var backend := NonEmpty(Constraint(step, "isolation_backend"));
            backend.Some? && BackendAccepted(step, backend.value, available) <==> BackendGuards(step, available)
  {
    var given := Constraint(step, "isolation_backend");
    NonEmptyIff(given);
    IslandIff(step, Wasm);
    if given.Some? {
      var name := AsciiLower(Trim(given.value));
      TrimIsIdempotent(given.value);
      SandboxIsListed(name);
      SpelledIff(given.value, name) by {
        LowerIsSmall(Trim(given.value));
      }
      forall other | (IsSandbox(other) || other == "wasmtime") && Spells(given.value, other)
        ensures other == name && !IsBlank(given.value)
      {
        SandboxIsListed(other);
        SpelledIff(given.value, other);
        BlankIffTrimmedAway(given.value);
        LowerIsPlacewise(Trim(given.value));
      }
    }
  }

  lemma CeilingIff(declared: Option<int>, step: ExecutionStep, key: string, max: nat, asked: nat)
    ensures var ceiling := OrElse(declared, ParsedConstraint(step, key, max));
            && (ceiling.Some? && 0 < ceiling.value <= Max(asked, 1) <==> Capped(declared, step, key, max, asked))
            && (ceiling.Some? && ceiling.value >= 0 ==> CeilingIs(declared, step, key, max, ceiling.value))
  {
    var ceiling := OrElse(declared, ParsedConstraint(step, key, max));
    if declared == None && key in step.localConstraints {
      forall n: nat ensures ParsedConstraint(step, key, max) == Some(n) <==> CeilingIs(declared, step, key, max, n) {
        ParsesIff(step.localConstraints[key], max, n);
      }
    }
    if ceiling.Some? && ceiling.value >= 0 {
      assert CeilingIs(declared, step, key, max, ceiling.value);
    }
  }

  lemma SafeguardsIff(step: ExecutionStep, available: string -> bool)
    requires HighRisk(step)
    ensures CheckSafeguards(step, available) == Accepted <==> SafeguardsHold(step, available)
  {
    ProfileIff(step);
    GivenIff(step.hardening.seccompProfileRef, step, "seccomp_profile_ref");
    SyscallsIff(step);
    IsolatedIff(step);
    BackendIff(step, available);
  }

  lemma CeilingsIff(step: ExecutionStep, c: ConstraintSet)
    ensures StepCeilings(step).Some? && CheckCeilings(StepCeilings(step).value, c) == Accepted
            <==> CeilingsGuard(step, c)
  {
    CeilingIff(step.hardening.maxRuntimeMs, step, "step_max_runtime_ms", U64_MAX, c.maxRuntimeMs);
    CeilingIff(step.hardening.maxMemoryMb, step, "step_max_memory_mb", U32_MAX, c.maxMemoryMb);
    CeilingIff(step.hardening.maxCpuUnits, step, "step_max_cpu_units", U32_MAX, c.maxCpuUnits);
  }

  /** A step is let through exactly when it runs on the trusted island or carries every safeguard. */
  lemma AcceptedIff(step: ExecutionStep, c: ConstraintSet, available: string -> bool)
    ensures EnforceHardening(step, c, available) == Accepted
            <==> RunsOn(step, Trusted) || Guarded(step, c, available)
  {
    IslandIff(step, Trusted);
    if HighRisk(step) {
      SafeguardsIff(step, available);
      CeilingsIff(step, c);
    }
  }

  /** The step has a ceiling, and that is positive and at most the bound. */
  ghost predicate CeilingWithin(declared: Option<int>, step: ExecutionStep, key: string, max: nat, bound: nat) {
    && (exists n: nat :: CeilingIs(declared, step, key, max, n))
    && (forall n: nat :: CeilingIs(declared, step, key, max, n) ==> 0 < n <= bound)
  }

  ghost predicate CeilingsWithin(step: ExecutionStep, reservation: Requirement) {
    && CeilingWithin(step.hardening.maxRuntimeMs, step, "step_max_runtime_ms", U64_MAX, reservation.maxRuntimeMs)
    && CeilingWithin(step.hardening.maxMemoryMb, step, "step_max_memory_mb", U32_MAX, reservation.memoryMb)
    && CeilingWithin(step.hardening.maxCpuUnits, step, "step_max_cpu_units", U32_MAX, reservation.cpuUnits)
  }

  lemma CappedIsWithin(declared: Option<int>, step: ExecutionStep, key: string, max: nat, asked: nat, bound: nat)
    requires Capped(declared, step, key, max, asked) && Max(asked, 1) <= bound
    ensures CeilingWithin(declared, step, key, max, bound)
  {
    var n: nat :| CeilingIs(declared, step, key, max, n) && 0 < n <= Max(asked, 1);
    forall m: nat | CeilingIs(declared, step, key, max, m) ensures m == n {
      if declared == None {
        ParsesIff(step.localConstraints[key], max, n);
        ParsesIff(step.localConstraints[key], max, m);
      }
    }
  }

  /** What a risky step that is let through may use lies within the reservation made for its request. */
  lemma AcceptedStepFitsReservation(step: ExecutionStep, c: ConstraintSet, available: string -> bool)
    requires EnforceHardening(step, c, available) == Accepted && !RunsOn(step, Trusted)
    ensures Guarded(step, c, available) && CeilingsWithin(step, FromConstraints(c))
  {
    AcceptedIff(step, c, available);
    var r := FromConstraints(c);
    CappedIsWithin(step.hardening.maxRuntimeMs, step, "step_max_runtime_ms", U64_MAX, c.maxRuntimeMs, r.maxRuntimeMs);
    CappedIsWithin(step.hardening.maxMemoryMb, step, "step_max_memory_mb", U32_MAX, c.maxMemoryMb, r.memoryMb);
    CappedIsWithin(step.hardening.maxCpuUnits, step, "step_max_cpu_units", U32_MAX, c.maxCpuUnits, r.cpuUnits);
  }
}
