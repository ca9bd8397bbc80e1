/** The parts of a trusted execution request that the kernel model reads. */
module Ir {
  import opened Numbers
  import opened Sequences

  datatype RuntimeIsland = Trusted | Wasm | Ffi | Plugin

  datatype HardeningPolicy = HardeningPolicy(
    hardeningProfile: Option<string>, syscallPolicyRef: Option<string>, syscallAllowlist: seq<string>,
    seccompProfileRef: Option<string>, enforceNamespaceIsolation: bool, enforceCgroupIsolation: bool,
    enforceFsIsolation: bool, enforceNetworkIsolation: bool, maxRuntimeMs: Option<u64>, maxMemoryMb: Option<u32>,
    maxCpuUnits: Option<u32>)

  datatype ExecutionStep = ExecutionStep(
    stepId: string, capabilityRef: Option<string>, runtimeIsland: RuntimeIsland, hardening: HardeningPolicy,
    input: string, localConstraints: map<string, string>)

  datatype ConstraintSet = ConstraintSet(maxRuntimeMs: u64, maxCpuUnits: u32, maxMemoryMb: u32)

  function Constraint(step: ExecutionStep, key: string): Option<string> {
    if key in step.localConstraints then Some(step.localConstraints[key]) else None
  }

  /** The first step with the given id. */
  function FindStep(steps: seq<ExecutionStep>, stepId: string): Option<ExecutionStep> {
    if steps == [] then None
    else if steps[0].stepId == stepId then Some(steps[0])
    else FindStep(steps[1..], stepId)
  }

  lemma {:induction false} FindStepFinds(steps: seq<ExecutionStep>, stepId: string, i: nat)
    requires i < |steps| && steps[i].stepId == stepId
    ensures FindStep(steps, stepId).Some? && FindStep(steps, stepId).value.stepId == stepId
  {
    if steps[0].stepId != stepId {
      FindStepFinds(steps[1..], stepId, i - 1);
    }
  }

  /** The step at place j is the first of the plan with the given id. */
  predicate IsFirstStep(steps: seq<ExecutionStep>, stepId: string, j: nat) {
    j < |steps| && steps[j].stepId == stepId && forall k :: 0 <= k < j ==> steps[k].stepId != stepId
  }

  lemma {:induction false} FindStepIsFirst(steps: seq<ExecutionStep>, stepId: string) returns (j: nat)
    requires FindStep(steps, stepId).Some?
    ensures IsFirstStep(steps, stepId, j) && FindStep(steps, stepId).value == steps[j]
  {
    if steps[0].stepId == stepId {
      j := 0;
    } else {
      var rest := FindStepIsFirst(steps[1..], stepId);
      j := rest + 1;
      forall k | 0 <= k < j ensures steps[k].stepId != stepId {
        assert k > 0 ==> steps[k] == steps[1..][k - 1];
      }
    }
  }
}
