/**
 The shared guard over the five execution state machines of
 `shared/stateMachineGuards.ts`: a terminal status is for good, and statuses stay in
 the known set.
 */
module RunMachines {
  datatype Kind = AgentRun | WorkflowRun | WorkflowStepRun | WorkflowStepGate | SandboxExecution

  // ------------------------------------------------------------------ status sets

  const AGENT_RUN_IN_FLIGHT := {"pending", "running", "delegated", "cancelling"}
  const AGENT_RUN_AWAITING := {"awaiting_clarification", "waiting_on_clarification"}
  const AGENT_RUN_TERMINAL :=
    {"completed", "failed", "timeout", "cancelled", "loop_detected", "budget_exceeded", "completed_with_uncertainty"}
  const AGENT_RUN_KNOWN := {
    "pending", "running", "delegated", "cancelling", "completed", "failed", "timeout", "cancelled",
    "loop_detected", "budget_exceeded", "awaiting_clarification", "waiting_on_clarification",
    "completed_with_uncertainty"
  }

  const WORKFLOW_RUN_TERMINAL := {"completed", "completed_with_errors", "failed", "cancelled", "partial"}
  const WORKFLOW_RUN_KNOWN := {
    "pending", "running", "paused", "awaiting_input", "awaiting_approval", "completed",
    "completed_with_errors", "failed", "cancelling", "cancelled", "partial"
  }

  const WORKFLOW_STEP_TERMINAL := {"completed", "failed", "skipped", "invalidated"}
  const WORKFLOW_STEP_KNOWN := {
    "pending", "running", "awaiting_input", "awaiting_approval", "completed", "failed", "skipped", "invalidated"
  }

  const WORKFLOW_STEP_GATE_TERMINAL := {"resolved"}
  const WORKFLOW_STEP_GATE_KNOWN := {"open", "resolved"}

  const SANDBOX_EXECUTION_TERMINAL := {
    "completed", "timed_out", "cost_ceiling_hit", "crashed", "output_validation_failed",
    "harvest_failed", "artefact_upload_failed", "provider_unavailable"
  }
  const SANDBOX_EXECUTION_KNOWN := {
    "pending", "running", "harvesting", "completed", "timed_out", "cost_ceiling_hit", "crashed",
    "output_validation_failed", "harvest_failed", "artefact_upload_failed", "provider_unavailable"
  }

  function Terminal(k: Kind): set<string> {
    match k
    case AgentRun => AGENT_RUN_TERMINAL
    case WorkflowRun => WORKFLOW_RUN_TERMINAL
    case WorkflowStepRun => WORKFLOW_STEP_TERMINAL
    case WorkflowStepGate => WORKFLOW_STEP_GATE_TERMINAL
    case SandboxExecution => SANDBOX_EXECUTION_TERMINAL
  }

  function Known(k: Kind): set<string> {
    match k
    case AgentRun => AGENT_RUN_KNOWN
    case WorkflowRun => WORKFLOW_RUN_KNOWN
    case WorkflowStepRun => WORKFLOW_STEP_KNOWN
    case WorkflowStepGate => WORKFLOW_STEP_GATE_KNOWN
    case SandboxExecution => SANDBOX_EXECUTION_KNOWN
  }

  /** `assertValidTransition` does not throw. */
  predicate Valid(k: Kind, from: string, to: string) {
    from == to || (to in Known(k) && from !in Terminal(k))
  }

  // ------------------------------------------------------------------ single transitions

  /** The statuses that cannot be changed are exactly the terminal ones. */
  lemma StuckIsTerminal(k: Kind, from: string)
    ensures (forall to :: Valid(k, from, to) ==> to == from) <==> from in Terminal(k)
  {
    if from !in Terminal(k) {
      var to := if from == Sample(k).0 then Sample(k).1 else Sample(k).0;
      assert Valid(k, from, to) && to != from;
    }
  }

  /** Two known statuses of each machine. */
  function Sample(k: Kind): (string, string) {
    match k
    case AgentRun => ("pending", "completed")
    case WorkflowRun => ("pending", "completed")
    case WorkflowStepRun => ("pending", "completed")
    case WorkflowStepGate => ("open", "resolved")
    case SandboxExecution => ("pending", "completed")
  }

  /**
   From a status that is not terminal, exactly the known statuses can be entered; from any
   status a retry of the same one passes.
   */
  lemma Transitions(k: Kind, from: string, to: string)
    ensures from !in Terminal(k) ==> (Valid(k, from, to) <==> to in Known(k) || to == from)
    ensures from in Terminal(k) ==> (Valid(k, from, to) <==> to == from)
    ensures to !in Known(k) && to != from ==> !Valid(k, from, to)
  {
  }

  /** The statuses from which a run of each machine can still go on, and those it can end in. */
  lemma LiveStatuses()
    ensures Known(WorkflowRun) - Terminal(WorkflowRun) ==
            {"pending", "running", "paused", "awaiting_input", "awaiting_approval", "cancelling"}
    ensures Known(WorkflowStepRun) - Terminal(WorkflowStepRun) ==
            {"pending", "running", "awaiting_input", "awaiting_approval"}
    ensures Known(WorkflowStepGate) - Terminal(WorkflowStepGate) == {"open"}
    ensures Known(SandboxExecution) - Terminal(SandboxExecution) == {"pending", "running", "harvesting"}
    ensures Known(AgentRun) - Terminal(AgentRun) == AGENT_RUN_IN_FLIGHT + AGENT_RUN_AWAITING
    ensures forall to :: to in {"completed", "completed_with_errors", "failed", "cancelled", "partial"} <==>
              Valid(WorkflowRun, "running", to) && to in Terminal(WorkflowRun)
    ensures forall to :: to in {"completed", "failed", "skipped", "invalidated"} <==>
              Valid(WorkflowStepRun, "running", to) && to in Terminal(WorkflowStepRun)
    ensures forall to :: to in {"completed", "timed_out", "cost_ceiling_hit", "crashed", "output_validation_failed",
                                "harvest_failed", "artefact_upload_failed", "provider_unavailable"} <==>
              Valid(SandboxExecution, "running", to) && to in Terminal(SandboxExecution)
  {
  }

  // ------------------------------------------------------------------ runs

  predicate ValidRun(k: Kind, from: string, tos: seq<string>)
    decreases |tos|
  {
    tos == [] || (Valid(k, from, tos[0]) && ValidRun(k, tos[0], tos[1..]))
  }

  /** Once terminal, the status never changes again: every later write is a retry of the same one. */
  lemma {:induction false} TerminalIsForGood(k: Kind, from: string, tos: seq<string>)
    requires ValidRun(k, from, tos) && from in Terminal(k)
    ensures forall i :: 0 <= i < |tos| ==> tos[i] == from
    decreases |tos|
  {
    if tos != [] {
      TerminalIsForGood(k, tos[0], tos[1..]);
    }
  }

  /** Every status of a run that starts known is known. */
  lemma {:induction false} StaysKnown(k: Kind, from: string, tos: seq<string>)
    requires ValidRun(k, from, tos) && from in Known(k)
    ensures forall i :: 0 <= i < |tos| ==> tos[i] in Known(k)
    decreases |tos|
  {
    if tos != [] {
      StaysKnown(k, tos[0], tos[1..]);
    }
  }

  /** A run ends in at most one terminal status: two terminal statuses anywhere in it are the same. */
  lemma {:induction false} OneTerminalStatus(k: Kind, from: string, tos: seq<string>, i: nat, j: nat)
    requires ValidRun(k, from, tos) && i <= j < |tos|
    requires tos[i] in Terminal(k)
    ensures tos[j] == tos[i]
    decreases |tos|
  {
    if i == 0 {
      TerminalIsForGood(k, tos[0], tos[1..]);
      if j > 0 { assert tos[1..][j - 1] == tos[j]; }
    } else {
      OneTerminalStatus(k, tos[0], tos[1..], i - 1, j - 1);
    }
  }

  lemma TerminalIsKnown(k: Kind)
    ensures Terminal(k) <= Known(k)
  {
  }

  /** The three buckets of agent-run statuses cover the known set and do not overlap. */
  lemma BucketsPartition()
    ensures AGENT_RUN_IN_FLIGHT + AGENT_RUN_AWAITING + AGENT_RUN_TERMINAL == AGENT_RUN_KNOWN
    ensures AGENT_RUN_IN_FLIGHT !! AGENT_RUN_AWAITING !! AGENT_RUN_TERMINAL
  {
  }
}
