/** deadlock_prevention/bankers/simulator.py: a thin wrapper around the algorithm
    that adds a one-line explanation to each answer. */
module BankersSimulator {
  import opened Results
  import opened Text
  import opened BankersModel
  import opened BankersCore

  /** The ids of a safe sequence, as `map(str, safe_sequence)`. */
  function ShowIds(ids: seq<nat>): (texts: seq<string>)
    ensures |texts| == |ids| && forall i :: 0 <= i < |ids| ==> texts[i] == ShowNat(ids[i])
  {
    seq(|ids|, i requires 0 <= i < |ids| => ShowNat(ids[i]))
  }

  const UnsafeExplanation := "System is in an unsafe state."

  /** The explanation `check_safety` gives for an answer of `is_safe_state`. */
  function SafetyExplanation(safe: bool, sequence: Option<seq<nat>>): string
    requires safe ==> sequence.Some?
  {
    if safe then "Safe sequence found: " + Join(", ", ShowIds(sequence.value)) else UnsafeExplanation
  }

  /** The explanation tells a safe answer from an unsafe one: it is the unsafe text
      exactly when the answer is unsafe, and otherwise starts with the safe text. */
  lemma ExplanationTellsVerdict(safe: bool, sequence: Option<seq<nat>>)
    requires safe ==> sequence.Some?
    ensures SafetyExplanation(safe, sequence) == UnsafeExplanation <==> !safe
    ensures safe ==> SafetyExplanation(safe, sequence)[..21] == "Safe sequence found: "
  {
    if safe {
      var e := SafetyExplanation(safe, sequence);
      assert e[1] == 'a' != UnsafeExplanation[1];
    }
  }

  /** `apply_request`'s explanation. */
  function RequestExplanation(granted: bool): string {
    if granted then "Request granted." else "Request denied."
  }

  /** `BankersSimulator(system_state)`: the simulator and its algorithm share one state
      object, so a granted request is visible to later safety checks. */
  class BankersSimulator {
    const systemState: SystemState
    const algorithm: BankersAlgorithm

    /** The algorithm works on the simulator's own state. */
    predicate Shares()
      reads this, algorithm
    {
      algorithm.systemState == systemState
    }

    constructor (systemState: SystemState)
      ensures this.systemState == systemState && Shares()
    {
      this.systemState := systemState;
      algorithm := new BankersAlgorithm(systemState);
    }

    /** `check_safety()`: the answer of `is_safe_state` and its explanation. */
    method CheckSafety() returns (safe: bool, sequence: Option<seq<nat>>, explanation: string)
      requires Shares() && Checkable(systemState.Contents())
      ensures (safe, sequence) == SafetyCheck(systemState.Contents())
      ensures safe ==> sequence.Some? && explanation == SafetyExplanation(safe, sequence)
      ensures !safe ==> explanation == UnsafeExplanation
    {
      safe, sequence := algorithm.IsSafeState();
      SafetyCheckCharacterized(systemState.Contents());
      explanation := SafetyExplanation(safe, sequence);
    }

    /** `apply_request(process_id, request)`. */
    method ApplyRequest(processId: nat, request: seq<int>) returns (granted: bool, explanation: string)
      requires Shares() && Checkable(systemState.Contents())
      requires processId < systemState.numProcesses && |request| >= systemState.numResources
      modifies systemState
      ensures (granted, systemState.Contents()) == RequestOutcome(old(systemState.Contents()), processId, request)
      ensures explanation == RequestExplanation(granted)
    {
      granted := algorithm.RequestResources(processId, request);
      explanation := RequestExplanation(granted);
    }
  }
}
