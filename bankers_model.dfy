/** deadlock_prevention/bankers/model.py: the state the Banker's algorithm works
    on. `SystemState` is a class because the algorithm reassigns its `available`
    vector and a row of its allocation matrix in place; `need_matrix` and
    `validate` only read it, so they are functions of a `Snapshot` of its fields. */
module BankersModel {

  /** The values of the five fields of a `SystemState`. */
  datatype Snapshot = Snapshot(
    numProcesses: nat,
    numResources: nat,
    maxMatrix: seq<seq<int>>,
    allocationMatrix: seq<seq<int>>,
    available: seq<int>)

  /** `SystemState(num_processes, num_resources, max_matrix, allocation_matrix, available)`. */
  class SystemState {
    var numProcesses: nat
    var numResources: nat
    var maxMatrix: seq<seq<int>>
    var allocationMatrix: seq<seq<int>>
    var available: seq<int>

    constructor (s: Snapshot)
      ensures Contents() == s
    {
      numProcesses := s.numProcesses;
      numResources := s.numResources;
      maxMatrix := s.maxMatrix;
      allocationMatrix := s.allocationMatrix;
      available := s.available;
    }

    function Contents(): Snapshot
      reads this
    {
      Snapshot(numProcesses, numResources, maxMatrix, allocationMatrix, available)
    }
  }

  /** The entries `need_matrix` reads exist: rows `0..num_processes-1` of both
      matrices, each with at least `num_resources` columns. */
  predicate Covers(s: Snapshot) {
    |s.maxMatrix| >= s.numProcesses && |s.allocationMatrix| >= s.numProcesses &&
    forall i :: 0 <= i < s.numProcesses ==> |s.maxMatrix[i]| >= s.numResources && |s.allocationMatrix[i]| >= s.numResources
  }

  /** `need_matrix`: Max - Allocation over `num_processes` rows and `num_resources`
      columns. */
  function NeedMatrix(s: Snapshot): (need: seq<seq<int>>)
    requires Covers(s)
    ensures |need| == s.numProcesses
    ensures forall i :: 0 <= i < s.numProcesses ==>
      |need[i]| == s.numResources &&
      forall j :: 0 <= j < s.numResources ==> need[i][j] + s.allocationMatrix[i][j] == s.maxMatrix[i][j]
  {
    seq(s.numProcesses, i requires 0 <= i < s.numProcesses =>
      seq(s.numResources, j requires 0 <= j < s.numResources => s.maxMatrix[i][j] - s.allocationMatrix[i][j]))
  }

  /** Both matrices have `num_processes` rows of `num_resources` entries and the
      available vector has `num_resources` entries. */
  predicate WellShaped(s: Snapshot) {
    |s.maxMatrix| == s.numProcesses && |s.allocationMatrix| == s.numProcesses &&
    (forall i :: 0 <= i < |s.maxMatrix| ==> |s.maxMatrix[i]| == s.numResources) &&
    (forall i :: 0 <= i < |s.allocationMatrix| ==> |s.allocationMatrix[i]| == s.numResources) &&
    |s.available| == s.numResources
  }

  /** No process holds more of a resource than it may claim. */
  predicate WithinClaims(s: Snapshot)
    requires WellShaped(s)
  {
    forall i, j :: 0 <= i < s.numProcesses && 0 <= j < s.numResources ==> s.allocationMatrix[i][j] <= s.maxMatrix[i][j]
  }

  /** `validate()`: the shape checks in order, then Max >= Allocation. */
  function Validate(s: Snapshot): (ok: bool)
    ensures ok <==> WellShaped(s) && WithinClaims(s)
    ensures |s.maxMatrix| != s.numProcesses || |s.allocationMatrix| != s.numProcesses ==> !ok
    ensures |s.available| != s.numResources ==> !ok
    ensures ok ==> Covers(s)
  {
    if |s.maxMatrix| != s.numProcesses || |s.allocationMatrix| != s.numProcesses then false
    else if exists i :: 0 <= i < |s.maxMatrix| && |s.maxMatrix[i]| != s.numResources then false
    else if exists i :: 0 <= i < |s.allocationMatrix| && |s.allocationMatrix[i]| != s.numResources then false
    else if |s.available| != s.numResources then false
    else if exists i, j :: 0 <= i < s.numProcesses && 0 <= j < s.numResources && s.maxMatrix[i][j] < s.allocationMatrix[i][j] then false
    else true
  }

  /** In a valid state no process needs a negative amount of any resource. */
  lemma ValidNeedNonNegative(s: Snapshot)
    requires Validate(s)
    ensures forall i, j :: 0 <= i < s.numProcesses && 0 <= j < s.numResources ==> NeedMatrix(s)[i][j] >= 0
  {
    var need := NeedMatrix(s);
    forall i, j | 0 <= i < s.numProcesses && 0 <= j < s.numResources ensures need[i][j] >= 0 {
      assert need[i][j] + s.allocationMatrix[i][j] == s.maxMatrix[i][j];
    }
  }
}
