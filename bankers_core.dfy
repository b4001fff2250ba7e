/** deadlock_prevention/bankers/core.py: the safety check and the resource request
    of the Banker's algorithm. Each loop is a method proved equal to a function that
    states the work the loop still has to do; the lemmas say what those functions
    mean: a safe verdict comes with a permutation of the processes in which each
    one's need fits the work available to it, an unsafe verdict with a round in
    which no unfinished process fits, and, when no allocation is negative, the check
    is safe exactly when some safe order of the processes exists. */
module BankersCore {
  import opened Results
  import opened BankersModel

  // ----- is_safe_state -----

  /** The state has the entries the safety loop reads: those of `need_matrix` and
      `num_resources` entries of `available`. */
  predicate Checkable(s: Snapshot) {
    Covers(s) && |s.available| >= s.numResources
  }

  /** `all(need_matrix[i][j] <= work[j] for j in range(num_resources))`. */
  predicate Fits(s: Snapshot, work: seq<int>, i: nat)
    requires Covers(s) && |work| >= s.numResources && i < s.numProcesses
  {
    forall j :: 0 <= j < s.numResources ==> NeedMatrix(s)[i][j] <= work[j]
  }

  /** `[work[j] + allocation_matrix[i][j] for j in range(num_resources)]`: process `i`
      finishes and releases what it holds. */
  function Release(s: Snapshot, work: seq<int>, i: nat): (w: seq<int>)
    requires Covers(s) && |work| >= s.numResources && i < s.numProcesses
    ensures |w| == s.numResources
    ensures forall j :: 0 <= j < s.numResources ==> w[j] - work[j] == s.allocationMatrix[i][j]
  {
    seq(s.numResources, j requires 0 <= j < s.numResources => work[j] + s.allocationMatrix[i][j])
  }

  /** What the `for i in range(num_processes)` scan still finds from `i` on: the first
      unfinished process whose need fits `work`, or `num_processes` if there is none. */
  function FirstFit(s: Snapshot, work: seq<int>, finish: seq<bool>, i: nat): (k: nat)
    requires Covers(s) && |work| >= s.numResources && |finish| == s.numProcesses && i <= s.numProcesses
    ensures i <= k <= s.numProcesses
    ensures k < s.numProcesses ==> !finish[k] && Fits(s, work, k)
    ensures forall p :: i <= p < k ==> finish[p] || !Fits(s, work, p)
    decreases s.numProcesses - i
  {
    if i == s.numProcesses then i
    else if !finish[i] && Fits(s, work, i) then i
    else FirstFit(s, work, finish, i + 1)
  }

  /** What the `while len(safe_sequence) < num_processes` loop still does from loop
      variables `work`, `finish` and `sq`. */
  function SafetyFrom(s: Snapshot, work: seq<int>, finish: seq<bool>, sq: seq<nat>): (bool, Option<seq<nat>>)
    requires Covers(s) && |work| >= s.numResources && |finish| == s.numProcesses
    decreases s.numProcesses - |sq|
  {
    if |sq| >= s.numProcesses then (true, Some(sq))
    else
      var k := FirstFit(s, work, finish, 0);
      if k == s.numProcesses then (false, None)
      else SafetyFrom(s, Release(s, work, k), finish[k := true], sq + [k])
  }

  /** `[False] * num_processes`. */
  function NoneFinished(n: nat): (finish: seq<bool>)
    ensures |finish| == n && forall i :: 0 <= i < n ==> !finish[i]
  {
    seq(n, i => false)
  }

  /** `is_safe_state()` on a state with the given fields: `(is_safe, safe_sequence)`. */
  function SafetyCheck(s: Snapshot): (bool, Option<seq<nat>>)
    requires Checkable(s)
  {
    SafetyFrom(s, s.available, NoneFinished(s.numProcesses), [])
  }

  // ----- request_resources -----

  /** The state after the provisional allocation: `available -= request` and
      `allocation_matrix[pid] += request`, each rebuilt with `num_resources` entries. */
  function Provisional(s: Snapshot, pid: nat, request: seq<int>): (p: Snapshot)
    requires Checkable(s) && pid < s.numProcesses && |request| >= s.numResources
    ensures Checkable(p)
  {
    var row := s.allocationMatrix[pid];
    s.(available := seq(s.numResources, j requires 0 <= j < s.numResources => s.available[j] - request[j]),
       allocationMatrix := s.allocationMatrix[pid := seq(s.numResources, j requires 0 <= j < s.numResources => row[j] + request[j])])
  }

  /** The rollback: `available += request` and `allocation_matrix[pid] -= request`. */
  function Rollback(p: Snapshot, pid: nat, request: seq<int>): (s: Snapshot)
    requires Checkable(p) && pid < p.numProcesses && |request| >= p.numResources
  {
    var row := p.allocationMatrix[pid];
    p.(available := seq(p.numResources, j requires 0 <= j < p.numResources => p.available[j] + request[j]),
       allocationMatrix := p.allocationMatrix[pid := seq(p.numResources, j requires 0 <= j < p.numResources => row[j] - request[j])])
  }

  /** `request_resources(pid, request)`: whether it is granted, and the fields of the
      state afterwards. */
  function RequestOutcome(s: Snapshot, pid: nat, request: seq<int>): (bool, Snapshot)
    requires Checkable(s) && pid < s.numProcesses && |request| >= s.numResources
  {
    if exists j :: 0 <= j < s.numResources && request[j] > NeedMatrix(s)[pid][j] then (false, s)
    else if exists j :: 0 <= j < s.numResources && request[j] > s.available[j] then (false, s)
    else
      var p := Provisional(s, pid, request);
      if SafetyCheck(p).0 then (true, p) else (false, Rollback(p, pid, request))
  }

  /** `BankersAlgorithm(system_state)`: it keeps a reference to the state, not a copy. */
  class BankersAlgorithm {
    const systemState: SystemState

    constructor (systemState: SystemState)
      ensures this.systemState == systemState
    {
      this.systemState := systemState;
    }

    /** `is_safe_state()`. It changes nothing: `work` starts as a copy of `available`
        and is rebuilt, never updated in place. */
    method IsSafeState() returns (safe: bool, sequence: Option<seq<nat>>)
      requires Checkable(systemState.Contents())
      ensures (safe, sequence) == SafetyCheck(systemState.Contents())
    {
      var s := systemState.Contents();
      var n := systemState.numProcesses;
      var work := systemState.available;
      var finish := NoneFinished(n);
      var safeSequence: seq<nat> := [];
      while |safeSequence| < n
        invariant |work| >= s.numResources && |finish| == n
        invariant SafetyFrom(s, work, finish, safeSequence) == SafetyCheck(s)
        decreases n - |safeSequence|
      {
        var found := false;
        for i := 0 to n
          invariant !found
          invariant FirstFit(s, work, finish, i) == FirstFit(s, work, finish, 0)
        {
          if !finish[i] && Fits(s, work, i) {
            work := Release(s, work, i);
            finish := finish[i := true];
            safeSequence := safeSequence + [i];
            found := true;
            break;
          }
        }
        if !found {
          return false, None;
        }
      }
      return true, Some(safeSequence);
    }

    /** `request_resources(process_id, request)`. */
    method RequestResources(processId: nat, request: seq<int>) returns (granted: bool)
      requires Checkable(systemState.Contents())
      requires processId < systemState.numProcesses && |request| >= systemState.numResources
      modifies systemState
      ensures (granted, systemState.Contents()) == RequestOutcome(old(systemState.Contents()), processId, request)
    {
      var r := systemState.numResources;
      if exists j :: 0 <= j < r && request[j] > NeedMatrix(systemState.Contents())[processId][j] {
        return false;  // request exceeds need
      }
      if exists j :: 0 <= j < r && request[j] > systemState.available[j] {
        return false;  // request exceeds available resources
      }
      Allocate(processId, request);
      var safe, sequence := IsSafeState();
      if safe {
        return true;
      }
      Deallocate(processId, request);
      return false;
    }

    /** The block under `# Provisionally allocate resources`. */
    method Allocate(processId: nat, request: seq<int>)
      requires Checkable(systemState.Contents())
      requires processId < systemState.numProcesses && |request| >= systemState.numResources
      modifies systemState
      ensures systemState.Contents() == Provisional(old(systemState.Contents()), processId, request)
    {
      var r := systemState.numResources;
      var available := systemState.available;
      var row := systemState.allocationMatrix[processId];
      var lowered := seq(r, j requires 0 <= j < r => available[j] - request[j]);
      var raised := seq(r, j requires 0 <= j < r => row[j] + request[j]);
      ProvisionalFields(systemState.Contents(), processId, request, lowered, raised);
      systemState.available := lowered;
      systemState.allocationMatrix := systemState.allocationMatrix[processId := raised];
    }

    /** The block under `# Rollback allocation`. */
    method Deallocate(processId: nat, request: seq<int>)
      requires Checkable(systemState.Contents())
      requires processId < systemState.numProcesses && |request| >= systemState.numResources
      modifies systemState
      ensures systemState.Contents() == Rollback(old(systemState.Contents()), processId, request)
    {
      var r := systemState.numResources;
      var available := systemState.available;
      var row := systemState.allocationMatrix[processId];
      var restored := seq(r, j requires 0 <= j < r => available[j] + request[j]);
      var lessened := seq(r, j requires 0 <= j < r => row[j] - request[j]);
      RollbackFields(systemState.Contents(), processId, request, restored, lessened);
      systemState.available := restored;
      systemState.allocationMatrix := systemState.allocationMatrix[processId := lessened];
    }
  }

  /** The fields the provisional allocation writes are those of `Provisional`. */
  lemma ProvisionalFields(s: Snapshot, pid: nat, request: seq<int>, lowered: seq<int>, raised: seq<int>)
    requires Checkable(s) && pid < s.numProcesses && |request| >= s.numResources
    requires |lowered| == s.numResources && forall j :: 0 <= j < s.numResources ==> lowered[j] == s.available[j] - request[j]
    requires |raised| == s.numResources &&
      forall j :: 0 <= j < s.numResources ==> raised[j] == s.allocationMatrix[pid][j] + request[j]
    ensures s.(available := lowered, allocationMatrix := s.allocationMatrix[pid := raised]) == Provisional(s, pid, request)
  {
    var p := Provisional(s, pid, request);
    assert lowered == p.available;
    assert raised == p.allocationMatrix[pid];
  }

  /** The fields the rollback writes are those of `Rollback`. */
  lemma RollbackFields(p: Snapshot, pid: nat, request: seq<int>, restored: seq<int>, lessened: seq<int>)
    requires Checkable(p) && pid < p.numProcesses && |request| >= p.numResources
    requires |restored| == p.numResources && forall j :: 0 <= j < p.numResources ==> restored[j] == p.available[j] + request[j]
    requires |lessened| == p.numResources &&
      forall j :: 0 <= j < p.numResources ==> lessened[j] == p.allocationMatrix[pid][j] - request[j]
    ensures p.(available := restored, allocationMatrix := p.allocationMatrix[pid := lessened]) == Rollback(p, pid, request)
  {
    var s := Rollback(p, pid, request);
    assert restored == s.available;
    assert lessened == s.allocationMatrix[pid];
  }

  // ----- what the safety check means -----

  /** No process id occurs twice. */
  predicate AllDistinct(q: seq<nat>) {
    forall a, b :: 0 <= a < b < |q| ==> q[a] != q[b]
  }

  predicate InRange(q: seq<nat>, n: nat) {
    forall t :: 0 <= t < |q| ==> q[t] < n
  }

  /** `q` lists each of the processes `0..n-1` exactly once. */
  predicate IsPermutation(q: seq<nat>, n: nat) {
    |q| == n && InRange(q, n) && AllDistinct(q)
  }

  /** The work vector once the processes of `finished` have run to completion, in
      that order, each releasing its allocation. */
  function WorkAfter(s: Snapshot, finished: seq<nat>): (work: seq<int>)
    requires Checkable(s) && InRange(finished, s.numProcesses)
    ensures |work| >= s.numResources
    decreases |finished|
  {
    if |finished| == 0 then s.available
    else Release(s, WorkAfter(s, finished[..|finished| - 1]), finished[|finished| - 1])
  }

  /** The processes of `order` can finish one after the other in the greedy way: at
      each step the next process fits the work released so far, and it is the
      lowest-numbered process not yet finished that does. */
  ghost predicate GreedyPrefix(s: Snapshot, order: seq<nat>)
    requires Checkable(s)
  {
    InRange(order, s.numProcesses) && AllDistinct(order) &&
    forall t :: 0 <= t < |order| ==>
      Fits(s, WorkAfter(s, order[..t]), order[t]) &&
      forall i :: 0 <= i < order[t] && i !in order[..t] ==> !Fits(s, WorkAfter(s, order[..t]), i)
  }

  /** Once the processes of `finished` are done, no other process fits the work. */
  ghost predicate Stuck(s: Snapshot, finished: seq<nat>)
    requires Checkable(s) && InRange(finished, s.numProcesses)
  {
    forall i :: 0 <= i < s.numProcesses && i !in finished ==> !Fits(s, WorkAfter(s, finished), i)
  }

  /** `finish[i]` records whether `i` is in the safe sequence so far. */
  predicate Tracks(finish: seq<bool>, sq: seq<nat>, n: nat) {
    |finish| == n && forall i :: 0 <= i < n ==> (finish[i] <==> i in sq)
  }

  lemma GreedyExtend(s: Snapshot, order: seq<nat>, k: nat)
    requires Checkable(s) && GreedyPrefix(s, order) && k < s.numProcesses && k !in order
    requires Fits(s, WorkAfter(s, order), k)
    requires forall i :: 0 <= i < k && i !in order ==> !Fits(s, WorkAfter(s, order), i)
    ensures GreedyPrefix(s, order + [k])
  {
    var q := order + [k];
    assert q[..|order|] == order;
    forall t | 0 <= t < |order| ensures q[..t] == order[..t] && q[t] == order[t] {
    }
  }

  lemma {:induction false} SafetyFromCharacterized(s: Snapshot, work: seq<int>, finish: seq<bool>, sq: seq<nat>)
    requires Checkable(s) && GreedyPrefix(s, sq) && |sq| <= s.numProcesses
    requires work == WorkAfter(s, sq) && Tracks(finish, sq, s.numProcesses)
    ensures var r := SafetyFrom(s, work, finish, sq);
      (r.0 <==> r.1.Some?) &&
      (r.0 ==> IsPermutation(r.1.value, s.numProcesses) && GreedyPrefix(s, r.1.value)) &&
      (!r.0 ==> exists p :: GreedyPrefix(s, p) && |p| < s.numProcesses && Stuck(s, p))
    decreases s.numProcesses - |sq|
  {
    var n := s.numProcesses;
    if |sq| < n {
      var k := FirstFit(s, work, finish, 0);
      if k == n {
        NoneFitsStuck(s, work, finish, sq);
      } else {
        GreedyRound(s, work, finish, sq, k);
        SafetyFromCharacterized(s, Release(s, work, k), finish[k := true], sq + [k]);
      }
    }
  }

  /** A round in which no unfinished process fits leaves the greedy run stuck. */
  lemma NoneFitsStuck(s: Snapshot, work: seq<int>, finish: seq<bool>, sq: seq<nat>)
    requires Checkable(s) && GreedyPrefix(s, sq)
    requires work == WorkAfter(s, sq) && Tracks(finish, sq, s.numProcesses)
    requires FirstFit(s, work, finish, 0) == s.numProcesses
    ensures Stuck(s, sq)
  {
  }

  /** A round that picks process `k` extends the greedy run by `k`, releases `k`'s
      allocation into the work and marks `k` finished. */
  lemma GreedyRound(s: Snapshot, work: seq<int>, finish: seq<bool>, sq: seq<nat>, k: nat)
    requires Checkable(s) && GreedyPrefix(s, sq)
    requires work == WorkAfter(s, sq) && Tracks(finish, sq, s.numProcesses)
    requires k == FirstFit(s, work, finish, 0) < s.numProcesses
    ensures GreedyPrefix(s, sq + [k]) && WorkAfter(s, sq + [k]) == Release(s, work, k)
    ensures Tracks(finish[k := true], sq + [k], s.numProcesses)
  {
    GreedyExtend(s, sq, k);
    WorkAfterSnoc(s, sq, k);
    TracksSnoc(finish, sq, k, s.numProcesses);
  }

  /** Finishing `k` after `sq` releases `k`'s allocation into the work `sq` left. */
  lemma WorkAfterSnoc(s: Snapshot, sq: seq<nat>, k: nat)
    requires Checkable(s) && InRange(sq, s.numProcesses) && k < s.numProcesses
    ensures InRange(sq + [k], s.numProcesses)
    ensures WorkAfter(s, sq + [k]) == Release(s, WorkAfter(s, sq), k)
  {
    var next := sq + [k];
    assert next[..|next| - 1] == sq;
  }

  /** Marking `k` finished tracks `sq` followed by `k`. */
  lemma TracksSnoc(finish: seq<bool>, sq: seq<nat>, k: nat, n: nat)
    requires Tracks(finish, sq, n) && k < n
    ensures Tracks(finish[k := true], sq + [k], n)
  {
  }

  /** `is_safe_state` returns a sequence exactly when it answers safe; that sequence is
      a permutation of all process ids in which each process is the lowest-numbered
      unfinished one whose need fits the work left by those before it. An unsafe
      answer comes from a round of that greedy choice in which no unfinished process
      fits. */
  lemma SafetyCheckCharacterized(s: Snapshot)
    requires Checkable(s)
    ensures SafetyCheck(s).0 <==> SafetyCheck(s).1.Some?
    ensures SafetyCheck(s).0 ==>
      IsPermutation(SafetyCheck(s).1.value, s.numProcesses) && GreedyPrefix(s, SafetyCheck(s).1.value)
    ensures !SafetyCheck(s).0 ==> exists p :: GreedyPrefix(s, p) && |p| < s.numProcesses && Stuck(s, p)
  {
    SafetyFromCharacterized(s, s.available, NoneFinished(s.numProcesses), []);
  }

  /** What a greedy run says about its step `u`. */
  lemma GreedyStep(s: Snapshot, p: seq<nat>, u: nat)
    requires Checkable(s) && GreedyPrefix(s, p) && u < |p|
    ensures InRange(p[..u], s.numProcesses) && p[u] < s.numProcesses && p[u] !in p[..u]
    ensures Fits(s, WorkAfter(s, p[..u]), p[u])
    ensures forall i :: 0 <= i < p[u] && i !in p[..u] ==> !Fits(s, WorkAfter(s, p[..u]), i)
  {
  }

  /** The lowest-numbered unfinished process that fits is unique. */
  lemma SameChoice(s: Snapshot, work: seq<int>, done: seq<nat>, x: nat, y: nat)
    requires Covers(s) && |work| >= s.numResources && x < s.numProcesses && y < s.numProcesses
    requires x !in done && Fits(s, work, x) && forall i :: 0 <= i < x && i !in done ==> !Fits(s, work, i)
    requires y !in done && Fits(s, work, y) && forall i :: 0 <= i < y && i !in done ==> !Fits(s, work, i)
    ensures x == y
  {
    assert x >= y && y >= x;
  }

  /** Two greedy runs agree on their common length. */
  lemma {:induction false} GreedyPrefixUnique(s: Snapshot, p: seq<nat>, q: seq<nat>, t: nat)
    requires Checkable(s) && GreedyPrefix(s, p) && GreedyPrefix(s, q) && t <= |p| && t <= |q|
    ensures p[..t] == q[..t]
  {
    if t > 0 {
      var u := t - 1;
      GreedyPrefixUnique(s, p, q, u);
      GreedyAgreeStep(s, p, q, u);
      SnocAgree(p, q, u);
    }
  }

  /** Two greedy runs that agree before step `u` choose the same process at `u`. */
  lemma GreedyAgreeStep(s: Snapshot, p: seq<nat>, q: seq<nat>, u: nat)
    requires Checkable(s) && GreedyPrefix(s, p) && GreedyPrefix(s, q) && u < |p| && u < |q| && p[..u] == q[..u]
    ensures p[u] == q[u]
  {
    GreedyStep(s, p, u);
    GreedyStep(s, q, u);
    SameChoice(s, WorkAfter(s, p[..u]), p[..u], p[u], q[u]);
  }

  lemma SnocAgree(p: seq<nat>, q: seq<nat>, u: nat)
    requires u < |p| && u < |q| && p[..u] == q[..u] && p[u] == q[u]
    ensures p[..u + 1] == q[..u + 1]
  {
    assert p[..u + 1] == p[..u] + [p[u]];
    assert q[..u + 1] == q[..u] + [q[u]];
  }

  /** `is_safe_state` answers unsafe exactly when, in some round of the greedy choice,
      no unfinished process's need fits the work. */
  lemma UnsafeIffStuck(s: Snapshot)
    requires Checkable(s)
    ensures !SafetyCheck(s).0 <==> exists p :: GreedyPrefix(s, p) && |p| < s.numProcesses && Stuck(s, p)
  {
    SafetyCheckCharacterized(s);
    if SafetyCheck(s).0 {
      var q := SafetyCheck(s).1.value;
      forall p | GreedyPrefix(s, p) && |p| < s.numProcesses ensures !Stuck(s, p) {
        var t := |p|;
        GreedyPrefixUnique(s, p, q, t);
        assert p == q[..t];
        assert q[t] !in p;
        assert Fits(s, WorkAfter(s, p), q[t]);
      }
    }
  }

  // ----- the greedy check is complete -----

  predicate NonNegativeAllocations(s: Snapshot)
    requires Covers(s)
  {
    forall i, j :: 0 <= i < s.numProcesses && 0 <= j < s.numResources ==> s.allocationMatrix[i][j] >= 0
  }

  /** An order in which all processes can finish, each fitting the work released by
      those before it. */
  ghost predicate SafeSequence(s: Snapshot, q: seq<nat>)
    requires Checkable(s)
  {
    IsPermutation(q, s.numProcesses) && forall t :: 0 <= t < |q| ==> Fits(s, WorkAfter(s, q[..t]), q[t])
  }

  /** Resource `j` released by the processes of `finished`. */
  function Total(s: Snapshot, finished: seq<nat>, j: nat): int
    requires Covers(s) && InRange(finished, s.numProcesses) && j < s.numResources
    decreases |finished|
  {
    if |finished| == 0 then 0
    else Total(s, finished[..|finished| - 1], j) + s.allocationMatrix[finished[|finished| - 1]][j]
  }

  lemma {:induction false} WorkAfterTotal(s: Snapshot, finished: seq<nat>, j: nat)
    requires Checkable(s) && InRange(finished, s.numProcesses) && j < s.numResources
    ensures WorkAfter(s, finished)[j] == s.available[j] + Total(s, finished, j)
    decreases |finished|
  {
    if |finished| > 0 {
      WorkAfterTotal(s, finished[..|finished| - 1], j);
    }
  }

  lemma {:induction false} TotalAppend(s: Snapshot, a: seq<nat>, b: seq<nat>, j: nat)
    requires Covers(s) && InRange(a, s.numProcesses) && InRange(b, s.numProcesses) && j < s.numResources
    ensures InRange(a + b, s.numProcesses) && Total(s, a + b, j) == Total(s, a, j) + Total(s, b, j)
    decreases |b|
  {
    if |b| > 0 {
      var b' := b[..|b| - 1];
      assert (a + b)[..|a + b| - 1] == a + b';
      TotalAppend(s, a, b', j);
    } else {
      assert a + b == a;
    }
  }

  lemma {:induction false} TotalNonNegative(s: Snapshot, finished: seq<nat>, j: nat)
    requires Covers(s) && NonNegativeAllocations(s) && InRange(finished, s.numProcesses) && j < s.numResources
    ensures Total(s, finished, j) >= 0
    decreases |finished|
  {
    if |finished| > 0 {
      TotalNonNegative(s, finished[..|finished| - 1], j);
    }
  }

  /** Removing position `p` keeps every other value. */
  lemma RemoveAt(b: seq<nat>, p: nat)
    requires p < |b|
    ensures forall x :: x in b && x != b[p] ==> x in b[..p] + b[p + 1..]
  {
    forall x | x in b && x != b[p] ensures x in b[..p] + b[p + 1..] {
      var u :| 0 <= u < |b| && b[u] == x;
      if u < p {
        assert (b[..p] + b[p + 1..])[u] == x;
      } else {
        assert (b[..p] + b[p + 1..])[u - 1] == x;
      }
    }
  }

  /** A list of distinct ids all found in `b` is no longer than `b`. */
  lemma {:induction false} DistinctSubsetLength(a: seq<nat>, b: seq<nat>)
    requires AllDistinct(a) && forall x :: x in a ==> x in b
    ensures |a| <= |b|
    decreases |a|
  {
    if |a| > 0 {
      var x := a[|a| - 1];
      var a' := a[..|a| - 1];
      assert x in a;
      var p :| 0 <= p < |b| && b[p] == x;
      RemoveAt(b, p);
      forall y | y in a' ensures y in b[..p] + b[p + 1..] {
        var u :| 0 <= u < |a'| && a'[u] == y;
        assert a[u] == y && a[|a| - 1] == x;
        assert y in a && y != b[p];
      }
      DistinctSubsetLength(a', b[..p] + b[p + 1..]);
    }
  }

  /** Removing position `p` keeps the ids distinct. */
  lemma RemoveAtDistinct(b: seq<nat>, p: nat)
    requires p < |b| && AllDistinct(b)
    ensures AllDistinct(b[..p] + b[p + 1..])
  {
    var rest := b[..p] + b[p + 1..];
    forall c, d | 0 <= c < d < |rest| ensures rest[c] != rest[d] {
      var c' := if c < p then c else c + 1;
      var d' := if d < p then d else d + 1;
      assert rest[c] == b[c'] && rest[d] == b[d'];
    }
  }

  /** Ids of `b` other than the one at position `p` stay after removing it. */
  lemma RemoveOthers(others: seq<nat>, b: seq<nat>, p: nat)
    requires p < |b| && b[p] !in others && forall y :: y in others ==> y in b
    ensures forall y :: y in others ==> y in b[..p] + b[p + 1..]
  {
    RemoveAt(b, p);
  }

  /** What the processes of `b` release is what they release without the one at
      position `p`, plus that one's allocation. */
  lemma TotalRemove(s: Snapshot, b: seq<nat>, p: nat, j: nat)
    requires Covers(s) && InRange(b, s.numProcesses) && p < |b| && j < s.numResources
    ensures InRange(b[..p] + b[p + 1..], s.numProcesses)
    ensures Total(s, b, j) == Total(s, b[..p] + b[p + 1..], j) + s.allocationMatrix[b[p]][j]
  {
    var front, back := b[..p], b[p + 1..];
    assert b == front + [b[p]] + back;
    TotalAppend(s, front, [b[p]], j);
    TotalAppend(s, front + [b[p]], back, j);
    TotalAppend(s, front, back, j);
    assert [b[p]][..0] == [];
  }

  /** With no negative allocation, the processes of a sub-list release no more of any
      resource than the processes of the whole list. */
  lemma {:induction false} SubsetTotal(s: Snapshot, a: seq<nat>, b: seq<nat>, j: nat)
    requires Covers(s) && NonNegativeAllocations(s) && j < s.numResources
    requires InRange(a, s.numProcesses) && InRange(b, s.numProcesses) && AllDistinct(a) && AllDistinct(b)
    requires forall x :: x in a ==> x in b
    ensures Total(s, a, j) <= Total(s, b, j)
    decreases |a|
  {
    if |a| == 0 {
      TotalNonNegative(s, b, j);
    } else {
      var x := a[|a| - 1];
      assert x in a;
      var p :| 0 <= p < |b| && b[p] == x;
      var init := a[..|a| - 1];
      forall y | y in init ensures y in b && y != x {
        var u :| 0 <= u < |init| && init[u] == y;
        assert a[u] == y;
      }
      RemoveOthers(init, b, p);
      RemoveAtDistinct(b, p);
      TotalRemove(s, b, p, j);
      SubsetTotal(s, a[..|a| - 1], b[..p] + b[p + 1..], j);
    }
  }

  /** The first position of `q` at or after `i` whose id is not in `finished`. */
  lemma {:induction false} FirstOutside(q: seq<nat>, finished: seq<nat>, i: nat) returns (t: nat)
    requires i <= |q| && (exists u :: i <= u < |q| && q[u] !in finished)
    ensures i <= t < |q| && q[t] !in finished && forall u :: i <= u < t ==> q[u] in finished
    decreases |q| - i
  {
    if q[i] !in finished {
      t := i;
    } else {
      t := FirstOutside(q, finished, i + 1);
    }
  }

  /** A process that fits the work left by some of the finished processes also fits
      the work left by all of them. */
  lemma FitsMoreWork(s: Snapshot, a: seq<nat>, b: seq<nat>, k: nat)
    requires Checkable(s) && NonNegativeAllocations(s) && k < s.numProcesses
    requires InRange(a, s.numProcesses) && InRange(b, s.numProcesses) && AllDistinct(a) && AllDistinct(b)
    requires forall x :: x in a ==> x in b
    requires Fits(s, WorkAfter(s, a), k)
    ensures Fits(s, WorkAfter(s, b), k)
  {
    forall j | 0 <= j < s.numResources ensures WorkAfter(s, a)[j] <= WorkAfter(s, b)[j] {
      SubsetTotal(s, a, b, j);
      WorkAfterTotal(s, a, j);
      WorkAfterTotal(s, b, j);
    }
  }

  /** A safe order always has a next process for a greedy run that has not
      finished everyone. */
  lemma SafeSequenceUnsticks(s: Snapshot, q: seq<nat>, p: seq<nat>)
    requires Checkable(s) && NonNegativeAllocations(s) && SafeSequence(s, q)
    requires GreedyPrefix(s, p) && |p| < s.numProcesses
    ensures !Stuck(s, p)
  {
    var t := OutsidePosition(q, p, s.numProcesses);
    SafeSequenceAt(s, q, t);
    FitsMoreWork(s, q[..t], p, q[t]);
  }

  /** A permutation of `0..n-1` has a position holding an id missing from a shorter
      distinct list, with every id before it in that list. */
  lemma OutsidePosition(q: seq<nat>, p: seq<nat>, n: nat) returns (t: nat)
    requires IsPermutation(q, n) && AllDistinct(p) && |p| < n
    ensures t < |q| && q[t] !in p && forall x :: x in q[..t] ==> x in p
  {
    if forall x :: x in q ==> x in p {
      DistinctSubsetLength(q, p);
    }
    t := FirstOutside(q, p, 0);
    forall y | y in q[..t] ensures y in p {
      var v :| 0 <= v < t && q[..t][v] == y;
      assert q[v] == y;
    }
  }

  /** What a safe order says about its position `t`: the processes before it are
      distinct ids, and the one at `t` fits the work they release. */
  lemma SafeSequenceAt(s: Snapshot, q: seq<nat>, t: nat)
    requires Checkable(s) && SafeSequence(s, q) && t < |q|
    ensures InRange(q[..t], s.numProcesses) && AllDistinct(q[..t]) && q[t] < s.numProcesses
    ensures Fits(s, WorkAfter(s, q[..t]), q[t])
  {
  }

  /** With no negative allocation, the greedy check misses no safe order: if the
      processes can all finish in some order, `is_safe_state` answers safe. */
  lemma Completeness(s: Snapshot, q: seq<nat>)
    requires Checkable(s) && NonNegativeAllocations(s) && SafeSequence(s, q)
    ensures SafetyCheck(s).0
  {
    SafetyCheckCharacterized(s);
    forall p | GreedyPrefix(s, p) && |p| < s.numProcesses ensures !Stuck(s, p) {
      SafeSequenceUnsticks(s, q, p);
    }
  }

  /** With no negative allocation, `is_safe_state` answers safe exactly when the
      processes can all finish in some order. */
  lemma SafeIffSafeSequenceExists(s: Snapshot)
    requires Checkable(s) && NonNegativeAllocations(s)
    ensures SafetyCheck(s).0 <==> exists q :: SafeSequence(s, q)
  {
    SafetyCheckCharacterized(s);
    if SafetyCheck(s).0 {
      var q := SafetyCheck(s).1.value;
      assert SafeSequence(s, q);
    }
    if exists q :: SafeSequence(s, q) {
      var q :| SafeSequence(s, q);
      Completeness(s, q);
    }
  }

  // ----- what a request does -----

  /** `request <= need[process_id]` on every resource. */
  predicate WithinNeed(s: Snapshot, pid: nat, request: seq<int>)
    requires Covers(s) && pid < s.numProcesses && |request| >= s.numResources
  {
    forall j :: 0 <= j < s.numResources ==> request[j] <= NeedMatrix(s)[pid][j]
  }

  /** `request <= available` on every resource. */
  predicate WithinAvailable(s: Snapshot, request: seq<int>)
    requires |s.available| >= s.numResources && |request| >= s.numResources
  {
    forall j :: 0 <= j < s.numResources ==> request[j] <= s.available[j]
  }

  /** `after` is `s` with `request` moved from the available vector to the allocation
      of process `pid`, and nothing else changed. */
  predicate Granted(s: Snapshot, pid: nat, request: seq<int>, after: Snapshot)
    requires Checkable(s) && pid < s.numProcesses && |request| >= s.numResources
  {
    after.numProcesses == s.numProcesses && after.numResources == s.numResources &&
    after.maxMatrix == s.maxMatrix &&
    |after.available| == s.numResources &&
    (forall j :: 0 <= j < s.numResources ==> after.available[j] == s.available[j] - request[j]) &&
    |after.allocationMatrix| == |s.allocationMatrix| &&
    |after.allocationMatrix[pid]| == s.numResources &&
    (forall j :: 0 <= j < s.numResources ==> after.allocationMatrix[pid][j] == s.allocationMatrix[pid][j] + request[j]) &&
    forall i :: 0 <= i < |s.allocationMatrix| && i != pid ==> after.allocationMatrix[i] == s.allocationMatrix[i]
  }

  /** `s` with `available` and the allocation row of `pid` cut to `num_resources`
      entries: what the rollback leaves, since it rebuilds both with that length. */
  function Trimmed(s: Snapshot, pid: nat): Snapshot
    requires Checkable(s) && pid < s.numProcesses
  {
    s.(available := s.available[..s.numResources],
       allocationMatrix := s.allocationMatrix[pid := s.allocationMatrix[pid][..s.numResources]])
  }

  lemma ProvisionalGranted(s: Snapshot, pid: nat, request: seq<int>)
    requires Checkable(s) && pid < s.numProcesses && |request| >= s.numResources
    ensures Granted(s, pid, request, Provisional(s, pid, request))
  {
  }

  lemma RollbackTrims(s: Snapshot, pid: nat, request: seq<int>)
    requires Checkable(s) && pid < s.numProcesses && |request| >= s.numResources
    ensures Rollback(Provisional(s, pid, request), pid, request) == Trimmed(s, pid)
  {
    var p := Provisional(s, pid, request);
    var q := Rollback(p, pid, request);
    var t := Trimmed(s, pid);
    assert q.available == t.available;
    assert q.allocationMatrix[pid] == t.allocationMatrix[pid];
    assert q.allocationMatrix == t.allocationMatrix;
  }

  /** `request_resources` grants exactly when the request is within the process's need
      and the available vector and the provisional state is safe. A granted request
      moves the request from `available` to the process's allocation and leaves a
      safe state; one denied at the need or availability check changes nothing; one
      denied by the safety check is rolled back. */
  lemma RequestCharacterized(s: Snapshot, pid: nat, request: seq<int>)
    requires Checkable(s) && pid < s.numProcesses && |request| >= s.numResources
    ensures var (granted, after) := RequestOutcome(s, pid, request);
      (granted <==> WithinNeed(s, pid, request) && WithinAvailable(s, request) &&
                    SafetyCheck(Provisional(s, pid, request)).0) &&
      (!WithinNeed(s, pid, request) || !WithinAvailable(s, request) ==> after == s) &&
      (granted ==> Granted(s, pid, request, after) && SafetyCheck(after).0) &&
      (!granted && WithinNeed(s, pid, request) && WithinAvailable(s, request) ==> after == Trimmed(s, pid))
  {
    ProvisionalGranted(s, pid, request);
    RollbackTrims(s, pid, request);
  }

  /** A denied request leaves a state whose `available` and allocation rows have
      exactly `num_resources` entries as it was. */
  lemma DeniedRequestRestores(s: Snapshot, pid: nat, request: seq<int>)
    requires Checkable(s) && pid < s.numProcesses && |request| >= s.numResources
    requires |s.available| == s.numResources && |s.allocationMatrix[pid]| == s.numResources
    ensures !RequestOutcome(s, pid, request).0 ==> RequestOutcome(s, pid, request).1 == s
  {
    RequestCharacterized(s, pid, request);
    assert s.available[..s.numResources] == s.available;
    assert s.allocationMatrix[pid][..s.numResources] == s.allocationMatrix[pid];
    assert s.allocationMatrix[pid := s.allocationMatrix[pid]] == s.allocationMatrix;
  }

  /** The Banker's invariant: from a safe state, whatever a process requests, the
      state after `request_resources` is safe. */
  lemma RequestKeepsSafety(s: Snapshot, pid: nat, request: seq<int>)
    requires Checkable(s) && pid < s.numProcesses && |request| >= s.numResources
    requires |s.available| == s.numResources && |s.allocationMatrix[pid]| == s.numResources
    requires SafetyCheck(s).0
    ensures SafetyCheck(RequestOutcome(s, pid, request).1).0
  {
    RequestCharacterized(s, pid, request);
    DeniedRequestRestores(s, pid, request);
  }

  /** `request_resources` keeps a state that passes `validate()` valid: a granted
      request stays within the process's claim. */
  lemma RequestKeepsValidity(s: Snapshot, pid: nat, request: seq<int>)
    requires Checkable(s) && pid < s.numProcesses && |request| >= s.numResources && Validate(s)
    ensures Validate(RequestOutcome(s, pid, request).1)
  {
    RequestCharacterized(s, pid, request);
    var (granted, after) := RequestOutcome(s, pid, request);
    if granted {
      forall i, j | 0 <= i < s.numProcesses && 0 <= j < s.numResources
        ensures after.allocationMatrix[i][j] <= after.maxMatrix[i][j]
      {
        if i == pid {
          assert NeedMatrix(s)[pid][j] + s.allocationMatrix[pid][j] == s.maxMatrix[pid][j];
        }
      }
    }
  }
}
