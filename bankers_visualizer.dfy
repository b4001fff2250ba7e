/** deadlock_prevention/bankers/visualizer.py, `_compute_trace`: the safety check
    run once more, this time writing down each process it inspects, each process
    that finishes, and the verdict. */
module BankersVisualizer {
  import opened Results
  import opened Text
  import opened BankersModel
  import opened BankersCore

  /** One line of the trace, before it is formatted. */
  datatype TraceEntry =
    | Inspect(step: nat, pid: nat, need: seq<int>, work: seq<int>)
    | Releasing(pid: nat, allocation: seq<int>)
    | UnsafeVerdict
    | SafeVerdict(sequence: seq<nat>)

  /** The f-string `_compute_trace` appends for an entry. */
  function Render(e: TraceEntry): string {
    match e
    case Inspect(step, pid, need, work) =>
      "Step " + ShowNat(step) + ": Inspect P" + ShowNat(pid) + " \U{2014} Need " + ListRepr(need) + ", Work " + ListRepr(work)
    case Releasing(pid, allocation) =>
      "\tP" + ShowNat(pid) + " can finish. Releasing allocation " + ListRepr(allocation)
    case UnsafeVerdict =>
      "System is UNSAFE \U{2014} no process can proceed with current work vector."
    case SafeVerdict(sequence) =>
      "System is SAFE. Safe sequence: " + Join(" \U{2192} ", seq(|sequence|, i requires 0 <= i < |sequence| => "P" + ShowNat(sequence[i])))
  }

  /** The trace's lines, one per entry. */
  function RenderAll(t: seq<TraceEntry>): seq<string> {
    seq(|t|, m requires 0 <= m < |t| => Render(t[m]))
  }

  /** What the `for pid in range(num_processes)` scan still writes from `i` on: an
      `Inspect` line for each unfinished process up to the first that fits, and a
      `Releasing` line for that one. */
  function RoundTrace(s: Snapshot, work: seq<int>, finish: seq<bool>, i: nat, step: nat): seq<TraceEntry>
    requires Covers(s) && |work| >= s.numResources && |finish| == s.numProcesses && i <= s.numProcesses
    decreases s.numProcesses - i
  {
    if i == s.numProcesses then []
    else if finish[i] then RoundTrace(s, work, finish, i + 1, step)
    else
      [Inspect(step, i, NeedMatrix(s)[i], work)] +
      (if Fits(s, work, i) then [Releasing(i, s.allocationMatrix[i])] else RoundTrace(s, work, finish, i + 1, step))
  }

  /** What the `while` loop still writes from loop variables `work`, `finish` and `sq`;
      `step` is always one more than the length of `sq`. */
  function TraceFrom(s: Snapshot, work: seq<int>, finish: seq<bool>, sq: seq<nat>): seq<TraceEntry>
    requires Covers(s) && |work| >= s.numResources && |finish| == s.numProcesses
    decreases s.numProcesses - |sq|
  {
    if |sq| >= s.numProcesses then [SafeVerdict(sq)]
    else
      var k := FirstFit(s, work, finish, 0);
      RoundTrace(s, work, finish, 0, |sq| + 1) +
      (if k == s.numProcesses then [UnsafeVerdict] else TraceFrom(s, Release(s, work, k), finish[k := true], sq + [k]))
  }

  /** The entries `_compute_trace` writes for a state with the given fields. */
  function Trace(s: Snapshot): seq<TraceEntry>
    requires Checkable(s)
  {
    TraceFrom(s, s.available, NoneFinished(s.numProcesses), [])
  }

  /** One pass of the `for pid in range(num_processes)` scan of `_compute_trace`: the
      process that finishes (`num_processes` if none does) and the entries written. */
  method ScanRound(systemState: SystemState, work: seq<int>, finish: seq<bool>, step: nat) returns (k: nat, entries: seq<TraceEntry>)
    requires Checkable(systemState.Contents()) && |work| >= systemState.numResources && |finish| == systemState.numProcesses
    ensures k == FirstFit(systemState.Contents(), work, finish, 0)
    ensures entries == RoundTrace(systemState.Contents(), work, finish, 0, step)
  {
    var s := systemState.Contents();
    var n := systemState.numProcesses;
    entries := [];
    for pid := 0 to n
      invariant FirstFit(s, work, finish, pid) == FirstFit(s, work, finish, 0)
      invariant entries + RoundTrace(s, work, finish, pid, step) == RoundTrace(s, work, finish, 0, step)
    {
      if !finish[pid] {
        var need := NeedMatrix(s)[pid];
        entries := entries + [Inspect(step, pid, need, work)];
        if Fits(s, work, pid) {
          entries := entries + [Releasing(pid, systemState.allocationMatrix[pid])];
          return pid, entries;
        }
      }
    }
    return n, entries;
  }

  lemma AppendAssoc(a: seq<TraceEntry>, b: seq<TraceEntry>, c: seq<TraceEntry>)
    ensures (a + b) + c == a + (b + c)
  {
  }

  /** A pass of the `while` loop of `_compute_trace` whose scan finds no process: the
      answer is unsafe and the lines end with the verdict. */
  lemma LoopStops(s: Snapshot, work: seq<int>, finish: seq<bool>, sq: seq<nat>, round: seq<TraceEntry>, before: seq<TraceEntry>)
    requires Covers(s) && |work| >= s.numResources && |finish| == s.numProcesses && |sq| < s.numProcesses
    requires FirstFit(s, work, finish, 0) == s.numProcesses && round == RoundTrace(s, work, finish, 0, |sq| + 1)
    ensures SafetyFrom(s, work, finish, sq) == (false, None)
    ensures before + TraceFrom(s, work, finish, sq) == (before + round) + [UnsafeVerdict]
  {
    AppendAssoc(before, round, [UnsafeVerdict]);
  }

  /** A pass of the `while` loop of `_compute_trace` whose scan finds process `k`: the
      verdict and the remaining lines are those of the next loop state. */
  lemma LoopGoesOn(s: Snapshot, work: seq<int>, finish: seq<bool>, sq: seq<nat>, k: nat, round: seq<TraceEntry>, before: seq<TraceEntry>)
    requires Covers(s) && |work| >= s.numResources && |finish| == s.numProcesses && |sq| < s.numProcesses
    requires k == FirstFit(s, work, finish, 0) < s.numProcesses && round == RoundTrace(s, work, finish, 0, |sq| + 1)
    ensures SafetyFrom(s, work, finish, sq) == SafetyFrom(s, Release(s, work, k), finish[k := true], sq + [k])
    ensures before + TraceFrom(s, work, finish, sq) ==
      (before + round) + TraceFrom(s, Release(s, work, k), finish[k := true], sq + [k])
  {
    AppendAssoc(before, round, TraceFrom(s, Release(s, work, k), finish[k := true], sq + [k]));
  }

  /** The `while` loop of `_compute_trace` once every process has finished. */
  lemma LoopDone(s: Snapshot, work: seq<int>, finish: seq<bool>, sq: seq<nat>)
    requires Covers(s) && |work| >= s.numResources && |finish| == s.numProcesses && |sq| >= s.numProcesses
    ensures SafetyFrom(s, work, finish, sq) == (true, Some(sq))
    ensures TraceFrom(s, work, finish, sq) == [SafeVerdict(sq)]
  {
  }

  /** The `while` loop of `_compute_trace`: the verdict, the safe sequence and the
      entries it writes, before they are formatted. */
  method TraceEntries(systemState: SystemState) returns (safe: bool, sequence: Option<seq<nat>>, entries: seq<TraceEntry>)
    requires Checkable(systemState.Contents())
    ensures (safe, sequence) == SafetyCheck(systemState.Contents())
    ensures entries == Trace(systemState.Contents())
  {
    var s := systemState.Contents();
    var n := systemState.numProcesses;
    var work := systemState.available;
    var finish := NoneFinished(n);
    var safeSequence: seq<nat> := [];
    entries := [];
    var step := 1;
    while |safeSequence| < n
      invariant |work| >= s.numResources && |finish| == n && step == |safeSequence| + 1
      invariant SafetyFrom(s, work, finish, safeSequence) == SafetyCheck(s)
      invariant entries + TraceFrom(s, work, finish, safeSequence) == Trace(s)
      decreases n - |safeSequence|
    {
      var k, round := ScanRound(systemState, work, finish, step);
      if k == n {
        LoopStops(s, work, finish, safeSequence, round, entries);
        entries := entries + round + [UnsafeVerdict];
        return false, None, entries;
      }
      LoopGoesOn(s, work, finish, safeSequence, k, round, entries);
      entries := entries + round;
      work := Release(s, work, k);
      finish := finish[k := true];
      safeSequence := safeSequence + [k];
      step := step + 1;
    }
    LoopDone(s, work, finish, safeSequence);
    entries := entries + [SafeVerdict(safeSequence)];
    return true, Some(safeSequence), entries;
  }

  /** `_compute_trace(system_state)`. The entries are formatted when the trace is
      returned rather than as each is appended; the lines are the same. */
  method ComputeTrace(systemState: SystemState) returns (safe: bool, sequence: Option<seq<nat>>, trace: seq<string>)
    requires Checkable(systemState.Contents())
    ensures (safe, sequence) == SafetyCheck(systemState.Contents())
    ensures trace == RenderAll(Trace(systemState.Contents()))
  {
    var entries;
    safe, sequence, entries := TraceEntries(systemState);
    trace := RenderAll(entries);
  }

  // ----- what the trace shows -----

  /** The processes the trace reports as finishing, in order. */
  function Released(t: seq<TraceEntry>): seq<nat> {
    if |t| == 0 then []
    else (if t[0].Releasing? then [t[0].pid] else []) + Released(t[1..])
  }

  predicate IsVerdict(e: TraceEntry) {
    e.UnsafeVerdict? || e.SafeVerdict?
  }

  lemma {:induction false} ReleasedAppend(a: seq<TraceEntry>, b: seq<TraceEntry>)
    ensures Released(a + b) == Released(a) + Released(b)
    decreases |a|
  {
    if |a| > 0 {
      assert (a + b)[1..] == a[1..] + b;
      ReleasedAppend(a[1..], b);
    } else {
      assert a + b == b;
    }
  }

  /** The lines of a scan past its first: the scan from the next process, or the
      `Releasing` line. */
  lemma RoundShape(s: Snapshot, work: seq<int>, finish: seq<bool>, i: nat, step: nat)
    requires Covers(s) && |work| >= s.numResources && |finish| == s.numProcesses && i < s.numProcesses && !finish[i]
    ensures RoundTrace(s, work, finish, i, step) ==
      [Inspect(step, i, NeedMatrix(s)[i], work)] +
      (if Fits(s, work, i) then [Releasing(i, s.allocationMatrix[i])] else RoundTrace(s, work, finish, i + 1, step))
  {
  }

  /** A scan reports as finishing exactly the process the safety loop picks. */
  lemma {:induction false} RoundReleased(s: Snapshot, work: seq<int>, finish: seq<bool>, i: nat, step: nat)
    requires Covers(s) && |work| >= s.numResources && |finish| == s.numProcesses && i <= s.numProcesses
    ensures var k := FirstFit(s, work, finish, i);
      Released(RoundTrace(s, work, finish, i, step)) == (if k < s.numProcesses then [k] else [])
    decreases s.numProcesses - i
  {
    if i < s.numProcesses {
      ReleasedNext(s, work, finish, i, step);
      FirstFitStep(s, work, finish, i);
      if FirstFit(s, work, finish, i) != i {
        RoundReleased(s, work, finish, i + 1, step);
      }
    }
  }

  /** When the scan does not stop at process `i`, it stops where the scan from `i + 1` does. */
  lemma FirstFitStep(s: Snapshot, work: seq<int>, finish: seq<bool>, i: nat)
    requires Covers(s) && |work| >= s.numResources && |finish| == s.numProcesses && i < s.numProcesses
    ensures FirstFit(s, work, finish, i) != i ==> FirstFit(s, work, finish, i) == FirstFit(s, work, finish, i + 1)
  {
  }

  /** The scan at process `i` releases `i` if it stops there, and otherwise writes what the
      scan from `i + 1` releases. */
  lemma ReleasedNext(s: Snapshot, work: seq<int>, finish: seq<bool>, i: nat, step: nat)
    requires Covers(s) && |work| >= s.numResources && |finish| == s.numProcesses && i < s.numProcesses
    ensures Released(RoundTrace(s, work, finish, i, step)) ==
      if FirstFit(s, work, finish, i) == i then [i] else Released(RoundTrace(s, work, finish, i + 1, step))
  {
    if !finish[i] {
      ReleasedAt(s, work, finish, i, step);
    }
  }

  /** At an unfinished process the scan releases it if it fits and otherwise goes on. */
  lemma ReleasedAt(s: Snapshot, work: seq<int>, finish: seq<bool>, i: nat, step: nat)
    requires Covers(s) && |work| >= s.numResources && |finish| == s.numProcesses && i < s.numProcesses && !finish[i]
    ensures Released(RoundTrace(s, work, finish, i, step)) ==
      if Fits(s, work, i) then [i] else Released(RoundTrace(s, work, finish, i + 1, step))
  {
    RoundShape(s, work, finish, i, step);
    var head := [Inspect(step, i, NeedMatrix(s)[i], work)];
    var tail := if Fits(s, work, i) then [Releasing(i, s.allocationMatrix[i])] else RoundTrace(s, work, finish, i + 1, step);
    ReleasedAppend(head, tail);
    assert Released(head) == [];
  }

  /** A scan writes no verdict. */
  lemma {:induction false} RoundNoVerdict(s: Snapshot, work: seq<int>, finish: seq<bool>, i: nat, step: nat)
    requires Covers(s) && |work| >= s.numResources && |finish| == s.numProcesses && i <= s.numProcesses
    ensures var round := RoundTrace(s, work, finish, i, step);
      forall m :: 0 <= m < |round| ==> !IsVerdict(round[m])
    decreases s.numProcesses - i
  {
    if i < s.numProcesses {
      if finish[i] {
        assert RoundTrace(s, work, finish, i, step) == RoundTrace(s, work, finish, i + 1, step);
        RoundNoVerdict(s, work, finish, i + 1, step);
      } else {
        RoundShape(s, work, finish, i, step);
        if !Fits(s, work, i) {
          RoundNoVerdict(s, work, finish, i + 1, step);
        }
      }
    }
  }

  /** A scan inspects only unfinished processes, all under the current step number and
      before the one that finishes. */
  lemma {:induction false} RoundInspects(s: Snapshot, work: seq<int>, finish: seq<bool>, i: nat, step: nat)
    requires Covers(s) && |work| >= s.numResources && |finish| == s.numProcesses && i <= s.numProcesses
    ensures forall m :: 0 <= m < |RoundTrace(s, work, finish, i, step)| && RoundTrace(s, work, finish, i, step)[m].Inspect? ==>
      RoundTrace(s, work, finish, i, step)[m].step == step &&
      RoundTrace(s, work, finish, i, step)[m].pid < s.numProcesses &&
      !finish[RoundTrace(s, work, finish, i, step)[m].pid] &&
      Released(RoundTrace(s, work, finish, i, step)[..m]) == []
    decreases s.numProcesses - i
  {
    if i < s.numProcesses {
      if finish[i] {
        RoundInspects(s, work, finish, i + 1, step);
      } else {
        RoundShape(s, work, finish, i, step);
        var head := [Inspect(step, i, NeedMatrix(s)[i], work)];
        var tail := if Fits(s, work, i) then [Releasing(i, s.allocationMatrix[i])] else RoundTrace(s, work, finish, i + 1, step);
        var round := head + tail;
        if !Fits(s, work, i) {
          RoundInspects(s, work, finish, i + 1, step);
        }
        forall m | 0 <= m < |round| && round[m].Inspect?
          ensures round[m].step == step && round[m].pid < s.numProcesses && !finish[round[m].pid] && Released(round[..m]) == []
        {
          if m == 0 {
            assert round[..0] == [];
          } else {
            assert round[..m] == head + tail[..m - 1] && round[m] == tail[m - 1];
            ReleasedAppend(head, tail[..m - 1]);
          }
        }
      }
    }
  }

  /** One round of the loop in the trace: the scan, then the unsafe verdict or the
      rest of the trace. */
  lemma TraceShape(s: Snapshot, work: seq<int>, finish: seq<bool>, sq: seq<nat>)
    requires Covers(s) && |work| >= s.numResources && |finish| == s.numProcesses && |sq| < s.numProcesses
    ensures var k := FirstFit(s, work, finish, 0);
      TraceFrom(s, work, finish, sq) == RoundTrace(s, work, finish, 0, |sq| + 1) +
        (if k == s.numProcesses then [UnsafeVerdict] else TraceFrom(s, Release(s, work, k), finish[k := true], sq + [k]))
  {
  }

  /** The processes reported finishing in one round of the loop and after it. */
  lemma ReleasedStep(s: Snapshot, work: seq<int>, finish: seq<bool>, sq: seq<nat>)
    requires Covers(s) && |work| >= s.numResources && |finish| == s.numProcesses && |sq| < s.numProcesses
    ensures var k := FirstFit(s, work, finish, 0);
      Released(TraceFrom(s, work, finish, sq)) ==
        (if k == s.numProcesses then [] else [k] + Released(TraceFrom(s, Release(s, work, k), finish[k := true], sq + [k])))
  {
    var k := FirstFit(s, work, finish, 0);
    var round := RoundTrace(s, work, finish, 0, |sq| + 1);
    TraceShape(s, work, finish, sq);
    RoundReleased(s, work, finish, 0, |sq| + 1);
    var rest := if k == s.numProcesses then [UnsafeVerdict] else TraceFrom(s, Release(s, work, k), finish[k := true], sq + [k]);
    ReleasedAppend(round, rest);
    assert Released([UnsafeVerdict]) == [];
  }

  /** From any point of the loop, the trace ends with the verdict of the safety check
      and holds no other verdict. */
  lemma {:induction false} VerdictFrom(s: Snapshot, work: seq<int>, finish: seq<bool>, sq: seq<nat>)
    requires Covers(s) && |work| >= s.numResources && |finish| == s.numProcesses
    ensures SafetyFrom(s, work, finish, sq).0 <==> SafetyFrom(s, work, finish, sq).1.Some?
    ensures var t := TraceFrom(s, work, finish, sq);
      var r := SafetyFrom(s, work, finish, sq);
      |t| > 0 && (forall m :: 0 <= m < |t| - 1 ==> !IsVerdict(t[m])) &&
      t[|t| - 1] == (if r.0 then SafeVerdict(r.1.value) else UnsafeVerdict)
    decreases s.numProcesses - |sq|
  {
    if |sq| < s.numProcesses {
      var k := FirstFit(s, work, finish, 0);
      var round := RoundTrace(s, work, finish, 0, |sq| + 1);
      TraceShape(s, work, finish, sq);
      RoundNoVerdict(s, work, finish, 0, |sq| + 1);
      var rest := if k == s.numProcesses then [UnsafeVerdict] else TraceFrom(s, Release(s, work, k), finish[k := true], sq + [k]);
      if k < s.numProcesses {
        VerdictFrom(s, Release(s, work, k), finish[k := true], sq + [k]);
      }
      var t := round + rest;
      forall m | 0 <= m < |t| - 1 ensures !IsVerdict(t[m]) {
        if m >= |round| {
          assert t[m] == rest[m - |round|];
        }
      }
    }
  }

  /** `_compute_trace` ends with the verdict of the safety check, `SAFE` with the safe
      sequence or `UNSAFE`, and writes no verdict before it. */
  lemma TraceEndsWithVerdict(s: Snapshot)
    requires Checkable(s)
    ensures SafetyCheck(s).0 <==> SafetyCheck(s).1.Some?
    ensures var t := Trace(s);
      |t| > 0 && (forall m :: 0 <= m < |t| - 1 ==> !IsVerdict(t[m])) &&
      t[|t| - 1] == (if SafetyCheck(s).0 then SafeVerdict(SafetyCheck(s).1.value) else UnsafeVerdict)
  {
    VerdictFrom(s, s.available, NoneFinished(s.numProcesses), []);
  }

  /** The processes the safety loop finishes from loop variables `work`, `finish`
      and `sq` on, appended to `sq`, whether or not it finishes them all. */
  ghost function RunFrom(s: Snapshot, work: seq<int>, finish: seq<bool>, sq: seq<nat>): seq<nat>
    requires Covers(s) && |work| >= s.numResources && |finish| == s.numProcesses
    decreases s.numProcesses - |sq|
  {
    if |sq| >= s.numProcesses then sq
    else
      var k := FirstFit(s, work, finish, 0);
      if k == s.numProcesses then sq else RunFrom(s, Release(s, work, k), finish[k := true], sq + [k])
  }

  /** The trace reports as finishing exactly the processes the loop finishes. */
  lemma {:induction false} ReleasedIsRun(s: Snapshot, work: seq<int>, finish: seq<bool>, sq: seq<nat>)
    requires Covers(s) && |work| >= s.numResources && |finish| == s.numProcesses
    ensures sq + Released(TraceFrom(s, work, finish, sq)) == RunFrom(s, work, finish, sq)
    decreases s.numProcesses - |sq|
  {
    if |sq| < s.numProcesses {
      var k := FirstFit(s, work, finish, 0);
      ReleasedStep(s, work, finish, sq);
      if k == s.numProcesses {
        assert sq + [] == sq;
      } else {
        ReleasedIsRun(s, Release(s, work, k), finish[k := true], sq + [k]);
        NatAppendAssoc(sq, [k], Released(TraceFrom(s, Release(s, work, k), finish[k := true], sq + [k])));
      }
    } else {
      assert Released([SafeVerdict(sq)]) == [];
      assert sq + [] == sq;
    }
  }

  lemma NatAppendAssoc(a: seq<nat>, b: seq<nat>, c: seq<nat>)
    ensures a + (b + c) == (a + b) + c
  {
  }

  /** A loop that finishes everyone returns the sequence it built. */
  lemma {:induction false} SafeRunIsRun(s: Snapshot, work: seq<int>, finish: seq<bool>, sq: seq<nat>)
    requires Covers(s) && |work| >= s.numResources && |finish| == s.numProcesses
    ensures SafetyFrom(s, work, finish, sq).0 ==> SafetyFrom(s, work, finish, sq).1 == Some(RunFrom(s, work, finish, sq))
    decreases s.numProcesses - |sq|
  {
    if |sq| < s.numProcesses {
      var k := FirstFit(s, work, finish, 0);
      if k < s.numProcesses {
        SafeRunIsRun(s, Release(s, work, k), finish[k := true], sq + [k]);
      }
    }
  }

  /** A run of the loop that stops short of all processes is a greedy run after
      which no unfinished process fits. */
  lemma {:induction false} StoppedRunIsStuck(s: Snapshot, work: seq<int>, finish: seq<bool>, sq: seq<nat>)
    requires Checkable(s) && GreedyPrefix(s, sq) && |sq| <= s.numProcesses
    requires work == WorkAfter(s, sq) && Tracks(finish, sq, s.numProcesses)
    ensures var run := RunFrom(s, work, finish, sq);
      !SafetyFrom(s, work, finish, sq).0 ==>
        InRange(run, s.numProcesses) && GreedyPrefix(s, run) && |run| < s.numProcesses && Stuck(s, run)
    decreases s.numProcesses - |sq|
  {
    var n := s.numProcesses;
    if |sq| < n {
      var k := FirstFit(s, work, finish, 0);
      if k == n {
        NoneFitsStuck(s, work, finish, sq);
      } else {
        GreedyRound(s, work, finish, sq, k);
        StoppedRunIsStuck(s, Release(s, work, k), finish[k := true], sq + [k]);
      }
    }
  }

  /** The processes `_compute_trace` reports as finishing, in order, are the safe
      sequence when the verdict is safe; when it is unsafe they are a greedy run after
      which no unfinished process fits. */
  lemma TraceReleasesInOrder(s: Snapshot)
    requires Checkable(s)
    ensures var rel := Released(Trace(s));
      (SafetyCheck(s).0 ==> SafetyCheck(s).1 == Some(rel)) &&
      (!SafetyCheck(s).0 ==> InRange(rel, s.numProcesses) && GreedyPrefix(s, rel) && |rel| < s.numProcesses && Stuck(s, rel))
  {
    var work, finish := s.available, NoneFinished(s.numProcesses);
    ReleasedIsRun(s, work, finish, []);
    SafeRunIsRun(s, work, finish, []);
    StoppedRunIsStuck(s, work, finish, []);
    assert [] + Released(Trace(s)) == Released(Trace(s));
  }

  /** From any point of the loop, every `Inspect` line carries the number of processes
      finished before it, plus one, and names a process not yet finished. */
  lemma {:induction false} StepsFrom(s: Snapshot, work: seq<int>, finish: seq<bool>, sq: seq<nat>)
    requires Covers(s) && |work| >= s.numResources && Tracks(finish, sq, s.numProcesses)
    ensures var t := TraceFrom(s, work, finish, sq);
      forall m :: 0 <= m < |t| && t[m].Inspect? ==>
        t[m].step == |sq| + 1 + |Released(t[..m])| && t[m].pid !in sq + Released(t[..m])
    decreases s.numProcesses - |sq|
  {
    var n := s.numProcesses;
    if |sq| < n {
      var k := FirstFit(s, work, finish, 0);
      var round := RoundTrace(s, work, finish, 0, |sq| + 1);
      TraceShape(s, work, finish, sq);
      var rest := if k == n then [UnsafeVerdict] else TraceFrom(s, Release(s, work, k), finish[k := true], sq + [k]);
      StepsInRound(s, work, finish, sq, rest);
      if k < n {
        assert Tracks(finish[k := true], sq + [k], n);
        StepsFrom(s, Release(s, work, k), finish[k := true], sq + [k]);
        RoundReleased(s, work, finish, 0, |sq| + 1);
        StepsAfterRound(sq, k, round, rest);
      }
    }
  }

  lemma StepsInRound(s: Snapshot, work: seq<int>, finish: seq<bool>, sq: seq<nat>, rest: seq<TraceEntry>)
    requires Covers(s) && |work| >= s.numResources && Tracks(finish, sq, s.numProcesses)
    ensures var round := RoundTrace(s, work, finish, 0, |sq| + 1);
      var t := round + rest;
      forall m :: 0 <= m < |round| && t[m].Inspect? ==>
        t[m].step == |sq| + 1 + |Released(t[..m])| && t[m].pid !in sq + Released(t[..m])
  {
    var round := RoundTrace(s, work, finish, 0, |sq| + 1);
    RoundInspects(s, work, finish, 0, |sq| + 1);
    var t := round + rest;
    forall m | 0 <= m < |round| && t[m].Inspect?
      ensures t[m].step == |sq| + 1 + |Released(t[..m])| && t[m].pid !in sq + Released(t[..m])
    {
      assert t[..m] == round[..m] && t[m] == round[m];
      assert round[m].Inspect?;
      assert Released(round[..m]) == [];
      assert !finish[t[m].pid];
      assert sq + [] == sq;
    }
  }

  /** Numbering carries over a round that reports process `k` as finishing. */
  lemma StepsAfterRound(sq: seq<nat>, k: nat, round: seq<TraceEntry>, rest: seq<TraceEntry>)
    requires Released(round) == [k]
    requires forall m :: 0 <= m < |rest| && rest[m].Inspect? ==>
      rest[m].step == |sq| + 2 + |Released(rest[..m])| && rest[m].pid !in sq + [k] + Released(rest[..m])
    ensures var t := round + rest;
      forall m :: |round| <= m < |t| && t[m].Inspect? ==>
        t[m].step == |sq| + 1 + |Released(t[..m])| && t[m].pid !in sq + Released(t[..m])
  {
    var t := round + rest;
    forall m | |round| <= m < |t| && t[m].Inspect?
      ensures t[m].step == |sq| + 1 + |Released(t[..m])| && t[m].pid !in sq + Released(t[..m])
    {
      var m' := m - |round|;
      assert t[..m] == round + rest[..m'] && t[m] == rest[m'];
      ReleasedAppend(round, rest[..m']);
      var later := Released(rest[..m']);
      assert Released(t[..m]) == [k] + later;
      assert sq + ([k] + later) == sq + [k] + later;
    }
  }

  /** Every `Inspect` line of `_compute_trace` is numbered one more than the processes
      reported finished before it, and names a process not among them. */
  lemma TraceStepsCountReleases(s: Snapshot)
    requires Checkable(s)
    ensures var t := Trace(s);
      forall m :: 0 <= m < |t| && t[m].Inspect? ==>
        t[m].step == 1 + |Released(t[..m])| && t[m].pid !in Released(t[..m])
  {
    var t := Trace(s);
    var sq: seq<nat> := [];
    StepsFrom(s, s.available, NoneFinished(s.numProcesses), sq);
    assert t == TraceFrom(s, s.available, NoneFinished(s.numProcesses), sq);
    forall m | 0 <= m < |t| && t[m].Inspect?
      ensures t[m].step == 1 + |Released(t[..m])| && t[m].pid !in Released(t[..m])
    {
      assert t[m].step == |sq| + 1 + |Released(t[..m])| && t[m].pid !in sq + Released(t[..m]);
      NoPrefix(Released(t[..m]));
    }
  }

  /** Nothing released before the loop starts. */
  lemma NoPrefix(r: seq<nat>)
    ensures [] + r == r
  {
  }
}
