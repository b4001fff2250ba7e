/** deadlock_prevention/bankers/examples.py: the preset states offered by the
    visualizer, and the library that names them. */
module BankersExamples {
  import opened Results
  import opened Text
  import opened BankersModel
  import opened BankersCore

  /** `get_simple_example()`. */
  function SimpleExample(): Snapshot {
    Snapshot(3, 3,
      [[5, 3, 2], [3, 2, 2], [4, 3, 3]],
      [[2, 1, 0], [2, 1, 1], [1, 1, 2]],
      [1, 1, 1])
  }

  /** `get_classic_example()`. */
  function ClassicExample(): Snapshot {
    Snapshot(5, 3,
      [[7, 5, 3], [3, 2, 2], [9, 0, 2], [2, 2, 2], [4, 3, 3]],
      [[0, 1, 0], [2, 0, 0], [3, 0, 2], [2, 1, 1], [0, 0, 2]],
      [3, 3, 2])
  }

  /** `get_balanced_flow_example()`. */
  function BalancedFlowExample(): Snapshot {
    Snapshot(4, 3,
      [[4, 3, 3], [2, 2, 2], [5, 3, 3], [3, 2, 2]],
      [[1, 1, 0], [1, 0, 1], [2, 1, 1], [0, 0, 2]],
      [2, 2, 2])
  }

  /** `get_contention_example()`. */
  function ContentionExample(): Snapshot {
    Snapshot(4, 3,
      [[5, 3, 2], [4, 2, 2], [4, 3, 3], [3, 3, 2]],
      [[1, 0, 0], [2, 1, 1], [1, 2, 2], [0, 0, 1]],
      [2, 1, 1])
  }

  /** `get_unsafe_example()`. */
  function UnsafeExample(): Snapshot {
    Snapshot(4, 2,
      [[3, 2], [4, 2], [2, 2], [4, 3]],
      [[1, 0], [1, 1], [1, 1], [3, 1]],
      [0, 0])
  }

  /** `get_custom_blank(processes, resources)`: every matrix and vector all zeros. */
  function CustomBlank(processes: nat, resources: nat): Snapshot {
    Snapshot(processes, resources,
      seq(processes, _ => Zeros(resources)),
      seq(processes, _ => Zeros(resources)),
      Zeros(resources))
  }

  function Zeros(n: nat): (z: seq<int>)
    ensures |z| == n && forall j :: 0 <= j < n ==> z[j] == 0
  {
    seq(n, _ => 0)
  }

  /** The builders the preset library refers to. */
  datatype Builder = Simple | Classic | BalancedFlow | Contention | UnsafeDemo

  function Build(b: Builder): Snapshot {
    match b
    case Simple => SimpleExample()
    case Classic => ClassicExample()
    case BalancedFlow => BalancedFlowExample()
    case Contention => ContentionExample()
    case UnsafeDemo => UnsafeExample()
  }

  /** `PresetDefinition(key, title, description, builder, badge)`. The library
      gives each builder one preset, so its title and description are given by the
      builder. */
  datatype PresetDefinition = PresetDefinition(key: string, builder: Builder, badge: string) {
    function Title(): string {
      match builder
      case Simple => "Simple Safe (3\U{00D7}3)"
      case Classic => "Classic Textbook (5\U{00D7}3)"
      case BalancedFlow => "Balanced Flow (4\U{00D7}3)"
      case Contention => "High Contention (4\U{00D7}3)"
      case UnsafeDemo => "Unsafe Demo (4\U{00D7}2)"
    }

    function Description(): string {
      match builder
      case Simple => "Three processes and three resource types \U{2014} great for walking through fundamentals."
      case Classic => "Five processes with overlapping needs; mirrors the example from operating-systems texts."
      case BalancedFlow => "Demonstrates how releasing resources mid-sequence unlocks others late in the run."
      case Contention => "High demand relative to availability; shows non-trivial safe sequences."
      case UnsafeDemo => "No process can finish with the initial work vector, illustrating deadlock risk immediately."
    }
  }

  /** `PRESET_LIBRARY`: the dictionary's entries in insertion order. */
  function PresetLibrary(): seq<(string, PresetDefinition)> {
    [ ("simple", PresetDefinition("simple", Simple, "Safe")),
      ("classic", PresetDefinition("classic", Classic, "Safe")),
      ("balanced", PresetDefinition("balanced", BalancedFlow, "Safe")),
      ("contention", PresetDefinition("contention", Contention, "Safe")),
      ("unsafe", PresetDefinition("unsafe", UnsafeDemo, "Unsafe")) ]
  }

  /** `list(PRESET_LIBRARY.values())`. */
  function AvailablePresets(): seq<PresetDefinition> {
    seq(|PresetLibrary()|, i requires 0 <= i < |PresetLibrary()| => PresetLibrary()[i].1)
  }

  /** `dict.get(key)` on a dictionary given by its entries. */
  function Lookup(entries: seq<(string, PresetDefinition)>, key: string): Option<PresetDefinition> {
    if |entries| == 0 then None
    else if entries[0].0 == key then Some(entries[0].1)
    else Lookup(entries[1..], key)
  }

  /** `get_preset(key)`. */
  function GetPreset(key: string): Option<PresetDefinition> {
    Lookup(PresetLibrary(), key)
  }

  const PresetKeys: seq<string> := ["simple", "classic", "balanced", "contention", "unsafe"]

  // ----- what the presets promise -----

  /** Every preset is filed under its own key, and the keys are the five listed, in
      that order. */
  lemma PresetsFiledUnderOwnKeys()
    ensures |PresetLibrary()| == |PresetKeys|
    ensures forall i :: 0 <= i < |PresetLibrary()| ==>
      PresetLibrary()[i].0 == PresetKeys[i] && PresetLibrary()[i].1.key == PresetKeys[i]
  {
  }

  /** No key is filed twice. */
  predicate KeysDistinct(entries: seq<(string, PresetDefinition)>) {
    forall a, b :: 0 <= a < b < |entries| ==> entries[a].0 != entries[b].0
  }

  /** `dict.get` finds exactly the value filed under the key, and finds something
      exactly when the key is filed. */
  lemma {:induction false} LookupCharacterized(entries: seq<(string, PresetDefinition)>, key: string)
    requires KeysDistinct(entries)
    ensures Lookup(entries, key).Some? <==> exists i :: 0 <= i < |entries| && entries[i].0 == key
    ensures forall d :: Lookup(entries, key) == Some(d) <==> (key, d) in entries
  {
    if |entries| > 0 {
      LookupCharacterized(entries[1..], key);
      if entries[0].0 == key {
        forall d | (key, d) in entries ensures d == entries[0].1 {
          var i :| 0 <= i < |entries| && entries[i] == (key, d);
        }
      } else {
        forall i | 0 <= i < |entries| && entries[i].0 == key ensures entries[1..][i - 1].0 == key {
        }
        forall d | (key, d) in entries ensures (key, d) in entries[1..] {
          var i :| 0 <= i < |entries| && entries[i] == (key, d);
          assert entries[1..][i - 1] == (key, d);
        }
      }
    }
  }

  /** `get_preset` finds a preset exactly for the five library keys. */
  lemma GetPresetKeys(key: string)
    ensures GetPreset(key).Some? <==> key in PresetKeys
  {
    var entries := PresetLibrary();
    PresetsFiledUnderOwnKeys();
    LookupCharacterized(entries, key);
    if key in PresetKeys {
      var i :| 0 <= i < |PresetKeys| && PresetKeys[i] == key;
      assert entries[i].0 == key;
    }
  }

  /** The preset `get_preset` finds is the one in `available_presets()` with that key. */
  lemma GetPresetFinds(key: string)
    ensures forall d :: GetPreset(key) == Some(d) <==> d in AvailablePresets() && d.key == key
  {
    var entries := PresetLibrary();
    PresetsFiledUnderOwnKeys();
    LookupCharacterized(entries, key);
    var all := AvailablePresets();
    assert forall i :: 0 <= i < |entries| ==> all[i] == entries[i].1;
    forall d | d in all && d.key == key ensures (key, d) in entries {
      var i :| 0 <= i < |all| && all[i] == d;
      assert entries[i] == (key, d);
    }
  }

  /** Every preset passes `validate()` and holds no negative allocation. */
  lemma PresetsValid()
    ensures forall b: Builder :: Validate(Build(b)) && NonNegativeAllocations(Build(b))
  {
    forall b: Builder ensures Validate(Build(b)) && NonNegativeAllocations(Build(b)) {
      match b
      case Simple => SimpleValid();
      case Classic => ClassicValid();
      case BalancedFlow => BalancedFlowValid();
      case Contention => ContentionValid();
      case UnsafeDemo => UnsafeDemoValid();
    }
  }

  lemma SimpleValid()
    ensures Validate(SimpleExample()) && NonNegativeAllocations(SimpleExample())
  {
    ExampleValid(SimpleExample());
  }

  lemma ClassicValid()
    ensures Validate(ClassicExample()) && NonNegativeAllocations(ClassicExample())
  {
    ExampleValid(ClassicExample());
  }

  lemma BalancedFlowValid()
    ensures Validate(BalancedFlowExample()) && NonNegativeAllocations(BalancedFlowExample())
  {
    ExampleValid(BalancedFlowExample());
  }

  lemma ContentionValid()
    ensures Validate(ContentionExample()) && NonNegativeAllocations(ContentionExample())
  {
    ExampleValid(ContentionExample());
  }

  lemma UnsafeDemoValid()
    ensures Validate(UnsafeExample()) && NonNegativeAllocations(UnsafeExample())
  {
    ExampleValid(UnsafeExample());
  }

  /** A well-shaped state whose allocations lie between zero and the claims passes
      `validate()`. */
  lemma ExampleValid(s: Snapshot)
    requires WellShaped(s)
    requires forall i :: 0 <= i < s.numProcesses ==>
      forall j :: 0 <= j < s.numResources ==> 0 <= s.allocationMatrix[i][j] <= s.maxMatrix[i][j]
    ensures Validate(s) && NonNegativeAllocations(s)
  {
  }

  /** A blank state passes `validate()`, and it is safe with the processes finishing in
      order `0, 1, ..., processes - 1`. */
  lemma CustomBlankSafe(processes: nat, resources: nat)
    ensures Validate(CustomBlank(processes, resources))
    ensures var s := CustomBlank(processes, resources);
      Checkable(s) && SafetyCheck(s) == (true, Some(Upto(processes)))
  {
    var s := CustomBlank(processes, resources);
    assert NoneFinished(processes) == FinishedBelow(processes, 0);
    assert Upto(0) == [];
    BlankFrom(processes, resources, 0);
  }

  /** `[0, 1, ..., k - 1]`. */
  function Upto(k: nat): (q: seq<nat>)
    ensures |q| == k && forall i :: 0 <= i < k ==> q[i] == i
  {
    seq(k, i => i)
  }

  /** The `finish` vector once processes `0..k-1` are done. */
  function FinishedBelow(n: nat, k: nat): (f: seq<bool>)
    ensures |f| == n && forall i :: 0 <= i < n ==> (f[i] <==> i < k)
  {
    seq(n, i => i < k)
  }

  lemma {:induction false} BlankFrom(processes: nat, resources: nat, k: nat)
    requires k <= processes
    ensures var s := CustomBlank(processes, resources);
      Covers(s) &&
      SafetyFrom(s, Zeros(resources), FinishedBelow(processes, k), Upto(k)) == (true, Some(Upto(processes)))
    decreases processes - k
  {
    if k < processes {
      BlankRound(processes, resources, k);
      BlankFrom(processes, resources, k + 1);
    }
  }

  /** In the blank preset the round after processes `0..k-1` picks `k`, which needs
      nothing and releases nothing. */
  lemma BlankRound(processes: nat, resources: nat, k: nat)
    requires k < processes
    ensures var s := CustomBlank(processes, resources);
      var work := Zeros(resources);
      Covers(s) &&
      SafetyFrom(s, work, FinishedBelow(processes, k), Upto(k)) ==
      SafetyFrom(s, work, FinishedBelow(processes, k + 1), Upto(k + 1))
  {
    var s := CustomBlank(processes, resources);
    var work := Zeros(resources);
    var finish := FinishedBelow(processes, k);
    assert forall j :: 0 <= j < resources ==> NeedMatrix(s)[k][j] + 0 == 0;
    assert Fits(s, work, k);
    assert FirstFit(s, work, finish, 0) == k;
    assert Release(s, work, k) == work;
    assert finish[k := true] == FinishedBelow(processes, k + 1);
    assert Upto(k) + [k] == Upto(k + 1);
  }

  // ----- the presets' verdicts -----

  /** On three resource types, `Fits` and `Release` coordinate by coordinate. */
  lemma ThreeResources(s: Snapshot)
    requires Covers(s) && s.numResources == 3
    ensures forall work: seq<int>, i: nat {:trigger Fits(s, work, i)} :: |work| >= 3 && i < s.numProcesses ==>
      (Fits(s, work, i) <==>
        s.maxMatrix[i][0] - s.allocationMatrix[i][0] <= work[0] &&
        s.maxMatrix[i][1] - s.allocationMatrix[i][1] <= work[1] &&
        s.maxMatrix[i][2] - s.allocationMatrix[i][2] <= work[2])
    ensures forall work: seq<int>, i: nat {:trigger Release(s, work, i)} :: |work| >= 3 && i < s.numProcesses ==>
      Release(s, work, i) ==
        [work[0] + s.allocationMatrix[i][0], work[1] + s.allocationMatrix[i][1], work[2] + s.allocationMatrix[i][2]]
  {
    forall work: seq<int>, i: nat | |work| >= 3 && i < s.numProcesses
      ensures Fits(s, work, i) <==>
        s.maxMatrix[i][0] - s.allocationMatrix[i][0] <= work[0] &&
        s.maxMatrix[i][1] - s.allocationMatrix[i][1] <= work[1] &&
        s.maxMatrix[i][2] - s.allocationMatrix[i][2] <= work[2]
    {
      var need := NeedMatrix(s);
      assert need[i][0] + s.allocationMatrix[i][0] == s.maxMatrix[i][0];
      assert need[i][1] + s.allocationMatrix[i][1] == s.maxMatrix[i][1];
      assert need[i][2] + s.allocationMatrix[i][2] == s.maxMatrix[i][2];
      if !Fits(s, work, i) {
        var j :| 0 <= j < 3 && need[i][j] > work[j];
        assert j == 0 || j == 1 || j == 2;
      }
    }
    forall work: seq<int>, i: nat | |work| >= 3 && i < s.numProcesses
      ensures Release(s, work, i) ==
        [work[0] + s.allocationMatrix[i][0], work[1] + s.allocationMatrix[i][1], work[2] + s.allocationMatrix[i][2]]
    {
      var w := Release(s, work, i);
      assert w[0] - work[0] == s.allocationMatrix[i][0];
      assert w[1] - work[1] == s.allocationMatrix[i][1];
      assert w[2] - work[2] == s.allocationMatrix[i][2];
    }
  }

  /** One round of the safety loop: process `k` is the one that finishes. */
  lemma Round(s: Snapshot, work: seq<int>, finish: seq<bool>, sq: seq<nat>, k: nat,
              next: seq<int>, nextFinish: seq<bool>, nextSq: seq<nat>)
    requires Covers(s) && |work| >= s.numResources && |finish| == s.numProcesses && |sq| < s.numProcesses
    requires FirstFit(s, work, finish, 0) == k < s.numProcesses
    requires next == Release(s, work, k) && nextFinish == finish[k := true] && nextSq == sq + [k]
    ensures SafetyFrom(s, work, finish, sq) == SafetyFrom(s, next, nextFinish, nextSq)
  {
  }

  /** The simple example is safe, with safe sequence P1, P0, P2. */
  lemma SimpleIsSafe()
    ensures Checkable(SimpleExample()) && SafetyCheck(SimpleExample()) == (true, Some([1, 0, 2]))
  {
    SimpleRound1();
    SimpleRound2();
    SimpleRound3();
  }

  /** The classic textbook example is safe, with safe sequence P1, P3, P0, P2, P4. */
  lemma ClassicIsSafe()
    ensures Checkable(ClassicExample()) && SafetyCheck(ClassicExample()) == (true, Some([1, 3, 0, 2, 4]))
  {
    ClassicRound1();
    ClassicRound2();
    ClassicRound3();
    ClassicRound4();
    ClassicRound5();
  }

  /** The balanced-flow example is safe, with safe sequence P1, P0, P2, P3. */
  lemma BalancedFlowIsSafe()
    ensures Checkable(BalancedFlowExample()) && SafetyCheck(BalancedFlowExample()) == (true, Some([1, 0, 2, 3]))
  {
    BalancedRound1();
    BalancedRound2();
    BalancedRound3();
    BalancedRound4();
  }

  /** The contention example is safe, with safe sequence P1, P2, P0, P3. */
  lemma ContentionIsSafe()
    ensures Checkable(ContentionExample()) && SafetyCheck(ContentionExample()) == (true, Some([1, 2, 0, 3]))
  {
    ContentionRound1();
    ContentionRound2();
    ContentionRound3();
    ContentionRound4();
  }

  // One lemma per pass of the safety loop on each example: the process that
  // finishes, found by checking each unfinished process in order.

  lemma SimpleRound1()
    ensures Checkable(SimpleExample())
    ensures SafetyCheck(SimpleExample()) == SafetyFrom(SimpleExample(), [3, 2, 2], [false, true, false], [1])
  {
    var s := SimpleExample();
    ThreeResources(s);
    assert NoneFinished(3) == [false, false, false];
    assert !Fits(s, [1, 1, 1], 0) && Fits(s, [1, 1, 1], 1);
    Round(s, [1, 1, 1], [false, false, false], [], 1, [3, 2, 2], [false, true, false], [1]);
  }

  lemma SimpleRound2()
    ensures Covers(SimpleExample())
    ensures SafetyFrom(SimpleExample(), [3, 2, 2], [false, true, false], [1]) == SafetyFrom(SimpleExample(), [5, 3, 2], [true, true, false], [1, 0])
  {
    var s := SimpleExample();
    ThreeResources(s);
    assert Fits(s, [3, 2, 2], 0);
    Round(s, [3, 2, 2], [false, true, false], [1], 0, [5, 3, 2], [true, true, false], [1, 0]);
  }

  lemma SimpleRound3()
    ensures Covers(SimpleExample())
    ensures SafetyFrom(SimpleExample(), [5, 3, 2], [true, true, false], [1, 0]) == (true, Some([1, 0, 2]))
  {
    var s := SimpleExample();
    ThreeResources(s);
    assert Fits(s, [5, 3, 2], 2);
    Round(s, [5, 3, 2], [true, true, false], [1, 0], 2, [6, 4, 4], [true, true, true], [1, 0, 2]);
  }

  lemma ClassicRound1()
    ensures Checkable(ClassicExample())
    ensures SafetyCheck(ClassicExample()) == SafetyFrom(ClassicExample(), [5, 3, 2], [false, true, false, false, false], [1])
  {
    var s := ClassicExample();
    ThreeResources(s);
    assert NoneFinished(5) == [false, false, false, false, false];
    assert !Fits(s, [3, 3, 2], 0) && Fits(s, [3, 3, 2], 1);
    Round(s, [3, 3, 2], [false, false, false, false, false], [], 1, [5, 3, 2], [false, true, false, false, false], [1]);
  }

  lemma ClassicRound2()
    ensures Covers(ClassicExample())
    ensures SafetyFrom(ClassicExample(), [5, 3, 2], [false, true, false, false, false], [1]) == SafetyFrom(ClassicExample(), [7, 4, 3], [false, true, false, true, false], [1, 3])
  {
    var s := ClassicExample();
    ClassicFits2();
    Round(s, [5, 3, 2], [false, true, false, false, false], [1], 3, [7, 4, 3], [false, true, false, true, false], [1, 3]);
  }

  lemma ClassicFits2()
    ensures Covers(ClassicExample())
    ensures !Fits(ClassicExample(), [5, 3, 2], 0) && !Fits(ClassicExample(), [5, 3, 2], 2) && Fits(ClassicExample(), [5, 3, 2], 3)
    ensures Release(ClassicExample(), [5, 3, 2], 3) == [7, 4, 3]
  {
    ThreeResources(ClassicExample());
  }

  lemma ClassicRound3()
    ensures Covers(ClassicExample())
    ensures SafetyFrom(ClassicExample(), [7, 4, 3], [false, true, false, true, false], [1, 3]) == SafetyFrom(ClassicExample(), [7, 5, 3], [true, true, false, true, false], [1, 3, 0])
  {
    var s := ClassicExample();
    ThreeResources(s);
    assert Fits(s, [7, 4, 3], 0);
    Round(s, [7, 4, 3], [false, true, false, true, false], [1, 3], 0, [7, 5, 3], [true, true, false, true, false], [1, 3, 0]);
  }

  lemma ClassicRound4()
    ensures Covers(ClassicExample())
    ensures SafetyFrom(ClassicExample(), [7, 5, 3], [true, true, false, true, false], [1, 3, 0]) == SafetyFrom(ClassicExample(), [10, 5, 5], [true, true, true, true, false], [1, 3, 0, 2])
  {
    var s := ClassicExample();
    ThreeResources(s);
    assert Fits(s, [7, 5, 3], 2);
    Round(s, [7, 5, 3], [true, true, false, true, false], [1, 3, 0], 2, [10, 5, 5], [true, true, true, true, false], [1, 3, 0, 2]);
  }

  lemma ClassicRound5()
    ensures Covers(ClassicExample())
    ensures SafetyFrom(ClassicExample(), [10, 5, 5], [true, true, true, true, false], [1, 3, 0, 2]) == (true, Some([1, 3, 0, 2, 4]))
  {
    var s := ClassicExample();
    ThreeResources(s);
    assert Fits(s, [10, 5, 5], 4);
    Round(s, [10, 5, 5], [true, true, true, true, false], [1, 3, 0, 2], 4, [10, 5, 7], [true, true, true, true, true], [1, 3, 0, 2, 4]);
  }

  lemma BalancedRound1()
    ensures Checkable(BalancedFlowExample())
    ensures SafetyCheck(BalancedFlowExample()) == SafetyFrom(BalancedFlowExample(), [3, 2, 3], [false, true, false, false], [1])
  {
    var s := BalancedFlowExample();
    ThreeResources(s);
    assert NoneFinished(4) == [false, false, false, false];
    assert !Fits(s, [2, 2, 2], 0) && Fits(s, [2, 2, 2], 1);
    Round(s, [2, 2, 2], [false, false, false, false], [], 1, [3, 2, 3], [false, true, false, false], [1]);
  }

  lemma BalancedRound2()
    ensures Covers(BalancedFlowExample())
    ensures SafetyFrom(BalancedFlowExample(), [3, 2, 3], [false, true, false, false], [1]) == SafetyFrom(BalancedFlowExample(), [4, 3, 3], [true, true, false, false], [1, 0])
  {
    var s := BalancedFlowExample();
    ThreeResources(s);
    assert Fits(s, [3, 2, 3], 0);
    Round(s, [3, 2, 3], [false, true, false, false], [1], 0, [4, 3, 3], [true, true, false, false], [1, 0]);
  }

  lemma BalancedRound3()
    ensures Covers(BalancedFlowExample())
    ensures SafetyFrom(BalancedFlowExample(), [4, 3, 3], [true, true, false, false], [1, 0]) == SafetyFrom(BalancedFlowExample(), [6, 4, 4], [true, true, true, false], [1, 0, 2])
  {
    var s := BalancedFlowExample();
    ThreeResources(s);
    assert Fits(s, [4, 3, 3], 2);
    Round(s, [4, 3, 3], [true, true, false, false], [1, 0], 2, [6, 4, 4], [true, true, true, false], [1, 0, 2]);
  }

  lemma BalancedRound4()
    ensures Covers(BalancedFlowExample())
    ensures SafetyFrom(BalancedFlowExample(), [6, 4, 4], [true, true, true, false], [1, 0, 2]) == (true, Some([1, 0, 2, 3]))
  {
    var s := BalancedFlowExample();
    ThreeResources(s);
    assert Fits(s, [6, 4, 4], 3);
    Round(s, [6, 4, 4], [true, true, true, false], [1, 0, 2], 3, [6, 4, 6], [true, true, true, true], [1, 0, 2, 3]);
  }

  lemma ContentionRound1()
    ensures Checkable(ContentionExample())
    ensures SafetyCheck(ContentionExample()) == SafetyFrom(ContentionExample(), [4, 2, 2], [false, true, false, false], [1])
  {
    var s := ContentionExample();
    ThreeResources(s);
    assert NoneFinished(4) == [false, false, false, false];
    assert !Fits(s, [2, 1, 1], 0) && Fits(s, [2, 1, 1], 1);
    Round(s, [2, 1, 1], [false, false, false, false], [], 1, [4, 2, 2], [false, true, false, false], [1]);
  }

  lemma ContentionRound2()
    ensures Covers(ContentionExample())
    ensures SafetyFrom(ContentionExample(), [4, 2, 2], [false, true, false, false], [1]) == SafetyFrom(ContentionExample(), [5, 4, 4], [false, true, true, false], [1, 2])
  {
    var s := ContentionExample();
    ContentionFits2();
    Round(s, [4, 2, 2], [false, true, false, false], [1], 2, [5, 4, 4], [false, true, true, false], [1, 2]);
  }

  lemma ContentionFits2()
    ensures Covers(ContentionExample())
    ensures !Fits(ContentionExample(), [4, 2, 2], 0) && Fits(ContentionExample(), [4, 2, 2], 2)
    ensures Release(ContentionExample(), [4, 2, 2], 2) == [5, 4, 4]
  {
    ThreeResources(ContentionExample());
  }

  lemma ContentionRound3()
    ensures Covers(ContentionExample())
    ensures SafetyFrom(ContentionExample(), [5, 4, 4], [false, true, true, false], [1, 2]) == SafetyFrom(ContentionExample(), [6, 4, 4], [true, true, true, false], [1, 2, 0])
  {
    var s := ContentionExample();
    ThreeResources(s);
    assert Fits(s, [5, 4, 4], 0);
    Round(s, [5, 4, 4], [false, true, true, false], [1, 2], 0, [6, 4, 4], [true, true, true, false], [1, 2, 0]);
  }

  lemma ContentionRound4()
    ensures Covers(ContentionExample())
    ensures SafetyFrom(ContentionExample(), [6, 4, 4], [true, true, true, false], [1, 2, 0]) == (true, Some([1, 2, 0, 3]))
  {
    var s := ContentionExample();
    ThreeResources(s);
    assert Fits(s, [6, 4, 4], 3);
    Round(s, [6, 4, 4], [true, true, true, false], [1, 2, 0], 3, [6, 4, 5], [true, true, true, true], [1, 2, 0, 3]);
  }

  /** The unsafe demo is unsafe from the start: no process's need fits the available
      vector. */
  lemma UnsafeDemoIsStuck()
    ensures Checkable(UnsafeExample()) && SafetyCheck(UnsafeExample()) == (false, None)
    ensures Stuck(UnsafeExample(), [])
  {
    var s := UnsafeExample();
    var need := NeedMatrix(s);
    assert need[0][0] + 1 == 3 && need[1][0] + 1 == 4 && need[2][0] + 1 == 2 && need[3][1] + 1 == 3;
    assert !Fits(s, s.available, 0) && !Fits(s, s.available, 1) && !Fits(s, s.available, 2) && !Fits(s, s.available, 3);
    assert NoneFinished(4) == [false, false, false, false];
    assert FirstFit(s, s.available, NoneFinished(4), 0) == 4;
  }

  lemma BadgesByBuilder()
    ensures forall i :: 0 <= i < |PresetLibrary()| ==>
      PresetLibrary()[i].1.badge == (if PresetLibrary()[i].1.builder == UnsafeDemo then "Unsafe" else "Safe")
  {
  }

  /** Which builders give a safe state. */
  lemma BuilderVerdict(b: Builder)
    ensures Checkable(Build(b)) && SafetyCheck(Build(b)).0 == (b != UnsafeDemo)
  {
    match b
    case Simple => SimpleIsSafe();
    case Classic => ClassicIsSafe();
    case BalancedFlow => BalancedFlowIsSafe();
    case Contention => ContentionIsSafe();
    case UnsafeDemo => UnsafeDemoIsStuck();
  }

  /** Each preset's badge is the verdict of the safety check on the state it builds. */
  lemma BadgesMatchSafety()
    ensures forall d :: d in AvailablePresets() ==>
      Checkable(Build(d.builder)) &&
      d.badge == (if SafetyCheck(Build(d.builder)).0 then "Safe" else "Unsafe")
  {
    var entries := PresetLibrary();
    var all := AvailablePresets();
    assert forall i :: 0 <= i < |entries| ==> all[i] == entries[i].1;
    BadgesByBuilder();
    forall d | d in all
      ensures Checkable(Build(d.builder)) && d.badge == (if SafetyCheck(Build(d.builder)).0 then "Safe" else "Unsafe")
    {
      BuilderVerdict(d.builder);
      var i :| 0 <= i < |all| && all[i] == d;
    }
  }

  // ----- requests on the simple example -----

  /** P0 asking for `[10, 0, 2]` is denied at the need check (it needs only 3 of the
      first resource) and nothing changes. */
  lemma SimpleRequestExceedsNeed()
    ensures RequestOutcome(SimpleExample(), 0, [10, 0, 2]) == (false, SimpleExample())
  {
    var s := SimpleExample();
    assert NeedMatrix(s)[0][0] + 2 == 5;
  }

  /** P0 asking for `[1, 0, 2]` is within its need `[3, 2, 2]` but not within the
      available `[1, 1, 1]`, so it is denied and nothing changes. */
  lemma SimpleRequestExceedsAvailable()
    ensures WithinNeed(SimpleExample(), 0, [1, 0, 2])
    ensures RequestOutcome(SimpleExample(), 0, [1, 0, 2]) == (false, SimpleExample())
  {
    var s := SimpleExample();
    ThreeResources(s);
    var need := NeedMatrix(s);
    assert need[0][0] + 2 == 5 && need[0][1] + 1 == 3 && need[0][2] + 0 == 2;
    forall j | 0 <= j < 3 ensures [1, 0, 2][j] <= need[0][j] {
      assert j == 0 || j == 1 || j == 2;
    }
  }

  /** P1 asking for `[1, 0, 1]` is granted: afterwards `available` is `[0, 1, 0]`, P1
      holds `[3, 1, 2]`, and the state is still safe. */
  lemma SimpleRequestGranted()
    ensures var (granted, after) := RequestOutcome(SimpleExample(), 1, [1, 0, 1]);
      granted && after.available == [0, 1, 0] && after.allocationMatrix == [[2, 1, 0], [3, 1, 2], [1, 1, 2]]
  {
    var s := SimpleExample();
    var request := [1, 0, 1];
    SimpleRequestFits();
    var p := Provisional(s, 1, request);
    SimpleProvisional();
    GrantedIsSafe();
    RequestCharacterized(s, 1, request);
  }

  /** P1's request `[1, 0, 1]` is within its need `[1, 1, 1]` and within `[1, 1, 1]` available. */
  lemma SimpleRequestFits()
    ensures Checkable(SimpleExample())
    ensures WithinNeed(SimpleExample(), 1, [1, 0, 1]) && WithinAvailable(SimpleExample(), [1, 0, 1])
  {
    var s := SimpleExample();
    var request := [1, 0, 1];
    var need := NeedMatrix(s);
    assert need[1][0] + 2 == 3 && need[1][1] + 1 == 2 && need[1][2] + 1 == 2;
    forall j | 0 <= j < 3 ensures request[j] <= need[1][j] && request[j] <= s.available[j] {
      assert j == 0 || j == 1 || j == 2;
    }
  }

  /** Granting P1 `[1, 0, 1]` on the simple example moves it from `available` to P1's row. */
  lemma SimpleProvisional()
    ensures Checkable(SimpleExample())
    ensures Provisional(SimpleExample(), 1, [1, 0, 1]) == SimpleGrantedState()
  {
    var s := SimpleExample();
    var p := Provisional(s, 1, [1, 0, 1]);
    ProvisionalGranted(s, 1, [1, 0, 1]);
    assert p.available == [0, 1, 0];
    assert p.allocationMatrix[1] == [3, 1, 2];
    assert p.allocationMatrix == [[2, 1, 0], [3, 1, 2], [1, 1, 2]];
  }

  /** The simple example after P1 is granted `[1, 0, 1]`. */
  function SimpleGrantedState(): Snapshot {
    SimpleExample().(available := [0, 1, 0], allocationMatrix := [[2, 1, 0], [3, 1, 2], [1, 1, 2]])
  }

  /** The state after the grant is safe, with safe sequence P1, P0, P2. */
  lemma GrantedIsSafe()
    ensures Checkable(SimpleGrantedState()) && SafetyCheck(SimpleGrantedState()) == (true, Some([1, 0, 2]))
  {
    GrantedRound1();
    GrantedRound2();
    GrantedRound3();
  }

  lemma GrantedRound1()
    ensures Checkable(SimpleGrantedState())
    ensures SafetyCheck(SimpleGrantedState()) == SafetyFrom(SimpleGrantedState(), [3, 2, 2], [false, true, false], [1])
  {
    var s := SimpleGrantedState();
    ThreeResources(s);
    assert NoneFinished(3) == [false, false, false];
    assert !Fits(s, [0, 1, 0], 0) && Fits(s, [0, 1, 0], 1);
    Round(s, [0, 1, 0], [false, false, false], [], 1, [3, 2, 2], [false, true, false], [1]);
  }

  lemma GrantedRound2()
    ensures Covers(SimpleGrantedState())
    ensures SafetyFrom(SimpleGrantedState(), [3, 2, 2], [false, true, false], [1]) == SafetyFrom(SimpleGrantedState(), [5, 3, 2], [true, true, false], [1, 0])
  {
    var s := SimpleGrantedState();
    ThreeResources(s);
    assert Fits(s, [3, 2, 2], 0);
    Round(s, [3, 2, 2], [false, true, false], [1], 0, [5, 3, 2], [true, true, false], [1, 0]);
  }

  lemma GrantedRound3()
    ensures Covers(SimpleGrantedState())
    ensures SafetyFrom(SimpleGrantedState(), [5, 3, 2], [true, true, false], [1, 0]) == (true, Some([1, 0, 2]))
  {
    var s := SimpleGrantedState();
    ThreeResources(s);
    assert Fits(s, [5, 3, 2], 2);
    Round(s, [5, 3, 2], [true, true, false], [1, 0], 2, [6, 4, 4], [true, true, true], [1, 0, 2]);
  }

}
