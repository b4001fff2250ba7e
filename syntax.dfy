/** The values that flow between the toolchain's stages: operand values, the
    instruction dictionaries `compiler/parser.py` emits (and `compiler/compiler.py`
    prints), the parse errors of both front ends, and the label index that four
    separate loops of the source rebuild from the instructions. */
module Syntax {
  import opened Results

  /** An operand as the Python code carries it: an `int`, or a `str` (label names
      and string literals alike). */
  datatype Value = VInt(i: int) | VStr(s: string)

  /** An instruction dictionary `{"op", "args", "line", "labels"?}`; `labels` is
      `None` when the dictionary has no `"labels"` key. */
  datatype Entry = Entry(op: string, args: seq<Value>, line: int, labels: Option<seq<string>>)

  /** `instr.get("labels", [])`. */
  function LabelsOf(e: Entry): seq<string> {
    match e.labels
    case None => []
    case Some(ls) => ls
  }

  /** The label lists of a sequence of instruction dictionaries, in order. */
  function LabelLists(entries: seq<Entry>): (lists: seq<seq<string>>)
    ensures |lists| == |entries| && forall i :: 0 <= i < |entries| ==> lists[i] == LabelsOf(entries[i])
  {
    seq(|entries|, i requires 0 <= i < |entries| => LabelsOf(entries[i]))
  }

  /** What a front end raises as `ParseError`. Constructors marked (P) are raised by
      `compiler/parser.py`, those marked (C) by `compiler/compiler.py`, the others by both. */
  datatype ParseError =
    | UnclosedQuote                                           // tokenize: shlex's ValueError
    | InvalidInteger(literal: string)                         // int operand
    | InvalidLabelName(name: string)                          // label operand
    | EmptyString                                             // string operand
    | UnsupportedKind(kind: string)                           // (P) parse_operand
    | EmptyLabel(line: int)                                   // (P) `:` alone
    | InvalidLabel(name: string, line: int)                  // label declaration
    | RepeatedOnLine(name: string, line: int)                // (P) same label twice on a line
    | UnknownOpcode(op: string, line: int)
    | WrongArity(op: string, line: int, expected: nat)
    | LabelReused(name: string, firstLine: int, line: int)   // (P) found when attaching
    | LabelRedefined(name: string, line: int, firstLine: int) // (C) found when declared
    | Dangling(name: string)                                 // (P) label after the last instruction
    | DanglingAt(name: string, line: int)                    // (C) the same, with its line
    | Undefined(names: seq<string>)                           // missing names, sorted
    | AtOperand(line: int, index: nat, inner: ParseError)     // (C) operand error with position

  /** The map from each label to the index of the instruction that carries it, built
      the way the source's loops build it: instructions in order, each label written
      with the current index, so a later instruction overwrites an earlier one. */
  function LabelIndex(lists: seq<seq<string>>): map<string, int>
    decreases |lists|
  {
    if |lists| == 0 then map[]
    else AddLabels(LabelIndex(lists[..|lists| - 1]), lists[|lists| - 1], |lists| - 1)
  }

  /** `for label in labels: index[label] = i`: every label of the list now maps to `i`,
      every other key keeps its value. */
  function AddLabels(index: map<string, int>, labels: seq<string>, i: int): (r: map<string, int>)
    ensures forall l :: l in r <==> l in index || l in labels
    ensures forall l :: l in r ==> r[l] == if l in labels then i else index[l]
  {
    if |labels| == 0 then index
    else AddLabels(index, labels[..|labels| - 1], i)[labels[|labels| - 1] := i]
  }

  /** Some instruction of `lists` carries label `l`. */
  predicate Carried(lists: seq<seq<string>>, l: string) {
    exists i :: 0 <= i < |lists| && l in lists[i]
  }

  /** The label index holds exactly the carried labels, each mapped to a valid index
      of an instruction that carries it and that no later instruction carries. */
  lemma {:induction false} LabelIndexCharacterized(lists: seq<seq<string>>)
    ensures forall l :: l in LabelIndex(lists) <==> Carried(lists, l)
    ensures forall l :: l in LabelIndex(lists) ==>
      0 <= LabelIndex(lists)[l] < |lists| && l in lists[LabelIndex(lists)[l]] &&
      forall j :: LabelIndex(lists)[l] < j < |lists| ==> l !in lists[j]
    decreases |lists|
  {
    if |lists| > 0 {
      var n := |lists| - 1;
      var front := lists[..n];
      LabelIndexCharacterized(front);
      var index := LabelIndex(lists);
      assert index == AddLabels(LabelIndex(front), lists[n], n);
      forall l ensures l in index <==> Carried(lists, l) {
        CarriedSnoc(lists, l);
      }
      forall l | l in index
        ensures 0 <= index[l] < |lists| && l in lists[index[l]] && forall j :: index[l] < j < |lists| ==> l !in lists[j]
      {
        if l !in lists[n] {
          assert lists[index[l]] == front[index[l]];
          forall j | index[l] < j < |lists| ensures l !in lists[j] {
            if j < n {
              assert lists[j] == front[j];
            }
          }
        }
      }
    }
  }

  /** A label is carried by a non-empty list exactly when the front carries it or
      the last instruction does. */
  lemma CarriedSnoc(lists: seq<seq<string>>, l: string)
    requires |lists| > 0
    ensures Carried(lists, l) <==> Carried(lists[..|lists| - 1], l) || l in lists[|lists| - 1]
  {
    var front := lists[..|lists| - 1];
    if Carried(lists, l) && l !in lists[|lists| - 1] {
      var i :| 0 <= i < |lists| && l in lists[i];
      assert front[i] == lists[i];
    }
    if Carried(front, l) {
      var i :| 0 <= i < |front| && l in front[i];
      assert lists[i] == front[i];
    }
  }

  /** When every label is carried by at most one instruction, the index maps each
      label to the very instruction that carries it. */
  lemma LabelIndexOfDistinct(lists: seq<seq<string>>, i: int, l: string)
    requires 0 <= i < |lists| && l in lists[i]
    requires forall j :: 0 <= j < |lists| && j != i ==> l !in lists[j]
    ensures l in LabelIndex(lists) && LabelIndex(lists)[l] == i
  {
    LabelIndexCharacterized(lists);
  }
}
