/** compiler/linker.py: rewriting each `label` operand into the index of the
    instruction that carries the label. */
module Linker {
  import opened Results
  import opened Syntax
  import opened Assembler
  import Parser

  /** `Operation(opcode, args, line)`. */
  datatype Operation = Operation(opcode: string, args: seq<Value>, line: int)

  /** `Program(operations)`. */
  datatype Program = Program(operations: seq<Operation>)

  /** `LinkError`: the operand that names no label of the table. */
  datatype LinkError = UndefinedLabel(value: Value)

  /** `_resolve_operand(kind, value, labels)`: operands of any kind but `label` pass
      through; a label becomes the index the table gives it (index 0 included), and
      a value the table lacks is a `LinkError` naming it. */
  function ResolveOperand(kind: string, value: Value, labels: map<string, int>): (r: Result<Value, LinkError>)
    ensures kind != "label" ==> r == Ok(value)
    ensures kind == "label" ==>
      (r.Ok? <==> value.VStr? && value.s in labels) &&
      (r.Ok? ==> r.value == VInt(labels[value.s])) &&
      (r.Err? ==> r.error == UndefinedLabel(value))
  {
    if kind != "label" then Ok(value)
    else if value.VStr? && value.s in labels then Ok(VInt(labels[value.s]))
    else Err(UndefinedLabel(value))
  }

  /** `tuple(_resolve_operand(kind, value, labels) for kind, value in zip(kinds, args))`:
      the first failing operand raises. */
  function ResolveArgs(kinds: seq<string>, args: seq<Value>, labels: map<string, int>): (r: Result<seq<Value>, LinkError>)
    decreases |args|
  {
    if |kinds| == 0 || |args| == 0 then Ok([])
    else
      match ResolveOperand(kinds[0], args[0], labels)
      case Err(e) => Err(e)
      case Ok(v) =>
        match ResolveArgs(kinds[1..], args[1..], labels)
        case Err(e) => Err(e)
        case Ok(vs) => Ok([v] + vs)
  }

  /** Every instruction names an opcode of the table (`OPCODE_TABLE[opcode]` would
      raise `KeyError` otherwise). */
  predicate KnownOpcodes(instructions: seq<Entry>) {
    forall i :: 0 <= i < |instructions| ==> instructions[i].op in Parser.OPCODE_TABLE
  }

  /** The operation `link` builds from one instruction. */
  function LinkInstruction(instruction: Entry, labels: map<string, int>): Result<Operation, LinkError>
    requires instruction.op in Parser.OPCODE_TABLE
  {
    match ResolveArgs(Parser.OPCODE_TABLE[instruction.op], instruction.args, labels)
    case Err(e) => Err(e)
    case Ok(args) => Ok(Operation(instruction.op, args, instruction.line))
  }

  /** What the `link` loop still does from instruction `i` on, having built `done`. */
  function LinkFrom(unit: AssemblyUnit, i: nat, done: seq<Operation>): Result<Program, LinkError>
    requires i <= |unit.instructions| && KnownOpcodes(unit.instructions)
    decreases |unit.instructions| - i
  {
    if i == |unit.instructions| then Ok(Program(done))
    else
      match LinkInstruction(unit.instructions[i], unit.labelTable)
      case Err(e) => Err(e)
      case Ok(op) => LinkFrom(unit, i + 1, done + [op])
  }

  function LinkSpec(unit: AssemblyUnit): Result<Program, LinkError>
    requires KnownOpcodes(unit.instructions)
  {
    LinkFrom(unit, 0, [])
  }

  /** `link(unit)`. */
  method Link(unit: AssemblyUnit) returns (r: Result<Program, LinkError>)
    requires KnownOpcodes(unit.instructions)
    ensures r == LinkSpec(unit)
  {
    var operations: seq<Operation> := [];
    for i := 0 to |unit.instructions|
      invariant LinkFrom(unit, i, operations) == LinkSpec(unit)
    {
      var instruction := unit.instructions[i];
      var operandKinds := Parser.OPCODE_TABLE[instruction.op];
      var resolvedArgs :- ResolveArgs(operandKinds, instruction.args, unit.labelTable);
      operations := operations + [Operation(instruction.op, resolvedArgs, instruction.line)];
    }
    return Ok(Program(operations));
  }

  // ----- what linking guarantees -----

  function Min(a: int, b: int): int {
    if a < b then a else b
  }

  /** The operand in slot `k`, as linking rewrites it. */
  predicate Resolved(kind: string, before: Value, after: Value, labels: map<string, int>) {
    if kind == "label" then before.VStr? && before.s in labels && after == VInt(labels[before.s])
    else after == before
  }

  /** The slot `k` of some instruction is a `label` slot whose value the table lacks. */
  predicate Unresolvable(kinds: seq<string>, args: seq<Value>, k: int, labels: map<string, int>) {
    0 <= k < |kinds| && k < |args| && kinds[k] == "label" && !(args[k].VStr? && args[k].s in labels)
  }

  lemma {:induction false} ResolveArgsCharacterized(kinds: seq<string>, args: seq<Value>, labels: map<string, int>)
    ensures var r := ResolveArgs(kinds, args, labels);
      (r.Ok? <==> forall k :: !Unresolvable(kinds, args, k, labels)) &&
      (r.Ok? ==> |r.value| == Min(|kinds|, |args|) &&
                 forall k :: 0 <= k < |r.value| ==> Resolved(kinds[k], args[k], r.value[k], labels)) &&
      (r.Err? ==> exists k :: Unresolvable(kinds, args, k, labels) && r.error == UndefinedLabel(args[k]))
    decreases |args|
  {
    if |kinds| > 0 && |args| > 0 {
      ResolveArgsCharacterized(kinds[1..], args[1..], labels);
      forall k | 0 < k ensures Unresolvable(kinds, args, k, labels) == Unresolvable(kinds[1..], args[1..], k - 1, labels) {
      }
      var r := ResolveArgs(kinds, args, labels);
      var tail := ResolveArgs(kinds[1..], args[1..], labels);
      if ResolveOperand(kinds[0], args[0], labels).Ok? && tail.Err? {
        var k :| Unresolvable(kinds[1..], args[1..], k, labels) && tail.error == UndefinedLabel(args[1..][k]);
        assert Unresolvable(kinds, args, k + 1, labels);
      }
      if r.Ok? {
        forall k ensures !Unresolvable(kinds, args, k, labels) {
          if k > 0 {
            assert !Unresolvable(kinds[1..], args[1..], k - 1, labels);
          }
        }
      }
      if ResolveOperand(kinds[0], args[0], labels).Err? {
        assert Unresolvable(kinds, args, 0, labels);
      }
    }
  }

  lemma {:induction false} LinkFromShape(unit: AssemblyUnit, i: nat, done: seq<Operation>)
    requires i <= |unit.instructions| && KnownOpcodes(unit.instructions)
    ensures var r := LinkFrom(unit, i, done);
      var instrs := unit.instructions;
      (r.Ok? <==> forall j, k :: i <= j < |instrs| ==> !Unresolvable(Parser.OPCODE_TABLE[instrs[j].op], instrs[j].args, k, unit.labelTable)) &&
      (r.Ok? ==>
         |r.value.operations| == |done| + |instrs| - i && r.value.operations[..|done|] == done &&
         forall j :: i <= j < |instrs| ==>
           var op := r.value.operations[|done| + j - i];
           var kinds := Parser.OPCODE_TABLE[instrs[j].op];
           op.opcode == instrs[j].op && op.line == instrs[j].line && |op.args| == Min(|kinds|, |instrs[j].args|) &&
           forall k :: 0 <= k < |op.args| ==> Resolved(kinds[k], instrs[j].args[k], op.args[k], unit.labelTable))
    decreases |unit.instructions| - i
  {
    var instrs := unit.instructions;
    if i < |instrs| {
      LinkInstructionShape(instrs[i], unit.labelTable);
      match LinkInstruction(instrs[i], unit.labelTable)
      case Err(e) =>
      case Ok(op) =>
        LinkFromShape(unit, i + 1, done + [op]);
        var r := LinkFrom(unit, i + 1, done + [op]);
        if r.Ok? {
          SnocPrefix(r.value.operations, done, op);
        }
    }
  }

  /** `link` on one instruction succeeds exactly when each of its `label` operands
      names a label of the table, and then keeps its opcode and line and resolves
      its operands. */
  lemma LinkInstructionShape(instruction: Entry, labels: map<string, int>)
    requires instruction.op in Parser.OPCODE_TABLE
    ensures var r := LinkInstruction(instruction, labels);
      var kinds := Parser.OPCODE_TABLE[instruction.op];
      (r.Ok? <==> forall k :: !Unresolvable(kinds, instruction.args, k, labels)) &&
      (r.Ok? ==>
         r.value.opcode == instruction.op && r.value.line == instruction.line &&
         |r.value.args| == Min(|kinds|, |instruction.args|) &&
         forall k :: 0 <= k < |r.value.args| ==> Resolved(kinds[k], instruction.args[k], r.value.args[k], labels))
  {
    ResolveArgsCharacterized(Parser.OPCODE_TABLE[instruction.op], instruction.args, labels);
  }

  /** A sequence that starts with `done + [op]` starts with `done`, followed by `op`. */
  lemma SnocPrefix(ops: seq<Operation>, done: seq<Operation>, op: Operation)
    requires |ops| > |done| && ops[..|done| + 1] == done + [op]
    ensures ops[..|done|] == done && ops[|done|] == op
  {
    assert ops[..|done| + 1][..|done|] == ops[..|done|];
    assert ops[|done|] == (done + [op])[|done|];
  }

  /** `link` succeeds exactly when every `label` operand names a label of the table;
      it then yields one operation per instruction, in order, with the same opcode
      and line, its operands zip-truncated to the opcode's arity, `label` operands
      replaced by their table index and all others unchanged. */
  lemma LinkCharacterized(unit: AssemblyUnit)
    requires KnownOpcodes(unit.instructions)
    ensures var r := LinkSpec(unit);
      var instrs := unit.instructions;
      (r.Ok? <==> forall j, k :: 0 <= j < |instrs| ==> !Unresolvable(Parser.OPCODE_TABLE[instrs[j].op], instrs[j].args, k, unit.labelTable)) &&
      (r.Ok? ==>
         |r.value.operations| == |instrs| &&
         forall j :: 0 <= j < |instrs| ==>
           var op := r.value.operations[j];
           var kinds := Parser.OPCODE_TABLE[instrs[j].op];
           op.opcode == instrs[j].op && op.line == instrs[j].line && |op.args| == Min(|kinds|, |instrs[j].args|) &&
           forall k :: 0 <= k < |op.args| ==> Resolved(kinds[k], instrs[j].args[k], op.args[k], unit.labelTable))
  {
    LinkFromShape(unit, 0, []);
  }

  /** `link` raises only by naming an operand in a `label` slot that the table lacks. */
  lemma LinkErrorNamesMissing(unit: AssemblyUnit)
    requires KnownOpcodes(unit.instructions) && LinkSpec(unit).Err?
    ensures exists j, k ::
      0 <= j < |unit.instructions| &&
      Unresolvable(Parser.OPCODE_TABLE[unit.instructions[j].op], unit.instructions[j].args, k, unit.labelTable) &&
      LinkSpec(unit).error == UndefinedLabel(unit.instructions[j].args[k])
  {
    LinkErrorFrom(unit, 0, []);
  }

  lemma {:induction false} LinkErrorFrom(unit: AssemblyUnit, i: nat, done: seq<Operation>)
    requires i <= |unit.instructions| && KnownOpcodes(unit.instructions) && LinkFrom(unit, i, done).Err?
    ensures exists j, k ::
      i <= j < |unit.instructions| &&
      Unresolvable(Parser.OPCODE_TABLE[unit.instructions[j].op], unit.instructions[j].args, k, unit.labelTable) &&
      LinkFrom(unit, i, done).error == UndefinedLabel(unit.instructions[j].args[k])
    decreases |unit.instructions| - i
  {
    var instrs := unit.instructions;
    var kinds := Parser.OPCODE_TABLE[instrs[i].op];
    ResolveArgsCharacterized(kinds, instrs[i].args, unit.labelTable);
    match LinkInstruction(instrs[i], unit.labelTable)
    case Err(e) =>
    case Ok(op) =>
      LinkErrorFrom(unit, i + 1, done + [op]);
  }

  /** For a unit built by `assemble`, every resolved label operand is the index of an
      operation of the linked program. */
  lemma AssembledTargetsInRange(instructions: seq<Entry>)
    requires KnownOpcodes(instructions)
    ensures var r := LinkSpec(AssemblyUnit(instructions, LabelIndex(LabelLists(instructions))));
      r.Ok? ==>
        |r.value.operations| == |instructions| &&
        forall j, k ::
          (0 <= j < |instructions| && 0 <= k < |r.value.operations[j].args| &&
           k < |Parser.OPCODE_TABLE[instructions[j].op]| && Parser.OPCODE_TABLE[instructions[j].op][k] == "label") ==>
          r.value.operations[j].args[k].VInt? && 0 <= r.value.operations[j].args[k].i < |r.value.operations|
  {
    var unit := AssemblyUnit(instructions, LabelIndex(LabelLists(instructions)));
    LinkCharacterized(unit);
    LabelIndexCharacterized(LabelLists(instructions));
  }
}
