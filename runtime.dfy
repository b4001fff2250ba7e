/** compiler/runtime.py: the stack machine that runs a linked program. The input
    provider is a supplied sequence of integers and the output sink is the output
    list itself; the machine is given a step budget, since a program may loop
    forever. */
module Runtime {
  import opened Results
  import opened Text
  import opened Syntax
  import opened Linker
  import Parser

  /** `ExecutionError`, one constructor per message the runtime raises. */
  datatype ExecutionError =
    | EmptyStack(line: int)                                  // TWIST on an empty stack
    | UnknownOp(opcode: string, line: int)
    | MissingOperand(opcode: string, line: int, index: nat)
    | NotAnInteger(opcode: string, line: int)                // a `str` operand `int()` rejects
    | NotAString(opcode: string, line: int)

  /** `_as_int(args, opcode, line, index=index)`: the operand at `index` as an
      integer, reading a `str` operand with `int()`. */
  function AsInt(args: seq<Value>, opcode: string, line: int, index: nat): (r: Result<int, ExecutionError>)
    ensures index >= |args| ==> r == Err(MissingOperand(opcode, line, index))
    ensures index < |args| && args[index].VInt? ==> r == Ok(args[index].i)
    ensures index < |args| && args[index].VStr? ==>
      (r.Ok? <==> IsIntLiteral(args[index].s)) && (r.Err? ==> r.error == NotAnInteger(opcode, line))
  {
    if index >= |args| then Err(MissingOperand(opcode, line, index))
    else
      match args[index]
      case VInt(n) => Ok(n)
      case VStr(s) =>
        match ParseInt(s)
        case Some(n) => Ok(n)
        case None => Err(NotAnInteger(opcode, line))
  }

  /** `_as_str(args, opcode, line, index=index)`: the operand at `index`, which must
      be a `str`. */
  function AsStr(args: seq<Value>, opcode: string, line: int, index: nat): (r: Result<string, ExecutionError>)
    ensures r.Ok? <==> index < |args| && args[index].VStr?
    ensures r.Ok? ==> r.value == args[index].s
    ensures index >= |args| ==> r == Err(MissingOperand(opcode, line, index))
    ensures index < |args| && args[index].VInt? ==> r == Err(NotAString(opcode, line))
  {
    if index >= |args| then Err(MissingOperand(opcode, line, index))
    else
      match args[index]
      case VStr(s) => Ok(s)
      case VInt(_) => Err(NotAString(opcode, line))
  }

  /** The loop variables of `run_program`; `inputs` holds the values the input
      provider has not handed out yet. */
  datatype Machine = Machine(ip: int, stack: seq<int>, outputs: seq<string>, inputs: seq<int>)

  /** How a run ends: `QUIET` or running off the end returns the outputs; an
      `ExecutionError`; Python's `IndexError` for an `ip` below
      `-len(ops)`; a `SIP` with no input left; or the step budget spent. Each
      carries what was sent to the output sink so far. */
  datatype RunResult =
    | Finished(outputs: seq<string>)
    | Failed(error: ExecutionError, outputs: seq<string>)
    | IndexFault(outputs: seq<string>)
    | InputExhausted(outputs: seq<string>)
    | OutOfFuel(machine: Machine)

  /** `ops[ip]` for `ip < len(ops)`, with Python's negative indexing. */
  function Fetch(ops: seq<Operation>, ip: int): Option<Operation>
    requires ip < |ops|
  {
    if 0 <= ip then Some(ops[ip])
    else if -|ops| <= ip then Some(ops[|ops| + ip])
    else None
  }

  /** The effect of executing one operation. */
  datatype Effect = Continue(next: Machine) | Halt | Raise(error: ExecutionError) | NoInput

  /** One pass of the `while ip < len(ops)` loop body. */
  function Step(op: Operation, m: Machine): Effect {
    var opcode := op.opcode;
    if opcode == "SIP" then
      if |m.inputs| == 0 then NoInput
      else Continue(m.(ip := m.ip + 1, stack := m.stack + [m.inputs[0]], inputs := m.inputs[1..]))
    else if opcode == "EMBER" then
      match AsInt(op.args, opcode, op.line, 0)
      case Err(e) => Raise(e)
      case Ok(v) => Continue(m.(ip := m.ip + 1, stack := m.stack + [v]))
    else if opcode == "TWIST" then
      if |m.stack| == 0 then Raise(EmptyStack(op.line))
      else
        match AsInt(op.args, opcode, op.line, 0)
        case Err(e) => Raise(e)
        case Ok(v) => Continue(m.(ip := m.ip + 1, stack := m.stack[|m.stack| - 1 := m.stack[|m.stack| - 1] - v]))
    else if opcode == "DRIFT" then
      match AsInt(op.args, opcode, op.line, 0)
      case Err(e) => Raise(e)
      case Ok(target) => Continue(m.(ip := target))
    else if opcode == "GLINT.ZERO" || opcode == "GLINT.POS" then
      var top := if |m.stack| > 0 then m.stack[|m.stack| - 1] else 0;
      match AsInt(op.args, opcode, op.line, 0)
      case Err(e) => Raise(e)
      case Ok(target) =>
        var jump := if opcode == "GLINT.ZERO" then top == 0 else top > 0;
        Continue(m.(ip := if jump then target else m.ip + 1))
    else if opcode == "FLASH" then
      match AsStr(op.args, opcode, op.line, 0)
      case Err(e) => Raise(e)
      case Ok(text) => Continue(m.(ip := m.ip + 1, outputs := m.outputs + [text]))
    else if opcode == "QUIET" then Halt
    else Raise(UnknownOp(opcode, op.line))
  }

  /** What `run_program` does from machine state `m` within `fuel` more steps. */
  function Run(ops: seq<Operation>, m: Machine, fuel: nat): RunResult
    decreases fuel
  {
    if m.ip >= |ops| then Finished(m.outputs)
    else if fuel == 0 then OutOfFuel(m)
    else
      match Fetch(ops, m.ip)
      case None => IndexFault(m.outputs)
      case Some(op) =>
        match Step(op, m)
        case Continue(next) => Run(ops, next, fuel - 1)
        case Halt => Finished(m.outputs)
        case Raise(e) => Failed(e, m.outputs)
        case NoInput => InputExhausted(m.outputs)
  }

  /** Execution starts at `ip = 0` with an empty stack and no outputs. */
  function Start(inputs: seq<int>): Machine {
    Machine(0, [], [], inputs)
  }

  /** The `if opcode == ...` chain of the `run_program` loop body, on the loop
      variables `m`. */
  method Execute(op: Operation, m: Machine) returns (effect: Effect)
    ensures effect == Step(op, m)
  {
    var opcode := op.opcode;
    var stack := m.stack;
    if opcode == "SIP" {
      if |m.inputs| == 0 {
        return NoInput;
      }
      return Continue(m.(ip := m.ip + 1, stack := stack + [m.inputs[0]], inputs := m.inputs[1..]));
    } else if opcode == "EMBER" {
      var value := AsInt(op.args, opcode, op.line, 0);
      if value.Err? {
        return Raise(value.error);
      }
      return Continue(m.(ip := m.ip + 1, stack := stack + [value.value]));
    } else if opcode == "TWIST" {
      if |stack| == 0 {
        return Raise(EmptyStack(op.line));
      }
      var value := AsInt(op.args, opcode, op.line, 0);
      if value.Err? {
        return Raise(value.error);
      }
      return Continue(m.(ip := m.ip + 1, stack := stack[|stack| - 1 := stack[|stack| - 1] - value.value]));
    } else if opcode == "DRIFT" {
      var target := AsInt(op.args, opcode, op.line, 0);
      if target.Err? {
        return Raise(target.error);
      }
      return Continue(m.(ip := target.value));
    } else if opcode == "GLINT.ZERO" {
      var top := if |stack| > 0 then stack[|stack| - 1] else 0;
      var target := AsInt(op.args, opcode, op.line, 0);
      if target.Err? {
        return Raise(target.error);
      }
      return Continue(m.(ip := if top == 0 then target.value else m.ip + 1));
    } else if opcode == "GLINT.POS" {
      var top := if |stack| > 0 then stack[|stack| - 1] else 0;
      var target := AsInt(op.args, opcode, op.line, 0);
      if target.Err? {
        return Raise(target.error);
      }
      return Continue(m.(ip := if top > 0 then target.value else m.ip + 1));
    } else if opcode == "FLASH" {
      var text := AsStr(op.args, opcode, op.line, 0);
      if text.Err? {
        return Raise(text.error);
      }
      return Continue(m.(ip := m.ip + 1, outputs := m.outputs + [text.value]));
    } else if opcode == "QUIET" {
      return Halt;
    } else {
      return Raise(UnknownOp(opcode, op.line));
    }
  }

  // ----- what each opcode does -----

  /** The value `stack[-1]` reads, or 0 on an empty stack (as `GLINT.*` read it). */
  function Top(stack: seq<int>): int {
    if |stack| > 0 then stack[|stack| - 1] else 0
  }

  /** `ip += 1`, with the output and the input provider untouched. */
  predicate Advances(m: Machine, n: Machine) {
    n.ip == m.ip + 1 && n.outputs == m.outputs && n.inputs == m.inputs
  }

  /** `n.stack` is `m.stack` with `v` pushed on top. */
  predicate Pushes(m: Machine, n: Machine, v: int) {
    |n.stack| == |m.stack| + 1 && n.stack[..|m.stack|] == m.stack && n.stack[|m.stack|] == v
  }

  /** `SIP` reads the next input onto the stack, and stops the run when the provider
      has none. */
  lemma SipStep(op: Operation, m: Machine)
    requires op.opcode == "SIP"
    ensures Step(op, m) == NoInput <==> |m.inputs| == 0
    ensures |m.inputs| > 0 ==>
      Step(op, m).Continue? &&
      var n := Step(op, m).next;
      Pushes(m, n, m.inputs[0]) && n.ip == m.ip + 1 && n.outputs == m.outputs && [m.inputs[0]] + n.inputs == m.inputs
  {
    if |m.inputs| > 0 {
      var n := Step(op, m).next;
      assert [m.inputs[0]] + n.inputs == m.inputs;
      assert n.stack[..|m.stack|] == m.stack;
    }
  }

  /** `EMBER v` pushes its operand, or raises what `_as_int` raises. */
  lemma EmberStep(op: Operation, m: Machine)
    requires op.opcode == "EMBER"
    ensures var v := AsInt(op.args, op.opcode, op.line, 0);
      (v.Err? ==> Step(op, m) == Raise(v.error)) &&
      (v.Ok? ==> Step(op, m).Continue? && Pushes(m, Step(op, m).next, v.value) && Advances(m, Step(op, m).next))
  {
    var v := AsInt(op.args, op.opcode, op.line, 0);
    if v.Ok? {
      assert Step(op, m).next.stack[..|m.stack|] == m.stack;
    }
  }

  /** `TWIST v` lowers the top of the stack by its operand and leaves the rest. On an
      empty stack it raises before reading the operand. */
  lemma TwistStep(op: Operation, m: Machine)
    requires op.opcode == "TWIST"
    ensures |m.stack| == 0 ==> Step(op, m) == Raise(EmptyStack(op.line))
    ensures var v := AsInt(op.args, op.opcode, op.line, 0);
      |m.stack| > 0 ==>
        (v.Err? ==> Step(op, m) == Raise(v.error)) &&
        (v.Ok? ==>
          Step(op, m).Continue? &&
          var n := Step(op, m).next;
          |n.stack| == |m.stack| && n.stack[..|m.stack| - 1] == m.stack[..|m.stack| - 1] &&
          Top(n.stack) == Top(m.stack) - v.value && Advances(m, n))
  {
    var v := AsInt(op.args, op.opcode, op.line, 0);
    if |m.stack| > 0 && v.Ok? {
      var n := Step(op, m).next;
      assert n.stack[..|m.stack| - 1] == m.stack[..|m.stack| - 1];
    }
  }

  /** `DRIFT target` jumps, changing nothing else. */
  lemma DriftStep(op: Operation, m: Machine)
    requires op.opcode == "DRIFT"
    ensures var v := AsInt(op.args, op.opcode, op.line, 0);
      (v.Err? ==> Step(op, m) == Raise(v.error)) &&
      (v.Ok? ==>
        Step(op, m).Continue? &&
        var n := Step(op, m).next;
        n.ip == v.value && n.stack == m.stack && n.outputs == m.outputs && n.inputs == m.inputs)
  {
  }

  /** `GLINT.ZERO target` and `GLINT.POS target` jump exactly when the top of the
      stack (0 on an empty stack) is zero, respectively positive, and otherwise go
      on; neither changes the stack. */
  lemma GlintStep(op: Operation, m: Machine)
    requires op.opcode == "GLINT.ZERO" || op.opcode == "GLINT.POS"
    ensures var v := AsInt(op.args, op.opcode, op.line, 0);
      (v.Err? ==> Step(op, m) == Raise(v.error)) &&
      (v.Ok? ==>
        Step(op, m).Continue? &&
        var n := Step(op, m).next;
        var jump := if op.opcode == "GLINT.ZERO" then Top(m.stack) == 0 else Top(m.stack) > 0;
        n.ip == (if jump then v.value else m.ip + 1) &&
        n.stack == m.stack && n.outputs == m.outputs && n.inputs == m.inputs)
  {
  }

  /** `FLASH text` sends its operand to the output and leaves the stack alone. */
  lemma FlashStep(op: Operation, m: Machine)
    requires op.opcode == "FLASH"
    ensures var text := AsStr(op.args, op.opcode, op.line, 0);
      (text.Err? ==> Step(op, m) == Raise(text.error)) &&
      (text.Ok? ==>
        Step(op, m).Continue? &&
        var n := Step(op, m).next;
        n.outputs == m.outputs + [text.value] && n.ip == m.ip + 1 && n.stack == m.stack && n.inputs == m.inputs)
  {
  }

  /** `QUIET` ends the run; any opcode the chain does not list raises `Unknown opcode`. */
  lemma QuietAndUnknownStep(op: Operation, m: Machine)
    ensures op.opcode == "QUIET" <==> Step(op, m) == Halt
    ensures op.opcode !in {"SIP", "EMBER", "TWIST", "DRIFT", "GLINT.ZERO", "GLINT.POS", "FLASH", "QUIET"} <==>
      Step(op, m) == Raise(UnknownOp(op.opcode, op.line))
  {
  }

  /** `run_program(program, input_provider, output_sink)` given the provider's
      values and at most `fuel` loop iterations. */
  method RunProgram(program: Program, inputs: seq<int>, fuel: nat) returns (r: RunResult)
    ensures r == Run(program.operations, Start(inputs), fuel)
  {
    var m := Start(inputs);
    var budget := fuel;
    var ops := program.operations;
    while m.ip < |ops|
      invariant Run(ops, m, budget) == Run(ops, Start(inputs), fuel)
      decreases budget
    {
      if budget == 0 {
        return OutOfFuel(m);
      }
      var fetched := Fetch(ops, m.ip);
      if fetched.None? {
        return IndexFault(m.outputs);
      }
      var effect := Execute(fetched.value, m);
      match effect {
        case Continue(next) =>
          m := next;
        case Halt =>
          return Finished(m.outputs);
        case Raise(e) =>
          return Failed(e, m.outputs);
        case NoInput =>
          return InputExhausted(m.outputs);
      }
      budget := budget - 1;
    }
    return Finished(m.outputs);
  }

  // ----- what a run guarantees -----

  /** The outputs a run result carries. */
  function OutputsOf(r: RunResult): seq<string> {
    match r
    case Finished(out) => out
    case Failed(_, out) => out
    case IndexFault(out) => out
    case InputExhausted(out) => out
    case OutOfFuel(m) => m.outputs
  }

  /** The operations a run executes to completion, in execution order. */
  function Executed(ops: seq<Operation>, m: Machine, fuel: nat): seq<Operation>
    decreases fuel
  {
    if m.ip >= |ops| || fuel == 0 then []
    else
      match Fetch(ops, m.ip)
      case None => []
      case Some(op) =>
        match Step(op, m)
        case Continue(next) => [op] + Executed(ops, next, fuel - 1)
        case _ => []
  }

  /** The text a `FLASH` operation writes; nothing for any other operation. */
  function FlashOf(op: Operation): seq<string> {
    if op.opcode == "FLASH" && |op.args| > 0 && op.args[0].VStr? then [op.args[0].s] else []
  }

  /** The texts of the `FLASH` operations among `executed`, in order. */
  function FlashTexts(executed: seq<Operation>): seq<string> {
    if |executed| == 0 then [] else FlashOf(executed[0]) + FlashTexts(executed[1..])
  }

  /** An operation that lets the run go on adds its `FLASH` text, if any, to the
      outputs and nothing else. */
  lemma StepOutputs(op: Operation, m: Machine)
    requires Step(op, m).Continue?
    ensures Step(op, m).next.outputs == m.outputs + FlashOf(op)
  {
    if op.opcode != "FLASH" {
      assert m.outputs + [] == m.outputs;
    }
  }

  /** One loop pass of a run: either it stops where it is, with no operation
      executed to completion and the outputs as they are, or it executes `op`, adding
      its `FLASH` text, and goes on from `next`. */
  lemma RunUnfold(ops: seq<Operation>, m: Machine, fuel: nat) returns (goesOn: bool, op: Operation, next: Machine)
    ensures !goesOn ==> OutputsOf(Run(ops, m, fuel)) == m.outputs && Executed(ops, m, fuel) == []
    ensures goesOn ==>
      fuel > 0 &&
      Run(ops, m, fuel) == Run(ops, next, fuel - 1) &&
      Executed(ops, m, fuel) == [op] + Executed(ops, next, fuel - 1) &&
      next.outputs == m.outputs + FlashOf(op)
  {
    goesOn, op, next := false, Operation("", [], 0), m;
    if m.ip < |ops| && fuel > 0 && Fetch(ops, m.ip).Some? {
      op := Fetch(ops, m.ip).value;
      var effect := Step(op, m);
      if effect.Continue? {
        goesOn, next := true, effect.next;
        StepOutputs(op, m);
      }
    }
  }

  /** The outputs of a run, however it ends, are the outputs it started with followed
      by the texts of the `FLASH` operations it executed, in execution order. */
  lemma {:induction false} OutputsAreFlashes(ops: seq<Operation>, m: Machine, fuel: nat)
    ensures OutputsOf(Run(ops, m, fuel)) == m.outputs + FlashTexts(Executed(ops, m, fuel))
    decreases fuel
  {
    var goesOn, op, next := RunUnfold(ops, m, fuel);
    if goesOn {
      OutputsAreFlashes(ops, next, fuel - 1);
      FlashTextsCons(m.outputs, op, Executed(ops, next, fuel - 1));
    } else {
      assert m.outputs + FlashTexts([]) == m.outputs;
    }
  }

  /** The texts of a run that starts with `op` are `op`'s text followed by the rest's. */
  lemma FlashTextsCons(outputs: seq<string>, op: Operation, rest: seq<Operation>)
    ensures outputs + FlashTexts([op] + rest) == (outputs + FlashOf(op)) + FlashTexts(rest)
  {
    assert ([op] + rest)[0] == op && ([op] + rest)[1..] == rest;
    assert FlashTexts([op] + rest) == FlashOf(op) + FlashTexts(rest);
  }

  /** A run that ends within a step budget ends the same way with any larger budget. */
  lemma {:induction false} MoreFuelSameResult(ops: seq<Operation>, m: Machine, fuel: nat, more: nat)
    requires !Run(ops, m, fuel).OutOfFuel? && fuel <= more
    ensures Run(ops, m, more) == Run(ops, m, fuel)
    decreases fuel
  {
    if m.ip < |ops| && Fetch(ops, m.ip).Some? {
      match Step(Fetch(ops, m.ip).value, m)
      case Continue(next) => MoreFuelSameResult(ops, next, fuel - 1, more - 1);
      case _ =>
    }
  }

  /** What linking yields from a parsed program: every operation has a known opcode,
      as many operands as its arity, an integer in each `int` slot, the index of an
      operation in each `label` slot and a string in each `string` slot. */
  predicate WellFormedProgram(ops: seq<Operation>) {
    forall i :: 0 <= i < |ops| ==>
      var op := ops[i];
      op.opcode in Parser.OPCODE_TABLE &&
      |op.args| == |Parser.OPCODE_TABLE[op.opcode]| &&
      forall k :: 0 <= k < |op.args| ==>
        var kind := Parser.OPCODE_TABLE[op.opcode][k];
        (kind == "int" ==> op.args[k].VInt?) &&
        (kind == "label" ==> op.args[k].VInt? && 0 <= op.args[k].i < |ops|) &&
        (kind == "string" ==> op.args[k].VStr?)
  }

  /** A well-formed program, started at a non-negative `ip`, never
      faults on indexing and never raises except for `TWIST` on an empty stack. */
  lemma {:induction false} WellFormedRunsCleanly(ops: seq<Operation>, m: Machine, fuel: nat)
    requires WellFormedProgram(ops) && 0 <= m.ip
    ensures var r := Run(ops, m, fuel);
      !r.IndexFault? && (r.Failed? ==> r.error.EmptyStack?)
    decreases fuel
  {
    if m.ip < |ops| && fuel > 0 {
      var op := ops[m.ip];
      assert Fetch(ops, m.ip) == Some(op);
      match Step(op, m)
      case Continue(next) =>
        WellFormedRunsCleanly(ops, next, fuel - 1);
      case _ =>
    }
  }
}
