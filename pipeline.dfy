/** main.py: parse, assemble, link and run one source file, reporting the first
    stage that fails. The report stands for what `main` prints and its exit code;
    the runtime gets its input values and a step budget as parameters. */
module Pipeline {
  import opened Results
  import opened Syntax
  import opened Assembler
  import opened Linker
  import opened Runtime
  import Parser

  /** How `main` ends once the source file exists. */
  datatype Report =
    | ParseFailure(parseError: ParseError)            // `[parse-error] ...`, exit 1
    | LinkFailure(linkError: LinkError)               // `[link-error] ...`, exit 1
    | RuntimeFailure(runtimeError: ExecutionError)    // `[runtime-error] ...`, exit 1; outputs not printed
    | Success(outputs: seq<string>)                   // `[runtime] complete`, the outputs, exit 0
    | Unfinished(run: RunResult)                      // an uncaught `IndexError`, no input left, or the budget spent

  /** The exit code `main` returns for a report that ends the program normally. */
  function ExitCode(r: Report): (code: int)
    requires !r.Unfinished?
    ensures code == 0 <==> r.Success?
    ensures code == 0 || code == 1
  {
    if r.Success? then 0 else 1
  }

  /** The stages of `main`, from `parser.parse_program` to `run_program`. */
  ghost function MainSpec(lines: seq<string>, inputs: seq<int>, fuel: nat): Report {
    match Parser.ParseProgramSpec(lines)
    case Err(e) => ParseFailure(e)
    case Ok(instructions) =>
      Parser.ParseProgramGuarantees(lines, instructions);
      LinkAndRun(instructions, inputs, fuel)
  }

  /** The stages of `main` after a successful parse: `assemble`, `link`, `run_program`. */
  function LinkAndRun(instructions: seq<Entry>, inputs: seq<int>, fuel: nat): Report
    requires KnownOpcodes(instructions)
  {
    match LinkSpec(AssemblyUnit(instructions, LabelIndex(LabelLists(instructions))))
    case Err(e) => LinkFailure(e)
    case Ok(program) =>
      match Run(program.operations, Start(inputs), fuel)
      case Finished(outputs) => Success(outputs)
      case Failed(e, _) => RuntimeFailure(e)
      case other => Unfinished(other)
  }

  /** `main([path])` for a source file with the given lines. */
  method RunSource(lines: seq<string>, inputs: seq<int>, fuel: nat) returns (r: Report)
    ensures r == MainSpec(lines, inputs, fuel)
  {
    var parsed := Parser.ParseProgram(lines);
    if parsed.Err? {
      return ParseFailure(parsed.error);
    }
    var instructions := parsed.value;
    Parser.ParseProgramGuarantees(lines, instructions);
    var unit := Assemble(instructions);
    var linked := Link(unit);
    if linked.Err? {
      return LinkFailure(linked.error);
    }
    var run := RunProgram(linked.value, inputs, fuel);
    match run
    case Finished(outputs) => return Success(outputs);
    case Failed(e, _) => return RuntimeFailure(e);
    case other => return Unfinished(other);
  }

  // ----- what the stages guarantee each other -----

  /** The instructions `parse_program` returns always link, and the linked program is
      well formed: known opcodes, full arity, and each label operand the index of an
      operation. */
  lemma ParsedProgramsLink(lines: seq<string>, instructions: seq<Entry>)
    requires Parser.ParseProgramSpec(lines) == Ok(instructions)
    ensures KnownOpcodes(instructions)
    ensures var r := LinkSpec(AssemblyUnit(instructions, LabelIndex(LabelLists(instructions))));
      r.Ok? && |r.value.operations| == |instructions| && WellFormedProgram(r.value.operations)
  {
    Parser.ParseProgramGuarantees(lines, instructions);
    var lists := LabelLists(instructions);
    var table := LabelIndex(lists);
    var unit := AssemblyUnit(instructions, table);
    LabelIndexCharacterized(lists);
    LinkCharacterized(unit);
    AssembledTargetsInRange(instructions);
    forall j, k | 0 <= j < |instructions|
      ensures !Unresolvable(Parser.OPCODE_TABLE[instructions[j].op], instructions[j].args, k, table)
    {
      var e := instructions[j];
      var kinds := Parser.OPCODE_TABLE[e.op];
      if 0 <= k < |kinds| && k < |e.args| && kinds[k] == "label" {
        assert Parser.HasKind(e.args[k], "label");
        assert Parser.RefersTo(e, e.args[k].s);
      }
    }
    var ops := LinkSpec(unit).value.operations;
    forall i | 0 <= i < |ops|
      ensures ops[i].opcode in Parser.OPCODE_TABLE && |ops[i].args| == |Parser.OPCODE_TABLE[ops[i].opcode]|
      ensures forall k :: 0 <= k < |ops[i].args| ==>
        var kind := Parser.OPCODE_TABLE[ops[i].opcode][k];
        (kind == "int" ==> ops[i].args[k].VInt?) &&
        (kind == "label" ==> ops[i].args[k].VInt? && 0 <= ops[i].args[k].i < |ops|) &&
        (kind == "string" ==> ops[i].args[k].VStr?)
    {
      var e := instructions[i];
      var kinds := Parser.OPCODE_TABLE[e.op];
      forall k | 0 <= k < |ops[i].args|
        ensures kinds[k] == "int" ==> ops[i].args[k].VInt?
        ensures kinds[k] == "string" ==> ops[i].args[k].VStr?
      {
        assert Resolved(kinds[k], e.args[k], ops[i].args[k], table);
        assert Parser.HasKind(e.args[k], kinds[k]);
      }
    }
  }

  /** However `main` ends, it is never at the link stage, a runtime error is only
      `TWIST` on an empty stack, and Python's `IndexError` never escapes. */
  lemma MainOutcomes(lines: seq<string>, inputs: seq<int>, fuel: nat)
    ensures var r := MainSpec(lines, inputs, fuel);
      !r.LinkFailure? &&
      (r.RuntimeFailure? ==> r.runtimeError.EmptyStack?) &&
      (r.Unfinished? ==> !r.run.IndexFault?)
  {
    var parsed := Parser.ParseProgramSpec(lines);
    if parsed.Ok? {
      var instructions := parsed.value;
      ParsedProgramsLink(lines, instructions);
      var program := LinkSpec(AssemblyUnit(instructions, LabelIndex(LabelLists(instructions)))).value;
      WellFormedRunsCleanly(program.operations, Start(inputs), fuel);
    }
  }

  /** A successful `main` prints exactly the texts of the `FLASH` operations the run
      executed, in execution order. */
  lemma MainPrintsFlashes(lines: seq<string>, inputs: seq<int>, fuel: nat)
    requires MainSpec(lines, inputs, fuel).Success?
    ensures var instructions := Parser.ParseProgramSpec(lines).value;
      KnownOpcodes(instructions) &&
      var program := LinkSpec(AssemblyUnit(instructions, LabelIndex(LabelLists(instructions)))).value;
      MainSpec(lines, inputs, fuel).outputs == FlashTexts(Executed(program.operations, Start(inputs), fuel))
  {
    var instructions := Parser.ParseProgramSpec(lines).value;
    Parser.ParseProgramGuarantees(lines, instructions);
    LinkedRunPrintsFlashes(instructions, inputs, fuel);
  }

  /** The stages after the parse, when they succeed, print the `FLASH` texts of the run. */
  lemma LinkedRunPrintsFlashes(instructions: seq<Entry>, inputs: seq<int>, fuel: nat)
    requires KnownOpcodes(instructions) && LinkAndRun(instructions, inputs, fuel).Success?
    ensures var program := LinkSpec(AssemblyUnit(instructions, LabelIndex(LabelLists(instructions)))).value;
      LinkAndRun(instructions, inputs, fuel).outputs == FlashTexts(Executed(program.operations, Start(inputs), fuel))
  {
    var program := LinkSpec(AssemblyUnit(instructions, LabelIndex(LabelLists(instructions)))).value;
    OutputsAreFlashes(program.operations, Start(inputs), fuel);
    var texts := FlashTexts(Executed(program.operations, Start(inputs), fuel));
    assert [] + texts == texts;
  }
}
