/** compiler/compiler.py: the stand-alone front end. It shares the comment rule,
    the tokenizer and the opcode table with compiler/parser.py, but it checks
    labels against a regular expression, rejects a label the moment it is declared
    a second time, and wraps operand errors with their line and position. */
module Compiler {
  import opened Results
  import opened Text
  import opened Syntax
  import Lexer
  import Parser

  /** `Instruction(opcode, operands, labels, line)`. */
  datatype Instruction = Instruction(opcode: string, operands: seq<Value>, labels: seq<string>, line: int)

  /** `Instruction.as_program_entry()`: the instruction dictionary, with a `labels`
      key only when the instruction has labels. */
  function AsProgramEntry(instr: Instruction): (e: Entry)
    ensures e.op == instr.opcode && e.args == instr.operands && e.line == instr.line
    ensures e.labels.Some? <==> instr.labels != []
    ensures LabelsOf(e) == instr.labels
  {
    Entry(instr.opcode, instr.operands, instr.line, if instr.labels != [] then Some(instr.labels) else None)
  }

  function ProgramEntries(instrs: seq<Instruction>): (entries: seq<Entry>)
    ensures |entries| == |instrs| && forall i :: 0 <= i < |instrs| ==> entries[i] == AsProgramEntry(instrs[i])
  {
    seq(|instrs|, i requires 0 <= i < |instrs| => AsProgramEntry(instrs[i]))
  }

  // ----- LABEL_PATTERN = ^[A-Za-z_][\w.-]*$ -----

  predicate IsAsciiLetter(c: char) {
    'a' <= c <= 'z' || 'A' <= c <= 'Z'
  }

  /** `\w`, restricted to ASCII: a letter, a digit or `_`. */
  predicate IsWordChar(c: char) {
    IsAsciiLetter(c) || IsDigit(c) || c == '_'
  }

  /** `[A-Za-z_][\w.-]*` matches the whole of `s`. */
  predicate LabelGrammar(s: string) {
    |s| > 0 && (IsAsciiLetter(s[0]) || s[0] == '_') &&
    forall i :: 1 <= i < |s| ==> IsWordChar(s[i]) || s[i] == '.' || s[i] == '-'
  }

  /** `LABEL_PATTERN.match(s)` succeeds: `$` also matches just before a final newline. */
  predicate MatchesLabelPattern(s: string) {
    LabelGrammar(s) || (|s| > 0 && s[|s| - 1] == '\n' && LabelGrammar(s[..|s| - 1]))
  }

  // ----- operand converters -----

  /** `parse_int(token)`. */
  function ParseIntOperand(token: string): (r: Result<Value, ParseError>)
    ensures r.Ok? <==> IsIntLiteral(token)
    ensures r.Ok? ==> r.value.VInt? && r.value == Parser.ParseOperand(token, "int").value
    ensures r.Err? ==> r.error == InvalidInteger(token)
  {
    match ParseInt(token)
    case Some(n) => Ok(VInt(n))
    case None => Err(InvalidInteger(token))
  }

  /** `parse_label_reference(token)`. */
  function ParseLabelReference(token: string): (r: Result<Value, ParseError>)
    ensures r.Ok? <==> MatchesLabelPattern(token)
    ensures r.Ok? ==> r.value == VStr(token)
    ensures r.Err? ==> r.error == InvalidLabelName(token)
  {
    if !MatchesLabelPattern(token) then Err(InvalidLabelName(token)) else Ok(VStr(token))
  }

  /** `parse_string_literal(token)`. */
  function ParseStringLiteral(token: string): (r: Result<Value, ParseError>)
    ensures r == Parser.ParseOperand(token, "string")
  {
    if token == "" then Err(EmptyString) else Ok(VStr(token))
  }

  /** The three converters an `OpcodeSpec` lists. */
  datatype Converter = IntConverter | LabelConverter | StringConverter

  /** `parse_int` yields an `int`, the other two a `str`. */
  predicate Produces(c: Converter, v: Value) {
    if c == IntConverter then v.VInt? else v.VStr?
  }

  function Convert(c: Converter, token: string): (r: Result<Value, ParseError>)
    ensures r.Ok? ==> Produces(c, r.value)
  {
    match c
    case IntConverter => ParseIntOperand(token)
    case LabelConverter => ParseLabelReference(token)
    case StringConverter => ParseStringLiteral(token)
  }

  /** `OpcodeSpec(name, operand_parsers, operand_kinds, description)`. Each opcode
      has one spec, so its description is given by its name. */
  datatype OpcodeSpec = OpcodeSpec(name: string, operandParsers: seq<Converter>, operandKinds: seq<string>) {
    function Description(): string {
      if name == "SIP" then "Reads an integer from STDIN onto the stack"
      else if name == "EMBER" then "Pushes an integer literal"
      else if name == "TWIST" then "Subtracts an integer literal from the stack head"
      else if name == "DRIFT" then "Unconditional jump"
      else if name == "GLINT.ZERO" then "Jump when the stack head equals zero"
      else if name == "GLINT.POS" then "Jump when the stack head is positive"
      else if name == "FLASH" then "Writes a quoted string"
      else if name == "QUIET" then "Halts execution"
      else ""
    }
  }

  const OPCODE_SPECS: map<string, OpcodeSpec> := map[
    "SIP" := OpcodeSpec("SIP", [], []),
    "EMBER" := OpcodeSpec("EMBER", [IntConverter], ["int"]),
    "TWIST" := OpcodeSpec("TWIST", [IntConverter], ["int"]),
    "DRIFT" := OpcodeSpec("DRIFT", [LabelConverter], ["label"]),
    "GLINT.ZERO" := OpcodeSpec("GLINT.ZERO", [LabelConverter], ["label"]),
    "GLINT.POS" := OpcodeSpec("GLINT.POS", [LabelConverter], ["label"]),
    "FLASH" := OpcodeSpec("FLASH", [StringConverter], ["string"]),
    "QUIET" := OpcodeSpec("QUIET", [], [])
  ]

  /** The converter that belongs to an operand kind. */
  function ConverterFor(kind: string): Converter {
    if kind == "int" then IntConverter else if kind == "label" then LabelConverter else StringConverter
  }

  /** The two front ends know the same opcodes with the same operand kinds; each spec
      carries its own name and one converter per kind, the one that kind calls for. */
  lemma OpcodeSpecsAgree()
    ensures OPCODE_SPECS.Keys == Parser.OPCODE_TABLE.Keys
    ensures forall op :: op in OPCODE_SPECS ==>
      var spec := OPCODE_SPECS[op];
      spec.name == op && spec.operandKinds == Parser.OPCODE_TABLE[op] &&
      |spec.operandParsers| == |spec.operandKinds| &&
      forall k :: 0 <= k < |spec.operandKinds| ==>
        spec.operandParsers[k] == ConverterFor(spec.operandKinds[k]) &&
        (spec.operandKinds[k] == "int" || spec.operandKinds[k] == "label" || spec.operandKinds[k] == "string")
  {
    assert OPCODE_SPECS.Keys == Parser.OPCODE_TABLE.Keys;
  }

  // ----- strip_comments -----

  /** The `while idx < len(line)` loop of `strip_comments`. */
  method StripComments(line: string) returns (r: string)
    ensures r == Lexer.StripComments(line)
  {
    var inQuotes := false;
    var idx := 0;
    while idx < |line|
      invariant idx <= |line|
      invariant Lexer.CutFrom(line, idx, inQuotes) == Lexer.CommentCut(line)
    {
      var ch := line[idx];
      if ch == '"' {
        inQuotes := !inQuotes;
        idx := idx + 1;
        continue;
      }
      if !inQuotes {
        for m := 0 to |Lexer.COMMENT_MARKERS|
          invariant forall m' :: 0 <= m' < m ==> !StartsWithAt(line, Lexer.COMMENT_MARKERS[m'], idx)
        {
          if StartsWithAt(line, Lexer.COMMENT_MARKERS[m], idx) {
            return RStrip(line[..idx]);
          }
        }
      }
      idx := idx + 1;
    }
    return RStrip(line);
  }

  // ----- parse_program -----

  /** The loop variables of `parse_program`. */
  datatype CompilerState = CompilerState(
    instructions: seq<Instruction>,
    pending: seq<(string, int)>,
    definedLabels: map<string, int>)

  /** What the `for token in tokens` loop still does from token `i` on: declare the
      `label:` tokens (raising at an invalid or already declared one) and collect
      the others. */
  function DeclareFrom(tokens: seq<string>, i: nat, lineNo: int, defined: map<string, int>,
                       pending: seq<(string, int)>, actual: seq<string>)
    : Result<(map<string, int>, seq<(string, int)>, seq<string>), ParseError>
    requires i <= |tokens|
    decreases |tokens| - i
  {
    if i == |tokens| then Ok((defined, pending, actual))
    else
      var token := tokens[i];
      if EndsWithColon(token) then
        var name := token[..|token| - 1];
        if !MatchesLabelPattern(name) then Err(InvalidLabel(name, lineNo))
        else if name in defined then Err(LabelRedefined(name, lineNo, defined[name]))
        else DeclareFrom(tokens, i + 1, lineNo, defined[name := lineNo], pending + [(name, lineNo)], actual)
      else DeclareFrom(tokens, i + 1, lineNo, defined, pending, actual + [token])
  }

  /** What the converter loop still does from operand `k` on (positions count from 1
      in the message). */
  function ConvertFrom(tokens: seq<string>, converters: seq<Converter>, k: nat, lineNo: int)
    : (r: Result<seq<Value>, ParseError>)
    requires |tokens| == |converters| && k <= |tokens|
    ensures r.Ok? ==> |r.value| == |tokens| - k
    ensures r.Ok? ==> forall j :: 0 <= j < |r.value| ==> Produces(converters[k + j], r.value[j])
    decreases |tokens| - k
  {
    if k == |tokens| then Ok([])
    else
      match Convert(converters[k], tokens[k])
      case Err(e) => Err(AtOperand(lineNo, k + 1, e))
      case Ok(v) =>
        match ConvertFrom(tokens, converters, k + 1, lineNo)
        case Err(e) => Err(e)
        case Ok(vs) => Ok([v] + vs)
  }

  /** One iteration of the `parse_program` loop, for physical line `lineNo`. */
  function CompileLine(st: CompilerState, raw: string, lineNo: int): Result<CompilerState, ParseError> {
    var cleaned := Strip(Lexer.StripComments(raw));
    if cleaned == "" then Ok(st)
    else
      match Lexer.Tokenize(cleaned)
      case Err(e) => Err(e)
      case Ok(tokens) =>
        if tokens == [] then Ok(st)
        else CompileTokens(st, tokens, lineNo)
  }

  /** The part of a line after tokenizing: declare its labels and emit an
      instruction if anything else remains. */
  function CompileTokens(st: CompilerState, tokens: seq<string>, lineNo: int): Result<CompilerState, ParseError> {
    match DeclareFrom(tokens, 0, lineNo, st.definedLabels, st.pending, [])
    case Err(e) => Err(e)
    case Ok((defined, pending, actual)) =>
      if actual == [] then Ok(CompilerState(st.instructions, pending, defined))
      else CompileInstruction(st.instructions, defined, pending, actual, lineNo)
  }

  /** The part of a line after its labels: look the opcode up, check the operand
      count, convert the operands and emit the instruction with the pending labels. */
  function CompileInstruction(instructions: seq<Instruction>, defined: map<string, int>, pending: seq<(string, int)>,
                              actual: seq<string>, lineNo: int): Result<CompilerState, ParseError>
    requires actual != []
  {
    var opcode := actual[0];
    if opcode !in OPCODE_SPECS then Err(UnknownOpcode(opcode, lineNo))
    else
      var spec := OPCODE_SPECS[opcode];
      var operandTokens := actual[1..];
      if |operandTokens| != |spec.operandParsers| then Err(WrongArity(opcode, lineNo, |spec.operandParsers|))
      else
        match ConvertFrom(operandTokens, spec.operandParsers, 0, lineNo)
        case Err(e) => Err(e)
        case Ok(operands) =>
          var instr := Instruction(opcode, operands, Parser.PendingNames(pending), lineNo);
          Ok(CompilerState(instructions + [instr], [], defined))
  }

  /** What `parse_program` still does from line index `i` on. */
  ghost function CompileFrom(lines: seq<string>, i: nat, st: CompilerState): Result<seq<Instruction>, ParseError>
    requires i <= |lines|
    decreases |lines| - i
  {
    if i == |lines| then
      if |st.pending| > 0 then Err(DanglingAt(st.pending[0].0, st.pending[0].1))
      else
        match ValidateLabelReferencesSpec(st.instructions)
        case Fail(e) => Err(e)
        case Pass => Ok(st.instructions)
    else
      match CompileLine(st, lines[i], i + 1)
      case Err(e) => Err(e)
      case Ok(next) => CompileFrom(lines, i + 1, next)
  }

  const EMPTY: CompilerState := CompilerState([], [], map[])

  /** `parse_program` over the lines of the source file (line numbers from 1). */
  ghost function ParseProgramSpec(lines: seq<string>): Result<seq<Instruction>, ParseError> {
    CompileFrom(lines, 0, EMPTY)
  }

  /** The `for token in tokens` loop of `parse_program`. */
  method DeclareLabels(tokens: seq<string>, lineNo: int, definedLabels: map<string, int>, pendingLabels: seq<(string, int)>)
    returns (r: Result<(map<string, int>, seq<(string, int)>, seq<string>), ParseError>)
    ensures r == DeclareFrom(tokens, 0, lineNo, definedLabels, pendingLabels, [])
  {
    var defined := definedLabels;
    var pending := pendingLabels;
    var actualTokens: seq<string> := [];
    for i := 0 to |tokens|
      invariant DeclareFrom(tokens, i, lineNo, defined, pending, actualTokens) ==
                DeclareFrom(tokens, 0, lineNo, definedLabels, pendingLabels, [])
    {
      var token := tokens[i];
      if EndsWithColon(token) {
        var name := token[..|token| - 1];
        if !MatchesLabelPattern(name) {
          return Err(InvalidLabel(name, lineNo));
        }
        if name in defined {
          return Err(LabelRedefined(name, lineNo, defined[name]));
        }
        defined := defined[name := lineNo];
        pending := pending + [(name, lineNo)];
      } else {
        actualTokens := actualTokens + [token];
      }
    }
    return Ok((defined, pending, actualTokens));
  }

  function Prepend(front: seq<Value>, r: Result<seq<Value>, ParseError>): Result<seq<Value>, ParseError> {
    match r
    case Err(e) => Err(e)
    case Ok(vs) => Ok(front + vs)
  }

  /** The `for idx, (token, converter) in enumerate(zip(...), start=1)` loop. */
  method ConvertOperands(operandTokens: seq<string>, converters: seq<Converter>, lineNo: int)
    returns (r: Result<seq<Value>, ParseError>)
    requires |operandTokens| == |converters|
    ensures r == ConvertFrom(operandTokens, converters, 0, lineNo)
  {
    var operands: seq<Value> := [];
    ghost var all := ConvertFrom(operandTokens, converters, 0, lineNo);
    if all.Ok? {
      assert [] + all.value == all.value;
    }
    for k := 0 to |operandTokens|
      invariant |operands| == k
      invariant ConvertFrom(operandTokens, converters, 0, lineNo) == Prepend(operands, ConvertFrom(operandTokens, converters, k, lineNo))
    {
      var converted := Convert(converters[k], operandTokens[k]);
      if converted.Err? {
        return Err(AtOperand(lineNo, k + 1, converted.error));
      }
      var rest := ConvertFrom(operandTokens, converters, k + 1, lineNo);
      if rest.Ok? {
        assert operands + ([converted.value] + rest.value) == operands + [converted.value] + rest.value;
      }
      operands := operands + [converted.value];
    }
    assert operands + [] == operands;
    return Ok(operands);
  }

  /** One pass of the `parse_program` loop body over physical line `lineNo`. */
  method CompileSourceLine(st: CompilerState, raw: string, lineNo: int) returns (r: Result<CompilerState, ParseError>)
    ensures r == CompileLine(st, raw, lineNo)
  {
    var stripped := StripComments(raw);
    var cleaned := Strip(stripped);
    if cleaned == "" {
      return Ok(st);
    }
    var tokens :- Lexer.Tokenize(cleaned);
    if tokens == [] {
      return Ok(st);
    }
    var declared :- DeclareLabels(tokens, lineNo, st.definedLabels, st.pending);
    var defined, pending, actualTokens := declared.0, declared.1, declared.2;
    if actualTokens == [] {
      return Ok(CompilerState(st.instructions, pending, defined));
    }
    var opcode := actualTokens[0];
    if opcode !in OPCODE_SPECS {
      return Err(UnknownOpcode(opcode, lineNo));
    }
    var spec := OPCODE_SPECS[opcode];
    var operandTokens := actualTokens[1..];
    if |operandTokens| != |spec.operandParsers| {
      return Err(WrongArity(opcode, lineNo, |spec.operandParsers|));
    }
    var operands :- ConvertOperands(operandTokens, spec.operandParsers, lineNo);
    var instructionLabels := Parser.PendingNames(pending);
    return Ok(CompilerState(st.instructions + [Instruction(opcode, operands, instructionLabels, lineNo)], [], defined));
  }

  method ParseProgram(lines: seq<string>) returns (r: Result<seq<Instruction>, ParseError>)
    ensures r == ParseProgramSpec(lines)
  {
    var st := EMPTY;
    for i := 0 to |lines|
      invariant SlotsHoldNames(st.instructions)
      invariant CompileFrom(lines, i, st) == ParseProgramSpec(lines)
    {
      CompileLineKeepsSlots(st, lines[i], i + 1);
      st :- CompileSourceLine(st, lines[i], i + 1);
    }
    if |st.pending| > 0 {
      return Err(DanglingAt(st.pending[0].0, st.pending[0].1));
    }
    var check := ValidateLabelReferences(st.instructions);
    if check.Fail? {
      return Err(check.error);
    }
    return Ok(st.instructions);
  }

  /** A line that compiles keeps every `label` operand of the instructions a name. */
  lemma CompileLineKeepsSlots(st: CompilerState, raw: string, lineNo: int)
    requires SlotsHoldNames(st.instructions)
    ensures var r := CompileLine(st, raw, lineNo); r.Ok? ==> SlotsHoldNames(r.value.instructions)
  {
    var cleaned := Strip(Lexer.StripComments(raw));
    if cleaned != "" && Lexer.Tokenize(cleaned).Ok? {
      var tokens := Lexer.Tokenize(cleaned).value;
      if tokens != [] {
        match DeclareFrom(tokens, 0, lineNo, st.definedLabels, st.pending, [])
        case Err(_) =>
        case Ok((defined, pending, actual)) =>
          if actual != [] {
            InstructionKeepsSlots(st.instructions, defined, pending, actual, lineNo);
          }
      }
    }
  }

  /** An emitted instruction has a known opcode and a name in each `label` slot. */
  lemma InstructionKeepsSlots(instructions: seq<Instruction>, defined: map<string, int>, pending: seq<(string, int)>,
                              actual: seq<string>, lineNo: int)
    requires actual != [] && SlotsHoldNames(instructions)
    ensures var r := CompileInstruction(instructions, defined, pending, actual, lineNo);
      r.Ok? ==> SlotsHoldNames(r.value.instructions)
  {
    var r := CompileInstruction(instructions, defined, pending, actual, lineNo);
    if r.Ok? {
      var last := r.value.instructions[|instructions|];
      assert r.value.instructions == instructions + [last];
      OpcodeSpecAgrees(last.opcode);
      OpcodeSpecsAgree();
      SlotsAppend(instructions, last);
    }
  }

  /** Appending an instruction whose `label` slots hold names keeps the property. */
  lemma SlotsAppend(instrs: seq<Instruction>, last: Instruction)
    requires SlotsHoldNames(instrs) && Parser.LabelSlotsHoldNames([AsProgramEntry(last)])
    ensures SlotsHoldNames(instrs + [last])
  {
    var before := ProgramEntries(instrs);
    var after := ProgramEntries(instrs + [last]);
    assert after == before + [AsProgramEntry(last)];
  }

  // ----- validate_label_references, build_label_index, program_payload -----

  /** `OPCODE_SPECS[instruction.opcode]` succeeds for every instruction and every
      operand in a `label` slot is a name. */
  predicate SlotsHoldNames(instrs: seq<Instruction>) {
    Parser.LabelSlotsHoldNames(ProgramEntries(instrs))
  }

  /** `validate_label_references(instructions)`: the same check as
      `validate_labels` on the instructions' dictionaries. */
  ghost function ValidateLabelReferencesSpec(instrs: seq<Instruction>): Outcome<ParseError> {
    Parser.ValidateLabelsSpec(ProgramEntries(instrs))
  }

  /** The label lists of the instructions, in order. */
  function InstructionLabels(instrs: seq<Instruction>): (lists: seq<seq<string>>)
    ensures lists == LabelLists(ProgramEntries(instrs))
  {
    seq(|instrs|, i requires 0 <= i < |instrs| => instrs[i].labels)
  }

  /** `build_label_index(instructions)`. */
  method BuildLabelIndex(instrs: seq<Instruction>) returns (index: map<string, int>)
    ensures index == LabelIndex(InstructionLabels(instrs))
  {
    index := map[];
    for idx := 0 to |instrs|
      invariant index == LabelIndex(InstructionLabels(instrs[..idx]))
    {
      assert InstructionLabels(instrs[..idx + 1])[..idx] == InstructionLabels(instrs[..idx]);
      var labels := instrs[idx].labels;
      ghost var before := index;
      for j := 0 to |labels|
        invariant index == AddLabels(before, labels[..j], idx)
      {
        assert labels[..j + 1][..j] == labels[..j];
        index := index[labels[j] := idx];
      }
      assert labels[..|labels|] == labels;
    }
    assert instrs[..|instrs|] == instrs;
  }

  /** The operand kinds of one opcode are the same in both tables. */
  lemma OpcodeSpecAgrees(op: string)
    requires op in Parser.OPCODE_TABLE
    ensures op in OPCODE_SPECS && OPCODE_SPECS[op].operandKinds == Parser.OPCODE_TABLE[op]
  {
    OpcodeSpecsAgree();
  }

  /** The inner `for` loop of `validate_label_references`: the names in the
      instruction's `label` slots. */
  method SlotLabels(instruction: Instruction) returns (refs: set<string>)
    requires Parser.LabelSlotsHoldNames([AsProgramEntry(instruction)])
    ensures instruction.opcode in Parser.OPCODE_TABLE
    ensures refs == Parser.SlotRefs(AsProgramEntry(instruction), Parser.Arity(AsProgramEntry(instruction)))
  {
    ghost var e := AsProgramEntry(instruction);
    assert [e][0] == e;
    OpcodeSpecAgrees(instruction.opcode);
    var kinds := OPCODE_SPECS[instruction.opcode].operandKinds;
    var n := if |kinds| < |instruction.operands| then |kinds| else |instruction.operands|;
    refs := {};
    for k := 0 to n
      invariant refs == Parser.SlotRefs(e, k)
    {
      if kinds[k] == "label" {
        refs := refs + {instruction.operands[k].s};
      }
    }
  }

  method ValidateLabelReferences(instrs: seq<Instruction>) returns (r: Outcome<ParseError>)
    requires SlotsHoldNames(instrs)
    ensures r == ValidateLabelReferencesSpec(instrs)
  {
    ghost var entries := ProgramEntries(instrs);
    var defined := BuildLabelIndex(instrs);
    var referenced: set<string> := {};
    for i := 0 to |instrs|
      invariant referenced == Parser.Referenced(entries[..i])
    {
      Parser.ReferencedSnoc(entries, i);
      Parser.SlotsAt(entries, i);
      var refs := SlotLabels(instrs[i]);
      referenced := referenced + refs;
    }
    assert entries[..|instrs|] == entries;
    var missing := referenced - defined.Keys;
    if missing != {} {
      var names := SortStrings(missing);
      return Fail(Undefined(names));
    }
    return Pass;
  }

  /** `program_payload(instructions)`: the JSON document, which has the same form as
      the one compiler/parser.py prints for the same instruction dictionaries. */
  function ProgramPayload(instrs: seq<Instruction>): (p: Parser.Payload)
    ensures p == Parser.BuildPayload(ProgramEntries(instrs))
    ensures p.instructionCount == |instrs|
    ensures forall i :: 0 <= i < |instrs| ==>
      p.instructions[i].op == instrs[i].opcode && p.instructions[i].args == instrs[i].operands &&
      (p.instructions[i].labels.Some? <==> instrs[i].labels != [])
  {
    Parser.Payload(ProgramEntries(instrs), LabelIndex(InstructionLabels(instrs)), |instrs|)
  }

  // ----- the two label grammars -----

  /** Every name `LABEL_PATTERN` accepts without the newline allowance is also a
      valid label name for compiler/parser.py. */
  lemma PatternImpliesParserGrammar(s: string)
    requires MatchesLabelPattern(s) && '\n' !in s
    ensures Parser.ValidLabelName(s)
  {
    assert |s| > 0 ==> s[|s| - 1] in s;
  }

  /** The grammars differ: compiler/parser.py accepts a label that starts with `.`,
      compiler/compiler.py does not. */
  lemma GrammarsDiffer()
    ensures Parser.ValidLabelName(".loop") && !MatchesLabelPattern(".loop")
  {
    assert ".loop"[0] == '.';
  }

  /** The parser's half of the Unicode counterexample: `café` is not a valid label for
      compiler/parser.py, although Python's `LABEL_PATTERN` (Unicode `\w`) matches it. */
  lemma UnicodeLabelRejected()
    ensures !Parser.ValidLabelName("caf\U{00E9}")
  {
    assert "caf\U{00E9}"[3] == '\U{00E9}' && !Parser.IsLabelChar('\U{00E9}');
  }

  // ----- the label declaration loop -----

  lemma {:induction false} DeclareFromCharacterized(tokens: seq<string>, i: nat, lineNo: int, defined: map<string, int>,
                                                    pending: seq<(string, int)>, actual: seq<string>)
    requires i <= |tokens|
    ensures DeclareOutcome(tokens, i, lineNo, defined, pending, actual)
    decreases |tokens| - i, 1
  {
    if i == |tokens| {
      assert tokens[i..] == [];
      assert pending + [] == pending && actual + [] == actual;
    } else {
      var token := tokens[i];
      assert tokens[i..][0] == token && tokens[i..][1..] == tokens[i + 1..];
      if EndsWithColon(token) {
        DeclareColonStep(tokens, i, lineNo, defined, pending, actual);
      } else {
        assert Parser.DeclaredLabels(tokens[i..]) == Parser.DeclaredLabels(tokens[i + 1..]);
        DeclareFromCharacterized(tokens, i + 1, lineNo, defined, pending, actual + [token]);
        assert actual + [token] + Parser.PayloadTokens(tokens[i + 1..]) == actual + Parser.PayloadTokens(tokens[i..]);
      }
    }
  }

  /** The declaration loop from token `i` on succeeds exactly when the labels the
      remaining tokens declare all match the pattern, are distinct and were not
      declared before; it then appends them, tagged with the line, to the pending
      labels, marks them declared, and keeps the other tokens in order. */
  ghost predicate DeclareOutcome(tokens: seq<string>, i: nat, lineNo: int, defined: map<string, int>,
                                 pending: seq<(string, int)>, actual: seq<string>)
    requires i <= |tokens|
  {
    var r := DeclareFrom(tokens, i, lineNo, defined, pending, actual);
    var declared := Parser.DeclaredLabels(tokens[i..]);
    (r.Ok? <==>
      (forall l :: l in declared ==> MatchesLabelPattern(l)) && Distinct(declared) &&
      forall l :: l in declared ==> l !in defined) &&
    (r.Ok? ==>
      r.value.1 == pending + Parser.Tagged(declared, lineNo) &&
      r.value.2 == actual + Parser.PayloadTokens(tokens[i..]) &&
      forall l :: l in r.value.0 <==> l in defined || l in declared)
  }

  lemma {:induction false} DeclareColonStep(tokens: seq<string>, i: nat, lineNo: int, defined: map<string, int>,
                                            pending: seq<(string, int)>, actual: seq<string>)
    requires i < |tokens| && EndsWithColon(tokens[i])
    ensures DeclareOutcome(tokens, i, lineNo, defined, pending, actual)
    decreases |tokens| - i, 0
  {
    var token := tokens[i];
    var name := token[..|token| - 1];
    assert tokens[i..][0] == token && tokens[i..][1..] == tokens[i + 1..];
    var declared := Parser.DeclaredLabels(tokens[i..]);
    var rest := Parser.DeclaredLabels(tokens[i + 1..]);
    assert declared == [name] + rest;
    assert name in declared;
    assert Parser.PayloadTokens(tokens[i..]) == Parser.PayloadTokens(tokens[i + 1..]);
    if MatchesLabelPattern(name) && name !in defined {
      var defined' := defined[name := lineNo];
      DeclareFromCharacterized(tokens, i + 1, lineNo, defined', pending + [(name, lineNo)], actual);
      assert Parser.Tagged(declared, lineNo) == [(name, lineNo)] + Parser.Tagged(rest, lineNo);
      assert pending + [(name, lineNo)] + Parser.Tagged(rest, lineNo) == pending + Parser.Tagged(declared, lineNo);
      DistinctCons(name, rest);
    }
  }


  // ----- agreement with compiler/parser.py -----

  /** How the loop variables of the two `parse_program`s relate after the same lines:
      the same instructions and pending labels, and `defined_labels` holds exactly
      the labels the other front end has recorded or holds pending. */
  ghost predicate Corresponds(c: CompilerState, p: Parser.ParserState) {
    var names := Parser.PendingNames(c.pending);
    p.instructions == ProgramEntries(c.instructions) && p.pending == c.pending &&
    p.labelIndex.Keys == p.labelLine.Keys && Distinct(names) &&
    (forall l :: l in names ==> l !in p.labelIndex) &&
    (forall l :: l in c.definedLabels <==> l in p.labelIndex || l in names)
  }

  /** An operand the compiler's converter accepts is accepted, with the same value, by
      `parse_operand` for the kind of its slot. */
  lemma {:induction false} ConvertAgrees(tokens: seq<string>, converters: seq<Converter>, kinds: seq<string>, k: nat, lineNo: int)
    requires |tokens| == |converters| == |kinds| && k <= |tokens|
    requires forall j :: 0 <= j < |kinds| ==>
      converters[j] == ConverterFor(kinds[j]) && (kinds[j] == "int" || kinds[j] == "label" || kinds[j] == "string")
    requires forall t :: t in tokens ==> '\n' !in t
    ensures var r := ConvertFrom(tokens, converters, k, lineNo);
      r.Ok? ==> Parser.ParseOperands(tokens[k..], kinds[k..]) == r
    decreases |tokens| - k
  {
    if k < |tokens| {
      var token := tokens[k];
      assert token in tokens;
      assert tokens[k..][0] == token && tokens[k..][1..] == tokens[k + 1..];
      assert kinds[k..][0] == kinds[k] && kinds[k..][1..] == kinds[k + 1..];
      if kinds[k] == "label" && MatchesLabelPattern(token) {
        PatternImpliesParserGrammar(token);
      }
      ConvertAgrees(tokens, converters, kinds, k + 1, lineNo);
    }
  }

  /** Where the compiler emits an instruction, compiler/parser.py emits its dictionary. */
  lemma InstructionAgrees(c: CompilerState, p: Parser.ParserState, defined: map<string, int>,
                          pending: seq<(string, int)>, actual: seq<string>, lineNo: int)
    requires p.instructions == ProgramEntries(c.instructions) && p.labelIndex.Keys == p.labelLine.Keys
    requires Distinct(Parser.PendingNames(pending)) && forall l :: l in Parser.PendingNames(pending) ==> l !in p.labelIndex
    requires forall l :: l in defined <==> l in p.labelIndex || l in Parser.PendingNames(pending)
    requires actual != [] && forall t :: t in actual ==> '\n' !in t
    requires CompileInstruction(c.instructions, defined, pending, actual, lineNo).Ok?
    ensures var pr := Parser.EmitInstruction(p, pending, actual, lineNo);
      pr.Ok? && Corresponds(CompileInstruction(c.instructions, defined, pending, actual, lineNo).value, pr.value)
  {
    OpcodeSpecsAgree();
    var spec := OPCODE_SPECS[actual[0]];
    var operandTokens := actual[1..];
    forall t | t in operandTokens ensures '\n' !in t {
      assert t in actual;
    }
    ConvertAgrees(operandTokens, spec.operandParsers, spec.operandKinds, 0, lineNo);
    assert operandTokens[0..] == operandTokens && spec.operandKinds[0..] == spec.operandKinds;
    assert pending[0..] == pending;
    Parser.AttachFromSucceeds(pending, 0, p.labelIndex, p.labelLine, |p.instructions|, lineNo, []);
    Parser.AttachFromCharacterized(pending, 0, p.labelIndex, p.labelLine, |p.instructions|, lineNo, []);
    var names := Parser.PendingNames(pending);
    assert [] + names == names;
    var instr := CompileInstruction(c.instructions, defined, pending, actual, lineNo).value.instructions[|c.instructions|];
    assert ProgramEntries(c.instructions + [instr]) == ProgramEntries(c.instructions) + [AsProgramEntry(instr)];
  }

  /** The label half of a line: where the compiler's declaration loop succeeds,
      `split_labels` succeeds with the same labels and the same payload, and the
      pending names grow by exactly those labels. */
  lemma DeclareAgrees(c: CompilerState, tokens: seq<string>, lineNo: int)
    requires (forall t :: t in tokens ==> '\n' !in t) && DeclareFrom(tokens, 0, lineNo, c.definedLabels, c.pending, []).Ok?
    ensures var r := DeclareFrom(tokens, 0, lineNo, c.definedLabels, c.pending, []).value;
      var declared := Parser.DeclaredLabels(tokens);
      Parser.SplitLabelsSpec(tokens, lineNo) == Ok((declared, r.2)) && (forall t :: t in r.2 ==> '\n' !in t) &&
      r.1 == c.pending + Parser.Tagged(declared, lineNo) &&
      Distinct(declared) && (forall l :: l in declared ==> l !in c.definedLabels) &&
      (forall l :: l in r.0 <==> l in c.definedLabels || l in declared)
  {
    DeclareFromCharacterized(tokens, 0, lineNo, c.definedLabels, c.pending, []);
    assert tokens[0..] == tokens;
    var declared := Parser.DeclaredLabels(tokens);
    Parser.SplitPartsHaveNoNewline(tokens);
    forall l | l in declared ensures Parser.ValidLabelName(l) {
      PatternImpliesParserGrammar(l);
    }
    Parser.SplitLabelsCharacterized(tokens, lineNo);
    assert [] + Parser.PayloadTokens(tokens) == Parser.PayloadTokens(tokens);
  }

  /** The names of pending labels extended by a line's labels. */
  lemma PendingNamesTagged(pending: seq<(string, int)>, declared: seq<string>, lineNo: int)
    ensures Parser.PendingNames(pending + Parser.Tagged(declared, lineNo)) == Parser.PendingNames(pending) + declared
  {
  }

  /** Where the compiler accepts the tokens of a line, compiler/parser.py accepts
      them too, and the loop variables keep corresponding. */
  lemma TokensAgree(c: CompilerState, p: Parser.ParserState, tokens: seq<string>, lineNo: int)
    requires Corresponds(c, p) && (forall t :: t in tokens ==> '\n' !in t) && CompileTokens(c, tokens, lineNo).Ok?
    ensures Parser.ParseTokens(p, tokens, lineNo).Ok? &&
      Corresponds(CompileTokens(c, tokens, lineNo).value, Parser.ParseTokens(p, tokens, lineNo).value)
  {
    DeclareAgrees(c, tokens, lineNo);
    var declared := Parser.DeclaredLabels(tokens);
    PendingNamesTagged(c.pending, declared, lineNo);
    DistinctAppend(Parser.PendingNames(c.pending), declared);
    var r := DeclareFrom(tokens, 0, lineNo, c.definedLabels, c.pending, []).value;
    if r.2 != [] {
      var names := Parser.PendingNames(r.1);
      assert Distinct(names) && forall l :: l in names ==> l !in p.labelIndex;
      assert forall l :: l in r.0 <==> l in p.labelIndex || l in names;
      InstructionAgrees(c, p, r.0, r.1, r.2, lineNo);
    }
  }

  /** Where the compiler accepts a line, compiler/parser.py accepts it too, and the
      loop variables keep corresponding. */
  lemma CompileLineAgrees(c: CompilerState, p: Parser.ParserState, raw: string, lineNo: int)
    requires Corresponds(c, p) && '\n' !in raw && CompileLine(c, raw, lineNo).Ok?
    ensures Parser.ParseLine(p, raw, lineNo).Ok? && Corresponds(CompileLine(c, raw, lineNo).value, Parser.ParseLine(p, raw, lineNo).value)
  {
    var cleaned := Strip(Lexer.StripComments(raw));
    Lexer.CleanedHasNoNewline(raw);
    if cleaned != "" {
      Lexer.TokensHaveNoNewline(cleaned);
      var tokens := Lexer.Tokenize(cleaned).value;
      if tokens != [] {
        TokensAgree(c, p, tokens, lineNo);
      }
    }
  }

  lemma {:induction false} CompileFromAgrees(lines: seq<string>, i: nat, c: CompilerState, p: Parser.ParserState)
    requires i <= |lines| && Corresponds(c, p)
    requires forall k :: 0 <= k < |lines| ==> '\n' !in lines[k]
    ensures var r := CompileFrom(lines, i, c);
      r.Ok? ==> Parser.ParseFrom(lines, i, p) == Ok(ProgramEntries(r.value))
    decreases |lines| - i
  {
    if i == |lines| {
      EndAgrees(lines, c, p);
    } else {
      var cr := CompileLine(c, lines[i], i + 1);
      if cr.Ok? {
        CompileLineAgrees(c, p, lines[i], i + 1);
        var pr := Parser.ParseLine(p, lines[i], i + 1);
        CompileFromAgrees(lines, i + 1, cr.value, pr.value);
      }
    }
  }

  /** After the last line both front ends run the same dangling-label check and the
      same label validation over corresponding instructions. */
  lemma EndAgrees(lines: seq<string>, c: CompilerState, p: Parser.ParserState)
    requires p.instructions == ProgramEntries(c.instructions) && p.pending == c.pending
    requires p.labelIndex.Keys == p.labelLine.Keys
    ensures var r := CompileFrom(lines, |lines|, c);
      r.Ok? ==> Parser.ParseFrom(lines, |lines|, p) == Ok(ProgramEntries(r.value))
  {
  }

  /** Every program without a `\n` inside a line and whose labels are ASCII that
      compiler/compiler.py accepts, compiler/parser.py accepts as well, with the same
      instruction dictionaries. The ASCII restriction comes from `IsWordChar`: Python's
      `\w` also accepts Unicode word characters, so compiler/compiler.py accepts
      `café: QUIET`, which compiler/parser.py rejects (`UnicodeLabelRejected`).
      The converse fails too: see `GrammarsDiffer`. */
  lemma CompilerAgreesWithParser(lines: seq<string>)
    requires forall k :: 0 <= k < |lines| ==> '\n' !in lines[k]
    ensures ParseProgramSpec(lines).Ok? ==> Parser.ParseProgramSpec(lines) == Ok(ProgramEntries(ParseProgramSpec(lines).value))
  {
    CompileFromAgrees(lines, 0, EMPTY, Parser.START);
  }

  /** What compiler/compiler.py's `parse_program` promises about the instructions it
      returns: a known opcode with one operand of the converter's type per slot, line
      numbers increasing within the file, no label attached twice, and every label
      operand the name of an attached label. */
  lemma CompilerGuarantees(lines: seq<string>, instrs: seq<Instruction>)
    requires forall k :: 0 <= k < |lines| ==> '\n' !in lines[k]
    requires ParseProgramSpec(lines) == Ok(instrs)
    ensures forall k :: 0 <= k < |instrs| ==>
      instrs[k].opcode in OPCODE_SPECS &&
      |instrs[k].operands| == |OPCODE_SPECS[instrs[k].opcode].operandParsers| &&
      (forall j :: 0 <= j < |instrs[k].operands| ==> Produces(OPCODE_SPECS[instrs[k].opcode].operandParsers[j], instrs[k].operands[j])) &&
      1 <= instrs[k].line <= |lines|
    ensures forall a, b :: 0 <= a < b < |instrs| ==> instrs[a].line < instrs[b].line
    ensures Parser.LabelsUnique(ProgramEntries(instrs))
    ensures forall k, name :: 0 <= k < |instrs| && Parser.RefersTo(AsProgramEntry(instrs[k]), name) ==>
      exists a :: 0 <= a < |instrs| && name in instrs[a].labels
  {
    CompilerAgreesWithParser(lines);
    var entries := ProgramEntries(instrs);
    Parser.ParseProgramGuarantees(lines, entries);
    forall k | 0 <= k < |instrs|
      ensures instrs[k].opcode in OPCODE_SPECS && |instrs[k].operands| == |OPCODE_SPECS[instrs[k].opcode].operandParsers|
      ensures forall j :: 0 <= j < |instrs[k].operands| ==> Produces(OPCODE_SPECS[instrs[k].opcode].operandParsers[j], instrs[k].operands[j])
      ensures 1 <= instrs[k].line <= |lines|
    {
      assert entries[k] == AsProgramEntry(instrs[k]);
      TypedInstruction(instrs[k]);
    }
    forall a, b | 0 <= a < b < |instrs| ensures instrs[a].line < instrs[b].line {
      assert entries[a].line < entries[b].line;
    }
    forall k, name | 0 <= k < |instrs| && Parser.RefersTo(AsProgramEntry(instrs[k]), name)
      ensures exists a :: 0 <= a < |instrs| && name in instrs[a].labels
    {
      assert Parser.RefersTo(entries[k], name);
      CarriedLabel(instrs, name);
    }
  }

  /** An instruction whose dictionary is well typed for compiler/parser.py has one
      operand of its converter's type per slot of its compiler/compiler.py spec. */
  lemma TypedInstruction(instr: Instruction)
    requires Parser.WellTyped(AsProgramEntry(instr))
    ensures instr.opcode in OPCODE_SPECS && |instr.operands| == |OPCODE_SPECS[instr.opcode].operandParsers|
    ensures forall j :: 0 <= j < |instr.operands| ==> Produces(OPCODE_SPECS[instr.opcode].operandParsers[j], instr.operands[j])
  {
    OpcodeSpecsAgree();
  }

  /** A label carried by some dictionary of the program is attached to that instruction. */
  lemma CarriedLabel(instrs: seq<Instruction>, name: string)
    requires Carried(LabelLists(ProgramEntries(instrs)), name)
    ensures exists a :: 0 <= a < |instrs| && name in instrs[a].labels
  {
    var lists := LabelLists(ProgramEntries(instrs));
    var a :| 0 <= a < |lists| && name in lists[a];
    assert name in instrs[a].labels;
  }
}
