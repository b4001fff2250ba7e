/** compiler/parser.py: the front end `main.py` uses. Each loop of the source is a
    method proved equal to a function that states the loop's remaining work; the
    lemmas at the end state what a successful parse guarantees. */
module Parser {
  import opened Results
  import opened Text
  import opened Syntax
  import Lexer

  /** Opcode name to the kinds of its operands, in order. */
  const OPCODE_TABLE: map<string, seq<string>> := map[
    "SIP" := [],
    "EMBER" := ["int"],
    "TWIST" := ["int"],
    "DRIFT" := ["label"],
    "GLINT.ZERO" := ["label"],
    "GLINT.POS" := ["label"],
    "FLASH" := ["string"],
    "QUIET" := []
  ]

  /** `ch in LABEL_CHARS`: the string of the 26 lower-case and 26 upper-case ASCII
      letters, the ten digits, `_`, `.` and `-`. */
  predicate IsLabelChar(c: char) {
    'a' <= c <= 'z' || 'A' <= c <= 'Z' || IsDigit(c) || c == '_' || c == '.' || c == '-'
  }

  /** The label grammar of this front end: non-empty, only characters of
      `LABEL_CHARS`, and not starting with a digit. */
  predicate ValidLabelName(raw: string) {
    |raw| > 0 && (forall i :: 0 <= i < |raw| ==> IsLabelChar(raw[i])) && !IsDigit(raw[0])
  }

  /** The value a converted operand of kind `kind` has: an `int` for `"int"`, a `str` otherwise. */
  predicate HasKind(v: Value, kind: string) {
    if kind == "int" then v.VInt? else v.VStr?
  }

  /** `parse_operand(raw, kind)`. */
  function ParseOperand(raw: string, kind: string): (r: Result<Value, ParseError>)
    ensures r.Ok? ==> HasKind(r.value, kind)
    ensures kind == "int" ==> (r.Ok? <==> IsIntLiteral(raw)) && (r.Err? ==> r.error == InvalidInteger(raw))
    ensures kind == "label" ==>
      (r.Ok? <==> ValidLabelName(raw)) && (r.Ok? ==> r.value == VStr(raw)) && (r.Err? ==> r.error == InvalidLabelName(raw))
    ensures kind == "string" ==>
      (r.Ok? <==> raw != "") && (r.Ok? ==> r.value == VStr(raw)) && (r.Err? ==> r.error == EmptyString)
    ensures kind != "int" && kind != "label" && kind != "string" ==> r == Err(UnsupportedKind(kind))
  {
    if kind == "int" then
      match ParseInt(raw)
      case Some(n) => Ok(VInt(n))
      case None => Err(InvalidInteger(raw))
    else if kind == "label" then
      if raw == "" || (exists i :: 0 <= i < |raw| && !IsLabelChar(raw[i])) || IsDigit(raw[0]) then
        Err(InvalidLabelName(raw))
      else Ok(VStr(raw))
    else if kind == "string" then
      if raw == "" then Err(EmptyString) else Ok(VStr(raw))
    else Err(UnsupportedKind(kind))
  }

  /** An `int` operand printed in decimal parses back to itself. */
  lemma ParseOperandShowInt(n: int)
    ensures ParseOperand(ShowInt(n), "int") == Ok(VInt(n))
  {
    ParseShowInt(n);
  }

  /** `[parse_operand(raw, kind) for raw, kind in zip(operands, kinds)]`: the first
      failing conversion is raised. */
  function ParseOperands(operands: seq<string>, kinds: seq<string>): (r: Result<seq<Value>, ParseError>)
    ensures r.Ok? ==> |r.value| == if |operands| < |kinds| then |operands| else |kinds|
    ensures r.Ok? ==> forall k :: 0 <= k < |r.value| ==> HasKind(r.value[k], kinds[k])
    decreases |operands|
  {
    if |operands| == 0 || |kinds| == 0 then Ok([])
    else
      match ParseOperand(operands[0], kinds[0])
      case Err(e) => Err(e)
      case Ok(v) =>
        match ParseOperands(operands[1..], kinds[1..])
        case Err(e) => Err(e)
        case Ok(vs) => Ok([v] + vs)
  }

  // ----- strip_comments -----

  /** The `for idx, char in enumerate(line)` loop of `strip_comments`. */
  method StripComments(line: string) returns (r: string)
    ensures r == Lexer.StripComments(line)
  {
    var inQuote := false;
    for idx := 0 to |line|
      invariant Lexer.CutFrom(line, idx, inQuote) == Lexer.CommentCut(line)
    {
      var ch := line[idx];
      if ch == '"' {
        inQuote := !inQuote;
        continue;
      }
      if inQuote {
        continue;
      }
      for m := 0 to |Lexer.COMMENT_MARKERS|
        invariant forall m' :: 0 <= m' < m ==> !StartsWithAt(line, Lexer.COMMENT_MARKERS[m'], idx)
      {
        if StartsWithAt(line, Lexer.COMMENT_MARKERS[m], idx) {
          return RStrip(line[..idx]);
        }
      }
    }
    return RStrip(line);
  }

  // ----- split_labels -----

  /** What the `split_labels` loop still does from token `i` on, having collected
      `labels` and `remainder`. */
  function SplitFrom(tokens: seq<string>, lineNo: int, i: nat, labels: seq<string>, remainder: seq<string>)
    : Result<(seq<string>, seq<string>), ParseError>
    requires i <= |tokens|
    decreases |tokens| - i
  {
    if i == |tokens| then Ok((labels, remainder))
    else
      var token := tokens[i];
      if EndsWithColon(token) then
        var name := token[..|token| - 1];
        if name == "" then Err(EmptyLabel(lineNo))
        else if !ValidLabelName(name) then Err(InvalidLabel(name, lineNo))
        else if name in labels then Err(RepeatedOnLine(name, lineNo))
        else SplitFrom(tokens, lineNo, i + 1, labels + [name], remainder)
      else SplitFrom(tokens, lineNo, i + 1, labels, remainder + [token])
  }

  /** `split_labels(tokens, line_no)`: the labels declared on the line and the other tokens. */
  function SplitLabelsSpec(tokens: seq<string>, lineNo: int): Result<(seq<string>, seq<string>), ParseError> {
    SplitFrom(tokens, lineNo, 0, [], [])
  }

  method SplitLabels(tokens: seq<string>, lineNo: int) returns (r: Result<(seq<string>, seq<string>), ParseError>)
    ensures r == SplitLabelsSpec(tokens, lineNo)
  {
    var labels: seq<string> := [];
    var remainder: seq<string> := [];
    var definedInLine: set<string> := {};
    for i := 0 to |tokens|
      invariant definedInLine == Elements(labels)
      invariant SplitFrom(tokens, lineNo, i, labels, remainder) == SplitLabelsSpec(tokens, lineNo)
    {
      var token := tokens[i];
      if EndsWithColon(token) {
        var name := token[..|token| - 1];
        if name == "" {
          return Err(EmptyLabel(lineNo));
        }
        if IsDigit(name[0]) || exists k :: 0 <= k < |name| && !IsLabelChar(name[k]) {
          return Err(InvalidLabel(name, lineNo));
        }
        if name in definedInLine {
          return Err(RepeatedOnLine(name, lineNo));
        }
        labels := labels + [name];
        definedInLine := definedInLine + {name};
      } else {
        remainder := remainder + [token];
      }
    }
    return Ok((labels, remainder));
  }

  // ----- parse_program -----

  /** The loop variables of `parse_program`. */
  datatype ParserState = ParserState(
    instructions: seq<Entry>,
    pending: seq<(string, int)>,
    labelIndex: map<string, int>,
    labelLine: map<string, int>)

  /** `(label, line_no) for label in labels`. */
  function Tagged(labels: seq<string>, lineNo: int): (r: seq<(string, int)>)
    ensures |r| == |labels| && forall k :: 0 <= k < |r| ==> r[k] == (labels[k], lineNo)
  {
    seq(|labels|, k requires 0 <= k < |labels| => (labels[k], lineNo))
  }

  /** What the `for label, defined_line in pending_labels` loop still does from
      position `j` on: record each label at instruction index `pos`, raising if it
      is already recorded. */
  function AttachFrom(pending: seq<(string, int)>, j: nat, index: map<string, int>, lines: map<string, int>,
                      pos: int, lineNo: int, attached: seq<string>)
    : (r: Result<(map<string, int>, map<string, int>, seq<string>), ParseError>)
    requires j <= |pending| && index.Keys == lines.Keys
    ensures r.Ok? ==> r.value.0.Keys == r.value.1.Keys
    decreases |pending| - j
  {
    if j == |pending| then Ok((index, lines, attached))
    else
      var (name, definedLine) := pending[j];
      if name in index then Err(LabelReused(name, lines[name], lineNo))
      else AttachFrom(pending, j + 1, index[name := pos], lines[name := definedLine], pos, lineNo, attached + [name])
  }

  /** The `for label, defined_line in pending_labels` loop of `parse_program`. */
  method AttachPending(pending: seq<(string, int)>, index: map<string, int>, lines: map<string, int>, pos: int, lineNo: int)
    returns (r: Result<(map<string, int>, map<string, int>, seq<string>), ParseError>)
    requires index.Keys == lines.Keys
    ensures r == AttachFrom(pending, 0, index, lines, pos, lineNo, [])
  {
    var labelIndex, labelLine := index, lines;
    var attached: seq<string> := [];
    for j := 0 to |pending|
      invariant labelIndex.Keys == labelLine.Keys
      invariant AttachFrom(pending, j, labelIndex, labelLine, pos, lineNo, attached) == AttachFrom(pending, 0, index, lines, pos, lineNo, [])
    {
      var (name, definedLine) := pending[j];
      if name in labelIndex {
        return Err(LabelReused(name, labelLine[name], lineNo));
      }
      labelIndex := labelIndex[name := pos];
      labelLine := labelLine[name := definedLine];
      attached := attached + [name];
    }
    return Ok((labelIndex, labelLine, attached));
  }

  /** The part of a line after its labels: look the opcode up, check the operand
      count, convert the operands, attach the pending labels and emit. */
  function EmitInstruction(st: ParserState, pending: seq<(string, int)>, payload: seq<string>, lineNo: int)
    : (r: Result<ParserState, ParseError>)
    requires payload != [] && st.labelIndex.Keys == st.labelLine.Keys
    ensures r.Ok? ==> r.value.labelIndex.Keys == r.value.labelLine.Keys
    ensures r.Ok? && LabelSlotsHoldNames(st.instructions) ==> LabelSlotsHoldNames(r.value.instructions)
  {
    var opcode := payload[0];
    if opcode !in OPCODE_TABLE then Err(UnknownOpcode(opcode, lineNo))
    else
      var kinds := OPCODE_TABLE[opcode];
      var operands := payload[1..];
      if |operands| != |kinds| then Err(WrongArity(opcode, lineNo, |kinds|))
      else
        match ParseOperands(operands, kinds)
        case Err(e) => Err(e)
        case Ok(args) =>
          match AttachFrom(pending, 0, st.labelIndex, st.labelLine, |st.instructions|, lineNo, [])
          case Err(e) => Err(e)
          case Ok((index, lines, attached)) =>
            var entry := Entry(opcode, args, lineNo, if attached == [] then None else Some(attached));
            Ok(ParserState(st.instructions + [entry], [], index, lines))
  }

  /** One iteration of the `parse_program` loop, for physical line `lineNo`. */
  function ParseLine(st: ParserState, raw: string, lineNo: int): (r: Result<ParserState, ParseError>)
    requires st.labelIndex.Keys == st.labelLine.Keys
    ensures r.Ok? ==> r.value.labelIndex.Keys == r.value.labelLine.Keys
    ensures r.Ok? && LabelSlotsHoldNames(st.instructions) ==> LabelSlotsHoldNames(r.value.instructions)
  {
    var clean := Strip(Lexer.StripComments(raw));
    if clean == "" then Ok(st)
    else
      match Lexer.Tokenize(clean)
      case Err(e) => Err(e)
      case Ok(tokens) =>
        if tokens == [] then Ok(st)
        else ParseTokens(st, tokens, lineNo)
  }

  /** The part of a line after tokenizing: split off the labels, which become
      pending, and emit an instruction if anything else remains. */
  function ParseTokens(st: ParserState, tokens: seq<string>, lineNo: int): (r: Result<ParserState, ParseError>)
    requires st.labelIndex.Keys == st.labelLine.Keys
    ensures r.Ok? ==> r.value.labelIndex.Keys == r.value.labelLine.Keys
    ensures r.Ok? && LabelSlotsHoldNames(st.instructions) ==> LabelSlotsHoldNames(r.value.instructions)
  {
    match SplitLabelsSpec(tokens, lineNo)
    case Err(e) => Err(e)
    case Ok((labels, payload)) =>
      var pending := st.pending + Tagged(labels, lineNo);
      if payload == [] then Ok(st.(pending := pending))
      else EmitInstruction(st, pending, payload, lineNo)
  }

  /** What `parse_program` still does from line index `i` on: the remaining lines,
      then the dangling-label check and `validate_labels`. */
  ghost function ParseFrom(lines: seq<string>, i: nat, st: ParserState): Result<seq<Entry>, ParseError>
    requires i <= |lines| && st.labelIndex.Keys == st.labelLine.Keys
    decreases |lines| - i
  {
    if i == |lines| then
      if |st.pending| > 0 then Err(Dangling(st.pending[0].0))
      else
        match ValidateLabelsSpec(st.instructions)
        case Fail(e) => Err(e)
        case Pass => Ok(st.instructions)
    else
      match ParseLine(st, lines[i], i + 1)
      case Err(e) => Err(e)
      case Ok(next) => ParseFrom(lines, i + 1, next)
  }

  const START: ParserState := ParserState([], [], map[], map[])

  /** `parse_program` over the lines of the source file (line numbers from 1). */
  ghost function ParseProgramSpec(lines: seq<string>): Result<seq<Entry>, ParseError> {
    ParseFrom(lines, 0, START)
  }

  /** One pass of the `parse_program` loop body over physical line `lineNo`. */
  method ParseSourceLine(st: ParserState, raw: string, lineNo: int) returns (r: Result<ParserState, ParseError>)
    requires st.labelIndex.Keys == st.labelLine.Keys
    ensures r == ParseLine(st, raw, lineNo)
  {
    var stripped := StripComments(raw);
    var clean := Strip(stripped);
    if clean == "" {
      return Ok(st);
    }
    var tokens :- Lexer.Tokenize(clean);
    if tokens == [] {
      return Ok(st);
    }
    var split :- SplitLabels(tokens, lineNo);
    var (labels, payload) := split;
    var pending := st.pending + Tagged(labels, lineNo);
    if payload == [] {
      return Ok(st.(pending := pending));
    }
    var opcode := payload[0];
    if opcode !in OPCODE_TABLE {
      return Err(UnknownOpcode(opcode, lineNo));
    }
    var kinds := OPCODE_TABLE[opcode];
    var operands := payload[1..];
    if |operands| != |kinds| {
      return Err(WrongArity(opcode, lineNo, |kinds|));
    }
    var parsedOperands :- ParseOperands(operands, kinds);
    var attachment :- AttachPending(pending, st.labelIndex, st.labelLine, |st.instructions|, lineNo);
    var (labelIndex, labelLine, attached) := attachment;
    var entry := Entry(opcode, parsedOperands, lineNo, if attached == [] then None else Some(attached));
    return Ok(ParserState(st.instructions + [entry], [], labelIndex, labelLine));
  }

  method ParseProgram(lines: seq<string>) returns (r: Result<seq<Entry>, ParseError>)
    ensures r == ParseProgramSpec(lines)
  {
    var st := START;
    for i := 0 to |lines|
      invariant st.labelIndex.Keys == st.labelLine.Keys
      invariant LabelSlotsHoldNames(st.instructions)
      invariant ParseFrom(lines, i, st) == ParseProgramSpec(lines)
    {
      st :- ParseSourceLine(st, lines[i], i + 1);
    }
    if |st.pending| > 0 {
      return Err(Dangling(st.pending[0].0));
    }
    var check := ValidateLabels(st.instructions);
    if check.Fail? {
      return Err(check.error);
    }
    return Ok(st.instructions);
  }

  // ----- validate_labels -----

  /** `OPCODE_TABLE[instr["op"]]` succeeds for every instruction, and every operand in
      a `label` position is a name. */
  predicate LabelSlotsHoldNames(instructions: seq<Entry>) {
    forall i :: 0 <= i < |instructions| ==>
      instructions[i].op in OPCODE_TABLE &&
      forall k :: (0 <= k < |instructions[i].args| && k < |OPCODE_TABLE[instructions[i].op]| &&
        OPCODE_TABLE[instructions[i].op][k] == "label") ==> instructions[i].args[k].VStr?
  }

  /** The names in the first `k` operand positions of `e` whose kind is `label`. */
  function SlotRefs(e: Entry, k: nat): set<string>
    requires e.op in OPCODE_TABLE
  {
    var kinds := OPCODE_TABLE[e.op];
    if k == 0 || k > |kinds| || k > |e.args| then {}
    else SlotRefs(e, k - 1) + (if kinds[k - 1] == "label" && e.args[k - 1].VStr? then {e.args[k - 1].s} else {})
  }

  function Arity(e: Entry): nat
    requires e.op in OPCODE_TABLE
  {
    if |e.args| < |OPCODE_TABLE[e.op]| then |e.args| else |OPCODE_TABLE[e.op]|
  }

  /** The name names the instructions reference. */
  function Referenced(instructions: seq<Entry>): set<string>
    requires LabelSlotsHoldNames(instructions)
  {
    if |instructions| == 0 then {}
    else
      var last := instructions[|instructions| - 1];
      Referenced(instructions[..|instructions| - 1]) + SlotRefs(last, Arity(last))
  }

  /** `validate_labels(instructions)`. */
  ghost function ValidateLabelsSpec(instructions: seq<Entry>): Outcome<ParseError> {
    if !LabelSlotsHoldNames(instructions) then Pass  // not reached from parse_program
    else
      var missing := Referenced(instructions) - LabelIndex(LabelLists(instructions)).Keys;
      if missing == {} then Pass else Fail(Undefined(SortedOf(missing)))
  }

  method ValidateLabels(instructions: seq<Entry>) returns (r: Outcome<ParseError>)
    requires LabelSlotsHoldNames(instructions)
    ensures r == ValidateLabelsSpec(instructions)
  {
    var labelIndex := LabelIndex(LabelLists(instructions));
    var referenced: set<string> := {};
    for i := 0 to |instructions|
      invariant referenced == Referenced(instructions[..i])
    {
      assert instructions[..i + 1][..i] == instructions[..i];
      var instr := instructions[i];
      var operandKinds := OPCODE_TABLE[instr.op];
      for k := 0 to Arity(instr)
        invariant referenced == Referenced(instructions[..i]) + SlotRefs(instr, k)
      {
        if operandKinds[k] == "label" {
          referenced := referenced + {instr.args[k].s};
        }
      }
    }
    assert instructions[..|instructions|] == instructions;
    var missing := referenced - labelIndex.Keys;
    if missing != {} {
      var names := SortStrings(missing);
      return Fail(Undefined(names));
    }
    return Pass;
  }

  // ----- build_payload -----

  datatype Payload = Payload(instructions: seq<Entry>, labels: map<string, int>, instructionCount: int)

  /** `build_payload(instructions)`: the JSON document the command line prints. */
  function BuildPayload(instructions: seq<Entry>): (p: Payload)
    ensures p.instructions == instructions && p.instructionCount == |instructions|
    ensures forall l :: l in p.labels ==> 0 <= p.labels[l] < |instructions| && l in LabelsOf(instructions[p.labels[l]])
    ensures forall i, l :: 0 <= i < |instructions| && l in LabelsOf(instructions[i]) ==> l in p.labels
  {
    var lists := LabelLists(instructions);
    LabelIndexCharacterized(lists);
    Payload(instructions, LabelIndex(lists), |instructions|)
  }

  // ----- what split_labels computes -----

  /** The names the tokens ending in `:` declare, colon removed, in order. */
  function DeclaredLabels(tokens: seq<string>): seq<string> {
    if |tokens| == 0 then []
    else (if EndsWithColon(tokens[0]) then [tokens[0][..|tokens[0]| - 1]] else []) + DeclaredLabels(tokens[1..])
  }

  /** The tokens that do not end in `:`, in order. */
  function PayloadTokens(tokens: seq<string>): seq<string> {
    if |tokens| == 0 then []
    else (if EndsWithColon(tokens[0]) then [] else [tokens[0]]) + PayloadTokens(tokens[1..])
  }

  lemma {:induction false} SplitFromCharacterized(tokens: seq<string>, lineNo: int, i: nat, labels: seq<string>, remainder: seq<string>)
    requires i <= |tokens| && Distinct(labels)
    ensures var r := SplitFrom(tokens, lineNo, i, labels, remainder);
      var declared := DeclaredLabels(tokens[i..]);
      (r.Ok? <==> (forall l :: l in declared ==> ValidLabelName(l)) && Distinct(labels + declared)) &&
      (r.Ok? ==> r.value == (labels + declared, remainder + PayloadTokens(tokens[i..])))
    decreases |tokens| - i
  {
    if i == |tokens| {
      assert tokens[i..] == [];
      assert labels + [] == labels && remainder + [] == remainder;
    } else {
      var token := tokens[i];
      assert tokens[i..][0] == token && tokens[i..][1..] == tokens[i + 1..];
      if EndsWithColon(token) {
        SplitColonStep(tokens, lineNo, i, labels, remainder);
      } else {
        assert DeclaredLabels(tokens[i..]) == DeclaredLabels(tokens[i + 1..]);
        SplitFromCharacterized(tokens, lineNo, i + 1, labels, remainder + [token]);
        assert remainder + [token] + PayloadTokens(tokens[i + 1..]) == remainder + PayloadTokens(tokens[i..]);
      }
    }
  }

  /** The step of `SplitFromCharacterized` at a token that declares a label. */
  lemma {:induction false} SplitColonStep(tokens: seq<string>, lineNo: int, i: nat, labels: seq<string>, remainder: seq<string>)
    requires i < |tokens| && Distinct(labels) && EndsWithColon(tokens[i])
    ensures var r := SplitFrom(tokens, lineNo, i, labels, remainder);
      var declared := DeclaredLabels(tokens[i..]);
      (r.Ok? <==> (forall l :: l in declared ==> ValidLabelName(l)) && Distinct(labels + declared)) &&
      (r.Ok? ==> r.value == (labels + declared, remainder + PayloadTokens(tokens[i..])))
    decreases |tokens| - i, 0
  {
    var token := tokens[i];
    var name := token[..|token| - 1];
    assert tokens[i..][0] == token && tokens[i..][1..] == tokens[i + 1..];
    var rest := DeclaredLabels(tokens[i + 1..]);
    var declared := DeclaredLabels(tokens[i..]);
    assert declared == [name] + rest;
    assert PayloadTokens(tokens[i..]) == PayloadTokens(tokens[i + 1..]);
    assert labels + declared == labels + [name] + rest;
    if name in labels {
      var k :| 0 <= k < |labels| && labels[k] == name;
      assert (labels + declared)[k] == (labels + declared)[|labels|];
    } else if ValidLabelName(name) {
      SplitFromCharacterized(tokens, lineNo, i + 1, labels + [name], remainder);
    } else {
      assert name in declared;
    }
  }

  /** `split_labels` succeeds exactly when every declared label is a valid name and no
      name is declared twice on the line; it then returns the declared names, colons
      removed, and the other tokens, each in their original order. */
  lemma SplitLabelsCharacterized(tokens: seq<string>, lineNo: int)
    ensures var r := SplitLabelsSpec(tokens, lineNo);
      var declared := DeclaredLabels(tokens);
      (r.Ok? <==> (forall l :: l in declared ==> ValidLabelName(l)) && Distinct(declared)) &&
      (r.Ok? ==> r.value == (declared, PayloadTokens(tokens)))
  {
    var declared := DeclaredLabels(tokens);
    var payload := PayloadTokens(tokens);
    assert tokens[0..] == tokens;
    assert [] + declared == declared && [] + payload == payload;
    SplitFromCharacterized(tokens, lineNo, 0, [], []);
  }

  // ----- what a successful parse_program guarantees -----

  /** The instruction names a known opcode and has one operand of the right kind per slot. */
  predicate WellTyped(e: Entry) {
    e.op in OPCODE_TABLE && |e.args| == |OPCODE_TABLE[e.op]| &&
    forall k :: 0 <= k < |e.args| ==> HasKind(e.args[k], OPCODE_TABLE[e.op][k])
  }

  /** No label is attached twice: neither twice to one instruction nor to two. */
  predicate LabelsUnique(instructions: seq<Entry>) {
    (forall i :: 0 <= i < |instructions| ==> Distinct(LabelsOf(instructions[i]))) &&
    forall i, j, l :: 0 <= i < j < |instructions| && l in LabelsOf(instructions[i]) ==> l !in LabelsOf(instructions[j])
  }

  /** What holds of the loop variables after the first `done` lines. */
  ghost predicate StateOk(st: ParserState, done: int) {
    var instructions := st.instructions;
    (forall i :: 0 <= i < |instructions| ==>
      WellTyped(instructions[i]) && 1 <= instructions[i].line <= done &&
      (instructions[i].labels.Some? ==> instructions[i].labels.value != [])) &&
    (forall i, j :: 0 <= i < j < |instructions| ==> instructions[i].line < instructions[j].line) &&
    LabelsUnique(instructions) &&
    (forall l :: l in st.labelIndex <==> Carried(LabelLists(instructions), l))
  }

  /** The names of the pending labels, in order. */
  function PendingNames(pending: seq<(string, int)>): (names: seq<string>)
    ensures |names| == |pending| && forall k :: 0 <= k < |pending| ==> names[k] == pending[k].0
  {
    seq(|pending|, k requires 0 <= k < |pending| => pending[k].0)
  }

  lemma {:induction false} AttachFromCharacterized(pending: seq<(string, int)>, j: nat, index: map<string, int>,
                                                   lines: map<string, int>, pos: int, lineNo: int, attached: seq<string>)
    requires j <= |pending| && index.Keys == lines.Keys
    requires Distinct(attached) && forall l :: l in attached ==> l in index
    ensures var r := AttachFrom(pending, j, index, lines, pos, lineNo, attached);
      var names := PendingNames(pending[j..]);
      r.Ok? ==>
        r.value.2 == attached + names && Distinct(r.value.2) &&
        (forall l :: l in names ==> l !in index) &&
        (forall l :: l in r.value.0 <==> l in index || l in names)
    decreases |pending| - j
  {
    var names := PendingNames(pending[j..]);
    if j == |pending| {
      assert names == [] && attached + [] == attached;
    } else {
      var name := pending[j].0;
      if name !in index {
        var rest := PendingNames(pending[j + 1..]);
        assert names == [name] + rest;
        assert name !in attached;
        assert Distinct(attached + [name]);
        AttachFromCharacterized(pending, j + 1, index[name := pos], lines[name := pending[j].1], pos, lineNo, attached + [name]);
        assert attached + [name] + rest == attached + names;
      }
    }
  }

  /** The attach loop succeeds when the names still pending are distinct and none is
      recorded yet. */
  lemma {:induction false} AttachFromSucceeds(pending: seq<(string, int)>, j: nat, index: map<string, int>,
                                              lines: map<string, int>, pos: int, lineNo: int, attached: seq<string>)
    requires j <= |pending| && index.Keys == lines.Keys
    requires Distinct(PendingNames(pending[j..])) && forall l :: l in PendingNames(pending[j..]) ==> l !in index
    ensures AttachFrom(pending, j, index, lines, pos, lineNo, attached).Ok?
    decreases |pending| - j
  {
    if j < |pending| {
      var name := pending[j].0;
      var names := PendingNames(pending[j..]);
      var rest := PendingNames(pending[j + 1..]);
      assert names == [name] + rest;
      DistinctCons(name, rest);
      assert name in names;
      AttachFromSucceeds(pending, j + 1, index[name := pos], lines[name := pending[j].1], pos, lineNo, attached + [name]);
    }
  }

  lemma CarriedAppend(instructions: seq<Entry>, e: Entry, l: string)
    ensures Carried(LabelLists(instructions + [e]), l) <==> Carried(LabelLists(instructions), l) || l in LabelsOf(e)
  {
    var before := LabelLists(instructions);
    var after := LabelLists(instructions + [e]);
    if Carried(after, l) && !(l in LabelsOf(e)) {
      var i :| 0 <= i < |after| && l in after[i];
      assert i < |instructions| && before[i] == after[i];
    }
    if Carried(before, l) {
      var i :| 0 <= i < |before| && l in before[i];
      assert after[i] == before[i];
    }
    if l in LabelsOf(e) {
      assert after[|instructions|] == LabelsOf(e);
    }
  }

  /** Appending an instruction that passed the checks of one line keeps `StateOk`. */
  lemma AppendPreserves(st: ParserState, entry: Entry, index: map<string, int>, lines: map<string, int>, lineNo: int)
    requires lineNo >= 1 && StateOk(st, lineNo - 1)
    requires WellTyped(entry) && entry.line == lineNo && (entry.labels.Some? ==> entry.labels.value != [])
    requires Distinct(LabelsOf(entry)) && forall l :: l in LabelsOf(entry) ==> l !in st.labelIndex
    requires forall l :: l in index <==> l in st.labelIndex || l in LabelsOf(entry)
    ensures StateOk(ParserState(st.instructions + [entry], [], index, lines), lineNo)
  {
    var old_ := st.instructions;
    var new_ := old_ + [entry];
    forall i | 0 <= i < |new_|
      ensures WellTyped(new_[i]) && 1 <= new_[i].line <= lineNo && (new_[i].labels.Some? ==> new_[i].labels.value != [])
    {
      if i < |old_| {
        assert new_[i] == old_[i];
      }
    }
    forall l ensures l in index <==> Carried(LabelLists(new_), l) {
      CarriedAppend(old_, entry, l);
    }
    AppendKeepsUnique(old_, entry);
  }

  /** An instruction whose labels are distinct and carried by no earlier instruction
      keeps every label attached once. */
  lemma AppendKeepsUnique(instructions: seq<Entry>, entry: Entry)
    requires LabelsUnique(instructions) && Distinct(LabelsOf(entry))
    requires forall l :: l in LabelsOf(entry) ==> !Carried(LabelLists(instructions), l)
    ensures LabelsUnique(instructions + [entry])
  {
    var new_ := instructions + [entry];
    forall i, j, l | 0 <= i < j < |new_| && l in LabelsOf(new_[i]) ensures l !in LabelsOf(new_[j]) {
      if j == |instructions| {
        assert Carried(LabelLists(instructions), l) by {
          assert LabelLists(instructions)[i] == LabelsOf(instructions[i]);
        }
      }
    }
  }

  lemma EmitPreserves(st: ParserState, pending: seq<(string, int)>, payload: seq<string>, lineNo: int)
    requires payload != [] && st.labelIndex.Keys == st.labelLine.Keys && lineNo >= 1 && StateOk(st, lineNo - 1)
    ensures var r := EmitInstruction(st, pending, payload, lineNo);
      r.Ok? ==> StateOk(r.value, lineNo)
  {
    var r := EmitInstruction(st, pending, payload, lineNo);
    if r.Ok? {
      var entry := EmitShape(st, pending, payload, lineNo);
      AppendPreserves(st, entry, r.value.labelIndex, r.value.labelLine, lineNo);
      assert r.value == ParserState(st.instructions + [entry], [], r.value.labelIndex, r.value.labelLine);
    }
  }

  /** What an emitted instruction is: a well-typed dictionary on this line for the
      payload's opcode and converted operands. Its labels, none repeated, are exactly
      the pending ones in order, none already attached, now added to the label map. */
  lemma EmitShape(st: ParserState, pending: seq<(string, int)>, payload: seq<string>, lineNo: int) returns (entry: Entry)
    requires payload != [] && st.labelIndex.Keys == st.labelLine.Keys
    requires EmitInstruction(st, pending, payload, lineNo).Ok?
    ensures var r := EmitInstruction(st, pending, payload, lineNo).value;
      r.instructions == st.instructions + [entry] && r.pending == [] &&
      payload[0] in OPCODE_TABLE && entry.op == payload[0] &&
      entry.args == ParseOperands(payload[1..], OPCODE_TABLE[payload[0]]).value &&
      LabelsOf(entry) == PendingNames(pending) &&
      WellTyped(entry) && entry.line == lineNo && (entry.labels.Some? ==> entry.labels.value != []) &&
      Distinct(LabelsOf(entry)) && (forall l :: l in LabelsOf(entry) ==> l !in st.labelIndex) &&
      (forall l :: l in r.labelIndex <==> l in st.labelIndex || l in LabelsOf(entry))
  {
    var opcode := payload[0];
    var args := ParseOperands(payload[1..], OPCODE_TABLE[opcode]).value;
    AttachedNames(st, pending, lineNo);
    var (index, lines, attached) := AttachFrom(pending, 0, st.labelIndex, st.labelLine, |st.instructions|, lineNo, []).value;
    entry := Entry(opcode, args, lineNo, if attached == [] then None else Some(attached));
    assert LabelsOf(entry) == attached;
  }

  /** Attaching the pending labels to a new instruction attaches each of them once,
      none already attached, and adds exactly them to the label map. */
  lemma AttachedNames(st: ParserState, pending: seq<(string, int)>, lineNo: int)
    requires st.labelIndex.Keys == st.labelLine.Keys
    ensures var r := AttachFrom(pending, 0, st.labelIndex, st.labelLine, |st.instructions|, lineNo, []);
      r.Ok? ==>
        r.value.2 == PendingNames(pending) &&
        Distinct(r.value.2) && (forall l :: l in r.value.2 ==> l !in st.labelIndex) &&
        (forall l :: l in r.value.0 <==> l in st.labelIndex || l in r.value.2)
  {
    assert pending[0..] == pending;
    assert [] + PendingNames(pending) == PendingNames(pending);
    AttachFromCharacterized(pending, 0, st.labelIndex, st.labelLine, |st.instructions|, lineNo, []);
  }

  /** The labels of a line go to the pending list. On a line holding only labels
      nothing is emitted and nothing else changes; otherwise the emitted instruction
      carries every pending label, in order, and none stays pending. */
  lemma ParseTokensLabels(st: ParserState, tokens: seq<string>, lineNo: int)
    requires st.labelIndex.Keys == st.labelLine.Keys
    ensures var r := ParseTokens(st, tokens, lineNo);
      var declared := DeclaredLabels(tokens);
      var pending := st.pending + Tagged(declared, lineNo);
      (r.Ok? ==> (forall l :: l in declared ==> ValidLabelName(l)) && Distinct(declared)) &&
      (PayloadTokens(tokens) == [] ==>
        (r.Ok? <==> (forall l :: l in declared ==> ValidLabelName(l)) && Distinct(declared)) &&
        (r.Ok? ==> r.value == st.(pending := pending))) &&
      (PayloadTokens(tokens) != [] && r.Ok? ==>
        r.value.pending == [] && |r.value.instructions| == |st.instructions| + 1 &&
        r.value.instructions[..|st.instructions|] == st.instructions &&
        var entry := r.value.instructions[|st.instructions|];
        entry.op == PayloadTokens(tokens)[0] && entry.line == lineNo && LabelsOf(entry) == PendingNames(pending))
  {
    SplitLabelsCharacterized(tokens, lineNo);
    var declared := DeclaredLabels(tokens);
    var payload := PayloadTokens(tokens);
    var pending := st.pending + Tagged(declared, lineNo);
    var r := ParseTokens(st, tokens, lineNo);
    if payload != [] && r.Ok? {
      var entry := EmitShape(st, pending, payload, lineNo);
      assert r.value.instructions[..|st.instructions|] == st.instructions;
    }
  }

  /** `strip()` removes Python's full whitespace set, so a `QUIET` followed by the
      unit separator `\x1f` (which `splitlines()` keeps) is still a `QUIET`. */
  lemma SeparatorIsStripped()
    ensures ParseLine(START, "QUIET\U{001F}", 1) == Ok(ParserState([Entry("QUIET", [], 1, None)], [], map[], map[]))
  {
    QuietCleaned();
    QuietTokens();
    QuietEmitted();
  }

  lemma QuietTokens()
    ensures Lexer.Tokenize("QUIET") == Ok(["QUIET"])
  {
    assert Lexer.PlainWord("QUIET");
    Lexer.TokenizeJoin(["QUIET"]);
    assert Lexer.JoinSpaces(["QUIET"]) == "QUIET";
  }

  lemma QuietCleaned()
    ensures Strip(Lexer.StripComments("QUIET\U{001F}")) == "QUIET"
  {
    var w := "QUIET";
    assert "QUIET\U{001F}" == w + ['\U{001F}'];
    assert forall i :: 0 <= i < |w| ==> w[i] != '/' && w[i] != '#' && w[i] != ';' && w[i] != '"';
    CleanedWord(w, '\U{001F}');
  }

  /** A word followed by one whitespace character, with no comment marker or quote in
      it, cleans to the word. */
  lemma CleanedWord(w: string, c: char)
    requires |w| > 0 && !IsSpace(w[0]) && !IsSpace(w[|w| - 1]) && IsSpace(c)
    requires forall i :: 0 <= i < |w| ==> w[i] != '/' && w[i] != '#' && w[i] != ';' && w[i] != '"'
    ensures Strip(Lexer.StripComments(w + [c])) == w
  {
    var raw := w + [c];
    Lexer.CutFromPlain(raw, 0, false);
    assert raw[..|raw|] == raw;
    assert raw[..|raw| - 1] == w;
  }

  lemma QuietEmitted()
    ensures ParseTokens(START, ["QUIET"], 1) == Ok(ParserState([Entry("QUIET", [], 1, None)], [], map[], map[]))
  {
    SplitLabelsCharacterized(["QUIET"], 1);
    assert ["QUIET"][1..] == [];
    assert DeclaredLabels(["QUIET"]) == [] && PayloadTokens(["QUIET"]) == ["QUIET"];
    assert SplitLabelsSpec(["QUIET"], 1) == Ok(([], ["QUIET"]));
    assert "QUIET" in OPCODE_TABLE && OPCODE_TABLE["QUIET"] == [];
    assert ParseOperands([], []) == Ok([]);
    assert AttachFrom([], 0, map[], map[], 0, 1, []) == Ok((map[], map[], []));
    assert START.pending + Tagged([], 1) == [];
    var entry := Entry("QUIET", [], 1, None);
    assert START.instructions + [entry] == [entry];
    assert EmitInstruction(START, [], ["QUIET"], 1) == Ok(ParserState([entry], [], map[], map[]));
  }

  lemma ParseLinePreserves(st: ParserState, raw: string, lineNo: int)
    requires st.labelIndex.Keys == st.labelLine.Keys && lineNo >= 1 && StateOk(st, lineNo - 1)
    ensures var r := ParseLine(st, raw, lineNo);
      r.Ok? ==> StateOk(r.value, lineNo)
  {
    var clean := Strip(Lexer.StripComments(raw));
    if clean != "" && Lexer.Tokenize(clean).Ok? && Lexer.Tokenize(clean).value != [] {
      ParseTokensPreserves(st, Lexer.Tokenize(clean).value, lineNo);
    } else {
      StateOkLater(st, lineNo - 1, lineNo);
    }
  }

  lemma ParseTokensPreserves(st: ParserState, tokens: seq<string>, lineNo: int)
    requires st.labelIndex.Keys == st.labelLine.Keys && lineNo >= 1 && StateOk(st, lineNo - 1)
    ensures var r := ParseTokens(st, tokens, lineNo);
      r.Ok? ==> StateOk(r.value, lineNo)
  {
    match SplitLabelsSpec(tokens, lineNo)
    case Err(_) =>
    case Ok((labels, payload)) =>
      var pending := st.pending + Tagged(labels, lineNo);
      if payload != [] {
        EmitPreserves(st, pending, payload, lineNo);
      } else {
        StateOkLater(st.(pending := pending), lineNo - 1, lineNo);
      }
  }

  /** The invariant with a later line number still holds. */
  lemma StateOkLater(st: ParserState, done: int, later: int)
    requires StateOk(st, done) && done <= later
    ensures StateOk(st, later)
  {
  }

  /** The instruction mentions `name` in a `label` operand slot. */
  predicate RefersTo(e: Entry, name: string) {
    e.op in OPCODE_TABLE &&
    exists k :: 0 <= k < |e.args| && k < |OPCODE_TABLE[e.op]| && OPCODE_TABLE[e.op][k] == "label" && e.args[k] == VStr(name)
  }

  lemma {:induction false} SlotRefsCharacterized(e: Entry, k: nat, name: string)
    requires e.op in OPCODE_TABLE && k <= Arity(e)
    ensures name in SlotRefs(e, k) <==>
      exists k' :: 0 <= k' < k && OPCODE_TABLE[e.op][k'] == "label" && e.args[k'] == VStr(name)
  {
    if k > 0 {
      SlotRefsCharacterized(e, k - 1, name);
    }
  }

  lemma LastRefers(e: Entry, name: string)
    requires e.op in OPCODE_TABLE
    ensures name in SlotRefs(e, Arity(e)) <==> RefersTo(e, name)
  {
    SlotRefsCharacterized(e, Arity(e), name);
  }

  lemma SlotsPrefix(instructions: seq<Entry>, n: nat)
    requires LabelSlotsHoldNames(instructions) && n <= |instructions|
    ensures LabelSlotsHoldNames(instructions[..n])
  {
    forall i | 0 <= i < n ensures instructions[..n][i] == instructions[i] {
    }
  }

  /** Some instruction refers to `name` exactly when one before the last does or the
      last does. */
  lemma RefersSplit(instructions: seq<Entry>, name: string)
    requires |instructions| > 0
    ensures var n := |instructions| - 1;
      (exists i :: 0 <= i < |instructions| && RefersTo(instructions[i], name)) <==>
      (exists i :: 0 <= i < n && RefersTo(instructions[..n][i], name)) || RefersTo(instructions[n], name)
  {
    var n := |instructions| - 1;
    if exists i :: 0 <= i < |instructions| && RefersTo(instructions[i], name) {
      var i :| 0 <= i < |instructions| && RefersTo(instructions[i], name);
      if i < n {
        assert instructions[..n][i] == instructions[i];
      }
    }
    if exists i :: 0 <= i < n && RefersTo(instructions[..n][i], name) {
      var i :| 0 <= i < n && RefersTo(instructions[..n][i], name);
      assert instructions[i] == instructions[..n][i];
    }
  }

  /** The names referenced by the first `i + 1` instructions. */
  lemma ReferencedSnoc(instructions: seq<Entry>, i: nat)
    requires LabelSlotsHoldNames(instructions) && i < |instructions|
    ensures LabelSlotsHoldNames(instructions[..i]) && LabelSlotsHoldNames(instructions[..i + 1])
    ensures instructions[i].op in OPCODE_TABLE
    ensures Referenced(instructions[..i + 1]) == Referenced(instructions[..i]) + SlotRefs(instructions[i], Arity(instructions[i]))
  {
    SlotsPrefix(instructions, i);
    SlotsPrefix(instructions, i + 1);
    assert instructions[..i + 1][..i] == instructions[..i];
  }

  /** One instruction on its own keeps names in its `label` slots. */
  lemma SlotsAt(instructions: seq<Entry>, i: nat)
    requires LabelSlotsHoldNames(instructions) && i < |instructions|
    ensures LabelSlotsHoldNames([instructions[i]])
  {
  }

  lemma {:induction false} ReferencedCharacterized(instructions: seq<Entry>, name: string)
    requires LabelSlotsHoldNames(instructions)
    ensures name in Referenced(instructions) <==> exists i :: 0 <= i < |instructions| && RefersTo(instructions[i], name)
    decreases |instructions|
  {
    if |instructions| > 0 {
      var n := |instructions| - 1;
      var front := instructions[..n];
      ReferencedLast(instructions, name);
      ReferencedCharacterized(front, name);
      RefersSplit(instructions, name);
    }
  }

  /** A name is referenced by a non-empty program exactly when the front references
      it or the last instruction refers to it. */
  lemma ReferencedLast(instructions: seq<Entry>, name: string)
    requires LabelSlotsHoldNames(instructions) && |instructions| > 0
    ensures LabelSlotsHoldNames(instructions[..|instructions| - 1])
    ensures name in Referenced(instructions) <==>
      name in Referenced(instructions[..|instructions| - 1]) || RefersTo(instructions[|instructions| - 1], name)
  {
    var n := |instructions| - 1;
    SlotsPrefix(instructions, n);
    LastRefers(instructions[n], name);
  }

  /** `validate_labels` passes exactly when every name used in a `label` slot is
      attached to some instruction; when it fails it lists, sorted and without
      repetition, exactly the names used but never attached. */
  lemma ValidateLabelsCharacterized(instructions: seq<Entry>)
    requires LabelSlotsHoldNames(instructions)
    ensures ValidateLabelsSpec(instructions).Pass? <==>
      forall i, name :: 0 <= i < |instructions| && RefersTo(instructions[i], name) ==> Carried(LabelLists(instructions), name)
    ensures ValidateLabelsSpec(instructions).Fail? ==>
      ValidateLabelsSpec(instructions).error.Undefined? &&
      var names := ValidateLabelsSpec(instructions).error.names;
      StrictlySorted(names) && |names| > 0 &&
      forall name :: name in names <==>
        (exists i :: 0 <= i < |instructions| && RefersTo(instructions[i], name)) && !Carried(LabelLists(instructions), name)
  {
    var lists := LabelLists(instructions);
    LabelIndexCharacterized(lists);
    forall name {
      ReferencedCharacterized(instructions, name);
    }
    var missing := Referenced(instructions) - LabelIndex(lists).Keys;
    if missing == {} {
      forall i, name | 0 <= i < |instructions| && RefersTo(instructions[i], name)
        ensures Carried(lists, name)
      {
        assert name in Referenced(instructions);
      }
    } else {
      var name :| name in missing;
      var i :| 0 <= i < |instructions| && RefersTo(instructions[i], name);
      assert !Carried(lists, name);
      assert name in SortedOf(missing) by {
        assert name in Elements(SortedOf(missing));
      }
      forall name | name in SortedOf(missing)
        ensures name in missing
      {
        assert name in Elements(SortedOf(missing));
      }
      forall name | name in missing
        ensures name in SortedOf(missing)
      {
        assert name in Elements(SortedOf(missing));
      }
    }
  }

  lemma {:induction false} ParseFromGuarantees(lines: seq<string>, i: nat, st: ParserState, entries: seq<Entry>)
    requires i <= |lines| && st.labelIndex.Keys == st.labelLine.Keys && StateOk(st, i)
    requires ParseFrom(lines, i, st) == Ok(entries)
    ensures forall k :: 0 <= k < |entries| ==>
      WellTyped(entries[k]) && 1 <= entries[k].line <= |lines| && (entries[k].labels.Some? ==> entries[k].labels.value != [])
    ensures forall a, b :: 0 <= a < b < |entries| ==> entries[a].line < entries[b].line
    ensures LabelsUnique(entries)
    ensures LabelSlotsHoldNames(entries) && ValidateLabelsSpec(entries) == Pass
    decreases |lines| - i
  {
    if i == |lines| {
      assert entries == st.instructions;
    } else {
      ParseLinePreserves(st, lines[i], i + 1);
      var next := ParseLine(st, lines[i], i + 1).value;
      ParseFromGuarantees(lines, i + 1, next, entries);
    }
  }

  /** What `parse_program` promises about the instructions it returns: each names a
      known opcode with operands of the right kinds, line numbers increase strictly
      and lie within the file, a `labels` key is present only with a non-empty list,
      no label is attached twice, and every label operand names an attached label. */
  lemma ParseProgramGuarantees(lines: seq<string>, entries: seq<Entry>)
    requires ParseProgramSpec(lines) == Ok(entries)
    ensures forall k :: 0 <= k < |entries| ==>
      WellTyped(entries[k]) && 1 <= entries[k].line <= |lines| && (entries[k].labels.Some? ==> entries[k].labels.value != [])
    ensures forall a, b :: 0 <= a < b < |entries| ==> entries[a].line < entries[b].line
    ensures LabelsUnique(entries)
    ensures forall k, name :: 0 <= k < |entries| && RefersTo(entries[k], name) ==> Carried(LabelLists(entries), name)
  {
    ParseFromGuarantees(lines, 0, START, entries);
    ValidateLabelsCharacterized(entries);
  }

  /** On parsed instructions, the payload's label map sends each label to the one
      instruction that carries it. */
  lemma PayloadLabelsExact(instructions: seq<Entry>, i: int, l: string)
    requires LabelsUnique(instructions) && 0 <= i < |instructions| && l in LabelsOf(instructions[i])
    ensures l in BuildPayload(instructions).labels && BuildPayload(instructions).labels[l] == i
  {
    var lists := LabelLists(instructions);
    forall j | 0 <= j < |lists| && j != i ensures l !in lists[j] {
      if j < i {
        assert l !in LabelsOf(instructions[i]) || l !in LabelsOf(instructions[j]);
      }
    }
    LabelIndexOfDistinct(lists, i, l);
  }

  /** Splitting the tokens of a line moves no `\n` into a label or payload token. */
  lemma {:induction false} SplitPartsHaveNoNewline(tokens: seq<string>)
    requires forall t :: t in tokens ==> '\n' !in t
    ensures forall l :: l in DeclaredLabels(tokens) ==> '\n' !in l
    ensures forall t :: t in PayloadTokens(tokens) ==> '\n' !in t
  {
    if |tokens| > 0 {
      assert tokens[0] in tokens;
      SplitPartsHaveNoNewline(tokens[1..]);
    }
  }
}
