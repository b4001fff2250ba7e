# Aventa toolchain and Banker's algorithm, modelled in Dafny

This project models two small Python systems and proves properties of the models.

**The Aventa toolchain** turns an `.av` source file into a running program:

- `compiler/parser.py` splits each line into labels and an instruction. It checks operands against `OPCODE_TABLE` and checks label references. It returns instruction dictionaries `{"op", "args", "line", "labels"?}`.
- `compiler/assembler.py` builds the label table.
- `compiler/linker.py` replaces each label operand by the index of its instruction.
- `compiler/runtime.py` runs the result on a stack machine with the opcodes `SIP`, `EMBER`, `TWIST`, `DRIFT`, `GLINT.ZERO`, `GLINT.POS`, `FLASH` and `QUIET`.
- `main.py` chains the four stages and reports the first one that fails.
- `compiler/compiler.py` is a second, stand-alone front end. It has `Instruction` objects, `OpcodeSpec` converters and a regular-expression label grammar. The model relates it to `compiler/parser.py`: for programs whose labels are ASCII, every program it accepts, `compiler/parser.py` accepts too, with the same dictionaries. With Unicode labels the two real front ends disagree (see "## Left out").

**The Banker's algorithm** (`deadlock_prevention/bankers/`) has these parts:

- `SystemState` holds the Max and Allocation matrices and the Available vector.
- `BankersAlgorithm.is_safe_state` runs the safety loop. It repeatedly picks the lowest-numbered unfinished process whose need fits the work vector.
- `request_resources` grants a request only if the request is within the process's need and the available vector, and the provisional state is safe. Otherwise it rolls back.
- `BankersSimulator` wraps these with explanations.
- `examples.py` defines the preset states and their library.
- The visualizer's `_compute_trace` reruns the safety loop and writes a line for each step.

**Form of the model:**

- Each loop of the source is a `method` with a `for` or `while` loop. Its postcondition equates the result with a function that states the loop's remaining work (`ParseFrom`, `SafetyFrom`, `LinkFrom`, `Run`, …).
- Lemmas state what those functions guarantee.
- `SystemState` is a class, because `request_resources` reassigns its `available` vector and one allocation row in place. `BankersAlgorithm` and `BankersSimulator` hold a reference to the same object, as in Python.
- Functions that only read the state take a `Snapshot` value of its fields.

**Where the code and its tests disagree, the model follows the code.** `deadlock_prevention/tests/test_bankers_core.py:21-26` and `deadlock_prevention/tests/test_simulator.py:20-27` expect P0's request `[1, 0, 2]` on the simple example to be granted. The code denies it at the availability check (`deadlock_prevention/bankers/core.py:54-55`), because `request[2] = 2 > available[2] = 1`. `BankersExamples.SimpleRequestExceedsAvailable` proves the denial and that the state is unchanged.

**Modules, one per source file:**

| module | file | models |
|---|---|---|
| `Results` | `results.dfy` | `Option`, `Result`, `Outcome` (stand-ins for `None` and for raising) |
| `Text` | `text.dfy` | `str.strip`/`rstrip`/`lstrip`, `int(s, 10)`, `str(n)`, code-point order of strings, `sorted` on a set of strings |
| `Syntax` | `syntax.dfy` | operand values, instruction dictionaries, the `ParseError` kinds, the label-index fold |
| `Lexer` | `lexer.dfy` | `strip_comments` (shared by both front ends) and `tokenize` |
| `Parser` | `parser.dfy` | `compiler/parser.py` |
| `Compiler` | `compiler.dfy` | `compiler/compiler.py` |
| `Assembler` | `assembler.dfy` | `compiler/assembler.py` |
| `Linker` | `linker.dfy` | `compiler/linker.py` |
| `Runtime` | `runtime.dfy` | `compiler/runtime.py` |
| `Pipeline` | `pipeline.dfy` | `main.py` |
| `BankersModel` | `bankers_model.dfy` | `deadlock_prevention/bankers/model.py` |
| `BankersCore` | `bankers_core.dfy` | `deadlock_prevention/bankers/core.py` |
| `BankersSimulator` | `bankers_simulator.dfy` | `deadlock_prevention/bankers/simulator.py` |
| `BankersExamples` | `bankers_examples.dfy` | `deadlock_prevention/bankers/examples.py` |
| `BankersVisualizer` | `bankers_visualizer.dfy` | `_compute_trace` of `deadlock_prevention/bankers/visualizer.py` |

## Model

| member | source | states |
|---|---|---|
| Text.RStrip | compiler/parser.py:43-44 | `rstrip` returns a prefix of its input that does not end in whitespace, and everything it drops is whitespace. Whitespace is every character `str.isspace()` accepts, including `\x1c`-`\x1f`, `\x85`, `\xa0` and the Unicode spaces |
| Text.LStrip | compiler/parser.py:102 | `lstrip` returns a suffix that does not start with whitespace, and everything it drops is whitespace, in the same `str.isspace()` sense as `Text.RStrip` |
| Text.RStripIdempotent | compiler/parser.py:43-44 | stripping trailing whitespace twice is the same as stripping it once |
| Text.ParseInt | compiler/parser.py:58-62 | `int(raw, 10)` succeeds exactly on an optional sign followed by one or more decimal digits |
| Text.ParseShowInt | compiler/parser.py:60 | reading the decimal text of any integer back with `int(_, 10)` gives that integer |
| Text.ShowNatValue | deadlock_prevention/bankers/visualizer.py:28 | the decimal text printed for a process number denotes that number |
| Text.LexIrreflexive | compiler/parser.py:172 | no string sorts before itself under Python's `<` on `str` |
| Text.LexTransitive | compiler/parser.py:172 | Python's `<` on strings is transitive |
| Text.LexTotal | compiler/parser.py:172 | of two different strings, one sorts before the other |
| Text.SortedOf | compiler/parser.py:172 | `sorted(missing)` is strictly increasing and holds exactly the names of the set |
| Text.SortedUnique | compiler/parser.py:172 | two strictly increasing lists with the same elements are equal, so the sorted list is unique |
| Text.SortStrings | compiler/parser.py:172 | the insertion loop returns exactly `sorted(s)` |
| Syntax.AddLabels | compiler/parser.py:160-161 | after `index[label] = i` for each label of a list, those labels map to `i` and every other key is unchanged |
| Syntax.LabelIndexCharacterized | compiler/parser.py:158-161 | the label index holds exactly the labels some instruction carries; each maps to a carrier, and no later instruction carries it (the last carrier wins) |
| Syntax.LabelIndexOfDistinct | compiler/parser.py:158-161 | a label carried by exactly one instruction maps to that instruction's index |
| Lexer.CommentCutCharacterized | compiler/parser.py:31-44 | the comment is cut at the first marker (`//`, `#`, `;`) with an even number of `"` before it, or at the end of the line; no such marker comes earlier |
| Lexer.StripCommentsPrefix | compiler/parser.py:31-44 | `strip_comments` returns a prefix of the line with no trailing whitespace; on a line with no comment outside quotes it is `line.rstrip()` |
| Lexer.StripCommentsIdempotent | compiler/parser.py:31-44 | applying `strip_comments` twice gives the same result as once |
| Lexer.CutFromPlain | compiler/parser.py:31-44 | a line with no `/`, `#` or `;` has no comment, so nothing is cut |
| Lexer.TokenizeJoin | compiler/parser.py:47-54 | words without blanks or quotes, joined by spaces, tokenize back to the same words |
| Lexer.TokensHaveNoNewline | compiler/parser.py:47-54 | the words of a line without a line break contain no line break |
| Lexer.CleanedHasNoNewline | compiler/parser.py:102 | the cleaned text of a physical line contains no line break |
| Parser.ParseOperand | compiler/parser.py:57-71 | an `int` operand succeeds exactly on an integer literal, otherwise the error names the literal. A `label` operand succeeds exactly on a non-empty name of `LABEL_CHARS` characters not starting with a digit, and keeps the name. A `string` operand succeeds exactly when non-empty. Any other kind is `Unsupported operand kind`. A success has the kind's type |
| Parser.ParseOperandShowInt | compiler/parser.py:58-60 | an `int` operand written in decimal converts back to the integer |
| Parser.ParseOperands | compiler/parser.py:126 | the converted operands are as many as the zipped pairs, and each has the type of its slot's kind |
| Parser.StripComments | compiler/parser.py:31-44 | the `for idx, char` loop returns exactly the comment-stripped line that `Lexer.CommentCutCharacterized` describes |
| Parser.SplitLabels | compiler/parser.py:74-92 | the `split_labels` loop returns exactly what `Parser.SplitLabelsCharacterized` describes |
| Parser.SplitLabelsCharacterized | compiler/parser.py:74-92 | `split_labels` succeeds exactly when every token ending in `:` names a valid label and no name repeats on the line. It then returns those names, colons removed, and the other tokens, each in order |
| Parser.AttachPending | compiler/parser.py:128-137 | the attach loop returns the same as its specification `AttachFrom` |
| Parser.AttachFromCharacterized | compiler/parser.py:128-137 | a successful attach records exactly the pending names, in order and without repetition. None was recorded before, and the label index gains exactly them |
| Parser.AttachFromSucceeds | compiler/parser.py:128-137 | the attach loop cannot raise when the pending names are distinct and none is recorded yet |
| Parser.EmitInstruction | compiler/parser.py:116-147 | emitting keeps the label index and the label-line map on the same keys, and keeps a name in every `label` slot |
| Parser.EmitShape | compiler/parser.py:116-147 | the emitted dictionary has the payload's first token as `op` and its converted operands as `args`, on this line. Its labels are exactly the pending names in order, none repeated and none attached before. The pending list is emptied and the label map gains exactly those names |
| Parser.ParseTokens | compiler/parser.py:110-114 | a line's tokens keep both maps on the same keys and keep names in `label` slots |
| Parser.ParseTokensLabels | compiler/parser.py:110-147 | a line's labels join the pending list. A line holding only labels succeeds exactly when they are valid and distinct, and changes nothing but the pending list. A line with an instruction attaches every pending label to it, in order, and leaves none pending |
| Parser.ParseLine | compiler/parser.py:102-108 | one source line keeps both maps on the same keys and keeps names in `label` slots |
| Parser.ParseSourceLine | compiler/parser.py:102-147 | one pass of the loop body yields exactly `ParseLine` (clean, tokenize, split, opcode lookup, arity, convert, attach, emit) |
| Parser.SeparatorIsStripped | compiler/parser.py:102 | `strip()` removes the unit separator `\x1f` like any other whitespace, so `QUIET` followed by it emits a `QUIET` instruction |
| Parser.ParseProgram | compiler/parser.py:95-154 | `parse_program` returns exactly `ParseProgramSpec`: the line loop, then the dangling-label check on the first pending label, then `validate_labels` |
| Parser.ValidateLabels | compiler/parser.py:157-172 | the nested loop returns exactly `ValidateLabelsSpec` (referenced names minus the label index, reported sorted) |
| Parser.ReferencedCharacterized | compiler/parser.py:163-168 | a name is in `referenced` exactly when some instruction has it in a `label` operand slot |
| Parser.ValidateLabelsCharacterized | compiler/parser.py:157-172 | `validate_labels` passes exactly when every name used in a `label` slot is attached to some instruction. When it fails, it lists every name used but never attached, sorted and without repetition, and no other name |
| Parser.BuildPayload | compiler/parser.py:175-184 | the payload keeps the instructions and their count. Its `labels` map holds exactly the labels the instructions carry, each mapped to a valid index of an instruction carrying it |
| Parser.PayloadLabelsExact | compiler/parser.py:175-184 | on parsed instructions, each label maps to the one instruction that carries it |
| Parser.AppendPreserves | compiler/parser.py:139-147 | appending an instruction that passed a line's checks keeps the loop invariant: well typed, lines increasing, labels unique and the index equal to the carried labels |
| Parser.EmitPreserves | compiler/parser.py:116-147 | a successful emit keeps the loop invariant |
| Parser.ParseTokensPreserves | compiler/parser.py:110-147 | handling a line's tokens keeps the loop invariant |
| Parser.ParseLinePreserves | compiler/parser.py:101-147 | one pass of the line loop keeps the loop invariant |
| Parser.ParseFromGuarantees | compiler/parser.py:101-154 | the lines still to come keep the guarantees of `Parser.ParseProgramGuarantees` |
| Parser.ParseProgramGuarantees | compiler/parser.py:95-154 | every returned instruction names a known opcode with one operand of the right type per slot. Line numbers increase strictly within the file. A `labels` key appears only with a non-empty list. No label is attached twice, and every `label` operand names an attached label |
| Parser.SplitPartsHaveNoNewline | compiler/parser.py:74-92 | splitting moves no line break into a label or payload token |
| Compiler.AsProgramEntry | compiler/compiler.py:36-44 | the dictionary keeps opcode, operands and line, and has a `labels` key exactly when the instruction has labels, holding them |
| Compiler.ProgramEntries | compiler/compiler.py:252 | one dictionary per instruction, in order |
| Compiler.ParseIntOperand | compiler/compiler.py:51-55 | `parse_int` succeeds exactly on an integer literal, with the value compiler/parser.py gives it, and otherwise names the literal |
| Compiler.ParseLabelReference | compiler/compiler.py:58-61 | `parse_label_reference` succeeds exactly when `LABEL_PATTERN` matches, returns the name unchanged, and otherwise names it |
| Compiler.ParseStringLiteral | compiler/compiler.py:64-67 | `parse_string_literal` behaves exactly like compiler/parser.py's `string` operand |
| Compiler.Convert | compiler/compiler.py:198-200 | a converter's success has its type: `int` for `parse_int`, `str` for the other two |
| Compiler.OpcodeSpecsAgree | compiler/compiler.py:70-122 | `OPCODE_SPECS` has the same opcodes and operand kinds as compiler/parser.py's `OPCODE_TABLE`. Each spec carries its own name and one converter per kind |
| Compiler.StripComments | compiler/compiler.py:125-139 | the `while` loop returns exactly the same stripped line as compiler/parser.py's `strip_comments` |
| Compiler.DeclareLabels | compiler/compiler.py:168-181 | the declaration loop returns exactly `DeclareFrom` |
| Compiler.DeclareFromCharacterized | compiler/compiler.py:168-181 | declaration succeeds exactly when the line's labels match the pattern, are distinct and were never declared before. The labels are then pending with this line number and marked declared, and the other tokens are kept in order |
| Compiler.ConvertOperands | compiler/compiler.py:197-202 | the converter loop returns exactly `ConvertFrom`; each success has its converter's type |
| Compiler.CompileSourceLine | compiler/compiler.py:159-214 | one pass of the loop body yields exactly `CompileLine` |
| Compiler.ParseProgram | compiler/compiler.py:152-223 | `parse_program` returns exactly its specification: the line loop, the dangling check, then `validate_label_references` |
| Compiler.CompileLineKeepsSlots | compiler/compiler.py:186-214 | a line that compiles keeps a name in every `label` slot of the instruction list |
| Compiler.BuildLabelIndex | compiler/compiler.py:242-247 | `build_label_index` is the same last-carrier-wins index as compiler/parser.py's |
| Compiler.SlotLabels | compiler/compiler.py:231-234 | the inner loop collects exactly the names in the instruction's `label` slots |
| Compiler.ValidateLabelReferences | compiler/compiler.py:226-239 | `validate_label_references` is exactly compiler/parser.py's `validate_labels` on the instructions' dictionaries |
| Compiler.ProgramPayload | compiler/compiler.py:250-255 | `program_payload` is compiler/parser.py's `build_payload` of the dictionaries, with the count and per-instruction fields preserved |
| Compiler.PatternImpliesParserGrammar | compiler/compiler.py:47 | every ASCII name `LABEL_PATTERN` accepts without a line break is a valid label for compiler/parser.py (the pattern is modelled with an ASCII `\w`) |
| Compiler.GrammarsDiffer | compiler/compiler.py:47 | compiler/parser.py accepts `.loop` as a label, and `LABEL_PATTERN` rejects it |
| Compiler.ConvertAgrees | compiler/compiler.py:197-202 | operands the compiler's converters accept are accepted with the same values by compiler/parser.py's `parse_operand` |
| Compiler.InstructionAgrees | compiler/compiler.py:186-214 | where the compiler emits an instruction, compiler/parser.py emits its dictionary, and the loop variables keep corresponding |
| Compiler.DeclareAgrees | compiler/compiler.py:168-181 | for ASCII labels, where the compiler's declarations succeed, `split_labels` succeeds with the same labels and payload |
| Compiler.TokensAgree | compiler/compiler.py:167-214 | where the compiler accepts a line's tokens, compiler/parser.py accepts them with corresponding results |
| Compiler.CompileLineAgrees | compiler/compiler.py:158-214 | for lines whose labels are ASCII, where the compiler accepts a line, compiler/parser.py accepts it too, with corresponding loop variables |
| Compiler.CompileFromAgrees | compiler/compiler.py:158-223 | for remaining lines whose labels are ASCII, from corresponding loop variables, a successful compile is matched by compiler/parser.py |
| Compiler.EndAgrees | compiler/compiler.py:216-223 | after the last line, both front ends run the same dangling-label and reference checks |
| Compiler.CompilerAgreesWithParser | compiler/compiler.py:152-223 | every program whose labels are ASCII that compiler/compiler.py accepts, compiler/parser.py accepts, returning exactly the dictionaries of the compiler's instructions |
| Compiler.UnicodeLabelRejected | compiler/parser.py:83-84 | `café` is not a valid label for compiler/parser.py, the parser half of the Unicode label on which the two front ends disagree |
| Compiler.CompilerGuarantees | compiler/compiler.py:152-223 | each instruction has a known opcode and one converted operand of its converter's type per slot. Lines increase strictly within the file. Labels are unique, and every `label` operand names a label some instruction carries |
| Assembler.Assemble | compiler/assembler.py:14-21 | `assemble` keeps the instructions and builds the label index of their `labels` lists |
| Assembler.AssembledTable | compiler/assembler.py:17-20 | the label table holds exactly the labels some instruction carries; each maps to a valid index of a carrier, with no later carrier |
| Linker.ResolveOperand | compiler/linker.py:27-33 | non-label operands pass through. A label becomes its table index, including index 0. A name the table lacks is a `LinkError` naming it |
| Linker.ResolveArgsCharacterized | compiler/linker.py:41-44 | resolving an instruction's operands succeeds exactly when no `label` slot is unresolvable. The results are zip-truncated and each is resolved; an error names an unresolvable operand |
| Linker.LinkInstructionShape | compiler/linker.py:39-47 | one instruction links exactly when its label operands resolve, keeping opcode and line |
| Linker.Link | compiler/linker.py:36-48 | the `link` loop returns exactly `LinkSpec` |
| Linker.LinkFromShape | compiler/linker.py:36-48 | the remaining instructions link exactly when none has an unresolvable label; they then follow the operations built so far, one per instruction |
| Linker.LinkCharacterized | compiler/linker.py:36-48 | `link` succeeds exactly when every `label` operand names a table label. It then gives one operation per instruction, in order, with the same opcode and line, label operands replaced by their index and all other operands unchanged |
| Linker.LinkErrorNamesMissing | compiler/linker.py:30-32 | `link` raises only by naming an operand in a `label` slot that the table lacks |
| Linker.AssembledTargetsInRange | compiler/linker.py:36-48 | with the table `assemble` builds, every resolved label operand is the index of an operation of the program |
| Runtime.AsInt | compiler/runtime.py:79-95 | a missing operand raises `missing operand`. An `int` is returned as is. A `str` is converted with `int()` and raises exactly when it is not an integer literal |
| Runtime.AsStr | compiler/runtime.py:98-109 | succeeds exactly on a present `str` operand and returns it; otherwise raises for a missing operand or a non-string |
| Runtime.Execute | compiler/runtime.py:45-74 | the `if opcode == ...` chain of the loop body computes exactly `Step`, whose effect per opcode the lemmas below state |
| Runtime.SipStep | compiler/runtime.py:47-49 | `SIP` pushes the next input, drops it from the provider and advances `ip`; with no input left the run stops for input |
| Runtime.EmberStep | compiler/runtime.py:50-52 | `EMBER` pushes its integer operand and advances `ip`, or raises what `_as_int` raises |
| Runtime.TwistStep | compiler/runtime.py:53-57 | `TWIST` on an empty stack raises `EmptyStack` before reading its operand. Otherwise it lowers the top by the operand, keeps the rest of the stack and advances `ip` |
| Runtime.DriftStep | compiler/runtime.py:58-59 | `DRIFT` sets `ip` to its operand and changes nothing else |
| Runtime.GlintStep | compiler/runtime.py:60-67 | `GLINT.ZERO` and `GLINT.POS` read the top as 0 on an empty stack, and jump to their operand exactly when it is zero, respectively positive. Otherwise they advance `ip`. Neither changes the stack |
| Runtime.FlashStep | compiler/runtime.py:68-70 | `FLASH` appends its string operand to the outputs and advances `ip`, or raises what `_as_str` raises |
| Runtime.QuietAndUnknownStep | compiler/runtime.py:71-74 | the step halts exactly on `QUIET`, and raises `Unknown opcode` exactly on an opcode outside the eight the chain lists |
| Runtime.RunProgram | compiler/runtime.py:26-76 | `run_program` returns exactly `Run` from `ip = 0`, an empty stack and no outputs |
| Runtime.StepOutputs | compiler/runtime.py:68-70 | an operation that continues the run appends its `FLASH` text, if any, and nothing else, to the outputs |
| Runtime.OutputsAreFlashes | compiler/runtime.py:34-37 | however the run ends, its outputs are the texts of the `FLASH` operations it executed, in order |
| Runtime.MoreFuelSameResult | compiler/runtime.py:43-76 | a run that ends within a step budget ends the same way with any larger budget |
| Runtime.WellFormedRunsCleanly | compiler/runtime.py:43-74 | a linked program with known opcodes, full arity and in-range targets never faults on indexing. Its only runtime error is `TWIST` on an empty stack |
| Pipeline.ExitCode | main.py:23-49 | `main` returns 0 exactly on success and 1 otherwise |
| Pipeline.RunSource | main.py:23-49 | `main` is exactly the four stages chained, stopping at the first failure |
| Pipeline.ParsedProgramsLink | main.py:24-34 | what `parse_program` returns always links, to a well-formed program of the same length |
| Pipeline.MainOutcomes | main.py:23-49 | `main` never reports a link error. A runtime error is only `TWIST` on an empty stack, and an index error never escapes |
| Pipeline.MainPrintsFlashes | main.py:40-49 | a successful `main` prints exactly the `FLASH` texts the run executed, in order |
| Pipeline.LinkedRunPrintsFlashes | main.py:30-49 | after the parse, successful stages print the run's `FLASH` texts |
| BankersModel.SystemState.constructor | deadlock_prevention/bankers/model.py:4-10 | the new state holds the given five fields |
| BankersModel.NeedMatrix | deadlock_prevention/bankers/model.py:12-23 | `num_processes` rows of `num_resources` entries, each Max − Allocation |
| BankersModel.Validate | deadlock_prevention/bankers/model.py:25-42 | valid exactly when both matrices have `num_processes` rows of `num_resources` entries, `available` has `num_resources` entries, and no allocation exceeds its claim |
| BankersModel.ValidNeedNonNegative | deadlock_prevention/bankers/model.py:40-41 | in a valid state no need is negative |
| BankersCore.Release | deadlock_prevention/bankers/core.py:29 | the new work vector adds the process's allocation to the work, resource by resource |
| BankersCore.FirstFit | deadlock_prevention/bankers/core.py:23-33 | the scan picks an unfinished process whose need fits, and every unfinished one before it does not fit. It returns `num_processes` when none fits |
| BankersCore.NoneFinished | deadlock_prevention/bankers/core.py:18 | `finish` starts with one `False` per process |
| BankersCore.GreedyExtend | deadlock_prevention/bankers/core.py:23-33 | adding the lowest-numbered unfinished process that fits the released work extends a greedy run |
| BankersCore.GreedyRound | deadlock_prevention/bankers/core.py:23-33 | a round that finds a process extends the greedy run by it, and its work and `finish` follow the run |
| BankersCore.NoneFitsStuck | deadlock_prevention/bankers/core.py:35-36 | a round that finds no fitting process leaves the greedy run stuck |
| BankersCore.BankersAlgorithm.constructor | deadlock_prevention/bankers/core.py:7-8 | the algorithm refers to the given state object |
| BankersCore.BankersAlgorithm.IsSafeState | deadlock_prevention/bankers/core.py:10-38 | `is_safe_state` changes nothing and returns exactly `SafetyCheck` of the state's fields |
| BankersCore.SafetyFromCharacterized | deadlock_prevention/bankers/core.py:21-38 | from loop variables that follow a greedy run, the loop returns safe with a permutation that extends the greedy run, or unsafe from a stuck greedy run |
| BankersCore.SafetyCheckCharacterized | deadlock_prevention/bankers/core.py:10-38 | a sequence is returned exactly when safe. It is a permutation of all processes, each the lowest-numbered unfinished one whose need fits the work released before it. Unsafe means some greedy round had no fitting process |
| BankersCore.UnsafeIffStuck | deadlock_prevention/bankers/core.py:35-36 | the answer is unsafe exactly when some greedy run of fewer than all processes is stuck |
| BankersCore.GreedyPrefixUnique | deadlock_prevention/bankers/core.py:23-33 | two greedy runs agree on their common length, so the safe sequence is determined by the state |
| BankersCore.Completeness | deadlock_prevention/bankers/core.py:10-38 | with no negative allocation, if any order lets all processes finish, the check answers safe |
| BankersCore.SafeIffSafeSequenceExists | deadlock_prevention/bankers/core.py:10-38 | with no negative allocation, the check answers safe exactly when a safe order exists |
| BankersCore.SafeSequenceUnsticks | deadlock_prevention/bankers/core.py:23-36 | when a safe order exists, no greedy run short of all processes is stuck |
| BankersCore.BankersAlgorithm.Allocate | deadlock_prevention/bankers/core.py:57-63 | the provisional allocation lowers `available` by the request and raises the process's allocation row by it |
| BankersCore.BankersAlgorithm.Deallocate | deadlock_prevention/bankers/core.py:69-75 | the rollback raises `available` by the request and lowers the process's allocation row by it |
| BankersCore.BankersAlgorithm.RequestResources | deadlock_prevention/bankers/core.py:40-76 | `request_resources` returns and leaves exactly `RequestOutcome` of the old fields |
| BankersCore.ProvisionalGranted | deadlock_prevention/bankers/core.py:57-63 | the provisional state moves the request from `available` to the process's row, and changes nothing else |
| BankersCore.RollbackTrims | deadlock_prevention/bankers/core.py:69-75 | rolling back a provisional allocation restores the state, up to cutting `available` and the row to `num_resources` entries |
| BankersCore.RequestCharacterized | deadlock_prevention/bankers/core.py:40-76 | granted exactly when the request is within need and available and the provisional state is safe. A grant moves the request and leaves a safe state. A denial at the first two checks changes nothing, and a denial by the safety check is rolled back |
| BankersCore.DeniedRequestRestores | deadlock_prevention/bankers/core.py:69-76 | a denied request leaves a well-shaped state exactly as it was |
| BankersCore.RequestKeepsSafety | deadlock_prevention/bankers/core.py:40-76 | from a safe state, whatever the request, the state after `request_resources` is safe |
| BankersCore.RequestKeepsValidity | deadlock_prevention/bankers/core.py:40-76 | a state that passes `validate()` still passes it after `request_resources` |
| BankersSimulator.BankersSimulator.constructor | deadlock_prevention/bankers/simulator.py:4-7 | the simulator and its algorithm share the one state object |
| BankersSimulator.ExplanationTellsVerdict | deadlock_prevention/bankers/simulator.py:26 | the explanation is the unsafe text exactly when the answer is unsafe; a safe one starts `Safe sequence found: ` |
| BankersSimulator.BankersSimulator.CheckSafety | deadlock_prevention/bankers/simulator.py:18-27 | `check_safety` returns the algorithm's answer with the matching explanation |
| BankersSimulator.BankersSimulator.ApplyRequest | deadlock_prevention/bankers/simulator.py:29-42 | `apply_request` has the effect of `request_resources` and explains its answer |
| BankersExamples.PresetsFiledUnderOwnKeys | deadlock_prevention/bankers/examples.py:142-178 | the library files the five presets in order, each under its own key |
| BankersExamples.LookupCharacterized | deadlock_prevention/bankers/examples.py:185-186 | `dict.get` finds a value exactly when the key is filed, and then exactly the value filed under it |
| BankersExamples.GetPresetKeys | deadlock_prevention/bankers/examples.py:185-186 | `get_preset` finds a preset exactly for the five library keys |
| BankersExamples.GetPresetFinds | deadlock_prevention/bankers/examples.py:181-186 | the preset `get_preset` finds is the one in `available_presets()` with that key |
| BankersExamples.PresetsValid | deadlock_prevention/bankers/examples.py:11-118 | every preset passes `validate()` and holds no negative allocation |
| BankersExamples.CustomBlankSafe | deadlock_prevention/bankers/examples.py:121-130 | a blank state of any size is valid and safe, with processes finishing in order `0, 1, …` |
| BankersExamples.SimpleIsSafe | deadlock_prevention/bankers/examples.py:11-28 | the simple example is safe with sequence P1, P0, P2 |
| BankersExamples.ClassicIsSafe | deadlock_prevention/bankers/examples.py:31-52 | the classic example is safe with sequence P1, P3, P0, P2, P4 |
| BankersExamples.BalancedFlowIsSafe | deadlock_prevention/bankers/examples.py:55-74 | the balanced-flow example is safe with sequence P1, P0, P2, P3 |
| BankersExamples.ContentionIsSafe | deadlock_prevention/bankers/examples.py:77-96 | the contention example is safe with sequence P1, P2, P0, P3 |
| BankersExamples.UnsafeDemoIsStuck | deadlock_prevention/bankers/examples.py:99-118 | the unsafe demo is unsafe at once: no need fits `available` |
| BankersExamples.BadgesMatchSafety | deadlock_prevention/bankers/examples.py:142-178 | each preset's badge is the verdict of the safety check on the state it builds |
| BankersExamples.SimpleRequestExceedsNeed | deadlock_prevention/bankers/core.py:51-52 | P0 asking `[10, 0, 2]` on the simple example is denied and changes nothing |
| BankersExamples.SimpleRequestExceedsAvailable | deadlock_prevention/bankers/core.py:54-55 | P0 asking `[1, 0, 2]` is within its need but exceeds `available`, so it is denied and changes nothing |
| BankersExamples.SimpleRequestGranted | deadlock_prevention/bankers/core.py:57-67 | P1 asking `[1, 0, 1]` is granted, leaving `available = [0, 1, 0]` and P1 holding `[3, 1, 2]` |
| BankersExamples.BuilderVerdict | deadlock_prevention/bankers/examples.py:11-118 | every builder's state passes the preconditions of the safety check, and only the unsafe demo is unsafe |
| BankersExamples.GrantedIsSafe | deadlock_prevention/bankers/core.py:65-67 | after the grant of P1's `[1, 0, 1]` the simple example is still safe, with sequence P1, P0, P2 |
| BankersVisualizer.ScanRound | deadlock_prevention/bankers/visualizer.py:23-42 | the `for pid` scan finds the first fitting unfinished process and writes the lines `RoundTrace` specifies |
| BankersVisualizer.LoopStops | deadlock_prevention/bankers/visualizer.py:43-45 | a pass of the `while` loop whose scan finds no process answers unsafe, and the lines end with the round's lines and the `UNSAFE` verdict |
| BankersVisualizer.LoopGoesOn | deadlock_prevention/bankers/visualizer.py:21-42 | a pass of the `while` loop whose scan finds a process keeps the verdict, and the lines go on from the next loop state |
| BankersVisualizer.LoopDone | deadlock_prevention/bankers/visualizer.py:47-48 | once every process has finished, the answer is safe with the sequence built, and the last line is the `SAFE` verdict |
| BankersVisualizer.RoundReleased | deadlock_prevention/bankers/visualizer.py:23-42 | a scan reports as finishing exactly the process the safety loop picks, or none |
| BankersVisualizer.TraceEntries | deadlock_prevention/bankers/visualizer.py:15-48 | the loop gives the same verdict and sequence as `is_safe_state`, and writes exactly `Trace` |
| BankersVisualizer.ComputeTrace | deadlock_prevention/bankers/visualizer.py:12-48 | `_compute_trace` agrees with `is_safe_state` and returns the rendered lines of `Trace` |
| BankersVisualizer.TraceEndsWithVerdict | deadlock_prevention/bankers/visualizer.py:43-47 | the trace ends with the safety check's verdict: `SAFE` with the safe sequence, or `UNSAFE` |
| BankersVisualizer.ReleasedIsRun | deadlock_prevention/bankers/visualizer.py:31-39 | the processes the trace reports as finishing are exactly those the loop finishes |
| BankersVisualizer.SafeRunIsRun | deadlock_prevention/bankers/visualizer.py:47-48 | a loop that finishes every process returns the sequence it built |
| BankersVisualizer.StoppedRunIsStuck | deadlock_prevention/bankers/visualizer.py:43-45 | a loop that stops short is a greedy run after which no unfinished process fits |
| BankersVisualizer.TraceReleasesInOrder | deadlock_prevention/bankers/visualizer.py:12-48 | the processes reported as finishing are the safe sequence when safe, and a stuck greedy run when unsafe |
| BankersVisualizer.TraceStepsCountReleases | deadlock_prevention/bankers/visualizer.py:20-41 | every `Inspect` line is numbered one more than the processes reported finished before it, and names a process not among them |

## Left out

- Input and output are not modelled:
  - Reading the source file becomes a sequence of lines, assumed to be the result of `splitlines()`.
  - `print` is not modelled; nor are the argument checks in `main` and `compiler/compiler.py`'s `main`, nor the JSON rendering.
- Lexer.Tokenize: `shlex` is modelled only for what these front ends use (`posix=True`, `whitespace_split`, no commenters). The model has blanks as separators, `"` quoting that groups and drops the quotes, and an unclosed quote as an error. Single quotes and backslash escapes are not modelled.
- Text.ParseInt: `int(s, 10)` is modelled on ASCII digits with an optional sign. Python also accepts `_` between digits, non-ASCII decimal digits and surrounding whitespace; none of these is modelled. For example `EMBER 1_000` tokenizes to `1_000`, which Python reads as 1000 and the model rejects as an invalid integer.
- Compiler.ParseLabelReference: `\w` in `LABEL_PATTERN` is taken as ASCII letters, digits and `_`; Unicode word characters are not modelled. The `$` allowance for a final `\n` is modelled, but the agreement theorems assume lines without `\n`, as `splitlines()` gives.
- Compiler.CompilerAgreesWithParser: the agreement (and `PatternImpliesParserGrammar`, `DeclareAgrees`, `CompileLineAgrees`, `CompileFromAgrees` on which it rests) holds for the model, whose `\w` is ASCII, and so for the real code only on programs whose labels are ASCII. `LABEL_PATTERN` (compiler/compiler.py:47) is a `str` pattern without `re.ASCII`, so compiler/compiler.py:171 declares the label of `café: QUIET`, while compiler/parser.py:83-84 rejects it because `LABEL_CHARS` (compiler/parser.py:17) is ASCII only; `Compiler.UnicodeLabelRejected` proves the parser side.
- Compiler.PatternImpliesParserGrammar: holds only for ASCII labels in the real code, for the reason given under `Compiler.CompilerAgreesWithParser` (counterexample `café: QUIET`).
- Compiler.DeclareAgrees: holds only for ASCII labels in the real code, for the reason given under `Compiler.CompilerAgreesWithParser` (counterexample `café: QUIET`).
- Compiler.CompileLineAgrees: holds only for ASCII labels in the real code, for the reason given under `Compiler.CompilerAgreesWithParser` (counterexample `café: QUIET`).
- Compiler.CompileFromAgrees: holds only for ASCII labels in the real code, for the reason given under `Compiler.CompilerAgreesWithParser` (counterexample `café: QUIET`).
- Python operand objects other than `int` and `str` are not modelled; the `expects an int-like operand` error of `_as_int` is therefore unreachable.
- Error messages are structured constructors, one per message, not formatted strings.
- Runtime.RunProgram:
  - The input provider is a supplied sequence of integers; running out is an outcome of its own. The interactive `_prompt_for_int` is left out.
  - The output sink is not modelled; the returned outputs are.
  - A step budget (`fuel`) bounds the run, because a program may loop forever. `Runtime.MoreFuelSameResult` shows that the budget does not change a run that ends.
- Python's `IndexError` on a negative `ip` below `-len(ops)` is an outcome of its own, and so is a negative `ip` in range (Python indexes from the end). Neither can arise from a parsed program (`Runtime.WellFormedRunsCleanly`).
- Functions indexed out of range in the source have preconditions instead: `OPCODE_TABLE[...]` in `validate_labels` and `link`, and `need_matrix` on short rows. `main.py` calls `validate_labels` and `link` only on programs `parse_program` returned, which meet them.
- BankersCore.BankersAlgorithm.RequestResources: `processId` is a `nat` below `num_processes`, and the request has at least `num_resources` entries. `deadlock_prevention/bankers/cli.py:99-104` passes whatever integer and vector the user types, and catches only `ValueError`. An id of at least `num_processes` raises `IndexError` there, and so does a request shorter than `num_resources` once a check reads past its end. A negative id from `-num_processes` up is accepted by Python and acts on row `num_processes + id`. None of these cases is modelled.
- BankersCore.Completeness: proved only for states with no negative allocation, because a negative allocation can make releasing a process shrink the work vector.
- BankersCore.BankersAlgorithm.RequestResources: the two list comprehensions of the provisional allocation and the rollback are the helper methods `Allocate` and `Deallocate`. The rollback rebuilds `available` and the allocation row with `num_resources` entries, so a longer vector comes back cut to that length (`BankersCore.RollbackTrims`).
- `SystemState.pretty_print` and `BankersSimulator.describe_system` are not modelled; they only format text. `cli.py` is the interactive console menu: it reads choices, ids and vectors from the user, loads presets and calls the simulator. It is console I/O and is not modelled. The Tkinter user interface is not modelled either.
- Presets: a preset's builder is a value of a `Builder` datatype instead of a Python callable. The title and description are functions of the builder, since the library gives each builder one preset.
- BankersVisualizer.ComputeTrace: the lines are formatted once the entries are complete rather than as each is appended; the resulting list is the same.
- `get_custom_blank`'s default arguments are not modelled; both sizes are parameters.
- Opcode specs: the description is a function of the opcode name, since each opcode has one spec.
