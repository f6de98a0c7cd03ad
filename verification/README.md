# Assembler interpreters in Dafny

A model of two small C++ register-machine interpreters from a code-kata
repository, with proofs about it.

- The full interpreter (`assembler_interpreter/src/main.cpp`) offers two entry points.
  - `assembler` takes a list of instruction lines and returns the register file.
  - `assembler_interpreter` takes a whole program text. It sanitises the text: it drops the first character, splits the rest into lines, removes comments and drops blank lines. A comment is matched by a regular expression that was evidently meant to skip a `;` inside quotes; because `.*` can run to the end of a line, it cuts every line without `\r` at its first `;`, inside quotes or not (`msg 'a;b'` becomes `msg 'a`). It then runs the program and returns what `flush` gives.
  - The instruction set is `mov inc dec jnz add sub mul div end msg label call ret cmp jne je jge jg jle jl`.
  - A first token containing `:` declares a label.
  - The entry point answers `"-1"` unless `end` ran. In that case it answers the text the `msg` instructions wrote.
- The simple interpreter (`simple_assembler_interpreter/src/main.cpp`) is an earlier version.
  - It knows only `mov inc dec jnz`.
  - It splits lines at white space with an `std::istringstream`.
  - It has no labels and no `pre_run`.

The model follows the C++ code step by step. Both interpreters share modules.

| Module | Models |
|---|---|
| `Base` | Failure kinds and `Result` |
| `Text` | C-locale character classes, `ltrim`, `get_lines` and quote counting |
| `Decimal` | `std::stoi` and `std::to_string` on 32-bit `int` |
| `Values` | `is_register`, `get_value_of` and checked `int` arithmetic |
| `Control` | `advance_ip` |
| `Tokens` | The `TokenSplitter` regular expression |
| `Sanitize` | `sanitize_raw_program` |
| `Instructions` | The instruction classes and `InstructionFactory` |
| `Machine` | Machine state, one `operate_on` step and `run_program` |
| `MachineProps`, `RunProps` | Per-instruction rules and whole-run invariants |
| `Interpreter` | The two entry points |
| `Simple` | The simple interpreter, expressed through the same machine |
| `Examples` | Concrete programs from the repository's tests |

Each C++ exception, and each undefined behaviour the code can reach except the two named below, becomes an explicit `Base.Error` value:
- `at` on a missing key;
- `std::stoi` without digits or out of range;
- signed overflow;
- division by zero;
- `top()` on an empty stack;
- stepping the iterator beyond `end()`.

Two undefined behaviours are not modelled as errors:
- **Out-of-range jump target.** `advance_ip` forms `next(ip_, diff - 1)` before testing its range. When that position lies outside `[begin, end]`, merely forming the iterator and comparing it is already undefined behaviour. The model reads the test as the index comparison the code intends, and falls back to `ip + 1`.
- **Non-ASCII characters.** `std::isalpha` and `std::isspace` on a negative `char` (any byte from 0x80 up) are undefined behaviour. The model reads such a character as neither a letter nor white space.

`advance_ip` checks the position before the fetch loop's own step, `ip + diff - 1`, against `[begin, end]`. In a program of n instructions, the loop therefore continues at `ip + diff` only when that target lies between 1 and n + 1. Any other taken jump continues two instructions further on. Two consequences follow, and the model keeps both (`Control.AdvanceIp`, `MachineProps.JnzTaken`, `Examples.JumpToFirstOverruns`):
- no jump ever continues at the first instruction, index 0;
- a taken jump whose target lies one past the end, and any taken jump from the last instruction to an out-of-range target, steps beyond `end()`.

A run takes a `fuel` bound and reports `OutOfFuel` (`Unfinished` at the entry points) when the bound runs out. The operand tokens are classified once, when a line is decoded. This uses the same rule `get_value_of` applies: a token with a letter names a register, and anything else goes through `std::stoi`. A literal's value, or its parse error, is carried along and takes effect only when the instruction runs, as in the C++ code.

## Model

| member | source | states |
|---|---|---|
| Decimal.NatDigits | assembler_interpreter/src/main.cpp:297 | the decimal text of a natural number is a non-empty run of digits with no leading zero |
| Decimal.ParseInt | assembler_interpreter/src/main.cpp:40-41 | `std::stoi` either yields a value inside the 32-bit `int` range, or reports exactly "no digits" or "out of range" for the token it was given |
| Decimal.ReadNatDigits | assembler_interpreter/src/main.cpp:40-41 | reading back the digits written for n gives n |
| Decimal.ReadDigitsSnoc | assembler_interpreter/src/main.cpp:40-41 | one more digit multiplies what was read by ten and adds the digit |
| Decimal.ReadDigitsStops | assembler_interpreter/src/main.cpp:40-41 | digit reading stops at the first non-digit, so trailing text is ignored |
| Decimal.ParseToDecimal | assembler_interpreter/src/main.cpp:40-41 | `std::stoi` inverts `std::to_string` on every `int`, also when text not starting with a digit follows |
| Decimal.ParseSigned | assembler_interpreter/src/main.cpp:40-41 | a minus sign followed by digits denoting v reads as -v when -v is an `int` |
| Decimal.ParseUnsigned | assembler_interpreter/src/main.cpp:40-41 | digits denoting an `int` v read as v |
| Values.IsRegisterHasAlpha | assembler_interpreter/src/main.cpp:22-26 | a token names a register exactly when one of its characters is alphabetic |
| Values.Resolve | assembler_interpreter/src/main.cpp:32-43 | a register token succeeds exactly when the register exists and then yields its value; any other token yields what `std::stoi` yields |
| Values.ToOperand | assembler_interpreter/src/main.cpp:32-43 | classifying a token keeps its text |
| Values.ValueOfToken | assembler_interpreter/src/main.cpp:32-43 | classifying a token at load time and resolving it at run time gives what `get_value_of` gives for the token at that moment |
| Values.ValueIsInt | assembler_interpreter/src/main.cpp:32-43 | a resolved operand is a 32-bit `int` whenever every register holds one |
| Values.Checked | assembler_interpreter/src/main.cpp:211-250 | an arithmetic result is accepted exactly when it fits in `int`, and it is then unchanged |
| Values.TruncDiv | assembler_interpreter/src/main.cpp:247-250 | C++ `int` division: the quotient's magnitude is the floor of the magnitudes' ratio, and its sign is the product of the operands' signs |
| Values.NatQuotient | assembler_interpreter/src/main.cpp:247-250 | the natural quotient is the unique m with m*b <= a < (m+1)*b |
| Control.AdvanceIp | assembler_interpreter/src/main.cpp:541-555 | a jump by diff lands at ip+diff-1 only when that is within [begin, end]; otherwise the instruction pointer advances by one; the result is never outside [0, n] |
| Text.IndexOfShape | assembler_interpreter/src/main.cpp:716-717 | the position found holds the character, and no earlier position does |
| Text.LtrimShape | assembler_interpreter/src/main.cpp:680-683 | `ltrim` leaves a suffix that does not start with white space, and only white space was removed |
| Text.GetLinesClean | assembler_interpreter/src/main.cpp:685-696 | every line `get_lines` reports is non-empty, has no newline and does not start with white space |
| Text.GetLinesKeepsOut | assembler_interpreter/src/main.cpp:685-696 | `get_lines` introduces no character that was absent from its input |
| Text.GetLinesJoin | assembler_interpreter/src/main.cpp:685-696 | `get_lines` inverts joining clean lines with newlines, with or without a final newline |
| Text.GetLinesNext | assembler_interpreter/src/main.cpp:685-696 | a clean line followed by a newline is the first line reported |
| Text.GetLinesLast | assembler_interpreter/src/main.cpp:685-696 | a clean line at the end of the text is the only line reported |
| Text.GetLinesBlank | assembler_interpreter/src/main.cpp:685-696 | empty text, or a lone newline, has no lines |
| Text.RemoveQuotesDropsQuotes | assembler_interpreter/src/main.cpp:278-282 | `strippedQuotes` leaves no quote and removes nothing but the quotes |
| Text.RemoveQuotesAppend | assembler_interpreter/src/main.cpp:278-282 | stripping quotes distributes over concatenation |
| Text.RemoveQuotesNone | assembler_interpreter/src/main.cpp:278-282 | text without quotes is left unchanged |
| Text.CountQuotesAppend | assembler_interpreter/src/main.cpp:700 | the quote count of a concatenation is the sum of the parts' counts, which is what the look-ahead of both regular expressions counts |
| Tokens.NoSeparatorAt | assembler_interpreter/src/main.cpp:700 | no separator match starts at a character that is neither white space nor a comma followed by white space |
| Tokens.Split | assembler_interpreter/src/main.cpp:698-703 | every token `TokenSplitter::parse` produces is non-empty, has no newline and does not start with white space |
| Tokens.SplitInterleave | assembler_interpreter/src/main.cpp:698-703 | splitting tokens joined by separators (white space, optionally after one comma), with trailing white space allowed, gives back exactly those tokens; quoted tokens keep their spaces and commas |
| Tokens.ReplaceInterleave | assembler_interpreter/src/main.cpp:700-701 | the regular-expression replacement turns every separator between tokens into exactly one newline and copies the tokens unchanged |
| Tokens.ReplaceTail | assembler_interpreter/src/main.cpp:700-701 | trailing white space becomes a single newline |
| Tokens.ReplaceToken | assembler_interpreter/src/main.cpp:700-701 | no separator match starts inside a token |
| Tokens.ReplaceSeparator | assembler_interpreter/src/main.cpp:700-701 | a separator followed by a token is replaced by exactly one newline |
| Tokens.ReplaceInsideQuotes | assembler_interpreter/src/main.cpp:700-701 | inside quotes the look-ahead fails, so spaces and commas there are kept |
| Tokens.QuoteFlipsParity | assembler_interpreter/src/main.cpp:700 | one more quote flips whether the rest of the line holds an even number of quotes |
| Tokens.InterleaveShape | assembler_interpreter/src/main.cpp:700 | a token sequence with separators starts with its first token and holds an even number of quotes |
| Sanitize.DeleteBracesFrontAndEnd | assembler_interpreter/src/main.cpp:705-709 | a text longer than two characters loses exactly its first character, and a shorter one is kept whole |
| Sanitize.DotRunAll | assembler_interpreter/src/main.cpp:716 | without a line terminator, `.*` can match the whole rest of the line |
| Sanitize.LastEvenSuffix | assembler_interpreter/src/main.cpp:716 | the backtracking match ends at the largest position after which an even number of quotes remains, or the match fails |
| Sanitize.StripAndDropBlank | assembler_interpreter/src/main.cpp:714-725 | after comment stripping no kept line consists only of blanks, and no line is added |
| Sanitize.SanitizeRawProgram | assembler_interpreter/src/main.cpp:711-728 | the sanitised program has no line made only of blanks |
| Sanitize.StripCommentCuts | assembler_interpreter/src/main.cpp:716-717 | on a line without line terminators the comment regex cuts at the first `;`, also when that `;` is inside quotes |
| Sanitize.CommentToEnd | assembler_interpreter/src/main.cpp:716-717 | a comment runs to the end of the line |
| Sanitize.SanitizeCutsAtSemicolon | assembler_interpreter/src/main.cpp:711-728 | without carriage returns, sanitising equals a plain reference reading: drop the first character, split into lines, cut each line at its first `;`, drop blank lines; every result line is clean and free of `;` |
| Sanitize.CutCleanLines | assembler_interpreter/src/main.cpp:714-725 | on clean lines the regex-based stripping agrees with the plain reference reading |
| Instructions.Lookup | assembler_interpreter/src/main.cpp:494-516 | a name found in the factory table belongs to the opcode registered under that name |
| Instructions.LookupName | assembler_interpreter/src/main.cpp:494-516 | every one of the twenty opcodes is found under its own name |
| Instructions.ColonIndex | assembler_interpreter/src/main.cpp:520-521 | the label prefix ends at the first `:` |
| Instructions.Decode | assembler_interpreter/src/main.cpp:518-533 | decoding fails exactly on an empty line, an unknown name or too few operands; a first token containing `:` always decodes to a label |
| Instructions.DecodeColonLabel | assembler_interpreter/src/main.cpp:518-527 | a bare `name:` line declares the label name |
| Instructions.DecodeKnown | assembler_interpreter/src/main.cpp:494-533 | a known name with enough operands builds that opcode's instruction |
| Instructions.DecodeIsDecoded | assembler_interpreter/src/main.cpp:139-171 | every operand of a decoded instruction is what classifying its own text gives |
| Instructions.DecodeRender | assembler_interpreter/src/main.cpp:518-533 | every decoded instruction is decoded back from its canonical tokens |
| Instructions.RenderDecode | assembler_interpreter/src/main.cpp:139-171 | decoding keeps the name and the operand tokens it reads: all of them for `msg`, and the first Arity ones otherwise |
| Instructions.BuildOperands | assembler_interpreter/src/main.cpp:139-171 | each constructor keeps its opcode and reads exactly its first Arity tokens (`msg` reads them all) |
| Instructions.BuildOfOperands | assembler_interpreter/src/main.cpp:139-171 | rebuilding an instruction from its own opcode and operand texts gives the same instruction back |
| Machine.Next | assembler_interpreter/src/main.cpp:580-586 | the loop's step to the next position succeeds exactly when the position is inside the program |
| Machine.CmpFlags | assembler_interpreter/src/main.cpp:347-375 | after `cmp`, each flag is set exactly when its relation holds between the two values |
| Machine.Apply | assembler_interpreter/src/main.cpp:211-250 | add, sub, mul and div fail exactly on a zero divisor or a result outside `int`, and otherwise give the mathematical result (division truncating) |
| Machine.Write | assembler_interpreter/src/main.cpp:464-477 | a write succeeds exactly when its value was computed, and changes only the destination register and the instruction pointer |
| Machine.JumpIfNonZero | assembler_interpreter/src/main.cpp:479-492 | `jnz` changes only the instruction pointer and stays within the program; with a non-zero condition and a resolvable distance it moves as `advance_ip` prescribes |
| Machine.Compare | assembler_interpreter/src/main.cpp:347-375 | `cmp` succeeds exactly when both operands resolve, and then only the flags change |
| Machine.JumpTo | assembler_interpreter/src/main.cpp:613-617 | a call or taken jump succeeds only for a label `pre_run` recorded; it pushes the current position and continues after the label |
| Machine.Return | assembler_interpreter/src/main.cpp:619-623 | `ret` succeeds only with a non-empty stack; it pops the top and continues after it |
| Machine.Print | assembler_interpreter/src/main.cpp:284-299 | `msg` succeeds exactly when every argument resolves, and then only appends to the output |
| Machine.Step | assembler_interpreter/src/main.cpp:580-586 | one fetch-execute iteration leaves the instruction pointer within [1, n] |
| MachineProps.LabelsLast | assembler_interpreter/src/main.cpp:572-578 | `pre_run` knows a name exactly when some label instruction declares it, and records the last such declaration |
| MachineProps.StepWritesOnlyDest | assembler_interpreter/src/main.cpp:464-477 | an instruction changes no register but its own destination, removes none, and creates its destination |
| MachineProps.StepFrame | assembler_interpreter/src/main.cpp:259-390 | only `cmp` changes the flags; only `call`, the conditional jumps and `ret` change the stack; only `msg` writes output; the machine has ended exactly when it had before or the instruction is `end` |
| MachineProps.CondJumpRule | assembler_interpreter/src/main.cpp:636-642 | a conditional jump is taken exactly when its flag is set, and then fails for a label `pre_run` never recorded (`jump_to` at lines 613-617); with its flag clear it falls through, whether or not the label exists |
| MachineProps.NoJumpBeforeCmp | assembler_interpreter/src/main.cpp:636-642 | while the flag register is Invalid, a conditional jump anywhere in the program falls through, whatever label it names |
| MachineProps.CmpThenJump | assembler_interpreter/src/main.cpp:347-375 | after `cmp x, y` exactly one of less, equal and greater holds, and each jump condition matches its relation |
| MachineProps.MovRule | assembler_interpreter/src/main.cpp:464-467 | `mov` writes the source's value to the destination, creating it; an unresolvable source fails |
| MachineProps.IncRule | assembler_interpreter/src/main.cpp:469-472 | `inc` adds one, counting a missing register as 0; leaving the `int` range is an overflow |
| MachineProps.DecRule | assembler_interpreter/src/main.cpp:474-477 | `dec` subtracts one in the same way |
| MachineProps.ArithRule | assembler_interpreter/src/main.cpp:211-250 | `add`, `sub`, `mul` and `div` fail with the source's error when it does not resolve; otherwise they write the arithmetic of the destination (a missing one read as 0) and the source, or fail on a zero divisor or a result outside `int` |
| MachineProps.MsgRule | assembler_interpreter/src/main.cpp:284-299 | `msg` appends its text and moves on; an unresolvable argument fails |
| MachineProps.CallRule | assembler_interpreter/src/main.cpp:323-326 | `call` to an unknown label fails; otherwise it pushes its position and continues after the label |
| MachineProps.CallThenRet | assembler_interpreter/src/main.cpp:613-623 | a call to a subroutine starting with `ret` comes back to the instruction after the call with the stack unchanged |
| MachineProps.RetRule | assembler_interpreter/src/main.cpp:619-623 | `ret` fails exactly on an empty stack; otherwise it continues after the popped position |
| MachineProps.JnzNotTaken | assembler_interpreter/src/main.cpp:484-492 | `jnz` with a zero condition falls through without resolving its distance |
| MachineProps.JnzTaken | assembler_interpreter/src/main.cpp:484-492 | `jnz` at index i of n with a non-zero condition and distance d continues at i+d when 1 <= i+d <= n+1, and at i+2 otherwise; continuing beyond index n fails as stepping past `end()` |
| MachineProps.MsgTextAppend | assembler_interpreter/src/main.cpp:284-299 | the text of two argument lists is the texts in order; the first failure wins |
| MachineProps.MsgTextOk | assembler_interpreter/src/main.cpp:284-299 | a `msg` argument list succeeds exactly when every argument resolves |
| MachineProps.MsgTextOfText | assembler_interpreter/src/main.cpp:274-299 | quoted arguments alone print their contents with the quotes removed |
| RunProps.InitialValid | assembler_interpreter/src/main.cpp:103-113 | the freshly constructed machine is in a valid state |
| RunProps.StepValid | assembler_interpreter/src/main.cpp:580-586 | every instruction of a loaded program keeps the state valid: the pointer is in range, return positions are indices, and registers hold `int`s |
| RunProps.StepKeepsReturns | assembler_interpreter/src/main.cpp:613-623 | every return position on the stack stays an index of the program |
| RunProps.StepKeepsInts | assembler_interpreter/src/main.cpp:464-477 | a decoded instruction leaves only 32-bit values in the registers |
| RunProps.RunStep | assembler_interpreter/src/main.cpp:580-586 | after a successful step, the run continues from the new state with one step less |
| RunProps.RunThrough | assembler_interpreter/src/main.cpp:580-586 | a run that passes through a sequence of states, one instruction each, finishes in the last of them once it lies at `end()` |
| RunProps.RunUnfold | assembler_interpreter/src/main.cpp:580-586 | a finished run that has not reached the end took a successful step first |
| RunProps.RunValid | assembler_interpreter/src/main.cpp:580-586 | a run of a loaded program from a valid state ends in a valid state |
| RunProps.RetFailsOnlyWhenEmpty | assembler_interpreter/src/main.cpp:619-623 | in a valid state `ret` fails exactly when the stack is empty |
| RunProps.RunMoreFuel | assembler_interpreter/src/main.cpp:580-586 | a run that stopped within some bound stops in the same way with any larger bound |
| RunProps.EndHalts | assembler_interpreter/src/main.cpp:556-560 | `end` stops the loop at once and switches the output to `msg_port` |
| RunProps.NoEndFlushesSentinel | assembler_interpreter/src/main.cpp:103-104 | a program without `end` never switches the output, so `flush` gives "-1" whatever `msg` wrote |
| RunProps.NoCmpKeepsFlagsInvalid | assembler_interpreter/src/main.cpp:625-635 | only `cmp` sets the flags: a finished run of a program without `cmp`, started with the flags Invalid (their initial value, lines 69-77), ends with them still Invalid |
| RunProps.StepSameInstr | assembler_interpreter/src/main.cpp:580-586 | one step depends on the program only through its length and the instruction at the pointer |
| RunProps.NoCmpNoJump | assembler_interpreter/src/main.cpp:636-642 | no conditional jump is taken before the first `cmp`: from Invalid flags, a program without `cmp` runs exactly as the same program with every conditional jump replaced by an instruction that only moves on, with the same outcome whether the run finishes, fails or exhausts its bound |
| RunProps.RunRegisters | assembler_interpreter/src/main.cpp:593-596 | a run removes no register and creates only destinations of its instructions |
| Interpreter.CollectEach | assembler_interpreter/src/main.cpp:561-570 | loading succeeds exactly when every line does, and then keeps their instructions in order |
| Interpreter.CollectFirstError | assembler_interpreter/src/main.cpp:561-570 | a failed load reports the error of the first failing line |
| Interpreter.CollectValues | assembler_interpreter/src/main.cpp:561-570 | lines that all decode load to exactly their instructions |
| Interpreter.LineResults | assembler_interpreter/src/main.cpp:561-570 | one decode result per program line |
| Interpreter.LoadOk | assembler_interpreter/src/main.cpp:561-570 | `load_program` succeeds exactly when every line decodes |
| Interpreter.LoadValues | assembler_interpreter/src/main.cpp:561-570 | a loaded program holds the decoded lines in order |
| Interpreter.LoadFirstError | assembler_interpreter/src/main.cpp:561-570 | a failed `load_program` throws for the first line that does not decode |
| Interpreter.LoadIsLoaded | assembler_interpreter/src/main.cpp:561-570 | every instruction of a loaded program was decoded from its text |
| Interpreter.AssemblerRegisters | assembler_interpreter/src/main.cpp:649-655 | the registers `assembler` returns are destinations of the program's instructions and hold `int`s |
| Interpreter.ExecuteMoreFuel | assembler_interpreter/src/main.cpp:572-586 | once `pre_run` plus `run_program` has an outcome, a larger bound changes nothing |
| Interpreter.AssemblerMoreFuel | assembler_interpreter/src/main.cpp:649-655 | once `assembler` has an answer, a larger bound changes nothing |
| Interpreter.InterpreterMoreFuel | assembler_interpreter/src/main.cpp:730-737 | once `assembler_interpreter` has an answer, a larger bound changes nothing |
| Interpreter.NoEndAnswersSentinel | assembler_interpreter/src/main.cpp:730-737 | a program text without `end` answers "-1" whenever it answers |
| Interpreter.EmptyPrograms | assembler_interpreter/src/main.cpp:649-655 | the empty program returns no registers, and the empty text answers "-1" |
| Interpreter.LoadFormatted | assembler_interpreter/src/main.cpp:561-570 | a program whose operand texts are tokens loads back from its canonical lines |
| Interpreter.FormatSplits | assembler_interpreter/src/main.cpp:698-703 | the canonical line of an instruction splits into its canonical tokens |
| Simple.WordLengthShape | simple_assembler_interpreter/src/main.cpp:240-245 | a word runs up to the first white-space character |
| Simple.WordsAreWords | simple_assembler_interpreter/src/main.cpp:240-245 | every token `split_tokens` reads is non-empty and has no white space |
| Simple.WordsSkipWhite | simple_assembler_interpreter/src/main.cpp:240-245 | leading white space produces no token |
| Simple.WordsFirst | simple_assembler_interpreter/src/main.cpp:240-245 | a word followed by white space or the end is read whole |
| Simple.WordsJoin | simple_assembler_interpreter/src/main.cpp:240-245 | splitting words joined by single spaces gives the words back |
| Simple.SimpleLookup | simple_assembler_interpreter/src/main.cpp:184-190 | a name found in the four-entry table belongs to the opcode registered under it |
| Simple.SimpleLookupAgrees | simple_assembler_interpreter/src/main.cpp:184-190 | the simple table is the full table cut down to mov, jnz, inc and dec |
| Simple.SimpleDecode | simple_assembler_interpreter/src/main.cpp:192-196 | a line fails exactly when it has no token, an unknown name or too few operands; otherwise it is one of the four instructions |
| Simple.SimpleBuild | simple_assembler_interpreter/src/main.cpp:102-115 | the four constructors always succeed given enough tokens |
| Simple.SimpleDecodeAgrees | simple_assembler_interpreter/src/main.cpp:154-196 | the simple interpreter decodes a line it accepts exactly as the full interpreter does |
| Simple.SimpleLoadIsSimple | simple_assembler_interpreter/src/main.cpp:220-229 | a loaded simple program holds only the four instructions |
| Simple.NoLabels | assembler_interpreter/src/main.cpp:572-578 | a program without label instructions has an empty label table |
| Simple.SimpleIsFull | simple_assembler_interpreter/src/main.cpp:266-272 | the simple `assembler` is the full machine run on the simple program |
| Simple.SimpleRegisters | simple_assembler_interpreter/src/main.cpp:251-254 | the registers a simple run returns are destinations of the program and hold `int`s |
| Simple.SimpleLoadDecoded | simple_assembler_interpreter/src/main.cpp:220-229 | every instruction of a loaded simple program has its operands decoded from their text |
| Examples.CountdownEndsAtZero | simple_assembler_interpreter/test/assembler_tests.cpp:52-57 | for every start value k from 1 to `INT_MAX`, the countdown `mov a k; dec a; jnz a -1` ends with only a = 0 |
| Examples.CountdownLoads | simple_assembler_interpreter/test/assembler_tests.cpp:52-57 | the countdown lines load to mov, dec and jnz with a literal -1 |
| Examples.ArithmeticCases | assembler_interpreter/test/assembler_tests.cpp:120-125 | division truncates (5/2 = 2, -7/2 = -3, 7/-2 = -3); a zero divisor, `INT_MAX`+1 and `INT_MIN`/-1 fail |
| Examples.ParseCases | assembler_interpreter/src/main.cpp:40-41 | "5" reads as 5 and "-12," as -12; "x" and "-" have no digits |
| Examples.SplitQuoted | assembler_interpreter/src/main.cpp:698-703 | a quoted `msg` argument keeps its comma and space, and the comma after it separates |
| Examples.MovThenInc | assembler_interpreter/test/assembler_tests.cpp:32-37 | `mov a 5; inc a` in the full interpreter returns exactly a = 6 |
| Examples.EndStopsEarly | assembler_interpreter/src/main.cpp:556-560 | `msg 'done'; end; inc a` stops at `end` without running `inc`, and `flush` then gives "done" |
| Examples.EndBeforeDiv | assembler_interpreter/test/assembler_tests.cpp:134-139 | `mov a 5; end; div a 2` returns exactly a = 5: the division after `end` never runs |
| Examples.MovSelf | assembler_interpreter/test/assembler_tests.cpp:25-30 | `mov a 5; mov a a` returns exactly a = 5 |
| Examples.MovDecInc | assembler_interpreter/test/assembler_tests.cpp:46-51 | `mov a 5; dec a; mov b a; inc b; mov c 6; dec c` returns exactly a = 4, b = 5, c = 5 |
| Examples.MovThenAdd | assembler_interpreter/test/assembler_tests.cpp:92-97 | `mov a 5; add a 1` returns exactly a = 6 |
| Examples.MovThenSub | assembler_interpreter/test/assembler_tests.cpp:99-104 | `mov a 5; sub a 1` returns exactly a = 4 |
| Examples.MovThenMul | assembler_interpreter/test/assembler_tests.cpp:106-111 | `mov a 5; mul a 2` returns exactly a = 10 |
| Examples.MovThenDiv | assembler_interpreter/test/assembler_tests.cpp:113-118 | `mov a 4; div a 2` returns exactly a = 2 |
| Examples.MovThenDivTruncates | assembler_interpreter/test/assembler_tests.cpp:120-125 | `mov a 5; div a 2` returns exactly a = 2: the quotient is truncated |
| Examples.MovThenArith | assembler_interpreter/src/main.cpp:211-250 | `mov a m` followed by an arithmetic instruction on `a` with a one-digit literal returns exactly `a` holding the arithmetic's value |
| Examples.SimpleEmpty | simple_assembler_interpreter/test/assembler_tests.cpp:10-15 | the simple interpreter returns no registers for the empty program |
| Examples.FarJumpEnds | assembler_interpreter/test/assembler_tests.cpp:69-74 | `jnz 5 10` as the seventh of eight instructions ends the run without executing the eighth |
| Examples.JumpToFirstOverruns | assembler_interpreter/src/main.cpp:541-555 | a taken `jnz` from the fourth and last instruction back to the first is treated as out of range, and continuing steps beyond `end()` |

## Left out

- The I/O around the entry points is not modelled: `std::stringstream`, `std::istringstream` and the test harness. Lines, program text and output are plain strings.
- The general regular-expression engine is not modelled. Only the effect of the two ECMAScript expressions is, written as a left-to-right scan with the look-ahead as a quote-parity test. `.` does not match `\n` or `\r`; the comment stripper handles `\r` with the general scan, and `Sanitize.StripCommentCuts` covers lines without it.
- Only the C locale is modelled for `std::isspace` and `std::isalpha`. Strings are sequences of characters treated as bytes. A non-ASCII character, on which the two functions are undefined behaviour for a signed `char`, is read as neither a letter nor white space.
- `add`, `sub`, `mul` and `div` compute `get_register(d) op get_value_of(s)`, and C++ leaves the order of the two operands unspecified. The model resolves the source first and then reads the destination through `operator[]`. The two orders differ when the source names the destination and that register was never written. For `add a a` on an unwritten `a`, reading the destination first creates `a` = 0, so the source then resolves and the run goes on with a = 0. The model instead fails with an undefined register (`MachineProps.ArithRule`).
- `mov d s` relies on the C++17 rule that the right operand of `=` is sequenced before the left. The source is resolved before `operator[]` creates `d`, so `mov a a` on an unwritten `a` throws, and the model does the same. Under an earlier standard the order is unspecified. The build files that fix the language standard are not part of this model.
- Undefined behaviour (signed overflow, division by zero, `top()` on an empty stack, stepping past `end()`) is not modelled as what a compiler might do. It becomes an explicit error that stops the run.
- Control.AdvanceIp: the range test at `assembler_interpreter/src/main.cpp:543-546` is modelled as the index comparison the code intends, not as undefined behaviour. For a target outside `[begin, end]`, `next(ip_, diff - 1)` already forms an iterator outside the vector. The model instead falls back to `ip + 1`, and so does everything built on it: `MachineProps.JnzTaken`, `Examples.FarJumpEnds` and `Examples.JumpToFirstOverruns`.
- Termination is not modelled: a run takes a step bound `fuel`. A program that would loop forever answers `Unfinished` for every bound.
- Operands are classified when a line is decoded, not on each execution. `Values.ValueOfToken` shows the result is the same as classifying the token at run time.
- The tests in `assembler_interpreter/test/assembler_interpreter.cpp:10-61` expect `""` and `"Reg: 5"` from programs without `end`. The code answers `"-1"` for them, because `flush` reads `default_out` unless `end` ran. The model follows the code (`Interpreter.NoEndAnswersSentinel`, `Interpreter.EmptyPrograms`).
- A line `name: x` declares the label `x`, not `name`. The factory appends the prefix after the remaining tokens, and `Label` reads the first of them. The model keeps this behaviour.
- The simple interpreter's `run_program` is modelled by the full interpreter's machine run with an empty label table. Its four instruction bodies and `advance_ip` are the same code, and `Simple.SimpleIsFull` states the identity.
- MachineProps.CallThenRet is stated for any label table that records the label inside the program, not only for the table `pre_run` builds.
- Text.IndexOf, Text.LeadingSpaces, Text.Ltrim, Tokens.SeparatorAt, Sanitize.DotRun, Sanitize.CommentAt and Simple.WordLength: the contract on the function states only the length bound. The shape of the result is in the companion lemma (`IndexOfShape`, `LeadingSpacesShape`, `LtrimShape`, `DotRunAll`, `LastEvenSuffix`, `WordLengthShape`).
- Machine.Step: its own contract states only the instruction-pointer bound. The behaviour of each instruction is in the rule lemmas of `MachineProps` (`MovRule`, `IncRule`, `DecRule`, `ArithRule`, `JnzTaken`, `JnzNotTaken`, `CondJumpRule`, `CallRule`, `RetRule`, `MsgRule`) and in `Machine.Compare` and `RunProps.EndHalts`.
