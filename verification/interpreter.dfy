/** The two entry points of the full interpreter: assembler, which runs a
    list of instruction lines and returns the registers, and
    assembler_interpreter, which sanitises a program text, runs it and
    returns what flush gives. */
module Interpreter {
  import opened Base
  import opened Text
  import opened Decimal
  import opened Values
  import opened Tokens
  import opened Sanitize
  import opened Instructions
  import opened Machine
  import opened MachineProps
  import opened RunProps

  /** How a call of an entry point ends: with a value, with an exception or
      undefined behaviour, or still running after the allowed steps. */
  datatype Answer<T> = Returned(value: T) | Threw(error: Error) | Unfinished

  /** Machine::load_program: every line is split into tokens and decoded
      before anything runs, in order, so the first bad line decides the
      error. */
  function Load(lines: seq<string>): Result<Program> {
    Collect(LineResults(lines))
  }

  /** One program line: TokenSplitter, then create_instruction. */
  function DecodeLine(line: string): Result<Instr> {
    Decode(Split(line))
  }

  /** The values of a sequence of results, or the first error among them. */
  function Collect<T>(rs: seq<Result<T>>): Result<seq<T>> {
    if rs == [] then Ok([])
    else
      var first :- rs[0];
      var rest :- Collect(rs[1..]);
      Ok([first] + rest)
  }

  /** Collecting succeeds exactly when every result does, and then holds
      their values in order. */
  lemma {:induction false} CollectEach<T>(rs: seq<Result<T>>)
    ensures Collect(rs).Ok? <==> forall k :: 0 <= k < |rs| ==> rs[k].Ok?
    ensures Collect(rs).Ok? ==>
              |Collect(rs).value| == |rs| &&
              forall k :: 0 <= k < |rs| ==> Collect(rs).value[k] == rs[k].value
    decreases |rs|
  {
    if rs != [] {
      CollectEach(rs[1..]);
      assert forall k :: 1 <= k < |rs| ==> rs[1..][k - 1] == rs[k];
    }
  }

  /** A failed collection reports the first error. */
  lemma {:induction false} CollectFirstError<T>(rs: seq<Result<T>>)
    requires Collect(rs).Err?
    ensures exists k :: 0 <= k < |rs| && rs[k].Err? &&
              (forall j :: 0 <= j < k ==> rs[j].Ok?) && Collect(rs).error == rs[k].error
    decreases |rs|
  {
    if rs[0].Ok? {
      CollectFirstError(rs[1..]);
      var k :| 0 <= k < |rs[1..]| && rs[1..][k].Err? &&
               (forall j :: 0 <= j < k ==> rs[1..][j].Ok?) && Collect(rs[1..]).error == rs[1..][k].error;
      assert rs[k + 1] == rs[1..][k];
      forall j | 0 <= j < k + 1
        ensures rs[j].Ok?
      {
        if j > 0 {
          assert rs[j] == rs[1..][j - 1];
        }
      }
    }
  }

  /** Results that are all values collect to exactly those values. */
  lemma CollectValues<T>(rs: seq<Result<T>>, vs: seq<T>)
    requires |rs| == |vs| && forall k :: 0 <= k < |rs| ==> rs[k] == Ok(vs[k])
    ensures Collect(rs) == Ok(vs)
  {
    CollectEach(rs);
    assert Collect(rs).value == vs;
  }

  /** The decoded lines, in order. */
  function LineResults(lines: seq<string>): (rs: seq<Result<Instr>>)
    ensures |rs| == |lines|
  {
    seq(|lines|, k requires 0 <= k < |lines| => DecodeLine(lines[k]))
  }

  /** Loading succeeds exactly when every line decodes. */
  lemma LoadOk(lines: seq<string>)
    ensures Load(lines).Ok? <==> forall k :: 0 <= k < |lines| ==> DecodeLine(lines[k]).Ok?
  {
    var rs := LineResults(lines);
    CollectEach(rs);
    assert forall k :: 0 <= k < |lines| ==> rs[k] == DecodeLine(lines[k]);
  }

  /** A loaded program holds the decoded lines in order. */
  lemma LoadValues(lines: seq<string>)
    requires Load(lines).Ok?
    ensures |Load(lines).value| == |lines|
    ensures forall k :: 0 <= k < |lines| ==> DecodeLine(lines[k]) == Ok(Load(lines).value[k])
  {
    var rs := LineResults(lines);
    CollectEach(rs);
    assert forall k :: 0 <= k < |lines| ==> rs[k] == DecodeLine(lines[k]);
  }

  /** A failed load reports the error of the first line that does not
      decode. */
  lemma LoadFirstError(lines: seq<string>)
    requires Load(lines).Err?
    ensures exists k :: 0 <= k < |lines| && DecodeLine(lines[k]).Err? &&
              (forall j :: 0 <= j < k ==> DecodeLine(lines[j]).Ok?) &&
              Load(lines).error == DecodeLine(lines[k]).error
  {
    var rs := LineResults(lines);
    CollectFirstError(rs);
    assert forall k :: 0 <= k < |lines| ==> rs[k] == DecodeLine(lines[k]);
  }

  /** Every instruction of a loaded program was decoded from its text. */
  lemma LoadIsLoaded(lines: seq<string>)
    requires Load(lines).Ok?
    ensures Loaded(Load(lines).value)
  {
    LoadValues(lines);
    forall k | 0 <= k < |lines|
      ensures Decoded(Load(lines).value[k])
    {
      DecodeLineIsDecoded(lines[k]);
    }
  }

  /** A decoded line is in the form create_instruction builds. */
  lemma DecodeLineIsDecoded(line: string)
    requires DecodeLine(line).Ok?
    ensures Decoded(DecodeLine(line).value)
  {
    DecodeIsDecoded(Split(line));
  }

  /** pre_run followed by run_program, with at most fuel steps. */
  function Execute(prog: Program, fuel: nat): Outcome {
    Run(prog, Labels(prog), Initial, fuel)
  }

  /** The function assembler. */
  function Assembler(lines: seq<string>, fuel: nat): Answer<Registers> {
    RegistersOf(Load(lines), fuel)
  }

  /** What assembler returns once its lines are loaded: the registers
      run_program leaves. */
  function RegistersOf(loaded: Result<Program>, fuel: nat): Answer<Registers> {
    match loaded
    case Err(e) => Threw(e)
    case Ok(prog) =>
      match Execute(prog, fuel)
      case Finished(s) => Returned(s.regs)
      case Failed(e) => Threw(e)
      case OutOfFuel => Unfinished
  }

  /** The function assembler_interpreter. */
  function AssemblerInterpreter(raw: string, fuel: nat): Answer<string> {
    FlushOf(Load(SanitizeRawProgram(raw)), fuel)
  }

  /** What assembler_interpreter returns once its lines are loaded: what
      flush gives after run_program. */
  function FlushOf(loaded: Result<Program>, fuel: nat): Answer<string> {
    match loaded
    case Err(e) => Threw(e)
    case Ok(prog) =>
      match Execute(prog, fuel)
      case Finished(s) => Returned(Flush(s))
      case Failed(e) => Threw(e)
      case OutOfFuel => Unfinished
  }

  /** The registers assembler returns are the destinations of the program's
      instructions and hold ints. */
  lemma AssemblerRegisters(lines: seq<string>, fuel: nat)
    requires Assembler(lines, fuel).Returned?
    ensures Assembler(lines, fuel).value.Keys <= Dests(Load(lines).value)
    ensures forall r :: r in Assembler(lines, fuel).value ==> IsInt32(Assembler(lines, fuel).value[r])
  {
    var prog := Load(lines).value;
    LoadIsLoaded(lines);
    RunRegisters(prog, Labels(prog), Initial, fuel);
    RunValid(prog, Labels(prog), Initial, fuel);
  }

  /** Once a program has an outcome, more steps change nothing. */
  lemma ExecuteMoreFuel(prog: Program, fuel: nat, more: nat)
    requires !Execute(prog, fuel).OutOfFuel?
    ensures Execute(prog, fuel + more) == Execute(prog, fuel)
  {
    RunMoreFuel(prog, Labels(prog), Initial, fuel, more);
  }

  /** Once the loaded program has an answer, more steps change nothing. */
  lemma RegistersMoreFuel(loaded: Result<Program>, fuel: nat, more: nat)
    requires !RegistersOf(loaded, fuel).Unfinished?
    ensures RegistersOf(loaded, fuel + more) == RegistersOf(loaded, fuel)
  {
    if loaded.Ok? {
      ExecuteMoreFuel(loaded.value, fuel, more);
    }
  }

  /** Once assembler has an answer, more steps change nothing. */
  lemma AssemblerMoreFuel(lines: seq<string>, fuel: nat, more: nat)
    requires !Assembler(lines, fuel).Unfinished?
    ensures Assembler(lines, fuel + more) == Assembler(lines, fuel)
  {
    RegistersMoreFuel(Load(lines), fuel, more);
  }

  /** Once the loaded program text has an answer, more steps change
      nothing. */
  lemma FlushMoreFuel(loaded: Result<Program>, fuel: nat, more: nat)
    requires !FlushOf(loaded, fuel).Unfinished?
    ensures FlushOf(loaded, fuel + more) == FlushOf(loaded, fuel)
  {
    if loaded.Ok? {
      ExecuteMoreFuel(loaded.value, fuel, more);
    }
  }

  /** Once assembler_interpreter has an answer, more steps change nothing. */
  lemma InterpreterMoreFuel(raw: string, fuel: nat, more: nat)
    ensures !AssemblerInterpreter(raw, fuel).Unfinished? ==>
              AssemblerInterpreter(raw, fuel + more) == AssemblerInterpreter(raw, fuel)
  {
    if !AssemblerInterpreter(raw, fuel).Unfinished? {
      FlushMoreFuel(Load(SanitizeRawProgram(raw)), fuel, more);
    }
  }

  /** A program text without end answers "-1" whenever it answers at all,
      whatever msg wrote. */
  lemma NoEndAnswersSentinel(raw: string, fuel: nat)
    requires Load(SanitizeRawProgram(raw)).Ok?
    requires NoEnd(Load(SanitizeRawProgram(raw)).value)
    ensures AssemblerInterpreter(raw, fuel).Returned? ==> AssemblerInterpreter(raw, fuel).value == "-1"
  {
    var prog := Load(SanitizeRawProgram(raw)).value;
    if Execute(prog, fuel).Finished? {
      NoEndFlushesSentinel(prog, Labels(prog), Initial, fuel);
    }
  }

  /** The empty program returns no registers; the empty program text
      answers "-1", since end never runs. */
  lemma EmptyPrograms(fuel: nat)
    ensures Assembler([], fuel) == Returned(map[])
    ensures AssemblerInterpreter("", fuel) == Returned("-1")
  {
    assert DeleteBracesFrontAndEnd("") == "";
    assert GetLines("") == [];
    assert SanitizeRawProgram("") == [];
  }

  /** The canonical text of an instruction: its tokens separated by single
      spaces. */
  function Format(i: Instr): string {
    var tokens := Render(i);
    Interleave(tokens, seq(|tokens| - 1, _ => " "))
  }

  /** Every opcode name is a plain token. */
  lemma NameIsPlain(op: Opcode)
    ensures IsToken(Name(op))
  {
  }

  /** A program whose operand texts are tokens is loaded back from its
      canonical lines. */
  lemma LoadFormatted(prog: Program)
    requires forall k :: 0 <= k < |prog| ==> Decoded(prog[k])
    requires forall k, j :: 0 <= k < |prog| && 0 <= j < |Operands(prog[k])| ==> IsToken(Operands(prog[k])[j])
    ensures Load(seq(|prog|, k requires 0 <= k < |prog| => Format(prog[k]))) == Ok(prog)
  {
    var lines := seq(|prog|, k requires 0 <= k < |prog| => Format(prog[k]));
    forall k | 0 <= k < |prog|
      ensures DecodeLine(lines[k]) == Ok(prog[k])
    {
      FormatSplits(prog[k]);
      DecodeRender(prog[k]);
    }
    LoadOk(lines);
    LoadValues(lines);
    assert Load(lines).value == prog;
  }

  lemma FormatSplits(i: Instr)
    requires forall j :: 0 <= j < |Operands(i)| ==> IsToken(Operands(i)[j])
    ensures Split(Format(i)) == Render(i)
  {
    var tokens := Render(i);
    NameIsPlain(OpcodeOf(i));
    assert forall j :: 1 <= j < |tokens| ==> tokens[j] == Operands(i)[j - 1];
    var seps := seq(|tokens| - 1, _ => " ");
    assert forall j :: 0 <= j < |seps| ==> IsSeparator(seps[j]);
    SplitInterleave(tokens, seps, "");
    assert Format(i) + "" == Format(i);
  }
}
