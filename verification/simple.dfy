/** The simple interpreter: the machine of the full one restricted to mov,
    inc, dec and jnz, with no labels, no pre_run and lines split at white
    space by an std::istringstream. Its instructions behave exactly as the
    full interpreter's instructions of the same name, so the model reuses
    Machine.Step and Machine.Run. */
module Simple {
  import opened Base
  import opened Text
  import opened Decimal
  import opened Values
  import opened Instructions
  import opened Machine
  import opened RunProps
  import opened Interpreter

  /** A word istream_iterator can read: some characters, none white. */
  predicate IsWord(w: string) {
    w != [] && forall i :: 0 <= i < |w| ==> !IsSpace(w[i])
  }

  /** Length of the longest prefix of s without white space. */
  function WordLength(s: string): (k: nat)
    ensures k <= |s|
  {
    if s != [] && !IsSpace(s[0]) then 1 + WordLength(s[1..]) else 0
  }

  lemma {:induction false} WordLengthShape(s: string)
    ensures forall i :: 0 <= i < WordLength(s) ==> !IsSpace(s[i])
    ensures WordLength(s) == |s| || IsSpace(s[WordLength(s)])
    decreases |s|
  {
    if s != [] && !IsSpace(s[0]) {
      WordLengthShape(s[1..]);
      assert forall i :: 1 <= i < WordLength(s) ==> s[i] == s[1..][i - 1];
    }
  }

  /** Machine::split_tokens: std::istream_iterator<std::string> skips white
      space, reads the longest run of other characters, and stops at the
      end of the text. */
  function Words(s: string): seq<string>
    decreases |s|
  {
    if s == [] then []
    else if IsSpace(s[0]) then Words(s[1..])
    else
      var k := WordLength(s);
      [s[..k]] + Words(s[k..])
  }

  /** Every token read is a word. */
  lemma {:induction false} WordsAreWords(s: string)
    ensures forall i :: 0 <= i < |Words(s)| ==> IsWord(Words(s)[i])
    decreases |s|
  {
    if s != [] {
      if IsSpace(s[0]) {
        WordsAreWords(s[1..]);
      } else {
        var k := WordLength(s);
        WordLengthShape(s);
        WordsAreWords(s[k..]);
        assert IsWord(s[..k]);
      }
    }
  }

  /** White space in front of the text changes nothing. */
  lemma {:induction false} WordsSkipWhite(sp: string, s: string)
    requires AllSpace(sp)
    ensures Words(sp + s) == Words(s)
    decreases |sp|
  {
    if sp == [] {
      assert sp + s == s;
    } else {
      assert (sp + s)[1..] == sp[1..] + s;
      WordsSkipWhite(sp[1..], s);
    }
  }

  lemma {:induction false} WordLengthStop(w: string, rest: string)
    requires forall i :: 0 <= i < |w| ==> !IsSpace(w[i])
    requires rest == [] || IsSpace(rest[0])
    ensures WordLength(w + rest) == |w|
    decreases |w|
  {
    if w == [] {
      assert w + rest == rest;
    } else {
      assert (w + rest)[1..] == w[1..] + rest;
      WordLengthStop(w[1..], rest);
    }
  }

  /** A word followed by white space or the end of the text is read whole. */
  lemma WordsFirst(w: string, rest: string)
    requires IsWord(w)
    requires rest == [] || IsSpace(rest[0])
    ensures Words(w + rest) == [w] + Words(rest)
  {
    WordLengthStop(w, rest);
    var s := w + rest;
    assert s[0] == w[0];
    assert s[..|w|] == w;
    assert s[|w|..] == rest;
  }

  /** Splitting words joined by single spaces gives them back. */
  lemma {:induction false} WordsJoin(ws: seq<string>)
    requires forall i :: 0 <= i < |ws| ==> IsWord(ws[i])
    ensures Words(JoinChar(ws, ' ')) == ws
    decreases |ws|
  {
    if |ws| == 1 {
      WordsFirst(ws[0], []);
      assert ws[0] + [] == ws[0];
    } else if |ws| > 1 {
      var rest := JoinChar(ws[1..], ' ');
      AppendAssoc(ws[0], [' '], rest);
      WordsFirst(ws[0], [' '] + rest);
      assert ([' '] + rest)[1..] == rest;
      WordsJoin(ws[1..]);
      SeqCons(ws);
    }
  }

  /** The four keys of the simple instruction_map_. */
  function SimpleLookup(name: string): (r: Option<Opcode>)
    ensures r.Some? ==> Name(r.value) == name
  {
    match name
    case "mov" => Some(OMov) case "jnz" => Some(OJnz)
    case "inc" => Some(OInc) case "dec" => Some(ODec)
    case _ => None
  }

  /** The simple table is the full one cut down to mov, jnz, inc and dec. */
  lemma SimpleLookupAgrees(name: string)
    ensures SimpleLookup(name).Some? <==>
              Lookup(name).Some? && Lookup(name).value in {OMov, OJnz, OInc, ODec}
    ensures SimpleLookup(name).Some? ==> SimpleLookup(name) == Lookup(name)
  {
    if Lookup(name).Some? {
      LookupName(Lookup(name).value);
    }
  }

  /** The instructions the simple interpreter knows. */
  predicate IsSimple(i: Instr) {
    i.Mov? || i.Inc? || i.Dec? || i.Jnz?
  }

  /** Machine::load_program on one line's tokens: tokens.front() is the
      opcode (undefined behaviour on a line without tokens), the factory's
      instruction_map_.at throws for any other name, and the constructors
      read their operands with tokens.at. A name with ':' is just an unknown
      opcode here. */
  function SimpleDecode(tokens: seq<string>): (r: Result<Instr>)
    ensures r.Err? <==>
              || tokens == []
              || SimpleLookup(tokens[0]).None?
              || |tokens| - 1 < Arity(SimpleLookup(tokens[0]).value)
    ensures r.Ok? ==> IsSimple(r.value)
    ensures tokens != [] && SimpleLookup(tokens[0]).None? ==> r == Err(UnknownOpcode(tokens[0]))
  {
    if tokens == [] then Err(EmptyLine)
    else
      var name, args := tokens[0], tokens[1..];
      match SimpleLookup(name)
      case None => Err(UnknownOpcode(name))
      case Some(op) =>
        if |args| < Arity(op) then Err(MissingOperand(name))
        else SimpleBuild(op, args)
  }

  /** The constructors of the four simple instructions. */
  function SimpleBuild(op: Opcode, args: seq<string>): (r: Result<Instr>)
    requires op in {OMov, OJnz, OInc, ODec} && |args| >= Arity(op)
    ensures r.Ok? && IsSimple(r.value)
  {
    Ok(Build(op, args))
  }

  /** On a line the simple interpreter accepts, it decodes exactly what the
      full interpreter decodes. */
  lemma SimpleDecodeAgrees(tokens: seq<string>)
    requires tokens != [] && SimpleLookup(tokens[0]).Some?
    ensures SimpleDecode(tokens) == Decode(tokens)
  {
    SimpleLookupAgrees(tokens[0]);
    assert ':' !in tokens[0];
  }

  /** load_program: every line split into words and decoded, in order. */
  function SimpleLoad(lines: seq<string>): Result<Program> {
    Collect(seq(|lines|, k requires 0 <= k < |lines| => SimpleDecode(Words(lines[k]))))
  }

  /** A loaded simple program holds only the four instructions and no
      label. */
  lemma SimpleLoadIsSimple(lines: seq<string>)
    requires SimpleLoad(lines).Ok?
    ensures forall k :: 0 <= k < |SimpleLoad(lines).value| ==> IsSimple(SimpleLoad(lines).value[k])
  {
    var rs := seq(|lines|, k requires 0 <= k < |lines| => SimpleDecode(Words(lines[k])));
    CollectEach(rs);
  }

  /** The function assembler: load_program, then run_program from the
      first instruction, and the registers it leaves. No pre_run: nothing
      looks labels up. */
  function SimpleAssembler(lines: seq<string>, fuel: nat): Answer<Registers> {
    match SimpleLoad(lines)
    case Err(e) => Threw(e)
    case Ok(prog) =>
      match Run(prog, map[], Initial, fuel)
      case Finished(s) => Returned(s.regs)
      case Failed(e) => Threw(e)
      case OutOfFuel => Unfinished
  }

  /** A program without label instructions has an empty label table. */
  lemma {:induction false} NoLabels(prog: Program)
    requires forall k :: 0 <= k < |prog| ==> !prog[k].Label?
    ensures Labels(prog) == map[]
    decreases |prog|
  {
    if prog != [] {
      var init := prog[..|prog| - 1];
      assert forall k :: 0 <= k < |init| ==> init[k] == prog[k];
      NoLabels(init);
    }
  }

  /** The simple interpreter is the full one's machine run on the simple
      program: the full pre_run would find no label in it. */
  lemma SimpleIsFull(lines: seq<string>, fuel: nat)
    ensures SimpleAssembler(lines, fuel) == RegistersOf(SimpleLoad(lines), fuel)
  {
    if SimpleLoad(lines).Ok? {
      var prog := SimpleLoad(lines).value;
      SimpleLoadIsSimple(lines);
      NoLabels(prog);
    }
  }

  /** The registers of a simple run hold ints and are the program's
      destinations. */
  lemma SimpleRegisters(lines: seq<string>, fuel: nat)
    requires SimpleAssembler(lines, fuel).Returned?
    ensures SimpleAssembler(lines, fuel).value.Keys <= Dests(SimpleLoad(lines).value)
    ensures forall r :: r in SimpleAssembler(lines, fuel).value ==> IsInt32(SimpleAssembler(lines, fuel).value[r])
  {
    SimpleIsFull(lines, fuel);
    var prog := SimpleLoad(lines).value;
    SimpleLoadIsSimple(lines);
    forall k | 0 <= k < |prog|
      ensures Decoded(prog[k])
    {
      SimpleLoadDecoded(lines, k);
    }
    RunRegisters(prog, Labels(prog), Initial, fuel);
    RunValid(prog, Labels(prog), Initial, fuel);
  }

  lemma SimpleLoadDecoded(lines: seq<string>, k: nat)
    requires SimpleLoad(lines).Ok? && k < |SimpleLoad(lines).value|
    ensures Decoded(SimpleLoad(lines).value[k])
  {
    var rs := seq(|lines|, k requires 0 <= k < |lines| => SimpleDecode(Words(lines[k])));
    CollectEach(rs);
    var tokens := Words(lines[k]);
    assert rs[k] == SimpleDecode(tokens);
    SimpleDecodeAgrees(tokens);
    DecodeIsDecoded(tokens);
  }
}
