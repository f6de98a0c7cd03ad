/** Concrete programs and what the interpreters make of them. */
module Examples {
  import opened Base
  import opened Text
  import opened Decimal
  import opened Values
  import opened Tokens
  import opened Instructions
  import opened Machine
  import opened MachineProps
  import opened RunProps
  import opened Interpreter
  import opened Simple

  /** The countdown loop: load k into a, then decrement a until it is 0;
      "jnz a -1" jumps back to the dec. */
  function Countdown(k: nat): seq<string> {
    ["mov a " + NatDigits(k), "dec a", "jnz a -1"]
  }

  function CountdownProgram(k: nat): Program {
    [Mov("a", Lit(NatDigits(k), Ok(k))), Dec("a"), Jnz(Reg("a"), Lit("-1", Ok(-1)))]
  }

  /** With enough steps (one for mov and two per round) the countdown ends
      with a holding 0, from any start value that fits in an int. */
  lemma CountdownEndsAtZero(k: nat, fuel: nat)
    requires 1 <= k <= IntMax && fuel >= 1 + 2 * k
    ensures SimpleAssembler(Countdown(k), fuel) == Returned(map["a" := 0])
  {
    var prog := CountdownProgram(k);
    CountdownLoads(k);
    var s := Initial.(regs := map["a" := k], ip := 1);
    assert Step(prog, map[], Initial) == Ok(s);
    RunStep(prog, map[], Initial, fuel, s);
    CountdownLoop(k, k, s, fuel - 1);
  }

  /** One round from the dec with a == j. */
  lemma {:induction false} CountdownLoop(k: nat, j: nat, s: State, fuel: nat)
    requires 1 <= j <= IntMax
    requires s.ip == 1 && s.regs == map["a" := j]
    requires fuel >= 2 * j
    ensures Run(CountdownProgram(k), map[], s, fuel) == Finished(s.(regs := map["a" := 0], ip := 3))
    decreases j
  {
    var prog := CountdownProgram(k);
    var t := s.(regs := map["a" := j - 1], ip := 2);
    CountdownDec(k, j, s);
    RunStep(prog, map[], s, fuel, t);
    if j == 1 {
      var u := t.(ip := 3);
      CountdownJnz(k, t);
      RunStep(prog, map[], t, fuel - 1, u);
    } else {
      var u := t.(ip := 1);
      CountdownJnz(k, t);
      RunStep(prog, map[], t, fuel - 1, u);
      CountdownLoop(k, j - 1, u, fuel - 2);
    }
  }

  lemma CountdownDec(k: nat, j: nat, s: State)
    requires 1 <= j <= IntMax
    requires s.ip == 1 && s.regs == map["a" := j]
    ensures Step(CountdownProgram(k), map[], s) == Ok(s.(regs := map["a" := j - 1], ip := 2))
  {
    assert s.regs["a" := j - 1] == map["a" := j - 1];
  }

  /** jnz a -1 goes back to the dec while a is not 0 and falls through to
      the end once it is. */
  lemma CountdownJnz(k: nat, t: State)
    requires t.ip == 2 && "a" in t.regs
    ensures Step(CountdownProgram(k), map[], t) ==
            Ok(t.(ip := if t.regs["a"] == 0 then 3 else 1))
  {
  }

  lemma CountdownLoads(k: nat)
    requires k <= IntMax
    ensures SimpleLoad(Countdown(k)) == Ok(CountdownProgram(k))
  {
    var lines := Countdown(k);
    var rs := seq(|lines|, i requires 0 <= i < |lines| => SimpleDecode(Words(lines[i])));
    var p := CountdownProgram(k);
    forall i | 0 <= i < 3
      ensures rs[i] == Ok(p[i])
    {
      if i == 0 {
        MovLine(k);
      } else if i == 1 {
        DecLine(lines[1]);
      } else {
        JnzLine(lines[2]);
      }
    }
    CollectValues(rs, p);
  }

  lemma MovLine(k: nat)
    requires k <= IntMax
    ensures SimpleDecode(Words("mov a " + NatDigits(k))) == Ok(Mov("a", Lit(NatDigits(k), Ok(k))))
  {
    var d := NatDigits(k);
    MovWords(d);
    IsRegisterHasAlpha(d);
    ParseToDecimal(k, []);
    assert d + [] == d;
  }

  lemma MovWords(d: string)
    requires IsWord(d)
    ensures Words("mov a " + d) == ["mov", "a", d]
  {
    assert ["mov", "a", d][1..] == ["a", d];
    assert ["a", d][1..] == [d];
    assert JoinChar(["a", d], ' ') == "a " + d;
    assert JoinChar(["mov", "a", d], ' ') == "mov a " + d;
    WordsJoin(["mov", "a", d]);
  }

  lemma DecLine(line: string)
    requires line == "dec a"
    ensures SimpleDecode(Words(line)) == Ok(Dec("a"))
  {
    DecWords(line);
  }

  lemma DecWords(line: string)
    requires line == "dec a"
    ensures Words(line) == ["dec", "a"]
  {
    assert JoinChar(["dec", "a"], ' ') == line;
    WordsJoin(["dec", "a"]);
  }

  lemma JnzLine(line: string)
    requires line == "jnz a -1"
    ensures SimpleDecode(Words(line)) == Ok(Jnz(Reg("a"), Lit("-1", Ok(-1))))
  {
    JnzWords(line);
    MinusOne();
  }

  lemma JnzWords(line: string)
    requires line == "jnz a -1"
    ensures Words(line) == ["jnz", "a", "-1"]
  {
    assert JoinChar(["jnz", "a", "-1"], ' ') == line;
    WordsJoin(["jnz", "a", "-1"]);
  }

  /** "-1" is a literal, and std::stoi reads it as -1. */
  lemma MinusOne()
    ensures ToOperand("-1") == Lit("-1", Ok(-1))
  {
    ParseToDecimal(-1, []);
    assert ToDecimal(-1) + [] == "-1";
    IsRegisterHasAlpha("-1");
  }

  /** int division truncates toward zero; a zero divisor and a result
      outside int are undefined behaviour. */
  lemma ArithmeticCases()
    ensures Apply(Div, 5, 2) == Ok(2)
    ensures Apply(Div, -7, 2) == Ok(-3)
    ensures Apply(Div, 7, -2) == Ok(-3)
    ensures Apply(Div, 1, 0) == Err(DivisionByZero)
    ensures Apply(Add, IntMax, 1) == Err(Overflow)
    ensures Apply(Div, IntMin, -1) == Err(Overflow)
  {
    assert NatQuotient(5, 2) == 2;
    assert NatQuotient(7, 2) == 3;
    assert NatQuotient(0x8000_0000, 1) == 0x8000_0000;
  }

  /** std::stoi skips leading white space and stops at the first character
      that is not a digit. */
  lemma ParseCases()
    ensures ParseInt("5") == Ok(5)
    ensures ParseInt("-12,") == Ok(-12)
    ensures ParseInt("x") == Err(BadLiteral("x"))
    ensures ParseInt("-") == Err(BadLiteral("-"))
  {
    ParseToDecimal(5, []);
    assert ToDecimal(5) + [] == "5";
    ParseToDecimal(-12, ",");
    assert ToDecimal(-12) + "," == "-12,";
  }

  /** A quoted msg argument keeps its comma and space; the comma after it
      is part of the separator. */
  lemma SplitQuoted()
    ensures Split("msg 'a, b', x") == ["msg", "'a, b'", "x"]
  {
    var ws := ["msg", "'a, b'", "x"];
    var seps := [" ", ", "];
    assert IsSeparator(seps[1]) by {
      assert seps[1][1..] == " ";
    }
    assert IsQuoted(ws[1]) by {
      assert ws[1][1..|ws[1]| - 1] == "a, b";
    }
    assert Interleave(ws, seps) + "" == "msg 'a, b', x";
    SplitInterleave(ws, seps, "");
  }

  /** mov a 5 then inc a in the full interpreter leaves a at 6. */
  lemma MovThenInc(fuel: nat)
    requires fuel >= 2
    ensures Assembler(["mov a 5", "inc a"], fuel) == Returned(map["a" := 6])
  {
    var prog := MovIncProgram();
    MovIncLoads();
    MovIncRuns(fuel);
  }

  function MovIncProgram(): Program {
    [Mov("a", Lit("5", Ok(5))), Inc("a")]
  }

  lemma MovIncLoads()
    ensures Load(["mov a 5", "inc a"]) == Ok(MovIncProgram())
  {
    var lines, prog := ["mov a 5", "inc a"], MovIncProgram();
    forall k | 0 <= k < 2
      ensures DecodeLine(lines[k]) == Ok(prog[k])
    {
      if k == 0 {
        FullMovLine();
      } else {
        FullIncLine();
      }
    }
    LoadValuesOf(lines, prog);
  }

  lemma MovIncRuns(fuel: nat)
    requires fuel >= 2
    ensures Execute(MovIncProgram(), fuel) == Finished(Initial.(regs := map["a" := 6], ip := 2))
  {
    var prog := MovIncProgram();
    NoLabels(prog);
    var s := Initial.(regs := map["a" := 5], ip := 1);
    var t := s.(regs := map["a" := 6], ip := 2);
    MovIncFirst(s);
    MovIncSecond(s, t);
    RunStep(prog, map[], Initial, fuel, s);
    RunStep(prog, map[], s, fuel - 1, t);
  }

  lemma MovIncFirst(s: State)
    requires s == Initial.(regs := map["a" := 5], ip := 1)
    ensures Step(MovIncProgram(), map[], Initial) == Ok(s)
  {
    MovRule(MovIncProgram(), map[], Initial, "a", Lit("5", Ok(5)));
  }

  lemma MovIncSecond(s: State, t: State)
    requires s == Initial.(regs := map["a" := 5], ip := 1)
    requires t == s.(regs := map["a" := 6], ip := 2)
    ensures Step(MovIncProgram(), map[], s) == Ok(t)
  {
    IncRule(MovIncProgram(), map[], s, "a");
    assert s.regs["a" := 6] == map["a" := 6];
  }

  lemma LoadValuesOf(lines: seq<string>, prog: Program)
    requires |lines| == |prog|
    requires forall k :: 0 <= k < |lines| ==> DecodeLine(lines[k]) == Ok(prog[k])
    ensures Load(lines) == Ok(prog)
  {
    CollectValues(LineResults(lines), prog);
  }

  lemma FullMovLine()
    ensures DecodeLine("mov a 5") == Ok(Mov("a", Lit("5", Ok(5))))
  {
    FullMovTokens();
    MovTokens("a", "5", "mov a 5");
    Five();
  }

  lemma MovTokens(d: string, t: string, line: string)
    requires Split(line) == ["mov", d, t]
    ensures DecodeLine(line) == Ok(Mov(d, ToOperand(t)))
  {
    DecodeKnown(OMov, [d, t]);
    assert [Name(OMov)] + [d, t] == ["mov", d, t];
  }

  lemma FullMovTokens()
    ensures Split("mov a 5") == ["mov", "a", "5"]
  {
    var ws := ["mov", "a", "5"];
    assert Interleave(ws, [" ", " "]) + "" == "mov a 5";
    SplitInterleave(ws, [" ", " "], "");
  }

  lemma Five()
    ensures ToOperand("5") == Lit("5", Ok(5))
  {
    ParseToDecimal(5, []);
    assert ToDecimal(5) + [] == "5";
    IsRegisterHasAlpha("5");
  }

  lemma FullIncLine()
    ensures DecodeLine("inc a") == Ok(Inc("a"))
  {
    var ws := ["inc", "a"];
    assert Interleave(ws, [" "]) + "" == "inc a";
    SplitInterleave(ws, [" "], "");
    DecodeKnown(OInc, ["a"]);
    assert [Name(OInc)] + ["a"] == ws;
  }

  /** msg writes its text, end stops the program at once, and flush then
      gives what msg wrote; the inc after end never runs. */
  lemma EndStopsEarly(fuel: nat)
    requires fuel >= 2
    ensures Execute(MsgEndProgram(), fuel) == Finished(Initial.(out := "done", ended := true, ip := 3))
    ensures Flush(Execute(MsgEndProgram(), fuel).final) == "done"
  {
    var prog := MsgEndProgram();
    NoLabels(prog);
    var s := Initial.(out := "done", ip := 1);
    MsgEndFirst(s);
    RunStep(prog, map[], Initial, fuel, s);
    EndHalts(prog, map[], s, fuel - 1);
  }

  /** msg 'done' then end then inc a. */
  function MsgEndProgram(): Program {
    [Msg([Text("'done'")]), End, Inc("a")]
  }

  lemma MsgEndFirst(s: State)
    requires s == Initial.(out := "done", ip := 1)
    ensures Step(MsgEndProgram(), map[], Initial) == Ok(s)
  {
    MsgEndStep(MsgEndProgram(), Initial, s);
  }

  lemma MsgEndStep(prog: Program, s0: State, s: State)
    requires prog == MsgEndProgram() && s0 == Initial
    requires s == Initial.(out := "done", ip := 1)
    ensures Step(prog, map[], s0) == Ok(s)
  {
    var args := prog[0].args;
    MsgDone(args);
    MsgRule(prog, map[], s0, args);
    assert s0.(out := s0.out + "done", ip := s0.ip + 1) == s;
  }

  lemma Unquote()
    ensures RemoveQuotes("'done'") == "done"
  {
    assert "'done'" == "'" + ("done" + "'");
    RemoveQuotesAppend("'", "done" + "'");
    RemoveQuotesAppend("done", "'");
    RemoveQuotesNone("done");
  }

  lemma MsgDone(args: seq<MsgArg>)
    requires args == [Text("'done'")]
    ensures MsgText(map[], args) == Ok("done")
  {
    assert args[1..] == [];
    Unquote();
    assert "done" + "" == "done";
  }

  /** Splitting a line of plain words separated by single spaces. */
  lemma OneWord(line: string)
    requires IsPlain(line)
    ensures Split(line) == [line]
  {
    assert Interleave([line], []) + "" == line;
    SplitInterleave([line], [], "");
  }

  lemma TwoWords(line: string, a: string, b: string)
    requires IsPlain(a) && IsPlain(b) && line == a + " " + b
    ensures Split(line) == [a, b]
  {
    var ws := [a, b];
    assert Interleave(ws, [" "]) + "" == line;
    SplitInterleave(ws, [" "], "");
  }

  lemma ThreeWords(line: string, a: string, b: string, c: string)
    requires IsPlain(a) && IsPlain(b) && IsPlain(c) && line == a + " " + b + " " + c
    ensures Split(line) == [a, b, c]
  {
    var ws, seps := [a, b, c], [" ", " "];
    assert ws[1..] == [b, c] && ws[1..][1..] == [c] && seps[1..] == [" "] && seps[1..][1..] == [];
    assert Interleave([b, c], [" "]) == b + " " + c;
    assert a + " " + (b + " " + c) == line;
    assert Interleave(ws, seps) + "" == line;
    SplitInterleave(ws, seps, "");
  }

  /** A line whose words are an opcode's name and its operands decodes to
      what that opcode builds from them. */
  lemma KnownLine(line: string, op: Opcode, args: seq<string>)
    requires |args| >= Arity(op) && Split(line) == [Name(op)] + args
    ensures DecodeLine(line) == Ok(Build(op, args))
  {
    DecodeKnown(op, args);
  }

  /** A one-digit literal names no register, and std::stoi reads its
      digit. */
  lemma Digit(t: string, k: nat)
    requires k < 10 && t == [DigitChar(k)]
    ensures ToOperand(t) == Lit(t, Ok(k))
  {
    ParseToDecimal(k, []);
    assert ToDecimal(k) + [] == t;
    IsRegisterHasAlpha(t);
  }

  /** mov a m, then an arithmetic instruction on a with a one-digit
      literal k: assembler returns a alone, holding the arithmetic's
      value. */
  lemma MovThenArith(lines: seq<string>, mt: string, m: nat, opc: Opcode, op: ArithOp, kt: string, k: nat, v: int, fuel: nat)
    requires m < 10 && mt == [DigitChar(m)] && k < 10 && kt == [DigitChar(k)]
    requires IsPlain(Name(opc)) && Arity(opc) == 2 && Build(opc, ["a", kt]) == Arith(op, "a", ToOperand(kt))
    requires |lines| == 2 && lines[0] == "mov a " + mt && lines[1] == Name(opc) + " a " + kt
    requires Apply(op, m, k) == Ok(v) && fuel >= 2
    ensures Assembler(lines, fuel) == Returned(map["a" := v])
  {
    var prog := [Mov("a", Lit(mt, Ok(m))), Arith(op, "a", Lit(kt, Ok(k)))];
    MovArithLoads(lines, prog, mt, m, opc, op, kt, k);
    NoLabels(prog);
    MovArithRuns(prog, mt, m, op, kt, k, v, fuel);
    Assembles(lines, prog, fuel);
  }

  lemma MovArithLoads(lines: seq<string>, prog: Program, mt: string, m: nat, opc: Opcode, op: ArithOp, kt: string, k: nat)
    requires m < 10 && mt == [DigitChar(m)] && k < 10 && kt == [DigitChar(k)]
    requires IsPlain(Name(opc)) && Arity(opc) == 2 && Build(opc, ["a", kt]) == Arith(op, "a", ToOperand(kt))
    requires |lines| == 2 && lines[0] == "mov a " + mt && lines[1] == Name(opc) + " a " + kt
    requires prog == [Mov("a", Lit(mt, Ok(m))), Arith(op, "a", Lit(kt, Ok(k)))]
    ensures Load(lines) == Ok(prog)
  {
    forall j | 0 <= j < 2
      ensures DecodeLine(lines[j]) == Ok(prog[j])
    {
      if j == 0 {
        assert "mov a " + mt == "mov" + " " + "a" + " " + mt;
        MovLiteralLine(lines[0], "a", mt, m);
      } else {
        assert Name(opc) + " a " + kt == Name(opc) + " " + "a" + " " + kt;
        DigitLine(lines[1], Name(opc), opc, prog[1], "a", kt, k);
      }
    }
    LoadValuesOf(lines, prog);
  }

  /** A line "<name> <d> <digit>" of a two-operand opcode. */
  lemma DigitLine(line: string, name: string, opc: Opcode, i: Instr, d: string, t: string, k: nat)
    requires k < 10 && t == [DigitChar(k)] && IsPlain(d)
    requires name == Name(opc) && IsPlain(name) && Arity(opc) == 2
    requires (i.Mov? || i.Arith?) && i.src == Lit(t, Ok(k)) && Build(opc, [d, t]) == i.(src := ToOperand(t))
    requires line == name + " " + d + " " + t
    ensures DecodeLine(line) == Ok(i)
  {
    ThreeWords(line, name, d, t);
    KnownLine(line, opc, [d, t]);
    Digit(t, k);
  }

  /** A line "mov <d> <digit>". */
  lemma MovLiteralLine(line: string, d: string, t: string, k: nat)
    requires k < 10 && t == [DigitChar(k)] && IsPlain(d)
    requires line == "mov" + " " + d + " " + t
    ensures DecodeLine(line) == Ok(Mov(d, Lit(t, Ok(k))))
  {
    DigitLine(line, "mov", OMov, Mov(d, Lit(t, Ok(k))), d, t, k);
  }

  /** A line "<name> <d>" of a one-operand opcode. */
  lemma UnaryLine(line: string, name: string, opc: Opcode, d: string)
    requires name == Name(opc) && IsPlain(name) && IsPlain(d) && Arity(opc) == 1
    requires line == name + " " + d
    ensures DecodeLine(line) == Ok(Build(opc, [d]))
  {
    TwoWords(line, name, d);
    KnownLine(line, opc, [d]);
  }

  /** A line "mov <d> <r>" copying one register into another. */
  lemma RegisterLine(line: string, d: string, r: string)
    requires IsPlain(d) && IsPlain(r) && IsAlpha(r[0])
    requires line == "mov" + " " + d + " " + r
    ensures DecodeLine(line) == Ok(Mov(d, Reg(r)))
  {
    ThreeWords(line, "mov", d, r);
    KnownLine(line, OMov, [d, r]);
    IsRegisterHasAlpha(r);
  }

  lemma MovArithRuns(prog: Program, mt: string, m: nat, op: ArithOp, kt: string, k: nat, v: int, fuel: nat)
    requires prog == [Mov("a", Lit(mt, Ok(m))), Arith(op, "a", Lit(kt, Ok(k)))]
    requires Apply(op, m, k) == Ok(v) && fuel >= 2
    ensures Run(prog, map[], Initial, fuel) == Finished(Initial.(regs := map["a" := v], ip := 2))
  {
    var s := Initial.(regs := map["a" := m], ip := 1);
    var t := s.(regs := map["a" := v], ip := 2);
    MovRule(prog, map[], Initial, "a", Lit(mt, Ok(m)));
    ArithRule(prog, map[], s, op, "a", Lit(kt, Ok(k)));
    assert s.regs["a" := v] == map["a" := v];
    RunThrough(prog, map[], [Initial, s, t], fuel);
  }

  /** mov a 5 then add a 1 leaves a at 6. */
  lemma MovThenAdd(fuel: nat)
    requires fuel >= 2
    ensures Assembler(["mov a 5", "add a 1"], fuel) == Returned(map["a" := 6])
  {
    MovThenArith(["mov a 5", "add a 1"], "5", 5, OAdd, Add, "1", 1, 6, fuel);
  }

  /** mov a 5 then sub a 1 leaves a at 4. */
  lemma MovThenSub(fuel: nat)
    requires fuel >= 2
    ensures Assembler(["mov a 5", "sub a 1"], fuel) == Returned(map["a" := 4])
  {
    MovThenArith(["mov a 5", "sub a 1"], "5", 5, OSub, Sub, "1", 1, 4, fuel);
  }

  /** mov a 5 then mul a 2 leaves a at 10. */
  lemma MovThenMul(fuel: nat)
    requires fuel >= 2
    ensures Assembler(["mov a 5", "mul a 2"], fuel) == Returned(map["a" := 10])
  {
    MovThenArith(["mov a 5", "mul a 2"], "5", 5, OMul, Mul, "2", 2, 10, fuel);
  }

  /** mov a 4 then div a 2 leaves a at 2. */
  lemma MovThenDiv(fuel: nat)
    requires fuel >= 2
    ensures Assembler(["mov a 4", "div a 2"], fuel) == Returned(map["a" := 2])
  {
    MovThenArith(["mov a 4", "div a 2"], "4", 4, ODiv, Div, "2", 2, 2, fuel);
  }

  /** mov a 5 then div a 2 also leaves a at 2: the division truncates. */
  lemma MovThenDivTruncates(fuel: nat)
    requires fuel >= 2
    ensures Assembler(["mov a 5", "div a 2"], fuel) == Returned(map["a" := 2])
  {
    assert NatQuotient(5, 2) == 2;
    MovThenArith(["mov a 5", "div a 2"], "5", 5, ODiv, Div, "2", 2, 2, fuel);
  }

  /** mov a 5, end, div a 2: end stops the run before the division, so a
      keeps 5. */
  lemma EndBeforeDiv(fuel: nat)
    requires fuel >= 2
    ensures Assembler(["mov a 5", "end", "div a 2"], fuel) == Returned(map["a" := 5])
  {
    var lines, prog := ["mov a 5", "end", "div a 2"], MovEndDivProgram();
    MovEndDivLoads(lines, prog);
    MovEndDivRuns(prog, fuel);
    Assembles(lines, prog, fuel);
  }

  function MovEndDivProgram(): Program {
    [Mov("a", Lit("5", Ok(5))), End, Arith(Div, "a", Lit("2", Ok(2)))]
  }

  lemma MovEndDivLoads(lines: seq<string>, prog: Program)
    requires lines == ["mov a 5", "end", "div a 2"] && prog == MovEndDivProgram()
    ensures Load(lines) == Ok(prog)
  {
    forall j | 0 <= j < 3
      ensures DecodeLine(lines[j]) == Ok(prog[j])
    {
      if j == 0 {
        MovLiteralLine(lines[0], "a", "5", 5);
      } else if j == 1 {
        NullaryLine(lines[1], OEnd);
      } else {
        DigitLine(lines[2], "div", ODiv, prog[2], "a", "2", 2);
      }
    }
    LoadValuesOf(lines, prog);
  }

  /** A line holding only the name of an opcode without operands. */
  lemma NullaryLine(line: string, opc: Opcode)
    requires Arity(opc) == 0 && line == Name(opc) && IsPlain(line)
    ensures DecodeLine(line) == Ok(Build(opc, []))
  {
    OneWord(line);
    assert [Name(opc)] + [] == [line];
    KnownLine(line, opc, []);
  }

  lemma MovEndDivRuns(prog: Program, fuel: nat)
    requires prog == MovEndDivProgram() && fuel >= 2
    ensures Execute(prog, fuel) == Finished(Initial.(regs := map["a" := 5], ended := true, ip := 3))
  {
    NoLabels(prog);
    var s := Initial.(regs := map["a" := 5], ip := 1);
    MovRule(prog, map[], Initial, "a", Lit("5", Ok(5)));
    RunStep(prog, map[], Initial, fuel, s);
    EndHalts(prog, map[], s, fuel - 1);
  }

  /** What assembler returns once the lines load and the run finishes. */
  lemma Assembles(lines: seq<string>, prog: Program, fuel: nat)
    requires Load(lines) == Ok(prog) && Execute(prog, fuel).Finished?
    ensures Assembler(lines, fuel) == Returned(Execute(prog, fuel).final.regs)
  {
  }

  /** mov a 5, mov a a: copying a register onto itself keeps its value. */
  lemma MovSelf(fuel: nat)
    requires fuel >= 2
    ensures Assembler(["mov a 5", "mov a a"], fuel) == Returned(map["a" := 5])
  {
    var lines, prog := ["mov a 5", "mov a a"], [Mov("a", Lit("5", Ok(5))), Mov("a", Reg("a"))];
    MovSelfLoads(lines, prog);
    MovSelfRuns(prog, fuel);
    Assembles(lines, prog, fuel);
  }

  lemma MovSelfLoads(lines: seq<string>, prog: Program)
    requires lines == ["mov a 5", "mov a a"] && prog == [Mov("a", Lit("5", Ok(5))), Mov("a", Reg("a"))]
    ensures Load(lines) == Ok(prog)
  {
    forall j | 0 <= j < 2
      ensures DecodeLine(lines[j]) == Ok(prog[j])
    {
      if j == 0 {
        MovLiteralLine(lines[0], "a", "5", 5);
      } else {
        RegisterLine(lines[1], "a", "a");
      }
    }
    LoadValuesOf(lines, prog);
  }

  lemma MovSelfRuns(prog: Program, fuel: nat)
    requires prog == [Mov("a", Lit("5", Ok(5))), Mov("a", Reg("a"))] && fuel >= 2
    ensures Execute(prog, fuel) == Finished(Initial.(regs := map["a" := 5], ip := 2))
  {
    NoLabels(prog);
    var s := Initial.(regs := map["a" := 5], ip := 1);
    var t := s.(ip := 2);
    MovRule(prog, map[], Initial, "a", Lit("5", Ok(5)));
    MovRule(prog, map[], s, "a", Reg("a"));
    assert s.regs["a" := 5] == s.regs;
    RunThrough(prog, map[], [Initial, s, t], fuel);
  }

  /** mov, dec, inc and a register source together: a ends at 4, b (a copy
      of a, incremented) at 5 and c at 5. */
  lemma MovDecInc(fuel: nat)
    requires fuel >= 6
    ensures Assembler(["mov a 5", "dec a", "mov b a", "inc b", "mov c 6", "dec c"], fuel)
            == Returned(map["a" := 4, "b" := 5, "c" := 5])
  {
    var lines := ["mov a 5", "dec a", "mov b a", "inc b", "mov c 6", "dec c"];
    var prog := MovDecIncProgram();
    MovDecIncLoads(lines, prog);
    MovDecIncRuns(prog, fuel);
    Assembles(lines, prog, fuel);
  }

  lemma MovDecIncRuns(prog: Program, fuel: nat)
    requires prog == MovDecIncProgram() && fuel >= 6
    ensures Execute(prog, fuel) == Finished(MovDecIncStates()[6])
  {
    NoLabels(prog);
    var states := MovDecIncStates();
    MovDecIncSteps(prog, states);
    RunThrough(prog, map[], states, fuel);
  }

  function MovDecIncProgram(): Program {
    [Mov("a", Lit("5", Ok(5))), Dec("a"), Mov("b", Reg("a")), Inc("b"), Mov("c", Lit("6", Ok(6))), Dec("c")]
  }

  function MovDecIncStates(): seq<State> {
    [Initial,
     Initial.(regs := map["a" := 5], ip := 1),
     Initial.(regs := map["a" := 4], ip := 2),
     Initial.(regs := map["a" := 4, "b" := 4], ip := 3),
     Initial.(regs := map["a" := 4, "b" := 5], ip := 4),
     Initial.(regs := map["a" := 4, "b" := 5, "c" := 6], ip := 5),
     Initial.(regs := map["a" := 4, "b" := 5, "c" := 5], ip := 6)]
  }

  lemma MovDecIncLoads(lines: seq<string>, prog: Program)
    requires lines == ["mov a 5", "dec a", "mov b a", "inc b", "mov c 6", "dec c"]
    requires prog == MovDecIncProgram()
    ensures Load(lines) == Ok(prog)
  {
    forall j | 0 <= j < 6
      ensures DecodeLine(lines[j]) == Ok(prog[j])
    {
      if j == 0 {
        MovLiteralLine(lines[0], "a", "5", 5);
      } else if j == 1 {
        UnaryLine(lines[1], "dec", ODec, "a");
      } else if j == 2 {
        RegisterLine(lines[2], "b", "a");
      } else if j == 3 {
        UnaryLine(lines[3], "inc", OInc, "b");
      } else if j == 4 {
        MovLiteralLine(lines[4], "c", "6", 6);
      } else {
        UnaryLine(lines[5], "dec", ODec, "c");
      }
    }
    LoadValuesOf(lines, prog);
  }

  lemma MovDecIncSteps(prog: Program, states: seq<State>)
    requires prog == MovDecIncProgram() && states == MovDecIncStates()
    ensures forall i :: 0 <= i < 6 ==> states[i].ip < |prog| && Step(prog, map[], states[i]) == Ok(states[i + 1])
  {
    forall i | 0 <= i < 6
      ensures states[i].ip < |prog| && Step(prog, map[], states[i]) == Ok(states[i + 1])
    {
      var s := states[i];
      if i == 0 {
        MovRule(prog, map[], s, "a", Lit("5", Ok(5)));
      } else if i == 1 {
        DecRule(prog, map[], s, "a");
        assert s.regs["a" := 4] == map["a" := 4];
      } else if i == 2 {
        MovRule(prog, map[], s, "b", Reg("a"));
      } else if i == 3 {
        IncRule(prog, map[], s, "b");
        assert s.regs["b" := 5] == map["a" := 4, "b" := 5];
      } else if i == 4 {
        MovRule(prog, map[], s, "c", Lit("6", Ok(6)));
      } else {
        DecRule(prog, map[], s, "c");
        assert s.regs["c" := 5] == map["a" := 4, "b" := 5, "c" := 5];
      }
    }
  }

  /** The simple interpreter returns no registers for the empty program. */
  lemma SimpleEmpty(fuel: nat)
    ensures SimpleAssembler([], fuel) == Returned(map[])
  {
    assert SimpleLoad([]) == Ok([]);
  }

  /** jnz 5 10 as the seventh of eight instructions: the target lies beyond
      the program, so advance_ip moves on by one and the fetch loop's step
      reaches end(); the run is over. */
  lemma FarJumpEnds(prog: Program, labels: map<string, nat>, s: State, fuel: nat)
    requires |prog| == 8 && s.ip == 6 && prog[6] == Jnz(Lit("5", Ok(5)), Lit("10", Ok(10)))
    requires fuel >= 1
    ensures Step(prog, labels, s) == Ok(s.(ip := 8))
    ensures Run(prog, labels, s, fuel) == Finished(s.(ip := 8))
  {
    JnzTaken(prog, labels, s, Lit("5", Ok(5)), Lit("10", Ok(10)));
    RunStep(prog, labels, s, fuel, s.(ip := 8));
  }

  /** A taken jnz back to the first instruction: advance_ip's position
      before the fetch loop's step would lie before begin(), so the jump is
      treated as out of range; from the last instruction the two steps
      forward then go beyond end(). */
  lemma JumpToFirstOverruns(prog: Program, labels: map<string, nat>, s: State)
    requires |prog| == 4 && s.ip == 3 && prog[3] == Jnz(Reg("b"), Lit("-3", Ok(-3)))
    requires "b" in s.regs && s.regs["b"] != 0
    ensures Step(prog, labels, s) == Err(PastEnd)
  {
    JnzTaken(prog, labels, s, Reg("b"), Lit("-3", Ok(-3)));
  }
}
