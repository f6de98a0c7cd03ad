/** The instruction set of the full interpreter and
    InstructionFactory::create_instruction. */
module Instructions {
  import opened Base
  import opened Text
  import opened Values

  /** The bits of CmpStatusFlags other than Invalid (which is no bit). */
  datatype Flag = Equal | NotEqual | GreaterOrEqual | Greater | LessOrEqual | Less

  datatype ArithOp = Add | Sub | Mul | Div

  /** A msg argument: text when it holds a quote, an operand otherwise. */
  datatype MsgArg = Text(raw: string) | Shown(operand: Operand)

  /** Register names (destinations, labels) stay plain text: inc and dec
      write through operator[] whatever the token looks like. */
  datatype Instr =
    | Mov(dst: string, src: Operand)
    | Inc(dst: string)
    | Dec(dst: string)
    | Arith(op: ArithOp, dst: string, src: Operand)
    | Jnz(cond: Operand, offset: Operand)
    | Cmp(lhs: Operand, rhs: Operand)
    | CondJump(flag: Flag, target: string)   // je, jne, jg, jge, jl, jle
    | Call(target: string)
    | Ret
    | Msg(args: seq<MsgArg>)
    | Label(name: string)
    | End

  /** The keys of instruction_map_. */
  datatype Opcode =
    | OMov | OJnz | OInc | ODec | OAdd | OSub | OMul | ODiv | OEnd | OMsg
    | OLabel | OCall | ORet | OCmp | OJne | OJe | OJge | OJg | OJle | OJl

  /** The key under which an opcode is registered. */
  function Name(op: Opcode): string
  {
    match op
    case OMov => "mov" case OJnz => "jnz" case OInc => "inc" case ODec => "dec"
    case OAdd => "add" case OSub => "sub" case OMul => "mul" case ODiv => "div"
    case OEnd => "end" case OMsg => "msg" case OLabel => "label" case OCall => "call"
    case ORet => "ret" case OCmp => "cmp" case OJne => "jne" case OJe => "je"
    case OJge => "jge" case OJg => "jg" case OJle => "jle" case OJl => "jl"
  }

  /** instruction_map_.find(name). */
  function Lookup(name: string): (r: Option<Opcode>)
    ensures r.Some? ==> Name(r.value) == name
  {
    match name
    case "mov" => Some(OMov) case "jnz" => Some(OJnz) case "inc" => Some(OInc)
    case "dec" => Some(ODec) case "add" => Some(OAdd) case "sub" => Some(OSub)
    case "mul" => Some(OMul) case "div" => Some(ODiv) case "end" => Some(OEnd)
    case "msg" => Some(OMsg) case "label" => Some(OLabel) case "call" => Some(OCall)
    case "ret" => Some(ORet) case "cmp" => Some(OCmp) case "jne" => Some(OJne)
    case "je" => Some(OJe) case "jge" => Some(OJge) case "jg" => Some(OJg)
    case "jle" => Some(OJle) case "jl" => Some(OJl)
    case _ => None
  }

  /** Every opcode is found under its own name, so the table holds exactly
      the twenty names. */
  lemma LookupName(op: Opcode)
    ensures Lookup(Name(op)) == Some(op)
  {
  }

  /** How many operands each constructor reads with tokens.at; msg takes
      all of them, possibly none. */
  function Arity(op: Opcode): nat
  {
    match op
    case OMov | OJnz | OAdd | OSub | OMul | ODiv | OCmp => 2
    case OInc | ODec | OLabel | OCall | OJne | OJe | OJge | OJg | OJle | OJl => 1
    case OEnd | OMsg | ORet => 0
  }

  /** Msg::is_arg_text decides once per argument whether it is text. */
  function ToMsgArg(t: string): MsgArg {
    if Quote in t then Text(t) else Shown(ToOperand(t))
  }

  /** The instruction an opcode builds from its operand tokens. */
  function Build(op: Opcode, args: seq<string>): Instr
    requires |args| >= Arity(op)
  {
    match op
    case OMov => Mov(args[0], ToOperand(args[1]))
    case OJnz => Jnz(ToOperand(args[0]), ToOperand(args[1]))
    case OInc => Inc(args[0])
    case ODec => Dec(args[0])
    case OAdd => Arith(Add, args[0], ToOperand(args[1]))
    case OSub => Arith(Sub, args[0], ToOperand(args[1]))
    case OMul => Arith(Mul, args[0], ToOperand(args[1]))
    case ODiv => Arith(Div, args[0], ToOperand(args[1]))
    case OEnd => End
    case OMsg => Msg(seq(|args|, k requires 0 <= k < |args| => ToMsgArg(args[k])))
    case OLabel => Label(args[0])
    case OCall => Call(args[0])
    case ORet => Ret
    case OCmp => Cmp(ToOperand(args[0]), ToOperand(args[1]))
    case OJne => CondJump(NotEqual, args[0])
    case OJe => CondJump(Equal, args[0])
    case OJge => CondJump(GreaterOrEqual, args[0])
    case OJg => CondJump(Greater, args[0])
    case OJle => CondJump(LessOrEqual, args[0])
    case OJl => CondJump(Less, args[0])
  }

  /** Index of the first ':' in name. */
  function ColonIndex(name: string): (k: nat)
    requires ':' in name
    ensures k < |name| && name[k] == ':' && ':' !in name[..k]
  {
    if name[0] == ':' then 0
    else
      var k := 1 + ColonIndex(name[1..]);
      assert name[..k] == [name[0]] + name[1..][..k - 1];
      k
  }

  /** Machine::load_program on one line's tokens: tokens.front() is the
      opcode (an empty token list is undefined behaviour), and
      create_instruction reads a first token holding ':' as a label whose
      name is the text before the ':'. That name is appended to the other
      tokens and Label takes tokens.at(0), so with extra tokens the first of
      them names the label. */
  function Decode(tokens: seq<string>): (r: Result<Instr>)
    ensures r.Err? <==>
              || tokens == []
              || (':' !in tokens[0]
                  && (Lookup(tokens[0]).None? || |tokens| - 1 < Arity(Lookup(tokens[0]).value)))
    ensures r.Ok? && ':' in tokens[0] ==> r.value.Label?
  {
    if tokens == [] then Err(EmptyLine)
    else
      var name, args := tokens[0], tokens[1..];
      if ':' in name then Ok(Label((args + [name[..ColonIndex(name)]])[0]))
      else match Lookup(name)
        case None => Err(UnknownOpcode(name))
        case Some(op) =>
          if |args| < Arity(op) then Err(MissingOperand(name))
          else Ok(Build(op, args))
  }

  /** The opcode of an instruction. */
  function OpcodeOf(i: Instr): Opcode
  {
    match i
    case Mov(_, _) => OMov
    case Inc(_) => OInc
    case Dec(_) => ODec
    case Arith(op, _, _) =>
      (match op case Add => OAdd case Sub => OSub case Mul => OMul case Div => ODiv)
    case Jnz(_, _) => OJnz
    case Cmp(_, _) => OCmp
    case CondJump(f, _) =>
      (match f
       case Equal => OJe case NotEqual => OJne case Greater => OJg
       case GreaterOrEqual => OJge case Less => OJl case LessOrEqual => OJle)
    case Call(_) => OCall
    case Ret => ORet
    case Msg(_) => OMsg
    case Label(_) => OLabel
    case End => OEnd
  }

  function MsgArgText(a: MsgArg): string {
    match a
    case Text(raw) => raw
    case Shown(o) => OperandText(o)
  }

  /** The operand tokens of an instruction. */
  function Operands(i: Instr): seq<string>
  {
    match i
    case Mov(d, s) => [d, OperandText(s)]
    case Inc(d) => [d]
    case Dec(d) => [d]
    case Arith(_, d, s) => [d, OperandText(s)]
    case Jnz(c, o) => [OperandText(c), OperandText(o)]
    case Cmp(a, b) => [OperandText(a), OperandText(b)]
    case CondJump(_, l) => [l]
    case Call(l) => [l]
    case Ret => []
    case Msg(args) => seq(|args|, k requires 0 <= k < |args| => MsgArgText(args[k]))
    case Label(n) => [n]
    case End => []
  }

  /** A canonical line for i: its opcode's name followed by its operands. */
  function Render(i: Instr): (tokens: seq<string>)
  {
    [Name(OpcodeOf(i))] + Operands(i)
  }

  /** Every operand and msg argument of i is what decoding its text gives. */
  predicate Decoded(i: Instr) {
    match i
    case Mov(_, s) => WellFormed(s)
    case Arith(_, _, s) => WellFormed(s)
    case Jnz(c, o) => WellFormed(c) && WellFormed(o)
    case Cmp(a, b) => WellFormed(a) && WellFormed(b)
    case Msg(args) => forall k :: 0 <= k < |args| ==> ToMsgArg(MsgArgText(args[k])) == args[k]
    case _ => true
  }

  /** Every decoded instruction has its operands decoded from their text. */
  lemma DecodeIsDecoded(tokens: seq<string>)
    requires Decode(tokens).Ok?
    ensures Decoded(Decode(tokens).value)
  {
    if ':' !in tokens[0] {
      BuildIsDecoded(Lookup(tokens[0]).value, tokens[1..]);
    }
  }

  lemma BuildIsDecoded(op: Opcode, args: seq<string>)
    requires |args| >= Arity(op)
    ensures Decoded(Build(op, args))
  {
    ToOperandsDecoded(args);
    if op == OMsg {
      forall k | 0 <= k < |args|
        ensures ToMsgArg(MsgArgText(ToMsgArg(args[k]))) == ToMsgArg(args[k])
      {
      }
    }
  }

  lemma ToOperandsDecoded(args: seq<string>)
    ensures forall k :: 0 <= k < |args| ==> WellFormed(ToOperand(args[k]))
  {
    forall k | 0 <= k < |args|
      ensures WellFormed(ToOperand(args[k]))
    {
      ValueOfToken(map[], args[k]);
    }
  }

  /** Every decoded instruction is decoded back from its canonical tokens:
      each opcode reaches its own variant. */
  lemma DecodeRender(i: Instr)
    requires Decoded(i)
    ensures Decode(Render(i)) == Ok(i)
  {
    BuildOfOperands(i);
    DecodeKnown(OpcodeOf(i), Operands(i));
  }

  /** Building an instruction's opcode from its operand texts gives the
      instruction back. */
  lemma BuildOfOperands(i: Instr)
    requires Decoded(i)
    ensures |Operands(i)| >= Arity(OpcodeOf(i))
    ensures Build(OpcodeOf(i), Operands(i)) == i
  {
    OperandsArity(i);
    match i
    case Mov(d, src) => BuildTwo(OMov, d, src);
    case Arith(op, d, src) => BuildTwo(OpcodeOf(i), d, src);
    case Jnz(c, o) => BuildJnz(c, o);
    case Cmp(a, b) => BuildCmp(a, b);
    case Msg(margs) => BuildMsg(margs);
    case CondJump(f, l) => BuildCondJump(f, l);
    case _ =>
  }

  lemma OperandsArity(i: Instr)
    ensures |Operands(i)| >= Arity(OpcodeOf(i))
  {
    match i
    case Arith(op, _, _) =>
    case CondJump(f, _) =>
    case _ =>
  }

  lemma BuildCondJump(f: Flag, l: string)
    ensures Build(OpcodeOf(CondJump(f, l)), [l]) == CondJump(f, l)
  {
    match f
    case Equal => case NotEqual => case Greater =>
    case GreaterOrEqual => case Less => case LessOrEqual =>
  }

  lemma BuildTwo(op: Opcode, d: string, src: Operand)
    requires op in {OMov, OAdd, OSub, OMul, ODiv} && WellFormed(src)
    ensures Build(op, [d, OperandText(src)]).dst == d
    ensures Build(op, [d, OperandText(src)]).src == src
  {
  }

  lemma BuildJnz(c: Operand, o: Operand)
    requires WellFormed(c) && WellFormed(o)
    ensures Build(OJnz, [OperandText(c), OperandText(o)]) == Jnz(c, o)
  {
  }

  lemma BuildCmp(a: Operand, b: Operand)
    requires WellFormed(a) && WellFormed(b)
    ensures Build(OCmp, [OperandText(a), OperandText(b)]) == Cmp(a, b)
  {
  }

  lemma BuildMsg(margs: seq<MsgArg>)
    requires forall k :: 0 <= k < |margs| ==> ToMsgArg(MsgArgText(margs[k])) == margs[k]
    ensures Build(OMsg, Operands(Msg(margs))) == Msg(margs)
  {
    var args := Operands(Msg(margs));
    assert seq(|args|, k requires 0 <= k < |args| => ToMsgArg(args[k])) == margs;
  }

  /** A line that starts with an opcode's name and has enough operands
      builds that opcode's instruction. */
  lemma DecodeKnown(op: Opcode, args: seq<string>)
    requires |args| >= Arity(op)
    ensures Decode([Name(op)] + args) == Ok(Build(op, args))
  {
    LookupName(op);
    assert ([Name(op)] + args)[1..] == args;
    assert ':' !in Name(op);
  }

  /** Decoding keeps what it reads: the canonical tokens of a decoded
      instruction are the line's opcode and the operands it used, which are
      all of them for msg and the first Arity ones otherwise. */
  lemma RenderDecode(tokens: seq<string>)
    requires Decode(tokens).Ok? && ':' !in tokens[0]
    ensures var op := Lookup(tokens[0]).value;
            Render(Decode(tokens).value) ==
            if op == OMsg then tokens else tokens[..1 + Arity(op)]
  {
    var op, args := Lookup(tokens[0]).value, tokens[1..];
    assert tokens == [Name(op)] + args;
    DecodeKnown(op, args);
    BuildOperands(op, args);
    assert tokens[..1 + Arity(op)] == [Name(op)] + args[..Arity(op)];
  }

  /** Build keeps its opcode and the operand tokens it reads. */
  lemma BuildOperands(op: Opcode, args: seq<string>)
    requires |args| >= Arity(op)
    ensures OpcodeOf(Build(op, args)) == op
    ensures Operands(Build(op, args)) == if op == OMsg then args else args[..Arity(op)]
  {
    BuildOpcode(op, args);
    if op == OMsg {
      assert Operands(Build(op, args)) == args;
    } else if Arity(op) == 0 {
      BuildNone(op, args);
    } else if Arity(op) == 1 {
      BuildOne(op, args);
      assert args[..1] == [args[0]];
    } else {
      BuildPair(op, args);
      assert args[..2] == [args[0], args[1]];
    }
  }

  lemma BuildNone(op: Opcode, args: seq<string>)
    requires op != OMsg && Arity(op) == 0
    ensures Operands(Build(op, args)) == []
  {
  }

  lemma BuildOne(op: Opcode, args: seq<string>)
    requires Arity(op) == 1 && |args| >= 1
    ensures Operands(Build(op, args)) == [args[0]]
  {
  }

  lemma BuildPair(op: Opcode, args: seq<string>)
    requires Arity(op) == 2 && |args| >= 2
    ensures Operands(Build(op, args)) == [args[0], args[1]]
  {
    ValueOfToken(map[], args[1]);
    if op == OJnz || op == OCmp {
      ValueOfToken(map[], args[0]);
    }
  }

  lemma BuildOpcode(op: Opcode, args: seq<string>)
    requires |args| >= Arity(op)
    ensures OpcodeOf(Build(op, args)) == op
  {
    if op in {OMov, OJnz, OCmp, OAdd, OSub, OMul, ODiv} {
      BuildOpcodePair(op, args);
    } else if op in {OInc, ODec, OLabel, OCall} {
      BuildOpcodeOne(op, args);
    } else if op in {OJne, OJe, OJge, OJg, OJle, OJl} {
      BuildOpcodeJump(op, args);
    }
  }

  lemma BuildOpcodePair(op: Opcode, args: seq<string>)
    requires op in {OMov, OJnz, OCmp, OAdd, OSub, OMul, ODiv} && |args| >= 2
    ensures OpcodeOf(Build(op, args)) == op
  {
  }

  lemma BuildOpcodeOne(op: Opcode, args: seq<string>)
    requires op in {OInc, ODec, OLabel, OCall} && |args| >= 1
    ensures OpcodeOf(Build(op, args)) == op
  {
  }

  lemma BuildOpcodeJump(op: Opcode, args: seq<string>)
    requires op in {OJne, OJe, OJge, OJg, OJle, OJl} && |args| >= 1
    ensures OpcodeOf(Build(op, args)) == op
  {
  }

  /** A bare "name:" line is the label name. */
  lemma DecodeColonLabel(name: string)
    requires ':' !in name
    ensures Decode([name + ":"]) == Ok(Label(name))
  {
    var t := name + ":";
    assert t[|name|] == ':';
    assert t[..|name|] == name;
    assert ColonIndex(t) == |name|;
  }
}
