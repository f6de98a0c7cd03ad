/** Properties of the fetch-execute loop: what each instruction may change,
    how control moves, what the output buffer holds, and how runs behave. */
module MachineProps {
  import opened Base
  import opened Text
  import opened Decimal
  import opened Values
  import opened Control
  import opened Instructions
  import opened Machine

  /** pre_run keeps, for every name, the index of its last label
      instruction, and has no entry for a name never defined. */
  lemma {:induction false} LabelsLast(prog: Program, n: string)
    ensures n in Labels(prog) <==> exists i :: 0 <= i < |prog| && prog[i] == Label(n)
    ensures n in Labels(prog) ==>
              Labels(prog)[n] < |prog| && prog[Labels(prog)[n]] == Label(n)
    ensures n in Labels(prog) ==>
              forall j :: Labels(prog)[n] < j < |prog| ==> prog[j] != Label(n)
    decreases |prog|
  {
    if prog != [] {
      var init, last := prog[..|prog| - 1], |prog| - 1;
      LabelsLast(init, n);
      if prog[last] == Label(n) {
        assert Labels(prog) == Labels(init)[n := last];
      } else {
        assert n in Labels(prog) <==> n in Labels(init);
        assert n in Labels(prog) ==> Labels(prog)[n] == Labels(init)[n];
        if exists i :: 0 <= i < |init| && init[i] == Label(n) {
          var i :| 0 <= i < |init| && init[i] == Label(n);
          assert prog[i] == Label(n);
        }
        if exists i :: 0 <= i < |prog| && prog[i] == Label(n) {
          var i :| 0 <= i < |prog| && prog[i] == Label(n);
          assert init[i] == Label(n);
        }
        if n in Labels(init) {
          assert prog[Labels(init)[n]] == init[Labels(init)[n]];
          assert prog == init + [prog[last]];
          NoLaterLabel(init, prog[last], n, Labels(init)[n]);
        }
      }
    }
  }

  lemma NoLaterLabel(init: Program, x: Instr, n: string, k: nat)
    requires forall j :: k < j < |init| ==> init[j] != Label(n)
    requires x != Label(n)
    ensures forall j :: k < j < |init| + 1 ==> (init + [x])[j] != Label(n)
  {
    forall j | k < j < |init| + 1
      ensures (init + [x])[j] != Label(n)
    {
      if j < |init| {
        assert (init + [x])[j] == init[j];
      }
    }
  }

  /** The register an instruction writes, if any. */
  function Dest(i: Instr): Option<string> {
    match i
    case Mov(d, _) => Some(d)
    case Inc(d) => Some(d)
    case Dec(d) => Some(d)
    case Arith(_, d, _) => Some(d)
    case _ => None
  }

  /** An instruction writes at most its destination register: every other
      register keeps its value and its presence, and the destination, once
      written, exists. */
  lemma StepWritesOnlyDest(prog: Program, labels: map<string, nat>, s: State)
    requires s.ip < |prog|
    requires Step(prog, labels, s).Ok?
    ensures var t := Step(prog, labels, s).value;
            forall r :: Dest(prog[s.ip]) != Some(r) ==>
              (r in t.regs <==> r in s.regs) && (r in s.regs ==> t.regs[r] == s.regs[r])
    ensures Dest(prog[s.ip]).Some? ==> Dest(prog[s.ip]).value in Step(prog, labels, s).value.regs
  {
    match prog[s.ip]
    case Mov(_, _) =>
    case Inc(_) =>
    case Dec(_) =>
    case Arith(_, _, _) =>
    case _ =>
  }

  /** Only cmp changes the comparison flags, only call and the conditional
      jumps push, only ret pops, only msg writes output and only end ends. */
  lemma StepFrame(prog: Program, labels: map<string, nat>, s: State)
    requires s.ip < |prog|
    requires Step(prog, labels, s).Ok?
    ensures var t := Step(prog, labels, s).value;
            && (!prog[s.ip].Cmp? ==> t.flags == s.flags)
            && (!(prog[s.ip].Call? || prog[s.ip].CondJump? || prog[s.ip].Ret?) ==> t.stack == s.stack)
            && (!prog[s.ip].Msg? ==> t.out == s.out)
            && t.ended == (s.ended || prog[s.ip].End?)
  {
    match prog[s.ip]
    case Mov(_, _) =>
    case Inc(_) =>
    case Dec(_) =>
    case Arith(_, _, _) =>
    case Jnz(_, _) =>
    case Cmp(_, _) =>
    case CondJump(_, _) =>
    case Call(_) =>
    case Ret =>
    case Msg(_) =>
    case Label(_) =>
    case End =>
  }

  /** A conditional jump is taken exactly when its flag is set: it then
      pushes its own position and continues after the label, and a name
      pre_run never saw fails; otherwise it falls through to the next
      instruction, whether or not the label exists. */
  lemma CondJumpRule(prog: Program, labels: map<string, nat>, s: State, f: Flag, l: string)
    requires s.ip < |prog| && prog[s.ip] == CondJump(f, l)
    ensures f in s.flags && l in labels && labels[l] < |prog| ==>
              Step(prog, labels, s) == Ok(s.(ip := labels[l] + 1, stack := s.stack + [s.ip]))
    ensures f in s.flags && l !in labels ==> Step(prog, labels, s) == Err(UndefinedLabel(l))
    ensures f !in s.flags ==> Step(prog, labels, s) == Ok(s.(ip := s.ip + 1))
  {
  }

  /** While the flag register is Invalid no conditional jump is taken,
      wherever it stands and whatever label it names. */
  lemma NoJumpBeforeCmp(prog: Program, labels: map<string, nat>, s: State, f: Flag, l: string)
    requires s.ip < |prog| && prog[s.ip] == CondJump(f, l) && s.flags == {}
    ensures Step(prog, labels, s) == Ok(s.(ip := s.ip + 1))
  {
  }

  /** After cmp x, y each conditional jump is taken exactly when its
      relation holds between the two values. */
  lemma CmpThenJump(x: int, y: int)
    ensures (Equal in CmpFlags(x, y)) == (x == y)
    ensures (NotEqual in CmpFlags(x, y)) == (x != y)
    ensures (Less in CmpFlags(x, y)) == (x < y)
    ensures (LessOrEqual in CmpFlags(x, y)) == (x <= y)
    ensures (Greater in CmpFlags(x, y)) == (x > y)
    ensures (GreaterOrEqual in CmpFlags(x, y)) == (x >= y)
    ensures |CmpFlags(x, y) * {Less, Equal, Greater}| == 1
  {
    if x < y {
      assert CmpFlags(x, y) * {Less, Equal, Greater} == {Less};
    } else if x == y {
      assert CmpFlags(x, y) * {Less, Equal, Greater} == {Equal};
    } else {
      assert CmpFlags(x, y) * {Less, Equal, Greater} == {Greater};
    }
  }

  /** mov writes the value of its source to its destination, creating the
      register if need be; a source that cannot be resolved fails and
      writes nothing. */
  lemma MovRule(prog: Program, labels: map<string, nat>, s: State, d: string, src: Operand)
    requires s.ip < |prog| && prog[s.ip] == Mov(d, src)
    ensures Value(s.regs, src).Ok? ==>
              Step(prog, labels, s) == Ok(s.(regs := s.regs[d := Value(s.regs, src).value], ip := s.ip + 1))
    ensures Value(s.regs, src).Err? ==> Step(prog, labels, s) == Err(Value(s.regs, src).error)
  {
  }

  /** inc adds one to its register (a missing one counts as 0); leaving the
      int range is signed overflow. */
  lemma IncRule(prog: Program, labels: map<string, nat>, s: State, d: string)
    requires s.ip < |prog| && prog[s.ip] == Inc(d)
    ensures IsInt32(Current(s.regs, d) + 1) ==>
              Step(prog, labels, s) == Ok(s.(regs := s.regs[d := Current(s.regs, d) + 1], ip := s.ip + 1))
    ensures !IsInt32(Current(s.regs, d) + 1) ==> Step(prog, labels, s) == Err(Overflow)
  {
  }

  /** dec subtracts one from its register, in the same way. */
  lemma DecRule(prog: Program, labels: map<string, nat>, s: State, d: string)
    requires s.ip < |prog| && prog[s.ip] == Dec(d)
    ensures IsInt32(Current(s.regs, d) - 1) ==>
              Step(prog, labels, s) == Ok(s.(regs := s.regs[d := Current(s.regs, d) - 1], ip := s.ip + 1))
    ensures !IsInt32(Current(s.regs, d) - 1) ==> Step(prog, labels, s) == Err(Overflow)
  {
  }

  /** add, sub, mul and div resolve their source first, then combine the
      destination (a missing one counts as 0) with it and write the result
      back; an unresolvable source, a zero divisor or a result outside int
      fails and writes nothing. */
  lemma ArithRule(prog: Program, labels: map<string, nat>, s: State, op: ArithOp, d: string, src: Operand)
    requires s.ip < |prog| && prog[s.ip] == Arith(op, d, src)
    ensures Value(s.regs, src).Err? ==> Step(prog, labels, s) == Err(Value(s.regs, src).error)
    ensures Value(s.regs, src).Ok? && Apply(op, Current(s.regs, d), Value(s.regs, src).value).Ok? ==>
              Step(prog, labels, s) ==
              Ok(s.(regs := s.regs[d := ArithValue(op, Current(s.regs, d), Value(s.regs, src).value)],
                    ip := s.ip + 1))
    ensures Value(s.regs, src).Ok? && Apply(op, Current(s.regs, d), Value(s.regs, src).value).Err? ==>
              Step(prog, labels, s) == Err(Apply(op, Current(s.regs, d), Value(s.regs, src).value).error)
  {
  }

  /** msg appends the text of its arguments to the output; an argument
      that cannot be resolved fails and nothing is written. */
  lemma MsgRule(prog: Program, labels: map<string, nat>, s: State, args: seq<MsgArg>)
    requires s.ip < |prog| && prog[s.ip] == Msg(args)
    ensures MsgText(s.regs, args).Ok? ==>
              Step(prog, labels, s) == Ok(s.(out := s.out + MsgText(s.regs, args).value, ip := s.ip + 1))
    ensures MsgText(s.regs, args).Err? ==> Step(prog, labels, s) == Err(MsgText(s.regs, args).error)
  {
  }

  /** call pushes its own position and continues after the label; a name
      pre_run never saw fails. */
  lemma CallRule(prog: Program, labels: map<string, nat>, s: State, l: string)
    requires s.ip < |prog| && prog[s.ip] == Call(l)
    ensures l !in labels ==> Step(prog, labels, s) == Err(UndefinedLabel(l))
    ensures l in labels && labels[l] < |prog| ==>
              Step(prog, labels, s) == Ok(s.(ip := labels[l] + 1, stack := s.stack + [s.ip]))
  {
  }

  /** call to a subroutine whose body starts with ret comes back to the
      instruction after the call with the stack as it was. */
  lemma CallThenRet(prog: Program, labels: map<string, nat>, s: State, l: string)
    requires s.ip < |prog| && prog[s.ip] == Call(l)
    requires l in labels && labels[l] + 1 < |prog|
    requires prog[labels[l] + 1] == Ret
    ensures Step(prog, labels, s).Ok?
    ensures var t := Step(prog, labels, s).value;
            t.ip == labels[l] + 1 && t.stack == s.stack + [s.ip]
    ensures var t := Step(prog, labels, s).value;
            Step(prog, labels, t) == Ok(s.(ip := s.ip + 1))
  {
    CallRule(prog, labels, s, l);
    var t := s.(ip := labels[l] + 1, stack := s.stack + [s.ip]);
    RetRule(prog, labels, t);
    PushPop(s.stack, s.ip);
  }

  lemma PushPop<T>(st: seq<T>, x: T)
    ensures (st + [x])[..|st|] == st && (st + [x])[|st|] == x
  {
  }

  /** ret continues after the position on top of the stack and pops it;
      with an empty stack it fails. */
  lemma RetRule(prog: Program, labels: map<string, nat>, s: State)
    requires s.ip < |prog| && prog[s.ip] == Ret
    requires s.stack != [] ==> s.stack[|s.stack| - 1] < |prog|
    ensures s.stack == [] <==> Step(prog, labels, s) == Err(StackUnderflow)
    ensures s.stack != [] ==>
              Step(prog, labels, s) ==
              Ok(s.(ip := s.stack[|s.stack| - 1] + 1, stack := s.stack[..|s.stack| - 1]))
  {
  }

  /** jnz with a zero condition falls through to the next instruction
      without resolving its distance. */
  lemma JnzNotTaken(prog: Program, labels: map<string, nat>, s: State, c: Operand, o: Operand)
    requires s.ip < |prog| && prog[s.ip] == Jnz(c, o)
    requires Value(s.regs, c) == Ok(0)
    ensures Step(prog, labels, s) == Ok(s.(ip := s.ip + 1))
  {
  }

  /** jnz c, d at index i of n instructions with c not zero: the next
      instruction is i + d when 1 <= i + d <= n + 1 and i + 2 otherwise;
      going on from beyond index n - 1 is undefined behaviour (index n is
      end(), where the run stops). */
  lemma JnzTaken(prog: Program, labels: map<string, nat>, s: State, c: Operand, o: Operand)
    requires s.ip < |prog| && prog[s.ip] == Jnz(c, o)
    requires Value(s.regs, c).Ok? && Value(s.regs, c).value != 0
    requires Value(s.regs, o).Ok?
    ensures var i, n, d := s.ip, |prog|, Value(s.regs, o).value;
            var target := if 1 <= i + d <= n + 1 then i + d else i + 2;
            Step(prog, labels, s) == (if target <= n then Ok(s.(ip := target)) else Err(PastEnd))
  {
    assert Step(prog, labels, s) == JumpIfNonZero(prog, s, c, o);
  }

  /** Printing a list of arguments prints the pieces of its two halves in
      order; a failure in the first half wins over one in the second. */
  lemma {:induction false} MsgTextAppend(regs: Registers, a: seq<MsgArg>, b: seq<MsgArg>)
    ensures MsgText(regs, a + b) ==
            match MsgText(regs, a)
            case Err(e) => Err(e)
            case Ok(x) =>
              match MsgText(regs, b)
              case Err(e) => Err(e)
              case Ok(y) => Ok(x + y)
    decreases |a|
  {
    if a == [] {
      assert a + b == b;
      match MsgText(regs, b)
      case Err(_) =>
      case Ok(y) => assert "" + y == y;
    } else {
      assert (a + b)[0] == a[0] && (a + b)[1..] == a[1..] + b;
      MsgTextAppend(regs, a[1..], b);
      match MsgPiece(regs, a[0])
      case Err(_) =>
      case Ok(h) =>
        match MsgText(regs, a[1..])
        case Err(_) =>
        case Ok(x) =>
          match MsgText(regs, b)
          case Err(_) =>
          case Ok(y) =>
            assert h + (x + y) == (h + x) + y;
    }
  }

  /** A msg argument list succeeds exactly when every argument does. */
  lemma {:induction false} MsgTextOk(regs: Registers, args: seq<MsgArg>)
    ensures MsgText(regs, args).Ok? <==>
            forall k :: 0 <= k < |args| ==> MsgPiece(regs, args[k]).Ok?
    decreases |args|
  {
    if args != [] {
      MsgTextOk(regs, args[1..]);
      assert forall k :: 1 <= k < |args| ==> args[1..][k - 1] == args[k];
    }
  }

  /** Text arguments alone print their contents, quotes removed. */
  lemma {:induction false} MsgTextOfText(regs: Registers, args: seq<MsgArg>)
    requires forall k :: 0 <= k < |args| ==> args[k].Text?
    ensures MsgText(regs, args) == Ok(ConcatUnquoted(args))
    decreases |args|
  {
    if args != [] {
      MsgTextOfText(regs, args[1..]);
    }
  }

  function ConcatUnquoted(args: seq<MsgArg>): string
    requires forall k :: 0 <= k < |args| ==> args[k].Text?
  {
    if args == [] then "" else RemoveQuotes(args[0].raw) + ConcatUnquoted(args[1..])
  }
}
