/** Machine: the state of a running program and the fetch-execute loop
    (Machine::run_program with each Instruction::operate_on). The label
    table is computed once by pre_run and passed alongside the state. */
module Machine {
  import opened Base
  import opened Text
  import opened Decimal
  import opened Values
  import opened Control
  import opened Instructions

  type Program = seq<Instr>

  /** ip is the index the fetch loop reads next, that is, ip_ after the
      instruction ran and the loop's std::advance(ip_, 1); ip == |prog|
      means ip_ == program_.end() and the loop stops. */
  datatype State = State(
    regs: Registers,
    ip: nat,
    flags: set<Flag>,   // comparison_status_register_; {} is Invalid
    stack: seq<nat>,    // jump_stack_, top at the end
    out: string,        // what msg wrote to msg_port
    ended: bool)        // end_execution pointed std_out at msg_port

  /** A freshly constructed Machine after load_program. */
  const Initial: State := State(map[], 0, {}, [], "", false)

  /** Machine::pre_run: every label instruction records its own index, so a
      later definition of the same name replaces an earlier one. */
  function Labels(prog: Program): map<string, nat>
  {
    if prog == [] then map[]
    else
      var m := Labels(prog[..|prog| - 1]);
      match prog[|prog| - 1]
      case Label(n) => m[n := |prog| - 1]
      case _ => m
  }

  /** The fetch loop's std::advance(ip_, 1) after an instruction left ip_ at
      pos: stepping beyond end() is undefined behaviour. */
  function Next(prog: Program, s: State, pos: nat): (r: Result<State>)
    ensures r.Ok? <==> pos < |prog|
    ensures r.Ok? ==> r.value == s.(ip := pos + 1)
  {
    if pos < |prog| then Ok(s.(ip := pos + 1)) else Err(PastEnd)
  }

  /** The comparison flags after cmp with operands x and y: cleared, then
      set bit by bit. */
  function CmpFlags(x: int, y: int): (f: set<Flag>)
    ensures Equal in f <==> x == y
    ensures NotEqual in f <==> x != y
    ensures Less in f <==> x < y
    ensures LessOrEqual in f <==> x <= y
    ensures Greater in f <==> x > y
    ensures GreaterOrEqual in f <==> x >= y
  {
    var f0: set<Flag> := {};
    var f1 := if x == y then f0 + {Equal, LessOrEqual, GreaterOrEqual} else f0 + {NotEqual};
    var f2 := if x < y then f1 + {Less, LessOrEqual} else f1;
    if x > y then f2 + {Greater, GreaterOrEqual} else f2
  }

  /** add, sub, mul and div on int: a result outside int is signed overflow,
      and a zero divisor is undefined behaviour too. */
  function Apply(op: ArithOp, a: int, b: int): (r: Result<int>)
    ensures r.Ok? ==> IsInt32(r.value)
    ensures r.Err? <==> (op.Div? && b == 0) || !IsInt32(ArithValue(op, a, b))
    ensures r.Ok? ==> r.value == ArithValue(op, a, b)
  {
    match op
    case Add => Checked(a + b)
    case Sub => Checked(a - b)
    case Mul => Checked(a * b)
    case Div => if b == 0 then Err(DivisionByZero) else Checked(TruncDiv(a, b))
  }

  /** The mathematical value of an arithmetic instruction (0 for a zero
      divisor, which Apply rejects). */
  function ArithValue(op: ArithOp, a: int, b: int): int {
    match op
    case Add => a + b
    case Sub => a - b
    case Mul => a * b
    case Div => if b == 0 then 0 else TruncDiv(a, b)
  }

  /** What one msg argument writes: text with its quotes removed, or the
      decimal value of the operand (std::to_string). */
  function MsgPiece(regs: Registers, arg: MsgArg): Result<string> {
    match arg
    case Text(raw) => Ok(RemoveQuotes(raw))
    case Shown(o) =>
      var v :- Value(regs, o);
      Ok(ToDecimal(v))
  }

  /** Msg::operate_on: the pieces of all arguments in order, with no
      separator; the first argument that cannot be resolved aborts it. */
  function MsgText(regs: Registers, args: seq<MsgArg>): Result<string>
  {
    if args == [] then Ok("")
    else
      var head :- MsgPiece(regs, args[0]);
      var rest :- MsgText(regs, args[1..]);
      Ok(head + rest)
  }

  /** mov, inc, dec and the arithmetic instructions: the value v, once it
      could be computed, goes to register d (operator[] creates it). */
  function Write(s: State, d: string, v: Result<int>): (r: Result<State>)
    ensures r.Ok? <==> v.Ok?
    ensures r.Ok? ==> r.value == s.(regs := s.regs[d := v.value], ip := s.ip + 1)
  {
    var x :- v;
    Ok(s.(regs := s.regs[d := x], ip := s.ip + 1))
  }

  /** Jnz::operate_on: resolve the condition; only when it is not zero is
      the distance resolved and the instruction pointer moved by it. */
  function JumpIfNonZero(prog: Program, s: State, c: Operand, o: Operand): (r: Result<State>)
    requires s.ip < |prog|
    ensures r.Ok? ==> r.value == s.(ip := r.value.ip) && 1 <= r.value.ip <= |prog|
    ensures Value(s.regs, c).Ok? && Value(s.regs, c).value != 0 && Value(s.regs, o).Ok? ==>
              r == Next(prog, s, AdvanceIp(s.ip, Value(s.regs, o).value, |prog|))
  {
    var cv :- Value(s.regs, c);
    if cv == 0 then Ok(s.(ip := s.ip + 1))
    else
      var dist :- Value(s.regs, o);
      Next(prog, s, AdvanceIp(s.ip, dist, |prog|))
  }

  /** Cmp::operate_on: resolve the left operand, then the right one, then
      set the flags. */
  function Compare(s: State, a: Operand, b: Operand): (r: Result<State>)
    ensures r.Ok? <==> Value(s.regs, a).Ok? && Value(s.regs, b).Ok?
    ensures r.Ok? ==>
              r.value == s.(flags := CmpFlags(Value(s.regs, a).value, Value(s.regs, b).value),
                            ip := s.ip + 1)
  {
    var x :- Value(s.regs, a);
    var y :- Value(s.regs, b);
    Ok(s.(flags := CmpFlags(x, y), ip := s.ip + 1))
  }

  /** Machine::jump_to: push the current position, then continue after the
      label; a name pre_run never saw makes label_map_.at throw. */
  function JumpTo(prog: Program, labels: map<string, nat>, s: State, name: string): (r: Result<State>)
    requires s.ip < |prog|
    ensures r.Ok? ==> name in labels && labels[name] < |prog|
    ensures r.Ok? ==> r.value == s.(ip := labels[name] + 1, stack := s.stack + [s.ip])
  {
    if name in labels then Next(prog, s.(stack := s.stack + [s.ip]), labels[name])
    else Err(UndefinedLabel(name))
  }

  /** Machine::_return: continue after the position on top of the stack and
      pop it; top() on an empty std::stack is undefined behaviour. */
  function Return(prog: Program, s: State): (r: Result<State>)
    ensures r.Ok? ==> s.stack != [] && s.stack[|s.stack| - 1] < |prog|
    ensures r.Ok? ==> r.value == s.(ip := s.stack[|s.stack| - 1] + 1, stack := s.stack[..|s.stack| - 1])
  {
    if s.stack == [] then Err(StackUnderflow)
    else Next(prog, s.(stack := s.stack[..|s.stack| - 1]), s.stack[|s.stack| - 1])
  }

  /** Msg::operate_on: append the text of all arguments to msg_port. */
  function Print(s: State, args: seq<MsgArg>): (r: Result<State>)
    ensures r.Ok? <==> MsgText(s.regs, args).Ok?
    ensures r.Ok? ==> r.value == s.(out := s.out + MsgText(s.regs, args).value, ip := s.ip + 1)
  {
    var text :- MsgText(s.regs, args);
    Ok(s.(out := s.out + text, ip := s.ip + 1))
  }

  /** One iteration of the fetch loop: operate_on for the instruction at
      s.ip, then the loop's step to the following position. */
  function Step(prog: Program, labels: map<string, nat>, s: State): (r: Result<State>)
    requires s.ip < |prog|
    ensures r.Ok? ==> 1 <= r.value.ip <= |prog|
  {
    match prog[s.ip]
    case Mov(d, src) => Write(s, d, Value(s.regs, src))
    case Inc(d) => Write(s, d, Checked(Current(s.regs, d) + 1))
    case Dec(d) => Write(s, d, Checked(Current(s.regs, d) - 1))
    case Arith(op, d, src) =>
      var b :- Value(s.regs, src);
      Write(s, d, Apply(op, Current(s.regs, d), b))
    case Jnz(c, o) => JumpIfNonZero(prog, s, c, o)
    case Cmp(a, b) => Compare(s, a, b)
    case CondJump(f, l) =>
      if f in s.flags then JumpTo(prog, labels, s, l) else Ok(s.(ip := s.ip + 1))
    case Call(l) => JumpTo(prog, labels, s, l)
    case Ret => Return(prog, s)
    case Msg(args) => Print(s, args)
    case Label(_) => Ok(s.(ip := s.ip + 1))
    case End => Ok(s.(ended := true, ip := |prog|))
  }

  /** How a run ends: the loop reached end(), an exception or undefined
      behaviour stopped it, or it took more than the given number of steps. */
  datatype Outcome = Finished(final: State) | Failed(error: Error) | OutOfFuel

  /** Machine::run_program from s, executing at most fuel instructions. */
  function Run(prog: Program, labels: map<string, nat>, s: State, fuel: nat): Outcome
    requires s.ip <= |prog|
    decreases fuel, 1
  {
    if s.ip == |prog| then Finished(s)
    else if fuel == 0 then OutOfFuel
    else Resume(prog, labels, Step(prog, labels, s), fuel - 1)
  }

  /** The loop after one instruction: an exception or undefined behaviour
      ends it, otherwise it goes on from the new state. */
  function Resume(prog: Program, labels: map<string, nat>, r: Result<State>, fuel: nat): Outcome
    requires r.Ok? ==> r.value.ip <= |prog|
    decreases fuel, 2
  {
    match r
    case Err(e) => Failed(e)
    case Ok(next) => Run(prog, labels, next, fuel)
  }

  /** Machine::flush: the msg output once end ran, the fixed "-1" of
      default_out otherwise. */
  function Flush(s: State): string {
    if s.ended then s.out else "-1"
  }
}
