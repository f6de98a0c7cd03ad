/** Registers and operand resolution (is_register, ValueResolver::get_value_of)
    and the int arithmetic the instructions perform. */
module Values {
  import opened Base
  import opened Text
  import opened Decimal

  /** Register name to value; a name is present once it has been written. */
  type Registers = map<string, int>

  /** is_register: the token contains an alphabetic character. */
  function IsRegister(t: string): bool {
    if t == [] then false else IsAlpha(t[0]) || IsRegister(t[1..])
  }

  /** A token names a register exactly when one of its characters is a
      letter. */
  lemma {:induction false} IsRegisterHasAlpha(t: string)
    ensures IsRegister(t) <==> exists i :: 0 <= i < |t| && IsAlpha(t[i])
    decreases |t|
  {
    if t != [] {
      IsRegisterHasAlpha(t[1..]);
      if IsRegister(t[1..]) {
        var j :| 0 <= j < |t[1..]| && IsAlpha(t[1..][j]);
        assert IsAlpha(t[j + 1]);
      }
      if exists i :: 0 <= i < |t| && IsAlpha(t[i]) {
        var i :| 0 <= i < |t| && IsAlpha(t[i]);
        if i > 0 {
          assert t[1..][i - 1] == t[i];
        }
      }
    }
  }

  /** ValueResolver::get_value_of: a register token reads the register
      (std::unordered_map::at, which throws for a name never written); any
      other token goes through std::stoi. */
  function Resolve(regs: Registers, t: string): (r: Result<int>)
    ensures IsRegister(t) ==> (r.Ok? <==> t in regs)
    ensures IsRegister(t) && t in regs ==> r.value == regs[t]
    ensures !IsRegister(t) ==> r == ParseInt(t)
  {
    if IsRegister(t) then
      if t in regs then Ok(regs[t]) else Err(UndefinedRegister(t))
    else ParseInt(t)
  }

  /** An operand token as get_value_of treats it. Both the classification
      and the std::stoi conversion depend on the text alone, so they are
      done once, when the line is decoded; a failed conversion is kept and
      surfaces only when the instruction runs. */
  datatype Operand = Reg(name: string) | Lit(text: string, value: Result<int>)

  function ToOperand(t: string): (o: Operand)
    ensures OperandText(o) == t
  {
    if IsRegister(t) then Reg(t) else Lit(t, ParseInt(t))
  }

  function OperandText(o: Operand): string {
    match o
    case Reg(name) => name
    case Lit(text, _) => text
  }

  /** The operand is what decoding its own text gives. */
  predicate WellFormed(o: Operand) {
    ToOperand(OperandText(o)) == o
  }

  /** The value of an operand at run time. */
  function Value(regs: Registers, o: Operand): Result<int> {
    match o
    case Reg(name) => if name in regs then Ok(regs[name]) else Err(UndefinedRegister(name))
    case Lit(_, value) => value
  }

  /** Decoding a token and taking the operand's value later gives what
      get_value_of gives for the token at that time. */
  lemma ValueOfToken(regs: Registers, t: string)
    ensures WellFormed(ToOperand(t))
    ensures Value(regs, ToOperand(t)) == Resolve(regs, t)
  {
  }

  /** The value of a well-formed operand is an int whenever the registers
      hold ints. */
  lemma ValueIsInt(regs: Registers, o: Operand)
    requires WellFormed(o)
    requires forall r :: r in regs ==> IsInt32(regs[r])
    ensures Value(regs, o).Ok? ==> IsInt32(Value(regs, o).value)
  {
  }

  /** Machine::get_register through operator[]: a missing register reads as
      the 0 that operator[] inserts. */
  function Current(regs: Registers, name: string): int {
    if name in regs then regs[name] else 0
  }

  /** A result that must fit in int; signed overflow is undefined behaviour. */
  function Checked(x: int): (r: Result<int>)
    ensures r.Ok? <==> IsInt32(x)
    ensures r.Ok? ==> r.value == x
  {
    if IsInt32(x) then Ok(x) else Err(Overflow)
  }

  /** C++ int division, which truncates toward zero (Dafny's / is Euclidean). */
  function TruncDiv(a: int, b: int): (q: int)
    requires b != 0
    ensures Abs(q) * Abs(b) <= Abs(a) < (Abs(q) + 1) * Abs(b)
    ensures q != 0 ==> (q > 0 <==> (a > 0 <==> b > 0))
  {
    var m: int := NatQuotient(Abs(a), Abs(b));
    if (a < 0) == (b < 0) then m else -m
  }

  /** The quotient of natural numbers, with the bounds that define it. */
  function NatQuotient(a: nat, b: nat): (m: nat)
    requires b > 0
    ensures m * b <= a < (m + 1) * b
  {
    assert a == (a / b) * b + a % b;
    assert 0 <= a % b < b;
    a / b
  }
}
