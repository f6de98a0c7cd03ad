/** Properties of whole runs of the fetch-execute loop. */
module RunProps {
  import opened Base
  import opened Decimal
  import opened Values
  import opened Instructions
  import opened Machine
  import opened MachineProps

  /** What holds of every state a loaded program reaches: the instruction
      pointer is at most end(), every saved return position is an index of
      the program, and every register holds an int. */
  predicate Valid(prog: Program, s: State) {
    && s.ip <= |prog|
    && (forall k :: 0 <= k < |s.stack| ==> s.stack[k] < |prog|)
    && (forall r :: r in s.regs ==> IsInt32(s.regs[r]))
  }

  lemma InitialValid(prog: Program)
    ensures Valid(prog, Initial)
  {
  }

  /** Every instruction of the program was decoded from a line. */
  predicate Loaded(prog: Program) {
    forall i :: 0 <= i < |prog| ==> Decoded(prog[i])
  }

  /** Every instruction of a loaded program keeps a state valid. */
  lemma StepValid(prog: Program, labels: map<string, nat>, s: State)
    requires Loaded(prog) && Valid(prog, s) && s.ip < |prog|
    requires Step(prog, labels, s).Ok?
    ensures Valid(prog, Step(prog, labels, s).value)
  {
    StepKeepsReturns(prog, labels, s);
    StepKeepsInts(prog, labels, s);
  }

  /** Every return position an instruction leaves on the stack is an index
      of the program. */
  lemma StepKeepsReturns(prog: Program, labels: map<string, nat>, s: State)
    requires s.ip < |prog| && Step(prog, labels, s).Ok?
    requires forall k :: 0 <= k < |s.stack| ==> s.stack[k] < |prog|
    ensures var t := Step(prog, labels, s).value;
            forall k :: 0 <= k < |t.stack| ==> t.stack[k] < |prog|
  {
    var t := Step(prog, labels, s).value;
    StepFrame(prog, labels, s);
    match prog[s.ip]
    case Call(l) =>
      assert t.stack == s.stack + [s.ip];
    case CondJump(f, l) =>
      assert t.stack == s.stack || t.stack == s.stack + [s.ip];
    case Ret =>
      assert t.stack == s.stack[..|s.stack| - 1];
    case _ =>
  }

  /** A decoded instruction leaves only ints in the registers. */
  lemma StepKeepsInts(prog: Program, labels: map<string, nat>, s: State)
    requires Loaded(prog) && s.ip < |prog| && Step(prog, labels, s).Ok?
    requires forall r :: r in s.regs ==> IsInt32(s.regs[r])
    ensures var t := Step(prog, labels, s).value;
            forall r :: r in t.regs ==> IsInt32(t.regs[r])
  {
    var t := Step(prog, labels, s).value;
    match prog[s.ip]
    case Mov(d, src) =>
      ValueIsInt(s.regs, src);
      assert t.regs == s.regs[d := Value(s.regs, src).value];
    case Inc(d) =>
    case Dec(d) =>
    case Arith(op, d, src) =>
      var b := Value(s.regs, src).value;
      assert t.regs == s.regs[d := Apply(op, Current(s.regs, d), b).value];
    case _ =>
      StepWritesOnlyDest(prog, labels, s);
  }

  /** A successful step hands the rest of the run to the next state. */
  lemma RunStep(prog: Program, labels: map<string, nat>, s: State, fuel: nat, t: State)
    requires s.ip < |prog| && fuel > 0
    requires Step(prog, labels, s) == Ok(t)
    ensures Run(prog, labels, s, fuel) == Run(prog, labels, t, fuel - 1)
  {
  }

  /** A run that passes through the given states, one instruction each,
      finishes in the last of them once that one lies at end(). */
  lemma {:induction false} RunThrough(prog: Program, labels: map<string, nat>, states: seq<State>, fuel: nat)
    requires |states| >= 1 && fuel >= |states| - 1
    requires forall i :: 0 <= i < |states| - 1 ==>
               states[i].ip < |prog| && Step(prog, labels, states[i]) == Ok(states[i + 1])
    requires states[|states| - 1].ip == |prog|
    ensures states[0].ip <= |prog|
    ensures Run(prog, labels, states[0], fuel) == Finished(states[|states| - 1])
    decreases |states|
  {
    if |states| > 1 {
      var rest := states[1..];
      forall i | 0 <= i < |rest| - 1
        ensures rest[i].ip < |prog| && Step(prog, labels, rest[i]) == Ok(rest[i + 1])
      {
        assert rest[i] == states[i + 1] && rest[i + 1] == states[i + 2];
      }
      RunThrough(prog, labels, rest, fuel - 1);
      RunStep(prog, labels, states[0], fuel, states[1]);
    }
  }

  /** A finished run that has not reached end() took a successful step
      first. */
  lemma RunUnfold(prog: Program, labels: map<string, nat>, s: State, fuel: nat)
    requires s.ip < |prog|
    requires Run(prog, labels, s, fuel).Finished?
    ensures fuel > 0 && Step(prog, labels, s).Ok?
    ensures Run(prog, labels, s, fuel) == Run(prog, labels, Step(prog, labels, s).value, fuel - 1)
  {
  }

  /** A run of a loaded program from a valid state ends in a valid state. */
  lemma {:induction false} RunValid(prog: Program, labels: map<string, nat>, s: State, fuel: nat)
    requires Loaded(prog) && Valid(prog, s)
    requires Run(prog, labels, s, fuel).Finished?
    ensures Valid(prog, Run(prog, labels, s, fuel).final)
    decreases fuel
  {
    if s.ip < |prog| {
      RunUnfold(prog, labels, s, fuel);
      var t := Step(prog, labels, s).value;
      StepValid(prog, labels, s);
      RunValid(prog, labels, t, fuel - 1);
      assert Run(prog, labels, s, fuel).final == Run(prog, labels, t, fuel - 1).final;
    }
  }

  /** On a valid state ret fails only on an empty stack. */
  lemma RetFailsOnlyWhenEmpty(prog: Program, labels: map<string, nat>, s: State)
    requires Valid(prog, s) && s.ip < |prog| && prog[s.ip] == Ret
    ensures Step(prog, labels, s).Err? <==> s.stack == []
  {
  }

  /** A run that stopped within some number of steps stops the same way
      with any larger allowance. */
  lemma {:induction false} RunMoreFuel(prog: Program, labels: map<string, nat>, s: State, fuel: nat, more: nat)
    requires s.ip <= |prog|
    requires !Run(prog, labels, s, fuel).OutOfFuel?
    ensures Run(prog, labels, s, fuel + more) == Run(prog, labels, s, fuel)
    decreases fuel
  {
    if s.ip < |prog| && fuel > 0 {
      var r := Step(prog, labels, s);
      if r.Ok? {
        RunMoreFuel(prog, labels, r.value, fuel - 1, more);
      }
    }
  }

  /** end stops the loop at once, with msg_port as the output. */
  lemma EndHalts(prog: Program, labels: map<string, nat>, s: State, fuel: nat)
    requires s.ip < |prog| && prog[s.ip] == End && fuel > 0
    ensures Run(prog, labels, s, fuel) == Finished(s.(ended := true, ip := |prog|))
    ensures Flush(Run(prog, labels, s, fuel).final) == s.out
  {
    var t := s.(ended := true, ip := |prog|);
    assert Step(prog, labels, s) == Ok(t);
    assert Run(prog, labels, t, fuel - 1) == Finished(t);
  }

  predicate NoEnd(prog: Program) {
    forall i :: 0 <= i < |prog| ==> !prog[i].End?
  }

  /** A program without end never switches the output to msg_port: if its
      run finishes, flush gives "-1", whatever msg wrote. */
  lemma {:induction false} NoEndFlushesSentinel(prog: Program, labels: map<string, nat>, s: State, fuel: nat)
    requires NoEnd(prog) && s.ip <= |prog| && !s.ended
    requires Run(prog, labels, s, fuel).Finished?
    ensures !Run(prog, labels, s, fuel).final.ended
    ensures Flush(Run(prog, labels, s, fuel).final) == "-1"
    decreases fuel
  {
    if s.ip < |prog| {
      var t := Step(prog, labels, s).value;
      StepFrame(prog, labels, s);
      NoEndFlushesSentinel(prog, labels, t, fuel - 1);
    }
  }

  predicate NoCmp(prog: Program) {
    forall i :: 0 <= i < |prog| ==> !prog[i].Cmp?
  }

  /** Only cmp sets the flag register: a finished run of a program without
      cmp ends with the flags still Invalid. NoCmpNoJump states the same for
      every state of every run. */
  lemma {:induction false} NoCmpKeepsFlagsInvalid(prog: Program, labels: map<string, nat>, s: State, fuel: nat)
    requires NoCmp(prog) && s.ip <= |prog| && s.flags == {}
    requires Run(prog, labels, s, fuel).Finished?
    ensures Run(prog, labels, s, fuel).final.flags == {}
    decreases fuel
  {
    if s.ip < |prog| {
      RunUnfold(prog, labels, s, fuel);
      var t := Step(prog, labels, s).value;
      StepFrame(prog, labels, s);
      NoCmpKeepsFlagsInvalid(prog, labels, t, fuel - 1);
    }
  }

  /** The program with every conditional jump replaced by a label
      instruction naming the same target: an instruction that only moves on
      to the next one. */
  function Erase(prog: Program): (r: Program)
    ensures |r| == |prog|
    ensures forall i :: 0 <= i < |r| ==> !r[i].CondJump?
    ensures forall i :: 0 <= i < |prog| && !prog[i].CondJump? ==> r[i] == prog[i]
  {
    seq(|prog|, i requires 0 <= i < |prog| =>
      match prog[i]
      case CondJump(_, l) => Label(l)
      case other => other)
  }

  /** One step depends on the program only through its length and the
      instruction at the pointer. */
  lemma StepSameInstr(prog: Program, other: Program, labels: map<string, nat>, s: State)
    requires s.ip < |prog| && |other| == |prog| && other[s.ip] == prog[s.ip]
    ensures Step(prog, labels, s) == Step(other, labels, s)
  {
  }

  /** No conditional jump is taken before the first cmp: in a program
      without cmp, starting with the flag register Invalid, the run is step
      for step the run of the program whose conditional jumps are all
      replaced by instructions that just move on, with the same outcome,
      failure and exhausted bound included. */
  lemma {:induction false} NoCmpNoJump(prog: Program, labels: map<string, nat>, s: State, fuel: nat)
    requires NoCmp(prog) && s.ip <= |prog| && s.flags == {}
    ensures Run(prog, labels, s, fuel) == Run(Erase(prog), labels, s, fuel)
    decreases fuel
  {
    var e := Erase(prog);
    if s.ip < |prog| && fuel > 0 {
      match prog[s.ip] {
        case CondJump(f, l) =>
          NoJumpBeforeCmp(prog, labels, s, f, l);
          assert e[s.ip] == Label(l);
        case _ =>
          StepSameInstr(prog, e, labels, s);
      }
      var r := Step(prog, labels, s);
      assert r == Step(e, labels, s);
      if r.Ok? {
        StepFrame(prog, labels, s);
        NoCmpNoJump(prog, labels, r.value, fuel - 1);
      }
    }
  }

  /** The registers some instruction of the program writes. */
  function Dests(prog: Program): set<string> {
    set i | 0 <= i < |prog| && Dest(prog[i]).Some? :: Dest(prog[i]).value
  }

  /** A run creates no register but the destinations of its instructions,
      and never removes one. */
  lemma {:induction false} RunRegisters(prog: Program, labels: map<string, nat>, s: State, fuel: nat)
    requires s.ip <= |prog|
    requires Run(prog, labels, s, fuel).Finished?
    ensures s.regs.Keys <= Run(prog, labels, s, fuel).final.regs.Keys
    ensures Run(prog, labels, s, fuel).final.regs.Keys <= s.regs.Keys + Dests(prog)
    decreases fuel
  {
    if s.ip < |prog| {
      var t := Step(prog, labels, s).value;
      StepWritesOnlyDest(prog, labels, s);
      assert t.regs.Keys <= s.regs.Keys + Dests(prog) by {
        if Dest(prog[s.ip]).Some? {
          assert Dest(prog[s.ip]).value in Dests(prog);
        }
      }
      RunUnfold(prog, labels, s, fuel);
      RunRegisters(prog, labels, t, fuel - 1);
    }
  }
}
