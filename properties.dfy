/** Properties of the interpreter's semantics: what one step does for each
    kind of opcode, how call and return fit together, the stack-pointer bound
    that every step keeps, and the behaviour of a few whole programs. */
module Properties {
  import opened Opcodes
  import opened Semantics

  /** The opcode at the pc of a machine whose fetch succeeds. */
  function OpcodeAt(m: Machine): word
    requires WellFormed(m) && m.pc + 1 < MemorySize
  {
    Fetch(m.memory, m.pc).value
  }

  /** The fields of a big-endian opcode in terms of its two bytes. */
  lemma OpcodeBytes(hi: byte, lo: byte)
    ensures var op := hi as int * 0x100 + lo;
      && op / 0x1000 == hi / 0x10
      && op / 0x100 % 0x10 == hi % 0x10
      && op / 0x10 % 0x10 == lo / 0x10
      && op % 0x10 == lo % 0x10
      && op % 0x1000 == (hi % 0x10) * 0x100 + lo
      && op % 0x100 == lo
  {
    var op := hi as int * 0x100 + lo;
    assert op / 0x100 == hi;
    assert op % 0x100 == lo;
    assert op / 0x1000 == hi / 0x10;
    assert op / 0x10 == hi * 0x10 + lo / 0x10;
  }

  /** The instruction each opcode value decodes to, stated on its two bytes. */
  lemma DispatchBytes(m: Machine)
    requires WellFormed(m) && m.pc + 1 < MemorySize
    ensures var hi: int, lo: int := m.memory[m.pc], m.memory[m.pc + 1];
      && OpcodeAt(m) == hi * 0x100 + lo
      && (hi / 0x10 == 1 ==> Dispatch(OpcodeAt(m)) == Jump((hi % 0x10) * 0x100 + lo))
      && (hi / 0x10 == 2 ==> Dispatch(OpcodeAt(m)) == Call((hi % 0x10) * 0x100 + lo))
      && (hi / 0x10 == 3 ==> Dispatch(OpcodeAt(m)) == SkipIfEq(hi % 0x10, lo))
      && (hi / 0x10 == 4 ==> Dispatch(OpcodeAt(m)) == SkipIfNeq(hi % 0x10, lo))
      && (hi / 0x10 == 5 && lo % 0x10 == 0 ==>
            Dispatch(OpcodeAt(m)) == SkipIfEqRegisters(hi % 0x10, lo / 0x10))
      && (hi / 0x10 == 6 ==> Dispatch(OpcodeAt(m)) == LoadInRegister(6, lo))
      && (hi / 0x10 == 7 ==> Dispatch(OpcodeAt(m)) == AddXkk(hi % 0x10, lo))
      && (hi / 0x10 == 8 && lo % 0x10 == 4 ==> Dispatch(OpcodeAt(m)) == AddXy(hi % 0x10, lo / 0x10))
      && (hi == 0 && lo == 0 ==> Dispatch(OpcodeAt(m)) == Halt)
      && (hi == 0 && lo == 0xE0 ==> Dispatch(OpcodeAt(m)) == ClearScreen)
      && (hi == 0 && lo == 0xEE ==> Dispatch(OpcodeAt(m)) == Return)
      && (hi / 0x10 == 0 && !(hi == 0 && (lo == 0 || lo == 0xE0 || lo == 0xEE)) ==>
            Dispatch(OpcodeAt(m)) == Unimplemented(hi * 0x100 + lo))
      && (hi / 0x10 == 5 && lo % 0x10 != 0 ==> Dispatch(OpcodeAt(m)) == Unimplemented(hi * 0x100 + lo))
      && (hi / 0x10 == 8 && lo % 0x10 != 4 ==> Dispatch(OpcodeAt(m)) == Unimplemented(hi * 0x100 + lo))
      && (hi / 0x10 >= 9 ==> Dispatch(OpcodeAt(m)) == Unimplemented(hi * 0x100 + lo))
  {
    OpcodeBytes(m.memory[m.pc], m.memory[m.pc + 1]);
  }

  /** Every step that gets past the fetch has moved the pc on by 2 before the
      handler runs: a handler that does not touch the pc leaves it 2 further on. */
  lemma StepAdvancesPc(m: Machine)
    requires WellFormed(m) && m.pc + 1 < MemorySize
    requires var i := Dispatch(OpcodeAt(m));
      i.SkipIfEq? || i.SkipIfNeq? || i.SkipIfEqRegisters? || i.LoadInRegister? || i.AddXkk? || i.AddXy?
        || i == ClearScreen || i == Halt || i.Unimplemented?
    ensures Step(m).machine.pc in {m.pc + 2, m.pc + 4}
    ensures (!Dispatch(OpcodeAt(m)).SkipIfEq? && !Dispatch(OpcodeAt(m)).SkipIfNeq? &&
             !Dispatch(OpcodeAt(m)).SkipIfEqRegisters?) ==> Step(m).machine.pc == m.pc + 2
  {
  }

  /** `1nnn` sets the pc to `nnn` and changes nothing else. */
  lemma StepJump(m: Machine)
    requires WellFormed(m) && m.pc + 1 < MemorySize
    requires m.memory[m.pc] / 0x10 == 1
    ensures Step(m) == Outcome(Running, m.(pc := (m.memory[m.pc] as int % 0x10) * 0x100 + m.memory[m.pc + 1]))
  {
    DispatchBytes(m);
  }

  /** `2nnn` below a full stack pushes the address of the next instruction and
      jumps to `nnn`; with 16 or more entries it faults and changes nothing but
      the pc advance of the fetch. */
  lemma StepCall(m: Machine)
    requires WellFormed(m) && m.pc + 1 < MemorySize
    requires m.memory[m.pc] / 0x10 == 2
    ensures var nnn := (m.memory[m.pc] as int % 0x10) * 0x100 + m.memory[m.pc + 1];
      Step(m) == if m.sp < StackSize
                 then Outcome(Running, m.(pc := nnn, sp := m.sp + 1, stack := m.stack[m.sp := m.pc + 2]))
                 else if m.sp == StackSize
                 then Outcome(Faulted(IndexOutOfBounds(StackSize, StackSize)), m.(pc := m.pc + 2))
                 else Outcome(Faulted(StackOverflow), m.(pc := m.pc + 2))
  {
    DispatchBytes(m);
  }

  /** `00EE` on an empty stack faults with StackUnderflow; the pc is the one
      the fetch left, the return itself does not touch it. */
  lemma StepReturnUnderflow(m: Machine)
    requires WellFormed(m) && m.pc + 1 < MemorySize
    requires m.memory[m.pc] == 0x00 && m.memory[m.pc + 1] == 0xEE
    requires m.sp == 0
    ensures Step(m) == Outcome(Faulted(StackUnderflow), m.(pc := m.pc + 2))
  {
  }

  /** A call followed by a return gives back the pc and the stack pointer from
      before the call; only the stack slot that was written differs. */
  lemma CallThenRet(m: Machine, addr: address)
    requires WellFormed(m) && m.sp < StackSize && m.pc < 0x1_0000
    ensures Semantics.Call(m, addr).status == Running
    ensures Ret(Semantics.Call(m, addr).machine) == Outcome(Running, m.(stack := m.stack[m.sp := m.pc]))
  {
  }

  /** The same round trip through the interpreter: a `2nnn` whose target holds
      `00EE` comes back to the instruction after the call in two steps. */
  lemma RunCallThenReturn(m: Machine)
    requires WellFormed(m) && m.pc + 1 < MemorySize && m.sp < StackSize
    requires m.memory[m.pc] / 0x10 == 2
    requires var nnn := (m.memory[m.pc] as int % 0x10) * 0x100 + m.memory[m.pc + 1];
      nnn + 1 < MemorySize && m.memory[nnn] == 0x00 && m.memory[nnn + 1] == 0xEE
    ensures Run(m, 2) == Outcome(Running, m.(pc := m.pc + 2, stack := m.stack[m.sp := m.pc + 2]))
  {
    StepCall(m);
    var m1 := Step(m).machine;
    assert Step(m1) == Outcome(Running, m.(pc := m.pc + 2, stack := m.stack[m.sp := m.pc + 2]));
  }

  /** `00EE` with a non-empty stack within bounds returns to the address on
      top of the stack. */
  lemma StepReturn(m: Machine)
    requires WellFormed(m) && m.pc + 1 < MemorySize
    requires m.memory[m.pc] == 0x00 && m.memory[m.pc + 1] == 0xEE
    requires 0 < m.sp <= StackSize
    ensures Step(m) == Outcome(Running, m.(sp := m.sp - 1, pc := m.stack[m.sp - 1]))
  {
  }

  /** `8xy4` is the add-with-carry handler applied after the pc advance. */
  lemma StepAddXy(m: Machine)
    requires WellFormed(m) && m.pc + 1 < MemorySize
    requires m.memory[m.pc] / 0x10 == 8 && m.memory[m.pc + 1] % 0x10 == 4
    ensures Step(m) == Semantics.AddXy(m.(pc := m.pc + 2), m.memory[m.pc] % 0x10, m.memory[m.pc + 1] / 0x10)
  {
    DispatchBytes(m);
  }

  /** The skip forms move the pc 2 further exactly when their condition holds. */
  lemma StepSkip(m: Machine)
    requires WellFormed(m) && m.pc + 1 < MemorySize
    requires var hi, lo := m.memory[m.pc], m.memory[m.pc + 1];
      hi / 0x10 in {3, 4} || (hi / 0x10 == 5 && lo % 0x10 == 0)
    ensures var hi, lo := m.memory[m.pc], m.memory[m.pc + 1];
      var vx := m.registers[hi % 0x10];
      var skip := if hi / 0x10 == 3 then vx == m.memory[lo]
                  else if hi / 0x10 == 4 then vx != m.memory[lo]
                  else vx == m.registers[lo / 0x10];
      Step(m) == Outcome(Running, m.(pc := if skip then m.pc + 4 else m.pc + 2))
  {
    DispatchBytes(m);
  }

  /** `6xkk` writes register 6 whatever `x` is, and writes the memory cell at
      `kk` rather than `kk`. */
  lemma StepLoadIgnoresX(m: Machine)
    requires WellFormed(m) && m.pc + 1 < MemorySize
    requires m.memory[m.pc] / 0x10 == 6
    ensures Step(m) == Outcome(Running, m.(pc := m.pc + 2,
                                           registers := m.registers[6 := m.memory[m.memory[m.pc + 1]]]))
  {
    DispatchBytes(m);
  }

  /** `8xy4` with `x` other than F: the new register x and the flag together
      hold the full nine-bit sum. */
  lemma AddXyCarry(m: Machine, x: nibble, y: nibble)
    requires WellFormed(m) && x != FlagRegister
    ensures var r := Semantics.AddXy(m, x, y).machine.registers;
      r[x] as int + r[FlagRegister] as int * 0x100 == m.registers[x] as int + m.registers[y]
  {
  }

  /** `8Fy4`: the flag write comes last, so register F ends up holding the
      carry and the wrapped sum is lost. */
  lemma AddXyIntoFlag(m: Machine, y: nibble)
    requires WellFormed(m)
    ensures var r := Semantics.AddXy(m, FlagRegister, y).machine.registers;
      r[FlagRegister] == if m.registers[FlagRegister] as int + m.registers[y] > 0xFF then 1 else 0
  {
  }

  /** The fixed outcomes of dispatch: `0000` halts, `00E0` blanks the whole
      grid, an opcode without an arm faults with that opcode. */
  lemma StepTerminal(m: Machine)
    requires WellFormed(m) && m.pc + 1 < MemorySize
    ensures OpcodeAt(m) == 0x0000 ==> Step(m) == Outcome(Halted, m.(pc := m.pc + 2))
    ensures OpcodeAt(m) == 0x00E0 ==> Step(m) == Outcome(Running, m.(pc := m.pc + 2, pixels := Blank()))
    ensures !Implemented(OpcodeAt(m)) ==>
              Step(m) == Outcome(Faulted(UnimplementedOpcode(OpcodeAt(m))), m.(pc := m.pc + 2))
    ensures Step(m).status == Halted <==> OpcodeAt(m) == 0x0000
  {
  }

  /** A step never takes the stack pointer above 16. */
  lemma StepKeepsStackBound(m: Machine)
    requires WellFormed(m) && m.sp <= StackSize
    ensures Step(m).machine.sp <= StackSize
  {
  }

  /** Nor does any run. */
  lemma {:induction false} RunKeepsStackBound(m: Machine, fuel: nat)
    requires WellFormed(m) && m.sp <= StackSize
    ensures Run(m, fuel).machine.sp <= StackSize
    decreases fuel
  {
    if fuel > 0 {
      StepKeepsStackBound(m);
      var o := Step(m);
      if o.status == Running {
        RunKeepsStackBound(o.machine, fuel - 1);
      }
    }
  }

  /** Runs compose: the outcome of `a + b` steps is that of `b` steps from
      where `a` steps left a machine that is still running. */
  lemma {:induction false} RunAppend(m: Machine, a: nat, b: nat)
    requires WellFormed(m)
    ensures Run(m, a + b) == Continue(Run(m, a), b)
    decreases a, 0
  {
    if a > 0 {
      var o := Step(m);
      assert Run(m, a + b) == Continue(o, (a - 1) + b);
      ContinueAppend(o, a - 1, b);
    }
  }

  lemma {:induction false} ContinueAppend(o: Outcome, a: nat, b: nat)
    requires WellFormed(o.machine)
    ensures Continue(o, a + b) == Continue(Continue(o, a), b)
    decreases a, 1
  {
    if o.status == Running {
      RunAppend(o.machine, a, b);
    }
  }

  /** A `1nnn` that jumps to its own address never halts and never faults:
      every amount of fuel leaves it running on the same state. */
  lemma {:induction false} SelfJumpSpins(m: Machine, fuel: nat)
    requires WellFormed(m) && m.pc + 1 < MemorySize
    requires m.memory[m.pc] == 0x10 + m.pc / 0x100 && m.memory[m.pc + 1] == m.pc % 0x100
    ensures Run(m, fuel) == Outcome(Running, m)
    decreases fuel
  {
    if fuel > 0 {
      StepJump(m);
      assert (m.memory[m.pc] as int % 0x10) * 0x100 + m.memory[m.pc + 1] == m.pc;
      SelfJumpSpins(m, fuel - 1);
    }
  }

  /** `n` consecutive instructions from `a` on, each a `2nnn` that calls the
      instruction right after it. */
  predicate CallChain(memory: seq<byte>, a: nat, n: nat)
    requires |memory| == MemorySize
    decreases n
  {
    n == 0 ||
    (&& a + 3 < MemorySize
     && memory[a] == 0x20 + (a + 2) / 0x100
     && memory[a + 1] == (a + 2) % 0x100
     && CallChain(memory, a + 2, n - 1))
  }

  /** Nested calls: from stack pointer `sp`, a chain of `16 - sp` calls all
      succeed and fill the stack; the next call faults. Because the guard in
      `CPU::call` is `sp > 16`, this seventeenth call faults on the bounds of
      `stack` rather than with the StackOverflow panic. */
  lemma {:induction false} NestedCalls(m: Machine)
    requires WellFormed(m) && m.sp <= StackSize
    requires CallChain(m.memory, m.pc, StackSize - m.sp + 1)
    ensures var o := Run(m, StackSize - m.sp);
      o.status == Running && o.machine.sp == StackSize && o.machine.pc == m.pc + 2 * (StackSize - m.sp)
    ensures Run(m, StackSize - m.sp + 1).status == Faulted(IndexOutOfBounds(StackSize, StackSize))
    decreases StackSize - m.sp
  {
    StepCall(m);
    assert OpcodeAt(m) / 0x1000 == 2 by { OpcodeBytes(m.memory[m.pc], m.memory[m.pc + 1]); }
    assert (m.memory[m.pc] as int % 0x10) * 0x100 + m.memory[m.pc + 1] == m.pc + 2;
    if m.sp < StackSize {
      var m1 := Step(m).machine;
      assert Step(m).status == Running;
      assert m1.pc == m.pc + 2 && m1.sp == m.sp + 1 && m1.memory == m.memory;
      NestedCalls(m1);
      assert StackSize - m.sp - 1 == StackSize - m1.sp;
    }
  }
}

module Demo {
  import opened Opcodes
  import opened Semantics
  import opened Properties

  /** The program `main` loads: two calls of a subroutine at 0x100 that adds
      register 1 to register 0 twice and returns, then a halt. */
  predicate DemoLoaded(memory: seq<byte>)
    requires |memory| == MemorySize
  {
    && memory[0] == 0x21 && memory[1] == 0x00 && memory[2] == 0x21 && memory[3] == 0x00
    && memory[4] == 0x00 && memory[5] == 0x00
    && memory[0x100] == 0x80 && memory[0x101] == 0x14 && memory[0x102] == 0x80
    && memory[0x103] == 0x14 && memory[0x104] == 0x00 && memory[0x105] == 0xEE
  }

  /** `8014` without carry: register 0 grows by register 1 and the flag is cleared. */
  lemma AddOneToZero(m: Machine)
    requires WellFormed(m) && m.pc + 1 < MemorySize
    requires m.memory[m.pc] == 0x80 && m.memory[m.pc + 1] == 0x14
    requires m.registers[0] as int + m.registers[1] < 0x100
    ensures var sum: byte := m.registers[0] as int + m.registers[1];
      Step(m) == Outcome(Running, m.(pc := m.pc + 2, registers := m.registers[0 := sum][FlagRegister := 0]))
  {
    StepAddXy(m);
  }

  /** The subroutine: three steps add register 1 to register 0 twice, clear the
      flag and return. */
  lemma Subroutine(m: Machine)
    requires WellFormed(m) && DemoLoaded(m.memory)
    requires m.pc == 0x100 && 0 < m.sp <= StackSize
    requires m.registers[0] as int + m.registers[1] as int * 2 < 0x100
    ensures var o := Run(m, 3);
      && o.status == Running
      && o.machine.registers[0] == m.registers[0] as int + m.registers[1] as int * 2
      && o.machine.registers[1] == m.registers[1]
      && o.machine.registers[FlagRegister] == 0
      && o.machine.memory == m.memory
      && o.machine.pc == m.stack[m.sp - 1] && o.machine.sp == m.sp - 1
      && o.machine.stack == m.stack
  {
    AddOneToZero(m);
    var m1 := Step(m).machine;
    AddOneToZero(m1);
    var m2 := Step(m1).machine;
    StepReturn(m2);
    assert Run(m, 3) == Run(m1, 2);
    assert Run(m1, 2) == Run(m2, 1);
  }

  /** A `2100` at `pc` with room on the stack enters the subroutine. */
  lemma EnterSubroutine(m: Machine)
    requires WellFormed(m) && m.pc + 1 < MemorySize && m.sp < StackSize
    requires m.memory[m.pc] == 0x21 && m.memory[m.pc + 1] == 0x00
    ensures Run(m, 1) == Outcome(Running, m.(pc := 0x100, sp := m.sp + 1, stack := m.stack[m.sp := m.pc + 2]))
  {
    StepCall(m);
  }

  /** One `2100` at `pc` and the subroutine it calls: four steps that end on
      the next instruction with register 1 added twice to register 0. */
  lemma CallSubroutine(m: Machine)
    requires WellFormed(m) && DemoLoaded(m.memory) && m.pc + 1 < MemorySize && m.sp < StackSize
    requires m.memory[m.pc] == 0x21 && m.memory[m.pc + 1] == 0x00
    requires m.registers[0] as int + m.registers[1] as int * 2 < 0x100
    ensures var o := Run(m, 4);
      && o.status == Running
      && o.machine.registers[0] == m.registers[0] as int + m.registers[1] as int * 2
      && o.machine.registers[1] == m.registers[1]
      && o.machine.registers[FlagRegister] == 0
      && o.machine.memory == m.memory
      && o.machine.pc == m.pc + 2 && o.machine.sp == m.sp
  {
    EnterSubroutine(m);
    var m1 := Run(m, 1).machine;
    Subroutine(m1);
    RunAppend(m, 1, 3);
  }

  /** The two calls of the subroutine: eight steps from pc 0 end on the halt
      at pc 4 with 5 + 4 * 10 in register 0. */
  lemma TwoCalls(m: Machine)
    requires WellFormed(m) && DemoLoaded(m.memory)
    requires m.pc == 0 && m.sp == 0 && m.registers[0] == 5 && m.registers[1] == 10
    ensures var o := Run(m, 8);
      && o.status == Running
      && o.machine.registers[0] == 45 && o.machine.registers[FlagRegister] == 0
      && o.machine.pc == 4 && o.machine.memory == m.memory
  {
    CallSubroutine(m);
    CallSubroutine(Run(m, 4).machine);
    RunAppend(m, 4, 4);
  }

  /** Starting from pc 0 with registers 0 and 1 holding 5 and 10, the demo
      halts after nine steps with 5 + 4 * 10 = 45 in register 0. */
  lemma DemoRun(m: Machine)
    requires WellFormed(m) && DemoLoaded(m.memory)
    requires m.pc == 0 && m.sp == 0 && m.registers[0] == 5 && m.registers[1] == 10
    ensures Run(m, 9).status == Halted
    ensures Run(m, 9).machine.registers[0] == 45
    ensures Run(m, 9).machine.registers[FlagRegister] == 0
  {
    TwoCalls(m);
    var m8 := Run(m, 8).machine;
    StepTerminal(m8);
    assert Run(m8, 1) == Outcome(Halted, m8.(pc := 6));
    RunAppend(m, 8, 1);
  }
}
