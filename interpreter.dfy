/** The `CPU` and `Display` structs of src/main.rs as classes over arrays, each
    method proved to do to the abstract state what module Semantics says. */
module Interpreter {
  import opened Opcodes
  import opened Semantics

  /** `Display`: a 64 x 32 grid of booleans, `pixels[x, y]`. */
  class Display {
    const pixels: array2<bool>

    ghost predicate Valid()
      reads this
    {
      pixels.Length0 == Width && pixels.Length1 == Height
    }

    /** The grid as a value. */
    ghost function Screen(): (s: seq<seq<bool>>)
      reads this, pixels
      requires Valid()
      ensures ScreenShaped(s)
      ensures forall x, y :: 0 <= x < Width && 0 <= y < Height ==> s[x][y] == pixels[x, y]
    {
      seq(Width, x requires 0 <= x < pixels.Length0 reads pixels =>
        seq(Height, y requires 0 <= y < pixels.Length1 reads pixels => pixels[x, y]))
    }

    /** `Display::new`: every pixel off. */
    constructor ()
      ensures Valid() && fresh(pixels)
      ensures Screen() == Blank()
    {
      pixels := new bool[Width, Height]((_, _) => false);
      new;
      BlankScreen();
    }

    /** `Display::clear`: turns every pixel off, column by column. */
    method Clear()
      requires Valid()
      modifies pixels
      ensures Screen() == Blank()
    {
      var x := 0;
      while x < Width
        invariant 0 <= x <= Width
        invariant forall i, j :: 0 <= i < x && 0 <= j < Height ==> !pixels[i, j]
      {
        var y := 0;
        while y < Height
          invariant 0 <= y <= Height
          invariant forall i, j :: 0 <= i < x && 0 <= j < Height ==> !pixels[i, j]
          invariant forall j :: 0 <= j < y ==> !pixels[x, j]
        {
          pixels[x, y] := false;
          y := y + 1;
        }
        x := x + 1;
      }
      BlankScreen();
    }

    /** A grid with every pixel off is the blank screen. */
    lemma BlankScreen()
      requires Valid()
      requires forall i, j :: 0 <= i < Width && 0 <= j < Height ==> !pixels[i, j]
      ensures Screen() == Blank()
    {
      var s, b := Screen(), Blank();
      forall x | 0 <= x < Width
        ensures s[x] == b[x]
      {
        assert forall y :: 0 <= y < Height ==> s[x][y] == b[x][y];
      }
    }
  }

  /** `CPU`. Its fields are as general as the struct's: the pc and the stack
      pointer are not kept within the arrays they index, and the stack may
      hold any addresses. */
  class CPU {
    const registers: array<byte>
    var pc: nat
    const memory: array<byte>
    const stack: array<word>
    var sp: nat
    const display: Display

    /** The array sizes fixed by the field types, and no sharing between the
        two byte arrays. */
    ghost predicate Valid()
      reads this, display
    {
      && registers.Length == RegisterCount
      && memory.Length == MemorySize
      && stack.Length == StackSize
      && registers != memory
      && display.Valid()
    }

    /** The machine state these fields stand for. */
    ghost function Abs(): (m: Machine)
      reads this, registers, memory, stack, display, display.pixels
      requires Valid()
      ensures WellFormed(m)
    {
      Machine(registers[..], pc, memory[..], stack[..], sp, display.Screen())
    }

    /** The struct literal: any initial registers, pc, memory image, stack and
        stack pointer, and a display from `Display::new`. */
    constructor (registers0: seq<byte>, pc0: nat, memory0: seq<byte>, stack0: seq<word>, sp0: nat)
      requires |registers0| == RegisterCount && |memory0| == MemorySize && |stack0| == StackSize
      ensures Valid() && fresh(registers) && fresh(memory) && fresh(stack) && fresh(display)
      ensures fresh(display.pixels)
      ensures Abs() == Machine(registers0, pc0, memory0, stack0, sp0, Blank())
    {
      registers := new byte[RegisterCount](i requires 0 <= i < RegisterCount => registers0[i]);
      pc := pc0;
      memory := new byte[MemorySize](i requires 0 <= i < MemorySize => memory0[i]);
      stack := new word[StackSize](i requires 0 <= i < StackSize => stack0[i]);
      sp := sp0;
      display := new Display();
      new;
      assert registers[..] == registers0;
      assert memory[..] == memory0;
      assert stack[..] == stack0;
    }

    /** `CPU::read_opcode`: the two bytes at the pc, high byte first. */
    function ReadOpcode(): (r: Result<word>)
      reads this, memory, display
      requires Valid()
      ensures r == Fetch(memory[..], pc)
    {
      var p := pc;
      if p >= memory.Length then Err(IndexOutOfBounds(p, memory.Length))
      else
        var opByte1 := memory[p] as int;
        if p + 1 >= memory.Length then Err(IndexOutOfBounds(p + 1, memory.Length))
        else
          var opByte2 := memory[p + 1] as int;
          var opcode: word := opByte1 * 0x100 + opByte2;
          Ok(opcode)
    }

    /** `CPU::call`. */
    method Call(addr: address) returns (status: Status)
      requires Valid()
      modifies this, stack
      ensures Valid()
      ensures Outcome(status, Abs()) == Semantics.Call(old(Abs()), addr)
    {
      var s := sp;
      if s > stack.Length {
        return Faulted(StackOverflow);
      }
      if s >= stack.Length {
        return Faulted(IndexOutOfBounds(s, stack.Length));
      }
      stack[s] := pc % 0x1_0000;
      sp := sp + 1;
      pc := addr;
      return Running;
    }

    /** `CPU::ret`. */
    method Ret() returns (status: Status)
      requires Valid()
      modifies this
      ensures Valid()
      ensures Outcome(status, Abs()) == Semantics.Ret(old(Abs()))
    {
      if sp == 0 {
        return Faulted(StackUnderflow);
      }
      sp := sp - 1;
      if sp >= stack.Length {
        return Faulted(IndexOutOfBounds(sp, stack.Length));
      }
      pc := stack[sp];
      return Running;
    }

    /** `CPU::load_in_register`. */
    method LoadInRegister(x: nibble, kk: byte) returns (status: Status)
      requires Valid()
      modifies registers
      ensures Valid()
      ensures Outcome(status, Abs()) == Semantics.LoadInRegister(old(Abs()), x, kk)
    {
      registers[x] := memory[kk];
      return Running;
    }

    /** `CPU::jmp_to_addr`. */
    method JmpToAddr(addr: address) returns (status: Status)
      requires Valid()
      modifies this
      ensures Valid()
      ensures Outcome(status, Abs()) == Semantics.JmpToAddr(old(Abs()), addr)
    {
      pc := addr;
      return Running;
    }

    /** `CPU::skip_if_eq`. */
    method SkipIfEq(x: nibble, kk: byte) returns (status: Status)
      requires Valid()
      modifies this
      ensures Valid()
      ensures Outcome(status, Abs()) == Semantics.SkipIfEq(old(Abs()), x, kk)
    {
      if registers[x] == memory[kk] {
        pc := pc + 2;
      }
      return Running;
    }

    /** `CPU::skip_if_neq`. */
    method SkipIfNeq(r: nibble, addr: byte) returns (status: Status)
      requires Valid()
      modifies this
      ensures Valid()
      ensures Outcome(status, Abs()) == Semantics.SkipIfNeq(old(Abs()), r, addr)
    {
      if registers[r] != memory[addr] {
        pc := pc + 2;
      }
      return Running;
    }

    /** `CPU::skip_if_eq_registers`. */
    method SkipIfEqRegisters(x: nibble, y: nibble) returns (status: Status)
      requires Valid()
      modifies this
      ensures Valid()
      ensures Outcome(status, Abs()) == Semantics.SkipIfEqRegisters(old(Abs()), x, y)
    {
      if registers[x] == registers[y] {
        pc := pc + 2;
      }
      return Running;
    }

    /** `CPU::add_xkk`, with `u8 +` panicking on overflow as in a debug build. */
    method AddXkk(x: nibble, kk: byte) returns (status: Status)
      requires Valid()
      modifies registers
      ensures Valid()
      ensures Outcome(status, Abs()) == Semantics.AddXkk(old(Abs()), x, kk)
    {
      var arg1 := registers[x] as int;
      var arg2 := memory[kk] as int;
      if arg1 + arg2 > 0xFF {
        return Faulted(AddOverflow(x));
      }
      registers[x] := arg1 + arg2;
      return Running;
    }

    /** `CPU::add_xy`. */
    method AddXy(x: nibble, y: nibble) returns (status: Status)
      requires Valid()
      modifies registers
      ensures Valid()
      ensures Outcome(status, Abs()) == Semantics.AddXy(old(Abs()), x, y)
    {
      var arg1 := registers[x] as int;
      var arg2 := registers[y] as int;
      var val: byte := (arg1 + arg2) % 0x100;
      var overflow := arg1 + arg2 > 0xFF;
      registers[x] := val;
      if overflow {
        registers[FlagRegister] := 1;
      } else {
        registers[FlagRegister] := 0;
      }
      return Running;
    }

    /** One iteration of the loop in `CPU::run`. */
    method Step() returns (status: Status)
      requires Valid()
      modifies this, registers, stack, display.pixels
      ensures Valid()
      ensures Outcome(status, Abs()) == Semantics.Step(old(Abs()))
    {
      var fetched := ReadOpcode();
      if fetched.Err? {
        return Faulted(fetched.error);
      }
      var opcode := fetched.value;
      pc := pc + 2;
      match Dispatch(opcode)
      case Halt =>
        status := Halted;
      case ClearScreen =>
        display.Clear();
        status := Running;
      case Return =>
        status := Ret();
      case Jump(nnn) =>
        status := JmpToAddr(nnn);
      case Call(nnn) =>
        status := Call(nnn);
      case SkipIfEq(x, kk) =>
        status := SkipIfEq(x, kk);
      case SkipIfNeq(x, kk) =>
        status := SkipIfNeq(x, kk);
      case SkipIfEqRegisters(x, y) =>
        status := SkipIfEqRegisters(x, y);
      case LoadInRegister(c, kk) =>
        status := LoadInRegister(c, kk);
      case AddXkk(x, kk) =>
        status := AddXkk(x, kk);
      case AddXy(x, y) =>
        status := AddXy(x, y);
      case Unimplemented(op) =>
        status := Faulted(UnimplementedOpcode(op));
    }

    /** `CPU::run`, stopped after at most `fuel` steps. */
    method Run(fuel: nat) returns (status: Status)
      requires Valid()
      modifies this, registers, stack, display.pixels
      ensures Valid()
      ensures Outcome(status, Abs()) == Semantics.Run(old(Abs()), fuel)
    {
      var n := fuel;
      status := Running;
      while n > 0
        invariant Valid()
        invariant status == Running
        invariant Semantics.Run(old(Abs()), fuel) == Semantics.Run(Abs(), n)
        decreases n
      {
        ghost var before := Abs();
        status := Step();
        if status != Running {
          assert Semantics.Run(before, n) == Semantics.Step(before);
          return;
        }
        n := n - 1;
      }
    }
  }
}
