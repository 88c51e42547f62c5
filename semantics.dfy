/** The CPU state of src/main.rs as a value, and what each handler, one
    fetch-decode-execute step and a bounded run do to it. The classes in
    module Interpreter are proved against these functions. */
module Semantics {
  import opened Opcodes

  const Width: nat := 64
  const Height: nat := 32

  /** `CPU` as a value: `position_in_memory` is `pc`, `stack_pointer` is `sp`,
      and `pixels[x][y]` is the display, indexed column first as in the source. */
  datatype Machine = Machine(
    registers: seq<byte>,
    pc: nat,
    memory: seq<byte>,
    stack: seq<word>,
    sp: nat,
    pixels: seq<seq<bool>>)

  /** The sizes fixed by the field types of `CPU` and `Display`. `pc` and `sp`
      are not tied to the array sizes: the source never checks them against
      those before it uses them, and its `usize` bound is far beyond them. */
  predicate WellFormed(m: Machine) {
    && |m.registers| == RegisterCount
    && |m.memory| == MemorySize
    && |m.stack| == StackSize
    && ScreenShaped(m.pixels)
  }

  predicate ScreenShaped(pixels: seq<seq<bool>>) {
    |pixels| == Width && forall x :: 0 <= x < Width ==> |pixels[x]| == Height
  }

  /** The grid `Display::new` builds and `Display::clear` leaves behind. */
  function Blank(): (pixels: seq<seq<bool>>)
    ensures ScreenShaped(pixels)
    ensures forall x, y :: 0 <= x < Width && 0 <= y < Height ==> !pixels[x][y]
  {
    seq(Width, _ => seq(Height, _ => false))
  }

  datatype Status = Running | Halted | Faulted(fault: Fault)

  /** The status after an operation together with the state it leaves. A fault
      leaves the state as it was when the failing access happened. */
  datatype Outcome = Outcome(status: Status, machine: Machine)

  /** Everything but the control state (`pc`, `stack`, `sp`) is the same. */
  predicate SameData(m: Machine, m': Machine) {
    m'.registers == m.registers && m'.memory == m.memory && m'.pixels == m.pixels
  }

  /** Everything but `registers` is the same. */
  predicate SameControl(m: Machine, m': Machine) {
    m'.pc == m.pc && m'.memory == m.memory && m'.stack == m.stack && m'.sp == m.sp && m'.pixels == m.pixels
  }

  /** `CPU::call`: the explicit guard is `sp > 16`, so `sp == 16` gets past it
      and faults on the write `stack[16]` before anything changes. The pc is
      stored with the truncating cast `as u16`. */
  function Call(m: Machine, addr: address): (o: Outcome)
    requires WellFormed(m)
    ensures WellFormed(o.machine)
    ensures o.status == Running <==> m.sp < StackSize
    ensures m.sp > StackSize ==> o == Outcome(Faulted(StackOverflow), m)
    ensures m.sp == StackSize ==> o == Outcome(Faulted(IndexOutOfBounds(StackSize, StackSize)), m)
    ensures o.status == Running ==>
              && o.machine.pc == addr
              && o.machine.sp == m.sp + 1
              && o.machine.stack[m.sp] == m.pc % 0x1_0000
              && (forall i :: 0 <= i < StackSize && i != m.sp ==> o.machine.stack[i] == m.stack[i])
              && SameData(m, o.machine)
  {
    if m.sp > StackSize then Outcome(Faulted(StackOverflow), m)
    else if m.sp == StackSize then Outcome(Faulted(IndexOutOfBounds(m.sp, StackSize)), m)
    else
      var ret: word := m.pc % 0x1_0000;
      Outcome(Running, m.(stack := m.stack[m.sp := ret], sp := m.sp + 1, pc := addr))
  }

  /** `CPU::ret`: underflow is checked first; otherwise `sp` is decremented and
      only then is `stack[sp]` read, so an `sp` beyond 16 faults with `sp`
      already decremented. */
  function Ret(m: Machine): (o: Outcome)
    requires WellFormed(m)
    ensures WellFormed(o.machine)
    ensures m.sp == 0 ==> o == Outcome(Faulted(StackUnderflow), m)
    ensures o.status == Running <==> 0 < m.sp <= StackSize
    ensures o.status == Running ==>
              && o.machine.pc == m.stack[m.sp - 1]
              && o.machine.sp == m.sp - 1
              && o.machine.stack == m.stack
              && SameData(m, o.machine)
    ensures m.sp > StackSize ==>
              o == Outcome(Faulted(IndexOutOfBounds(m.sp - 1, StackSize)), m.(sp := m.sp - 1))
  {
    if m.sp == 0 then Outcome(Faulted(StackUnderflow), m)
    else
      var m' := m.(sp := m.sp - 1);
      if m'.sp < StackSize then Outcome(Running, m'.(pc := m.stack[m'.sp]))
      else Outcome(Faulted(IndexOutOfBounds(m'.sp, StackSize)), m')
  }

  /** `CPU::jmp_to_addr`. */
  function JmpToAddr(m: Machine, addr: address): (o: Outcome)
    requires WellFormed(m)
    ensures WellFormed(o.machine)
    ensures o.status == Running && o.machine.pc == addr
    ensures o.machine.(pc := m.pc) == m
  {
    Outcome(Running, m.(pc := addr))
  }

  /** `CPU::skip_if_eq`: compares with the memory cell at `kk`, not with `kk`. */
  function SkipIfEq(m: Machine, x: nibble, kk: byte): (o: Outcome)
    requires WellFormed(m)
    ensures WellFormed(o.machine)
    ensures o.status == Running
    ensures o.machine.pc == m.pc + 2 <==> m.registers[x] == m.memory[kk]
    ensures o.machine.pc == m.pc || o.machine.pc == m.pc + 2
    ensures o.machine.(pc := m.pc) == m
  {
    if m.registers[x] == m.memory[kk] then Outcome(Running, m.(pc := m.pc + 2))
    else Outcome(Running, m)
  }

  /** `CPU::skip_if_neq`: compares with the memory cell at `kk`, not with `kk`. */
  function SkipIfNeq(m: Machine, x: nibble, kk: byte): (o: Outcome)
    requires WellFormed(m)
    ensures WellFormed(o.machine)
    ensures o.status == Running
    ensures o.machine.pc == m.pc + 2 <==> m.registers[x] != m.memory[kk]
    ensures o.machine.pc == m.pc || o.machine.pc == m.pc + 2
    ensures o.machine.(pc := m.pc) == m
  {
    if m.registers[x] != m.memory[kk] then Outcome(Running, m.(pc := m.pc + 2))
    else Outcome(Running, m)
  }

  /** `CPU::skip_if_eq_registers`. */
  function SkipIfEqRegisters(m: Machine, x: nibble, y: nibble): (o: Outcome)
    requires WellFormed(m)
    ensures WellFormed(o.machine)
    ensures o.status == Running
    ensures o.machine.pc == m.pc + 2 <==> m.registers[x] == m.registers[y]
    ensures o.machine.pc == m.pc || o.machine.pc == m.pc + 2
    ensures o.machine.(pc := m.pc) == m
  {
    if m.registers[x] == m.registers[y] then Outcome(Running, m.(pc := m.pc + 2))
    else Outcome(Running, m)
  }

  /** `CPU::load_in_register`: register `r` receives the memory cell at `kk`. */
  function LoadInRegister(m: Machine, r: nibble, kk: byte): (o: Outcome)
    requires WellFormed(m)
    ensures WellFormed(o.machine)
    ensures o.status == Running
    ensures o.machine.registers[r] == m.memory[kk]
    ensures forall i :: 0 <= i < RegisterCount && i != r ==> o.machine.registers[i] == m.registers[i]
    ensures SameControl(m, o.machine)
  {
    Outcome(Running, m.(registers := m.registers[r := m.memory[kk]]))
  }

  /** `CPU::add_xkk` with the debug-build meaning of `u8 +`: a sum above 255
      panics, which is an `AddOverflow` fault with nothing written. */
  function AddXkk(m: Machine, x: nibble, kk: byte): (o: Outcome)
    requires WellFormed(m)
    ensures WellFormed(o.machine)
    ensures o.status == Running <==> m.registers[x] as int + m.memory[kk] < 0x100
    ensures o.status != Running ==> o == Outcome(Faulted(AddOverflow(x)), m)
    ensures o.status == Running ==>
              && o.machine.registers[x] as int - m.registers[x] == m.memory[kk]
              && (forall i :: 0 <= i < RegisterCount && i != x ==> o.machine.registers[i] == m.registers[i])
              && SameControl(m, o.machine)
  {
    var sum := m.registers[x] as int + m.memory[kk];
    if sum < 0x100 then Outcome(Running, m.(registers := m.registers[x := sum]))
    else Outcome(Faulted(AddOverflow(x)), m)
  }

  /** `CPU::add_xy`: `overflowing_add` writes the wrapped sum to `x`, then the
      carry to register F, so the carry wins when `x` is F. */
  function AddXy(m: Machine, x: nibble, y: nibble): (o: Outcome)
    requires WellFormed(m)
    ensures WellFormed(o.machine)
    ensures o.status == Running
    ensures o.machine.registers[FlagRegister] == 1 <==> m.registers[x] as int + m.registers[y] > 0xFF
    ensures o.machine.registers[FlagRegister] == 0 <==> m.registers[x] as int + m.registers[y] <= 0xFF
    ensures x != FlagRegister ==>
              o.machine.registers[x] == (m.registers[x] as int + m.registers[y]) % 0x100
    ensures forall i :: 0 <= i < RegisterCount && i != x && i != FlagRegister ==>
              o.machine.registers[i] == m.registers[i]
    ensures SameControl(m, o.machine)
  {
    var a, b: int := m.registers[x], m.registers[y];
    var wrapped: byte := (a + b) % 0x100;
    var carry: byte := if a + b > 0xFF then 1 else 0;
    Outcome(Running, m.(registers := m.registers[x := wrapped][FlagRegister := carry]))
  }

  /** `Display::clear`, reached through opcode `00E0`. */
  function ClearScreen(m: Machine): (o: Outcome)
    requires WellFormed(m)
    ensures WellFormed(o.machine)
    ensures o.status == Running
    ensures forall x, y :: 0 <= x < Width && 0 <= y < Height ==> !o.machine.pixels[x][y]
    ensures o.machine.(pixels := m.pixels) == m
  {
    Outcome(Running, m.(pixels := Blank()))
  }

  /** The arms of the match in `CPU::run`, applied to the state after the pc
      has moved past the opcode. */
  function Execute(m: Machine, instr: Instruction): (o: Outcome)
    requires WellFormed(m)
    ensures WellFormed(o.machine)
    ensures o.status == Halted <==> instr == Halt
    ensures instr.Unimplemented? ==> o == Outcome(Faulted(UnimplementedOpcode(instr.opcode)), m)
  {
    match instr
    case Halt => Outcome(Halted, m)
    case ClearScreen => ClearScreen(m)
    case Return => Ret(m)
    case Jump(addr) => JmpToAddr(m, addr)
    case Call(addr) => Call(m, addr)
    case SkipIfEq(x, kk) => SkipIfEq(m, x, kk)
    case SkipIfNeq(x, kk) => SkipIfNeq(m, x, kk)
    case SkipIfEqRegisters(x, y) => SkipIfEqRegisters(m, x, y)
    case LoadInRegister(r, kk) => LoadInRegister(m, r, kk)
    case AddXkk(x, kk) => AddXkk(m, x, kk)
    case AddXy(x, y) => AddXy(m, x, y)
    case Unimplemented(opcode) => Outcome(Faulted(UnimplementedOpcode(opcode)), m)
  }

  /** One iteration of the loop in `CPU::run`: fetch, advance the pc by 2, then
      decode and dispatch. A failed fetch changes nothing. */
  function Step(m: Machine): (o: Outcome)
    requires WellFormed(m)
    ensures WellFormed(o.machine)
    ensures m.pc + 1 >= MemorySize ==> o.machine == m && o.status.Faulted?
  {
    match Fetch(m.memory, m.pc)
    case Err(e) => Outcome(Faulted(e), m)
    case Ok(opcode) => Execute(m.(pc := m.pc + 2), Dispatch(opcode))
  }

  /** `CPU::run`, cut off after `fuel` steps: the source's loop need not end
      (`1nnn` may jump to itself), so a run that is still going when the fuel
      is spent reports `Running`. */
  function Run(m: Machine, fuel: nat): (o: Outcome)
    requires WellFormed(m)
    ensures WellFormed(o.machine)
    ensures fuel == 0 ==> o == Outcome(Running, m)
    decreases fuel, 0
  {
    if fuel == 0 then Outcome(Running, m) else Continue(Step(m), fuel - 1)
  }

  /** Goes on from the outcome of a step: a running machine takes the next
      `fuel` steps, a halted or faulted one stays as it is. */
  function Continue(o: Outcome, fuel: nat): (r: Outcome)
    requires WellFormed(o.machine)
    ensures WellFormed(r.machine)
    ensures o.status != Running ==> r == o
    decreases fuel, 1
  {
    if o.status == Running then Run(o.machine, fuel) else o
  }
}
