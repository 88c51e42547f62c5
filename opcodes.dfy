/** Opcode fetch, field extraction and dispatch of the CHIP-8 interpreter (src/main.rs). */
module Opcodes {

  type byte = x: int | 0 <= x < 0x100
  type word = x: int | 0 <= x < 0x1_0000
  type nibble = x: int | 0 <= x < 0x10
  type address = x: int | 0 <= x < 0x1000

  const MemorySize: nat := 0x1000
  const RegisterCount: nat := 16
  const StackSize: nat := 16
  const FlagRegister: nibble := 0xF

  /** The ways the interpreter stops abnormally: the two explicit panics, an
      array index out of bounds, the debug-build overflow panic of `u8 +`,
      and the `todo!` arm of the dispatch. */
  datatype Fault =
    | StackOverflow
    | StackUnderflow
    | IndexOutOfBounds(index: nat, length: nat)
    | AddOverflow(register: nibble)
    | UnimplementedOpcode(opcode: word)

  datatype Result<T> = Ok(value: T) | Err(error: Fault)

  /** Reads the big-endian opcode at `pc`. The high byte is read first, so a
      `pc` past the end faults on `memory[pc]`, and `pc == 4095` on `memory[pc + 1]`. */
  function Fetch(memory: seq<byte>, pc: nat): (r: Result<word>)
    requires |memory| == MemorySize
    ensures r.Ok? <==> pc + 1 < MemorySize
    ensures r.Ok? ==> r.value / 0x100 == memory[pc] && r.value % 0x100 == memory[pc + 1]
    ensures r.Err? ==> r.error == IndexOutOfBounds(if pc < MemorySize then pc + 1 else pc, MemorySize)
  {
    if pc >= MemorySize then Err(IndexOutOfBounds(pc, MemorySize))
    else if pc + 1 >= MemorySize then Err(IndexOutOfBounds(pc + 1, MemorySize))
    else
      var opcode: word := memory[pc] as int * 0x100 + memory[pc + 1] as int;
      Ok(opcode)
  }

  /** The positional decomposition of a 16-bit value into its four hex digits. */
  lemma NibbleSplit(opcode: word)
    ensures opcode == (opcode / 0x1000) * 0x1000 + opcode % 0x1000
    ensures opcode % 0x1000 == (opcode / 0x100 % 0x10) * 0x100 + opcode % 0x100
    ensures opcode % 0x100 == (opcode / 0x10 % 0x10) * 0x10 + opcode % 0x10
  {
    var q2, r1 := opcode / 0x100, opcode % 0x1000;
    assert q2 == (opcode / 0x1000) * 0x10 + r1 / 0x100;
    assert q2 % 0x10 == r1 / 0x100;
    var q3, r2 := opcode / 0x10, opcode % 0x100;
    assert q3 == q2 * 0x10 + r2 / 0x10;
    assert q3 % 0x10 == r2 / 0x10;
  }

  /** The operand fields of an opcode: the four nibbles `c x y d`, the low
      twelve bits `nnn` and the low byte `kk`. */
  datatype Fields = Fields(c: nibble, x: nibble, y: nibble, d: nibble, nnn: address, kk: byte)

  /** Field extraction; `(op >> k) & m` on a u16 is written as `op / 2^k % (m + 1)`. */
  function Decode(opcode: word): (f: Fields)
    ensures f.c * 0x1000 + f.x * 0x100 + f.y * 0x10 + f.d == opcode
    ensures f.nnn == f.x * 0x100 + f.y * 0x10 + f.d
    ensures f.kk == f.y * 0x10 + f.d
  {
    NibbleSplit(opcode);
    Fields(opcode / 0x1000, opcode / 0x100 % 0x10, opcode / 0x10 % 0x10, opcode % 0x10,
           opcode % 0x1000, opcode % 0x100)
  }

  /** The instructions the interpreter knows, with the operands each handler is
      called with. `LoadInRegister.r` is what the source passes as the register
      index: the class nibble, not `x`. */
  datatype Instruction =
    | Halt
    | ClearScreen
    | Return
    | Jump(addr: address)
    | Call(addr: address)
    | SkipIfEq(x: nibble, kk: byte)
    | SkipIfNeq(x: nibble, kk: byte)
    | SkipIfEqRegisters(x: nibble, y: nibble)
    | LoadInRegister(r: nibble, kk: byte)
    | AddXkk(x: nibble, kk: byte)
    | AddXy(x: nibble, y: nibble)
    | Unimplemented(opcode: word)

  /** The opcodes the dispatch table has an arm for, stated on the raw value. */
  predicate Implemented(opcode: word) {
    || opcode == 0x0000
    || opcode == 0x00E0
    || opcode == 0x00EE
    || opcode / 0x1000 in {1, 2, 3, 4, 6, 7}
    || (opcode / 0x1000 == 5 && opcode % 0x10 == 0)
    || (opcode / 0x1000 == 8 && opcode % 0x10 == 4)
  }

  /** The match on `(c, x, y, d)`, first matching arm wins. */
  function Dispatch(opcode: word): (i: Instruction)
    ensures i.Unimplemented? <==> !Implemented(opcode)
    ensures i.Unimplemented? ==> i.opcode == opcode
    ensures i == Halt <==> opcode == 0x0000
    ensures i == ClearScreen <==> opcode == 0x00E0
    ensures i == Return <==> opcode == 0x00EE
    ensures i.Jump? <==> opcode / 0x1000 == 1
    ensures i.Call? <==> opcode / 0x1000 == 2
    ensures i.Jump? || i.Call? ==> i.addr == opcode % 0x1000
    ensures i.SkipIfEq? <==> opcode / 0x1000 == 3
    ensures i.SkipIfNeq? <==> opcode / 0x1000 == 4
    ensures i.LoadInRegister? <==> opcode / 0x1000 == 6
    ensures i.AddXkk? <==> opcode / 0x1000 == 7
    ensures i.SkipIfEq? || i.SkipIfNeq? || i.AddXkk? ==>
              i.x == opcode / 0x100 % 0x10 && i.kk == opcode % 0x100
    ensures i.LoadInRegister? ==> i.r == 6 && i.kk == opcode % 0x100
    ensures i.SkipIfEqRegisters? <==> opcode / 0x1000 == 5 && opcode % 0x10 == 0
    ensures i.AddXy? <==> opcode / 0x1000 == 8 && opcode % 0x10 == 4
    ensures i.SkipIfEqRegisters? || i.AddXy? ==>
              i.x == opcode / 0x100 % 0x10 && i.y == opcode / 0x10 % 0x10
  {
    var f := Decode(opcode);
    match (f.c, f.x, f.y, f.d)
    case (0, 0, 0, 0) => Halt
    case (0, 0, 0xE, 0) => ClearScreen
    case (0, 0, 0xE, 0xE) => Return
    case (1, _, _, _) => Jump(f.nnn)
    case (2, _, _, _) => Call(f.nnn)
    case (3, _, _, _) => SkipIfEq(f.x, f.kk)
    case (4, _, _, _) => SkipIfNeq(f.x, f.kk)
    case (5, _, _, 0) => SkipIfEqRegisters(f.x, f.y)
    case (6, _, _, _) => LoadInRegister(f.c, f.kk)
    case (7, _, _, _) => AddXkk(f.x, f.kk)
    case (8, _, _, 4) => AddXy(f.x, f.y)
    case _ => Unimplemented(opcode)
  }
}
