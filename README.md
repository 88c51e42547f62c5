# CHIP-8 interpreter core, modelled in Dafny

A model of the small CHIP-8 bytecode interpreter in `src/main.rs`: the `CPU`
struct (sixteen 8-bit registers, a 4096-byte memory, a 16-entry call stack
with its stack pointer, and the program counter `position_in_memory`) and the
`Display` it owns (a 64 x 32 grid of booleans). The model covers the fetch of
a big-endian opcode, the advance of the pc, the decode into the fields
`c x y d nnn kk`, the dispatch table in `CPU::run`, and every handler the
table reaches.

The project has four parts:

- `opcodes.dfy` (module `Opcodes`) holds the pure bit arithmetic: fetch,
  field extraction and dispatch into an `Instruction`.
- `semantics.dfy` (module `Semantics`) gives the CPU state as a value
  (`Machine`). It has one function per handler, one for a whole
  fetch-decode-execute `Step`, and a fuelled `Run`.
- `interpreter.dfy` (module `Interpreter`) holds the classes `Display` and
  `CPU`. Their fields are arrays, as in the struct. Every method that changes
  state is proved to have the effect the matching `Semantics` function gives
  to the abstract state `Abs()`. `Display.Clear` overwrites the grid in place
  with two nested loops.
- `properties.dfy` (modules `Properties` and `Demo`) holds the lemmas:
  - what one step does for each kind of opcode;
  - call followed by return;
  - the stack-pointer bound that every step keeps;
  - that a self-jump never halts;
  - how nested calls overflow;
  - the demonstration program that `main` loads.

The model follows the code, not canonical CHIP-8. Where the two differ, the
code's behaviour is what is proved:

- `6xkk` passes the class nibble as the register index, so it always writes
  register 6. The value it writes is `memory[kk]`, not `kk`
  (`Properties.StepLoadIgnoresX`).
- `3xkk`, `4xkk` and `7xkk` also use `memory[kk]` as their operand, not the
  literal `kk`.
- `0000` halts the run loop.
- The overflow guard of `call` is `sp > 16`. At `sp == 16` the call therefore
  faults on the bounds of `stack` rather than with the overflow panic
  (`Properties.NestedCalls`).
- `u8 +` in `add_xkk` is given its debug-build meaning. An overflowing sum is
  the fault `AddOverflow`, and nothing is written.
- A panic, a `todo!` and an out-of-bounds index all become a `Faulted` status.
  The state is left as it was at the failing access.
- The stale `assert_eq!(…, 35)` in `main` plays no part. Traced through the
  model, the demo program ends with 45 in register 0 (`Demo.DemoRun`).

The shifts and masks of the source (`<<`, `>>`, `&`, `|` on `u16`) are
written as `*`, `/` and `%` on non-negative integers. On these unsigned
values the two mean the same.

## Model

| member | source | states |
|---|---|---|
| `Opcodes.Fetch` | src/main.rs:12-18 | fetch succeeds iff `pc + 1 < 4096`; the opcode's high byte is `memory[pc]` and its low byte `memory[pc+1]`; otherwise an index fault naming the first index out of range |
| `Opcodes.NibbleSplit` | src/main.rs:48-54 | a 16-bit value is the positional sum of its four hex digits |
| `Opcodes.Decode` | src/main.rs:48-54 | the four nibbles recompose the opcode (`c*4096 + x*256 + y*16 + d`), `nnn` is the low three nibbles and `kk` the low two |
| `Opcodes.Dispatch` | src/main.rs:56-71 | which instruction each opcode value selects, as conditions on the raw value, with the operands each arm passes; exactly the opcodes outside the table map to `Unimplemented` with that opcode |
| `Semantics.Blank` | src/main.rs:129-133 | a 64 x 32 grid in which every pixel is off |
| `Semantics.Call` | src/main.rs:20-31 | succeeds iff `sp < 16`, storing the pc at `stack[sp]`, raising `sp` by one, jumping to `addr` and leaving the other slots, registers, memory and display alone; `sp > 16` is StackOverflow and `sp == 16` a bounds fault on the stack, both with no change |
| `Semantics.Ret` | src/main.rs:33-41 | `sp == 0` is StackUnderflow with no change; `0 < sp <= 16` decrements `sp` and restores the pc from the new top; a larger `sp` faults on the stack's bounds after the decrement |
| `Semantics.JmpToAddr` | src/main.rs:79-81 | the pc becomes `addr` and nothing else changes |
| `Semantics.SkipIfEq` | src/main.rs:83-87 | the pc moves 2 further iff `registers[x] == memory[kk]`, otherwise stays; nothing else changes |
| `Semantics.SkipIfNeq` | src/main.rs:89-93 | the pc moves 2 further iff `registers[x] != memory[kk]`, otherwise stays; nothing else changes |
| `Semantics.SkipIfEqRegisters` | src/main.rs:95-99 | the pc moves 2 further iff `registers[x] == registers[y]`, otherwise stays; nothing else changes |
| `Semantics.LoadInRegister` | src/main.rs:75-77 | register `r` receives `memory[kk]`; the other registers and all control state stay |
| `Semantics.AddXkk` | src/main.rs:101-106 | runs iff `registers[x] + memory[kk] < 256`, and then raises register x by exactly `memory[kk]` and changes nothing else; otherwise AddOverflow with no change |
| `Semantics.AddXy` | src/main.rs:108-120 | register F is 1 iff the byte sum exceeds 255 and 0 otherwise; for `x != F` register x holds the sum mod 256; every other register and the control state stay |
| `Semantics.ClearScreen` | src/main.rs:135-139 | every pixel of the grid is off afterwards and only the grid changes |
| `Semantics.Execute` | src/main.rs:56-71 | the outcome is Halted exactly for the halt instruction; an unimplemented opcode faults with that opcode and no change |
| `Semantics.Step` | src/main.rs:44-72 | a well-formed state stays well-formed; a pc with no room for two bytes faults and changes nothing |
| `Semantics.Run` | src/main.rs:43-73 | every bounded run keeps the state well-formed; zero fuel leaves the state running and unchanged |
| `Semantics.Continue` | src/main.rs:44-72 | a halted or faulted outcome is final and leaves the outcome unchanged |
| `Properties.OpcodeBytes` | src/main.rs:48-54 | the fields of `hi*256 + lo` in terms of the two fetched bytes |
| `Properties.DispatchBytes` | src/main.rs:56-71 | for every value of the two bytes at the pc, the instruction and operands that dispatch selects: `0000`, `00E0`, `00EE`, classes 1-8 with their arms, and `Unimplemented` with the opcode for every other class-0, `5xy?`, `8xy?` and class 9-F value |
| `Properties.StepAdvancesPc` | src/main.rs:45-46 | the pc advances by 2 before dispatch: a step that neither jumps, calls nor returns ends at `pc + 2`, and a skip ends at `pc + 2` or `pc + 4` (`Properties.StepSkip` says which) |
| `Properties.StepJump` | src/main.rs:79-81 | a `1nnn` step leaves the pc at `nnn` and everything else as it was |
| `Properties.StepCall` | src/main.rs:20-31 | a `2nnn` step below a full stack pushes `pc + 2` and jumps to `nnn`; at 16 entries it is a bounds fault, above 16 StackOverflow |
| `Properties.StepReturnUnderflow` | src/main.rs:33-36 | `00EE` with an empty stack is StackUnderflow and the return leaves the pc where the fetch put it |
| `Properties.StepReturn` | src/main.rs:33-41 | `00EE` with `0 < sp <= 16` pops the top of the stack into the pc |
| `Properties.CallThenRet` | src/main.rs:20-41 | call then return gives back the exact pc and stack pointer; only the written stack slot differs |
| `Properties.RunCallThenReturn` | src/main.rs:20-41 | two steps through a call whose target is `00EE` come back to the instruction after the call |
| `Properties.StepSkip` | src/main.rs:83-99 | the three skip opcodes move the pc by 4 exactly when their comparison holds, else by 2, and change nothing else |
| `Properties.StepLoadIgnoresX` | src/main.rs:67-77 | a `6xkk` step writes `memory[kk]` into register 6 whatever `x` is |
| `Properties.StepAddXy` | src/main.rs:69 | an `8xy4` step is the add-with-carry handler applied after the pc advance |
| `Properties.AddXyCarry` | src/main.rs:108-120 | for `x != F`, the new register x plus 256 times the flag is the full sum |
| `Properties.AddXyIntoFlag` | src/main.rs:113-119 | for `x == F` the flag, written last, is what register F holds |
| `Properties.StepTerminal` | src/main.rs:56-71 | `0000` halts, `00E0` blanks the grid, an opcode outside the table faults with that opcode; a step halts iff the opcode is `0000` |
| `Properties.StepKeepsStackBound` | src/main.rs:20-41 | a step never takes the stack pointer above 16 |
| `Properties.RunKeepsStackBound` | src/main.rs:43-73 | no run takes the stack pointer above 16 |
| `Properties.RunAppend` | src/main.rs:43-73 | `a + b` steps are `a` steps followed by `b` more from where they left a running machine |
| `Properties.ContinueAppend` | src/main.rs:43-73 | the same composition, from an outcome |
| `Properties.SelfJumpSpins` | src/main.rs:44-81 | a `1nnn` that jumps to its own address stays running on the same state for any fuel |
| `Properties.NestedCalls` | src/main.rs:20-31 | from `sp`, a chain of `16 - sp` calls succeeds and fills the stack; the next call is a bounds fault, not StackOverflow |
| `Demo.AddOneToZero` | src/main.rs:163 | `8014` without carry adds register 1 to register 0 and clears the flag |
| `Demo.Subroutine` | src/main.rs:163-165 | the subroutine at 0x100 adds register 1 twice to register 0 and returns to the caller |
| `Demo.EnterSubroutine` | src/main.rs:156-159 | `2100` pushes the return address and enters the subroutine |
| `Demo.CallSubroutine` | src/main.rs:155-165 | one call of the subroutine takes four steps and lands on the next instruction |
| `Demo.TwoCalls` | src/main.rs:155-165 | the two calls take eight steps and stop on the halt at pc 4 with 45 in register 0 |
| `Demo.DemoRun` | src/main.rs:143-167 | the demo program halts after nine steps with 45 in register 0 and the flag clear |
| `Interpreter.Display.Screen` | src/main.rs:124-126 | the grid value has 64 columns of 32 pixels and agrees with the array cell by cell |
| `Interpreter.Display.constructor` | src/main.rs:129-133 | a new display is the blank grid |
| `Interpreter.Display.Clear` | src/main.rs:135-139 | after the nested loops every pixel is off |
| `Interpreter.Display.BlankScreen` | src/main.rs:135-139 | a grid whose cells are all off is the blank grid |
| `Interpreter.CPU.Abs` | src/main.rs:2-9 | the fields stand for a well-formed machine |
| `Interpreter.CPU.constructor` | src/main.rs:143-150 | the new CPU holds the given registers, pc, memory, stack and stack pointer and a blank display |
| `Interpreter.CPU.ReadOpcode` | src/main.rs:12-18 | reading the array gives what `Fetch` gives on the memory's contents |
| `Interpreter.CPU.Call` | src/main.rs:20-31 | the new state and status are those of `Semantics.Call` |
| `Interpreter.CPU.Ret` | src/main.rs:33-41 | the new state and status are those of `Semantics.Ret` |
| `Interpreter.CPU.LoadInRegister` | src/main.rs:75-77 | the new state is that of `Semantics.LoadInRegister` |
| `Interpreter.CPU.JmpToAddr` | src/main.rs:79-81 | the new state is that of `Semantics.JmpToAddr` |
| `Interpreter.CPU.SkipIfEq` | src/main.rs:83-87 | the new state is that of `Semantics.SkipIfEq` |
| `Interpreter.CPU.SkipIfNeq` | src/main.rs:89-93 | the new state is that of `Semantics.SkipIfNeq` |
| `Interpreter.CPU.SkipIfEqRegisters` | src/main.rs:95-99 | the new state is that of `Semantics.SkipIfEqRegisters` |
| `Interpreter.CPU.AddXkk` | src/main.rs:101-106 | the new state and status are those of `Semantics.AddXkk` |
| `Interpreter.CPU.AddXy` | src/main.rs:108-120 | the new state is that of `Semantics.AddXy` |
| `Interpreter.CPU.Step` | src/main.rs:44-72 | one loop iteration in place has the effect and status of `Semantics.Step` |
| `Interpreter.CPU.Run` | src/main.rs:43-73 | the loop, cut off after `fuel` iterations, has the effect and status of `Semantics.Run` |

## Left out

- `main`'s output (`println!`) is I/O and is not modelled. Its set-up of
  registers and memory appears only as the preconditions of `Demo.DemoRun`.
- `#[derive(Debug)]` and the texts of the panic and `todo!` messages are not
  modelled. Each becomes a `Fault` variant.
- `Semantics.AddXkk`: a release build would wrap the sum mod 256 instead of
  panicking. Only the debug-build panic is modelled.
- `Semantics.Run`: the source's `loop` may run forever. The model runs at most
  `fuel` steps and reports `Running` when the fuel is spent.
- The positions are unbounded naturals. The overflow of `p + 1` in
  `read_opcode` at `usize::MAX` is not modelled: such a pc is far past the
  memory and faults at `memory[p]` in either reading.
- The draw, random, subtract, shift, logic, set-index and jump-with-offset
  opcodes, and the index register, the timers and the keypad, do not exist in
  `src/main.rs`. They fall into the `Unimplemented` arm like any other
  opcode missing from the table.
- A pixel-read operation on `Display` does not exist in `src/main.rs`. The
  grid is read through `Display.Screen`.
- Loading a program image at 0x200 does not exist in `src/main.rs`. The
  source's only construction is the struct literal in `main`, with the pc at
  0. The `CPU` constructor takes every field's initial value instead.
