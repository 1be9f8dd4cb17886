/**
  The instruction cycle: executing a decoded instruction, decode-and-execute
  of a word, and one fetch-decode-execute step.

  The random byte Cxnn masks is a parameter, because the interpreter takes
  it from the thread's random number generator. Where the interpreter would
  panic (an index out of range, an overflowing `u16`), `CanExecute` is
  false; `TryStep` turns that into `None`, so that runs of several steps
  can be stated without listing every intermediate precondition.
*/
module Cpu {
  import opened Bits
  import opened Machine
  import opened Decoder
  import Flow
  import Alu
  import Graphics
  import Memory
  import Peripherals

  /** The instruction can run on `m` without the interpreter panicking. */
  predicate CanExecute(m: Chip8, ins: Instr)
  {
    match ins
    case Ret => 0 < m.sp <= StackDepth
    case Call(_) => m.sp < StackDepth
    case SkipEqImm(x, nn) => m.v[x] == nn ==> m.pc + 2 <= 0xFFFF
    case SkipNeImm(x, nn) => m.v[x] != nn ==> m.pc + 2 <= 0xFFFF
    case SkipEqReg(x, y) => m.v[x] == m.v[y] ==> m.pc + 2 <= 0xFFFF
    case SkipNeReg(x, y) => m.v[x] != m.v[y] ==> m.pc + 2 <= 0xFFFF
    case JumpOffset(addr) => addr + m.v[0] <= 0xFFFF
    case Draw(_, _, n) => n < 16 && (n == 0 || m.i + n <= RamSize)
    case SkipKey(x) => m.v[x] < KeyCount && (m.keypad[m.v[x]] ==> m.pc + 2 <= 0xFFFF)
    case SkipNoKey(x) => m.v[x] < KeyCount && (!m.keypad[m.v[x]] ==> m.pc + 2 <= 0xFFFF)
    case WaitKey(_) => Peripherals.AnyKeyAboveZero(m.keypad) || m.pc >= 2
    case AddIndex(x) => m.i + m.v[x] <= 0xFFFF
    case StoreBcd(_) => m.i + 2 < RamSize
    case StoreRegs(x) => m.i + x < RamSize
    case LoadRegs(x) => m.i + x < RamSize
    case _ => true
  }

  /** The instructions that may write the program counter. */
  predicate MovesPc(ins: Instr)
  {
    || ins.Ret? || ins.Jump? || ins.Call? || ins.JumpOffset? || ins.WaitKey?
    || ins.SkipEqImm? || ins.SkipNeImm? || ins.SkipEqReg? || ins.SkipNeReg?
    || ins.SkipKey? || ins.SkipNoKey?
  }

  /** The instructions that may write a data register V0..VF. */
  predicate WritesRegisters(ins: Instr)
  {
    || ins.LoadImm? || ins.AddImm? || ins.Copy? || ins.Or? || ins.And? || ins.Xor?
    || ins.AddReg? || ins.Sub? || ins.ShiftRight? || ins.SubReverse? || ins.ShiftLeft?
    || ins.Random? || ins.Draw? || ins.ReadDelay? || ins.WaitKey? || ins.LoadRegs?
  }

  /**
    Runs one decoded instruction (the arm `decode_execute` dispatches to).
    `random` is the byte the generator would produce for Cxnn.
  */
  function Execute(m: Chip8, ins: Instr, random: Byte): (r: Chip8)
    requires CanExecute(m, ins)
  {
    match ins
    case Cls => Graphics.ClearScreen(m)
    case Ret => Flow.Return(m)
    case Sys(_) => m
    case Jump(addr) => Flow.Jump(m, addr)
    case Call(addr) => Flow.Call(m, addr)
    case SkipEqImm(x, nn) => Flow.SkipEqImm(m, x, nn)
    case SkipNeImm(x, nn) => Flow.SkipNeImm(m, x, nn)
    case SkipEqReg(x, y) => Flow.SkipEqReg(m, x, y)
    case LoadImm(x, nn) => Alu.LoadImm(m, x, nn)
    case AddImm(x, nn) => Alu.AddImm(m, x, nn)
    case Copy(x, y) => Alu.Copy(m, x, y)
    case Or(x, y) => Alu.Or(m, x, y)
    case And(x, y) => Alu.And(m, x, y)
    case Xor(x, y) => Alu.Xor(m, x, y)
    case AddReg(x, y) => Alu.AddCarry(m, x, y)
    case Sub(x, y) => Alu.Sub(m, x, y)
    case ShiftRight(x, y) => Alu.ShiftRight(m, x, y)
    case SubReverse(x, y) => Alu.SubReverse(m, x, y)
    case ShiftLeft(x, y) => Alu.ShiftLeft(m, x, y)
    case SkipNeReg(x, y) => Flow.SkipNeReg(m, x, y)
    case SetIndex(addr) => Memory.SetIndex(m, addr)
    case JumpOffset(addr) => Flow.JumpOffset(m, addr)
    case Random(x, nn) => Alu.Random(m, x, nn, random)
    case Draw(x, y, n) => Graphics.Draw(m, x, y, n)
    case SkipKey(x) => Flow.SkipKey(m, x)
    case SkipNoKey(x) => Flow.SkipNoKey(m, x)
    case ReadDelay(x) => Peripherals.ReadDelay(m, x)
    case WaitKey(x) => Peripherals.WaitKey(m, x)
    case SetDelay(x) => Peripherals.SetDelay(m, x)
    case SetSound(x) => Peripherals.SetSound(m, x)
    case AddIndex(x) => Memory.AddIndex(m, x)
    case FontChar(x) => Memory.FontChar(m, x)
    case StoreBcd(x) => Memory.StoreBcd(m, x)
    case StoreRegs(x) => Memory.StoreRegs(m, x)
    case LoadRegs(x) => Memory.LoadRegs(m, x)
    case Unknown(_) => m
  }

  /** 0nnn (a machine-code call the interpreter ignores) and an unknown word change nothing. */
  lemma ExecuteNoOp(m: Chip8, ins: Instr, random: Byte)
    requires CanExecute(m, ins)
    ensures ins.Sys? || ins.Unknown? ==> Execute(m, ins, random) == m
  {
  }

  /** No instruction writes the keypad; only the host's input handling does. */
  lemma ExecuteKeypadFrame(m: Chip8, ins: Instr, random: Byte)
    requires CanExecute(m, ins)
    ensures Execute(m, ins, random).keypad == m.keypad
  {
  }

  /** Only 00E0 and Dxyn touch the screen and the redraw flag. */
  lemma ExecuteDisplayFrame(m: Chip8, ins: Instr, random: Byte)
    requires CanExecute(m, ins)
    ensures !(ins.Cls? || ins.Draw?) ==>
      Execute(m, ins, random).display == m.display && Execute(m, ins, random).drawFlag == m.drawFlag
  {
  }

  /** Only Fx33 and Fx55 write memory. */
  lemma ExecuteRamFrame(m: Chip8, ins: Instr, random: Byte)
    requires CanExecute(m, ins)
    ensures !(ins.StoreBcd? || ins.StoreRegs?) ==> Execute(m, ins, random).ram == m.ram
  {
  }

  /** Only 2nnn and 00EE touch the return stack. */
  lemma ExecuteStackFrame(m: Chip8, ins: Instr, random: Byte)
    requires CanExecute(m, ins)
    ensures !(ins.Call? || ins.Ret?) ==> Execute(m, ins, random).stack == m.stack && Execute(m, ins, random).sp == m.sp
  {
  }

  /** Only jumps, calls, returns, skips and Fx0A move the program counter. */
  lemma ExecutePcFrame(m: Chip8, ins: Instr, random: Byte)
    requires CanExecute(m, ins)
    ensures !MovesPc(ins) ==> Execute(m, ins, random).pc == m.pc
  {
  }

  /** Only the instructions listed in `WritesRegisters` change V0..VF. */
  lemma ExecuteRegisterFrame(m: Chip8, ins: Instr, random: Byte)
    requires CanExecute(m, ins)
    ensures !WritesRegisters(ins) ==> Execute(m, ins, random).v == m.v
  {
  }

  /** Only Fx15 and Fx18 set the timers; instructions never tick them. */
  lemma ExecuteTimerFrame(m: Chip8, ins: Instr, random: Byte)
    requires CanExecute(m, ins)
    ensures !(ins.SetDelay? || ins.SetSound?) ==>
      Execute(m, ins, random).delayTimer == m.delayTimer && Execute(m, ins, random).soundTimer == m.soundTimer
  {
  }

  /**
    `decode_execute`: decodes the word and runs it. A word that matches no
    row of the opcode table is reported and otherwise ignored.
  */
  function DecodeExecute(m: Chip8, opcode: Word, random: Byte): (r: Chip8)
    requires CanExecute(m, Decode(opcode))
    ensures !Known(opcode) ==> r == m
  {
    UnknownIffNotInTable(opcode);
    ExecuteNoOp(m, Decode(opcode), random);
    Execute(m, Decode(opcode), random)
  }

  /** The next instruction word can be fetched and run without a panic. */
  predicate CanStep(m: Chip8)
  {
    m.pc + 1 < RamSize && CanExecute(Fetch(m).1, Decode(Fetch(m).0))
  }

  /** One cycle: fetch the word at `pc`, advance `pc` by two, decode and execute it. */
  function Step(m: Chip8, random: Byte): (r: Chip8)
    requires CanStep(m)
    ensures !MovesPc(Decode(Fetch(m).0)) ==> r.pc == m.pc + 2
    ensures r.keypad == m.keypad
  {
    var (opcode, fetched) := Fetch(m);
    ExecutePcFrame(fetched, Decode(opcode), random);
    ExecuteKeypadFrame(fetched, Decode(opcode), random);
    DecodeExecute(fetched, opcode, random)
  }

  /** A cycle whose fetched word decodes to `ins` runs `ins` on the advanced machine. */
  lemma StepExecutes(m: Chip8, random: Byte, ins: Instr)
    requires m.pc + 1 < RamSize && Decode(Fetch(m).0) == ins
    requires CanExecute(m.(pc := m.pc + 2), ins)
    ensures CanStep(m)
    ensures Step(m, random) == Execute(m.(pc := m.pc + 2), ins, random)
  {
  }

  /** One cycle, or `None` where the interpreter would panic. */
  function TryStep(m: Chip8, random: Byte): (r: Option<Chip8>)
    ensures r.Some? <==> CanStep(m)
    ensures r.Some? ==> r.value == Step(m, random)
  {
    if CanStep(m) then Some(Step(m, random)) else None
  }

  datatype Option<T> = None | Some(value: T)

  /** Consecutive cycles, one random byte each; `None` once a cycle would panic. */
  function Run(m: Chip8, randoms: seq<Byte>): Option<Chip8>
    decreases |randoms|
  {
    if |randoms| == 0 then Some(m)
    else match TryStep(m, randoms[0])
      case None => None
      case Some(next) => Run(next, randoms[1..])
  }

  /** An unknown word only advances the program counter past itself. */
  lemma StepUnknown(m: Chip8, random: Byte)
    requires m.pc + 1 < RamSize && !Known(Fetch(m).0)
    ensures CanStep(m)
    ensures Step(m, random) == m.(pc := m.pc + 2)
  {
    UnknownIffNotInTable(Fetch(m).0);
  }

  /**
    Fx0A with no key in 1..15 down leaves the machine exactly as it was: the
    fetch advances `pc` and the instruction moves it back.
  */
  lemma WaitKeyIdle(m: Chip8, random: Byte)
    requires m.pc + 1 < RamSize && Decode(Fetch(m).0).WaitKey?
    requires !Peripherals.AnyKeyAboveZero(m.keypad)
    ensures CanStep(m)
    ensures Step(m, random) == m
  {
  }

  /** While no key in 1..15 is down, any number of cycles of a waiting Fx0A changes nothing. */
  lemma {:induction false} WaitKeyWaitsForever(m: Chip8, randoms: seq<Byte>)
    requires m.pc + 1 < RamSize && Decode(Fetch(m).0).WaitKey?
    requires !Peripherals.AnyKeyAboveZero(m.keypad)
    ensures Run(m, randoms) == Some(m)
    decreases |randoms|
  {
    if |randoms| > 0 {
      WaitKeyIdle(m, randoms[0]);
      WaitKeyWaitsForever(m, randoms[1..]);
    }
  }

  /** With a key in 1..15 down, Fx0A stores the lowest one and execution moves on. */
  lemma WaitKeyResumes(m: Chip8, random: Byte)
    requires m.pc + 1 < RamSize && Decode(Fetch(m).0).WaitKey?
    requires Peripherals.AnyKeyAboveZero(m.keypad)
    ensures CanStep(m)
    ensures var r, x := Step(m, random), Decode(Fetch(m).0).x;
      && r.pc == m.pc + 2
      && 1 <= r.v[x] < KeyCount && m.keypad[r.v[x]]
      && (forall j :: 1 <= j < r.v[x] ==> !m.keypad[j])
  {
  }

  /** After 6xnn, 3xnn with the same byte always skips and 4xnn never does. */
  lemma LoadThenCompare(m: Chip8, x: RegIndex, nn: Byte)
    requires m.pc + 2 <= 0xFFFF
    ensures Flow.SkipEqImm(Alu.LoadImm(m, x, nn), x, nn).pc == m.pc + 2
    ensures Flow.SkipNeImm(Alu.LoadImm(m, x, nn), x, nn).pc == m.pc
  {
  }

  /** After 8xy0, 5xy0 always skips and 9xy0 never does. */
  lemma CopyThenCompare(m: Chip8, x: RegIndex, y: RegIndex)
    requires m.pc + 2 <= 0xFFFF
    ensures Flow.SkipEqReg(Alu.Copy(m, x, y), x, y).pc == m.pc + 2
    ensures Flow.SkipNeReg(Alu.Copy(m, x, y), x, y).pc == m.pc
  {
  }

  /** Every instruction keeps the stack pointer within the stack and every pixel 0 or 1. */
  lemma ExecutePreservesSane(m: Chip8, ins: Instr, random: Byte)
    requires CanExecute(m, ins) && Sane(m)
    ensures Sane(Execute(m, ins, random))
  {
    match ins
    case Draw(x, y, n) => Graphics.DrawKeepsPixelsBinary(m, x, y, n);
    case _ =>
  }

  lemma StepPreservesSane(m: Chip8, random: Byte)
    requires CanStep(m) && Sane(m)
    ensures Sane(Step(m, random))
  {
    ExecutePreservesSane(Fetch(m).1, Decode(Fetch(m).0), random);
  }
}
