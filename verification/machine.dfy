/**
  The CHIP-8 machine state and the operations on it that are not
  instructions: construction with the font table, ROM loading, instruction
  fetch and the once-per-frame timer tick.

  The state is an immutable record; every operation returns the successor
  state. Conditions under which the interpreter would panic (an index out of
  bounds, a `u16` overflow) are preconditions.
*/
module Machine {
  import opened Bits

  const RamSize: nat := 4096
  /** Where ROMs are loaded and execution starts. */
  const ProgramStart: nat := 0x200
  /** Where the built-in hexadecimal font is placed. */
  const FontStart: nat := 0x050
  /** Bytes per font glyph. */
  const GlyphSize: nat := 5
  const ScreenWidth: nat := 64
  const ScreenHeight: nat := 32
  const DisplaySize: nat := 64 * 32
  const StackDepth: nat := 16
  const RegisterCount: nat := 16
  const KeyCount: nat := 16
  /** Index of VF, the register that doubles as carry, borrow and collision flag. */
  const VF: nat := 15

  /** The glyphs for 0..F, five rows each, the high nibble of each row drawn. */
  const FontSet: seq<Byte> :=
    [0xF0, 0x90, 0x90, 0x90, 0xF0] + // 0
    [0x20, 0x60, 0x20, 0x20, 0x70] + // 1
    [0xF0, 0x10, 0xF0, 0x80, 0xF0] + // 2
    [0xF0, 0x10, 0xF0, 0x10, 0xF0] + // 3
    [0x90, 0x90, 0xF0, 0x10, 0x10] + // 4
    [0xF0, 0x80, 0xF0, 0x10, 0xF0] + // 5
    [0xF0, 0x80, 0xF0, 0x90, 0xF0] + // 6
    [0xF0, 0x10, 0x20, 0x40, 0x40] + // 7
    [0xF0, 0x90, 0xF0, 0x90, 0xF0] + // 8
    [0xF0, 0x90, 0xF0, 0x10, 0xF0] + // 9
    [0xF0, 0x90, 0xF0, 0x90, 0x90] + // A
    [0xE0, 0x90, 0xE0, 0x90, 0xE0] + // B
    [0xF0, 0x80, 0x80, 0x80, 0xF0] + // C
    [0xE0, 0x90, 0x90, 0x90, 0xE0] + // D
    [0xF0, 0x80, 0xF0, 0x80, 0xF0] + // E
    [0xF0, 0x80, 0xF0, 0x80, 0x80]   // F

  type Ram = s: seq<Byte> | |s| == RamSize witness seq(RamSize, _ => 0)
  type Registers = s: seq<Byte> | |s| == RegisterCount witness seq(RegisterCount, _ => 0)
  /** 64 x 32 pixels, row-major: pixel (x, y) is at `x + y * 64`. */
  type Screen = s: seq<Byte> | |s| == DisplaySize witness seq(DisplaySize, _ => 0)
  type ReturnStack = s: seq<Word> | |s| == StackDepth witness seq(StackDepth, _ => 0)
  type Keys = s: seq<bool> | |s| == KeyCount witness seq(KeyCount, _ => false)
  /** A register number taken from an instruction nibble. */
  type RegIndex = k: nat | k < RegisterCount

  /**
    The whole interpreter state. `v[15]` is VF. `sp` is the number of
    return addresses on the stack; `drawFlag` tells the renderer that the
    screen changed.
  */
  datatype Chip8 = Chip8(
    ram: Ram,
    pc: Word,
    i: Word,
    v: Registers,
    display: Screen,
    drawFlag: bool,
    stack: ReturnStack,
    sp: Word,
    keypad: Keys,
    delayTimer: Byte,
    soundTimer: Byte)

  function Zeros(n: nat): (s: seq<Byte>)
    ensures |s| == n && forall k :: 0 <= k < n ==> s[k] == 0
  {
    seq(n, _ => 0)
  }

  /** A fresh machine: the font copied to 0x050, everything else zero. */
  function New(): (m: Chip8)
    ensures forall k :: 0 <= k < |FontSet| ==> m.ram[FontStart + k] == FontSet[k]
    ensures forall a :: 0 <= a < RamSize && !(FontStart <= a < FontStart + |FontSet|) ==> m.ram[a] == 0
    ensures m.pc == 0 && m.i == 0 && m.sp == 0 && !m.drawFlag
    ensures m.delayTimer == 0 && m.soundTimer == 0
    ensures forall k :: 0 <= k < RegisterCount ==> m.v[k] == 0
    ensures forall k :: 0 <= k < DisplaySize ==> m.display[k] == 0
    ensures forall k :: 0 <= k < StackDepth ==> m.stack[k] == 0
    ensures forall k :: 0 <= k < KeyCount ==> !m.keypad[k]
    ensures Sane(m)
  {
    var ram := Zeros(FontStart) + FontSet + Zeros(RamSize - FontStart - |FontSet|);
    Chip8(ram, 0, 0, Zeros(RegisterCount), Zeros(DisplaySize), false, seq(StackDepth, _ => 0), 0,
          seq(KeyCount, _ => false), 0, 0)
  }

  function Min(a: nat, b: nat): nat
  {
    if a <= b then a else b
  }

  /**
    Copies as much of `data` as fits into memory at 0x200 and points the
    program counter there. Bytes beyond 4096 - 0x200 are dropped.
  */
  function LoadRom(m: Chip8, data: seq<Byte>): (r: Chip8)
    ensures r.pc == ProgramStart
    ensures forall k :: 0 <= k < |data| && ProgramStart + k < RamSize ==> r.ram[ProgramStart + k] == data[k]
    ensures forall a :: 0 <= a < RamSize && !(ProgramStart <= a < ProgramStart + |data|) ==> r.ram[a] == m.ram[a]
    ensures r == m.(pc := r.pc, ram := r.ram)
    ensures Sane(m) ==> Sane(r)
  {
    var copyLen := Min(|data|, RamSize - ProgramStart);
    var ram := m.ram[..ProgramStart] + data[..copyLen] + m.ram[ProgramStart + copyLen..];
    m.(pc := ProgramStart, ram := ram)
  }

  /**
    Reads the big-endian instruction word at `pc` and advances `pc` by two.
    The interpreter indexes `ram[pc + 1]`, so `pc + 1` must be in memory.
  */
  function Fetch(m: Chip8): (r: (Word, Chip8))
    requires m.pc + 1 < RamSize
    ensures r.0 / 256 == m.ram[m.pc] && r.0 % 256 == m.ram[m.pc + 1]
    ensures r.1.pc == m.pc + 2
    ensures r.1 == m.(pc := r.1.pc)
  {
    (m.ram[m.pc] as int * 256 + m.ram[m.pc + 1], m.(pc := m.pc + 2))
  }

  /** Decrements each timer that is not already zero. */
  function TickTimers(m: Chip8): (r: Chip8)
    ensures r.soundTimer <= m.soundTimer && r.delayTimer <= m.delayTimer
    ensures r.delayTimer + 1 >= m.delayTimer && r.soundTimer + 1 >= m.soundTimer
    ensures (r.delayTimer == m.delayTimer) == (m.delayTimer == 0)
    ensures (r.soundTimer == m.soundTimer) == (m.soundTimer == 0)
    ensures r == m.(delayTimer := r.delayTimer, soundTimer := r.soundTimer)
  {
    m.(delayTimer := if m.delayTimer > 0 then m.delayTimer - 1 else 0,
       soundTimer := if m.soundTimer > 0 then m.soundTimer - 1 else 0)
  }

  /** `k` consecutive timer ticks. */
  function Ticks(m: Chip8, k: nat): Chip8
    decreases k
  {
    if k == 0 then m else Ticks(TickTimers(m), k - 1)
  }

  /** After `k` ticks each timer has counted down by `k`, stopping at zero. */
  lemma {:induction false} TicksCountDown(m: Chip8, k: nat)
    ensures Ticks(m, k).delayTimer == if m.delayTimer >= k then m.delayTimer - k else 0
    ensures Ticks(m, k).soundTimer == if m.soundTimer >= k then m.soundTimer - k else 0
    ensures Ticks(m, k) == m.(delayTimer := Ticks(m, k).delayTimer, soundTimer := Ticks(m, k).soundTimer)
    decreases k
  {
    if k > 0 {
      TicksCountDown(TickTimers(m), k - 1);
    }
  }

  /** `a` and `b` hold the same value in every register outside `changed`. */
  predicate AgreeOutside(a: Registers, b: Registers, changed: set<nat>)
  {
    forall k :: 0 <= k < RegisterCount && k !in changed ==> a[k] == b[k]
  }

  /** The return addresses currently on the stack, oldest first. */
  function Frames(m: Chip8): seq<Word>
    requires m.sp <= StackDepth
  {
    m.stack[..m.sp]
  }

  /**
    What every reachable state satisfies: the stack pointer within the
    stack and every pixel 0 or 1.
  */
  predicate Sane(m: Chip8)
  {
    && m.sp <= StackDepth
    && forall k :: 0 <= k < DisplaySize ==> m.display[k] <= 1
  }
}
