/**
  Control flow: return, jump, call, the conditional skips (on registers,
  immediates and keys) and the V0-relative jump.

  A skip advances `pc` by a further two bytes, past the instruction after
  the one being executed. The interpreter adds to `pc` as a `u16` without
  wrapping, so an overflowing skip is excluded by a precondition.
*/
module Flow {
  import opened Bits
  import opened Machine

  /** Skips the next instruction exactly when `cond` holds. */
  function SkipIf(m: Chip8, cond: bool): (r: Chip8)
    requires cond ==> m.pc + 2 <= 0xFFFF
    ensures r == m.(pc := r.pc)
    ensures cond <==> r.pc == m.pc + 2
    ensures !cond <==> r.pc == m.pc
  {
    if cond then m.(pc := m.pc + 2) else m
  }

  /** 00EE: pops the most recent return address into `pc`. */
  function Return(m: Chip8): (r: Chip8)
    requires 0 < m.sp <= StackDepth
    ensures r.sp + 1 == m.sp
    ensures Frames(m) == Frames(r) + [r.pc]
    ensures r == m.(pc := r.pc, sp := r.sp)
  {
    var sp := m.sp - 1;
    m.(sp := sp, pc := m.stack[sp])
  }

  /** 1nnn: continues at `addr`. */
  function Jump(m: Chip8, addr: Word): (r: Chip8)
    ensures r.pc == addr
    ensures r == m.(pc := r.pc)
  {
    m.(pc := addr)
  }

  /**
    2nnn: pushes the current `pc` (already past the call) and continues at
    `addr`. The stack has sixteen slots; indexing past them panics.
  */
  function Call(m: Chip8, addr: Word): (r: Chip8)
    requires m.sp < StackDepth
    ensures r.pc == addr && r.sp == m.sp + 1
    ensures Frames(r) == Frames(m) + [m.pc]
    ensures r.stack[r.sp..] == m.stack[r.sp..]
    ensures r == m.(pc := r.pc, sp := r.sp, stack := r.stack)
  {
    m.(stack := m.stack[m.sp := m.pc], sp := m.sp + 1, pc := addr)
  }

  /** 3xnn: skips when Vx equals `nn`. */
  function SkipEqImm(m: Chip8, x: RegIndex, nn: Byte): (r: Chip8)
    requires m.v[x] == nn ==> m.pc + 2 <= 0xFFFF
    ensures r == m.(pc := r.pc)
    ensures m.v[x] == nn <==> r.pc == m.pc + 2
    ensures m.v[x] != nn <==> r.pc == m.pc
  {
    SkipIf(m, m.v[x] == nn)
  }

  /** 4xnn: skips when Vx differs from `nn`. */
  function SkipNeImm(m: Chip8, x: RegIndex, nn: Byte): (r: Chip8)
    requires m.v[x] != nn ==> m.pc + 2 <= 0xFFFF
    ensures r == m.(pc := r.pc)
    ensures m.v[x] != nn <==> r.pc == m.pc + 2
    ensures m.v[x] == nn <==> r.pc == m.pc
  {
    SkipIf(m, m.v[x] != nn)
  }

  /** 5xy0: skips when Vx equals Vy. */
  function SkipEqReg(m: Chip8, x: RegIndex, y: RegIndex): (r: Chip8)
    requires m.v[x] == m.v[y] ==> m.pc + 2 <= 0xFFFF
    ensures r == m.(pc := r.pc)
    ensures m.v[x] == m.v[y] <==> r.pc == m.pc + 2
    ensures m.v[x] != m.v[y] <==> r.pc == m.pc
  {
    SkipIf(m, m.v[x] == m.v[y])
  }

  /** 9xy0: skips when Vx differs from Vy. */
  function SkipNeReg(m: Chip8, x: RegIndex, y: RegIndex): (r: Chip8)
    requires m.v[x] != m.v[y] ==> m.pc + 2 <= 0xFFFF
    ensures r == m.(pc := r.pc)
    ensures m.v[x] != m.v[y] <==> r.pc == m.pc + 2
    ensures m.v[x] == m.v[y] <==> r.pc == m.pc
  {
    SkipIf(m, m.v[x] != m.v[y])
  }

  /** Bnnn: continues at `addr + V0`, a `u16` sum that must not overflow. */
  function JumpOffset(m: Chip8, addr: Word): (r: Chip8)
    requires addr + m.v[0] <= 0xFFFF
    ensures r.pc == addr + m.v[0]
    ensures r == m.(pc := r.pc)
  {
    m.(pc := addr + m.v[0])
  }

  /**
    Ex9E: skips when the key numbered Vx is down. Vx indexes the 16-entry
    keypad, so it must be below 16.
  */
  function SkipKey(m: Chip8, x: RegIndex): (r: Chip8)
    requires m.v[x] < KeyCount
    requires m.keypad[m.v[x]] ==> m.pc + 2 <= 0xFFFF
    ensures r == m.(pc := r.pc)
    ensures m.keypad[m.v[x]] <==> r.pc == m.pc + 2
    ensures !m.keypad[m.v[x]] <==> r.pc == m.pc
  {
    SkipIf(m, m.keypad[m.v[x]])
  }

  /** ExA1: skips when the key numbered Vx is up. */
  function SkipNoKey(m: Chip8, x: RegIndex): (r: Chip8)
    requires m.v[x] < KeyCount
    requires !m.keypad[m.v[x]] ==> m.pc + 2 <= 0xFFFF
    ensures r == m.(pc := r.pc)
    ensures !m.keypad[m.v[x]] <==> r.pc == m.pc + 2
    ensures m.keypad[m.v[x]] <==> r.pc == m.pc
  {
    SkipIf(m, !m.keypad[m.v[x]])
  }

  /** A call followed by a return restores `pc`, `sp` and the frames below. */
  lemma CallThenReturn(m: Chip8, addr: Word)
    requires m.sp < StackDepth
    ensures Return(Call(m, addr)).pc == m.pc
    ensures Return(Call(m, addr)).sp == m.sp
    ensures Frames(Return(Call(m, addr))) == Frames(m)
    ensures Return(Call(m, addr)) == m.(stack := m.stack[m.sp := m.pc])
  {
  }

  /** 3xnn and 4xnn are complementary: exactly one of them skips. */
  lemma ImmediateSkipsComplement(m: Chip8, x: RegIndex, nn: Byte)
    requires m.pc + 2 <= 0xFFFF
    ensures SkipEqImm(m, x, nn).pc + SkipNeImm(m, x, nn).pc == 2 * m.pc + 2
  {
  }

  /** 5xy0 and 9xy0 are complementary: exactly one of them skips. */
  lemma RegisterSkipsComplement(m: Chip8, x: RegIndex, y: RegIndex)
    requires m.pc + 2 <= 0xFFFF
    ensures SkipEqReg(m, x, y).pc + SkipNeReg(m, x, y).pc == 2 * m.pc + 2
  {
  }

  /** Ex9E and ExA1 are complementary: exactly one of them skips. */
  lemma KeySkipsComplement(m: Chip8, x: RegIndex)
    requires m.v[x] < KeyCount && m.pc + 2 <= 0xFFFF
    ensures SkipKey(m, x).pc + SkipNoKey(m, x).pc == 2 * m.pc + 2
  {
  }

  /** Comparing a register with itself: 5xx0 always skips and 9xx0 never does. */
  lemma SkipOnSameRegister(m: Chip8, x: RegIndex)
    requires m.pc + 2 <= 0xFFFF
    ensures SkipEqReg(m, x, x).pc == m.pc + 2
    ensures SkipNeReg(m, x, x) == m
  {
  }

  /** Bnnn with V0 = 0 is the plain jump 1nnn. */
  lemma JumpOffsetZero(m: Chip8, addr: Word)
    requires m.v[0] == 0
    ensures JumpOffset(m, addr) == Jump(m, addr)
  {
  }
}
