/**
  Register loads and arithmetic: 6xnn, 7xnn, the 8xy_ family and Cxnn.

  VF (register 15) doubles as the flag register. The interpreter writes the
  flag of SUB, SUBN, SHR and SHL before it updates Vx, and the flag of ADD
  after; when x or y is 15 the order decides the result, so each contract
  spells out those cases.
*/
module Alu {
  import opened Bits
  import opened Machine

  /** 6xnn: Vx := nn. */
  function LoadImm(m: Chip8, x: RegIndex, nn: Byte): (r: Chip8)
    ensures r.v[x] == nn
    ensures AgreeOutside(r.v, m.v, {x})
    ensures r == m.(v := r.v)
  {
    m.(v := m.v[x := nn])
  }

  /** 7xnn: Vx := Vx + nn modulo 256; no carry, VF untouched unless x is 15. */
  function AddImm(m: Chip8, x: RegIndex, nn: Byte): (r: Chip8)
    ensures r.v[x] == (m.v[x] + nn) % 256
    ensures r.v[x] < m.v[x] <==> m.v[x] + nn > 255
    ensures AgreeOutside(r.v, m.v, {x})
    ensures r == m.(v := r.v)
  {
    m.(v := m.v[x := WrappingAdd(m.v[x], nn)])
  }

  /** `u8::wrapping_add`. */
  function WrappingAdd(a: Byte, b: Byte): (r: Byte)
    ensures r == if a + b < 256 then a + b else a + b - 256
  {
    (a + b) % 256
  }

  /** Wrapping addition regroups freely. */
  lemma WrappingAddAssociates(c: Byte, a: Byte, b: Byte)
    ensures WrappingAdd(WrappingAdd(c, a), b) == WrappingAdd(c, WrappingAdd(a, b))
  {
    assert WrappingAdd(c, a) == if c + a < 256 then c + a else c + a - 256;
    assert WrappingAdd(a, b) == if a + b < 256 then a + b else a + b - 256;
  }

  /** `u8::wrapping_sub`. */
  function WrappingSub(a: Byte, b: Byte): (r: Byte)
    ensures r == if a >= b then a - b else a - b + 256
  {
    (a - b) % 256
  }

  /** 8xy0: Vx := Vy. */
  function Copy(m: Chip8, x: RegIndex, y: RegIndex): (r: Chip8)
    ensures r.v[x] == m.v[y]
    ensures AgreeOutside(r.v, m.v, {x})
    ensures r == m.(v := r.v)
  {
    m.(v := m.v[x := m.v[y]])
  }

  /** 8xy1: Vx := Vx | Vy. */
  function Or(m: Chip8, x: RegIndex, y: RegIndex): (r: Chip8)
    ensures r.v[x] == Or8(m.v[x], m.v[y])
    ensures r.v[x] >= m.v[x] && r.v[x] >= m.v[y]
    ensures AgreeOutside(r.v, m.v, {x})
    ensures r == m.(v := r.v)
  {
    OrBounded(m.v[x], m.v[y]);
    m.(v := m.v[x := Or8(m.v[x], m.v[y])])
  }

  /** 8xy2: Vx := Vx & Vy. */
  function And(m: Chip8, x: RegIndex, y: RegIndex): (r: Chip8)
    ensures r.v[x] == And8(m.v[x], m.v[y])
    ensures r.v[x] <= m.v[x] && r.v[x] <= m.v[y]
    ensures AgreeOutside(r.v, m.v, {x})
    ensures r == m.(v := r.v)
  {
    AndBounded(m.v[x], m.v[y]);
    m.(v := m.v[x := And8(m.v[x], m.v[y])])
  }

  /** 8xy3: Vx := Vx ^ Vy. */
  function Xor(m: Chip8, x: RegIndex, y: RegIndex): (r: Chip8)
    ensures r.v[x] == Xor8(m.v[x], m.v[y])
    ensures AgreeOutside(r.v, m.v, {x})
    ensures r == m.(v := r.v)
  {
    m.(v := m.v[x := Xor8(m.v[x], m.v[y])])
  }

  /**
    8xy4: adds Vy to Vx in 16 bits, stores the low byte in Vx, then writes
    the carry to VF (so with x = 15 the carry is what remains).
  */
  function AddCarry(m: Chip8, x: RegIndex, y: RegIndex): (r: Chip8)
    ensures r.v[VF] == if m.v[x] as int + m.v[y] > 255 then 1 else 0
    ensures x != VF ==> r.v[x] == (m.v[x] as int + m.v[y]) % 256
    ensures x != VF ==> r.v[x] as int + 256 * r.v[VF] as int == m.v[x] as int + m.v[y]
    ensures AgreeOutside(r.v, m.v, {x, VF})
    ensures r == m.(v := r.v)
  {
    var sum: Word := m.v[x] as int + m.v[y];
    var carry: Byte := if sum > 0xFF then 1 else 0;
    m.(v := m.v[x := sum % 256][VF := carry])
  }

  /**
    8xy5: VF := 1 if Vx >= Vy (no borrow) else 0; then Vx := Vx - Vy
    modulo 256, reading the registers after the flag was written.
  */
  function Sub(m: Chip8, x: RegIndex, y: RegIndex): (r: Chip8)
    ensures var flag := if m.v[x] >= m.v[y] then 1 else 0;
      && (x != VF ==> r.v[VF] == flag)
      && (x != VF && y != VF ==> r.v[x] == (m.v[x] as int - m.v[y]) % 256)
      && (x != VF && y == VF ==> r.v[x] == (m.v[x] as int - flag) % 256)
      && (x == VF && y != VF ==> r.v[VF] == (flag as int - m.v[y]) % 256)
      && (x == VF && y == VF ==> r.v[VF] == 0)
    ensures x != VF && y != VF ==> (r.v[VF] == 1 <==> r.v[x] as int + m.v[y] == m.v[x])
    ensures AgreeOutside(r.v, m.v, {x, VF})
    ensures r == m.(v := r.v)
  {
    var flag: Byte := if m.v[x] >= m.v[y] then 1 else 0;
    var v := m.v[VF := flag];
    m.(v := v[x := WrappingSub(v[x], v[y])])
  }

  /**
    8xy6: VF := the low bit of Vx, then Vx := Vx >> 1. `y` is ignored. With
    x = 15 the shift applies to the flag just written, leaving 0.
  */
  function ShiftRight(m: Chip8, x: RegIndex, y: RegIndex): (r: Chip8)
    ensures x != VF ==> r.v[VF] == m.v[x] % 2 && r.v[x] == m.v[x] / 2
    ensures x != VF ==> 2 * r.v[x] + r.v[VF] == m.v[x]
    ensures x == VF ==> r.v[VF] == 0
    ensures AgreeOutside(r.v, m.v, {x, VF})
    ensures r == m.(v := r.v)
  {
    AndLowBit(m.v[x]);
    var v := m.v[VF := And8(m.v[x], 0x1)];
    m.(v := v[x := v[x] / 2])
  }

  /**
    8xy7: VF := 1 if Vy >= Vx else 0; then Vx := Vy - Vx modulo 256,
    reading the registers after the flag was written.
  */
  function SubReverse(m: Chip8, x: RegIndex, y: RegIndex): (r: Chip8)
    ensures var flag := if m.v[y] >= m.v[x] then 1 else 0;
      && (x != VF ==> r.v[VF] == flag)
      && (x != VF && y != VF ==> r.v[x] == (m.v[y] as int - m.v[x]) % 256)
      && (x != VF && y == VF ==> r.v[x] == (flag as int - m.v[x]) % 256)
      && (x == VF && y != VF ==> r.v[VF] == (m.v[y] as int - flag) % 256)
      && (x == VF && y == VF ==> r.v[VF] == 0)
    ensures x != VF && y != VF ==> (r.v[VF] == 1 <==> r.v[x] as int + m.v[x] == m.v[y])
    ensures AgreeOutside(r.v, m.v, {x, VF})
    ensures r == m.(v := r.v)
  {
    var flag: Byte := if m.v[y] >= m.v[x] then 1 else 0;
    var v := m.v[VF := flag];
    m.(v := v[x := WrappingSub(v[y], v[x])])
  }

  /**
    8xyE: VF := the high bit of Vx, then Vx := Vx << 1 in eight bits. `y`
    is ignored. With x = 15 the shift applies to the flag just written.
  */
  function ShiftLeft(m: Chip8, x: RegIndex, y: RegIndex): (r: Chip8)
    ensures x != VF ==> r.v[VF] == m.v[x] / 128 && r.v[x] == (2 * m.v[x] as int) % 256
    ensures x != VF ==> 256 * r.v[VF] as int + r.v[x] == 2 * m.v[x] as int
    ensures x == VF ==> r.v[VF] == 2 * (m.v[VF] / 128)
    ensures AgreeOutside(r.v, m.v, {x, VF})
    ensures r == m.(v := r.v)
  {
    HighBitOut(m.v[x]);
    var v := m.v[VF := And8(m.v[x], 0x80) / 128];
    m.(v := v[x := (2 * v[x] as int) % 256])
  }

  /** Shifting a byte left pushes its high bit out: `(a & 0x80) >> 7` is `a / 128`. */
  lemma HighBitOut(a: Byte)
    ensures And8(a, 0x80) / 128 == a / 128 <= 1
    ensures 256 * (a / 128) + (2 * a) % 256 == 2 * a
  {
    AndHighBit(a);
  }

  /**
    Cxnn: Vx := a random byte masked with nn. The random byte is a
    parameter; only the masking is modelled.
  */
  function Random(m: Chip8, x: RegIndex, nn: Byte, random: Byte): (r: Chip8)
    ensures r.v[x] == And8(random, nn)
    ensures r.v[x] <= nn
    ensures AgreeOutside(r.v, m.v, {x})
    ensures r == m.(v := r.v)
  {
    AndBounded(random, nn);
    m.(v := m.v[x := And8(random, nn)])
  }

  /** Two 7xnn additions compose into one, modulo 256. */
  lemma AddImmTwice(m: Chip8, x: RegIndex, a: Byte, b: Byte)
    ensures AddImm(AddImm(m, x, a), x, b) == AddImm(m, x, WrappingAdd(a, b))
  {
    WrappingAddAssociates(m.v[x], a, b);
    assert AddImm(AddImm(m, x, a), x, b).v == AddImm(m, x, WrappingAdd(a, b)).v;
  }

  /**
    8xy5 undoes 8xy4: Vx comes back, and the no-borrow flag of the
    subtraction is 1 exactly when the addition did not carry.
  */
  lemma SubUndoesAdd(m: Chip8, x: RegIndex, y: RegIndex)
    requires x != VF && y != VF && x != y
    ensures var added := AddCarry(m, x, y);
      && Sub(added, x, y).v[x] == m.v[x]
      && Sub(added, x, y).v[VF] == 1 - added.v[VF]
  {
  }

  /** 8xy3 twice with the same Vy gives Vx back. */
  lemma XorTwice(m: Chip8, x: RegIndex, y: RegIndex)
    requires x != y
    ensures Xor(Xor(m, x, y), x, y) == m
  {
    XorTwiceByte(m.v[x], m.v[y]);
    assert Xor(Xor(m, x, y), x, y).v == m.v;
  }

  /** 8xy6 then 8xyE gives Vx back with its low bit cleared, and VF ends 0. */
  lemma ShiftRightThenLeft(m: Chip8, x: RegIndex, y: RegIndex)
    requires x != VF
    ensures ShiftLeft(ShiftRight(m, x, y), x, y).v[x] == m.v[x] - m.v[x] % 2
    ensures ShiftLeft(ShiftRight(m, x, y), x, y).v[VF] == 0
  {
  }

  /** With the mask 0xFF, Cxnn stores the random byte itself. */
  lemma RandomFullMask(m: Chip8, x: RegIndex, random: Byte)
    ensures Random(m, x, 0xFF, random).v[x] == random
  {
    AndFullMask(random);
  }

  /**
    8xy5 and 8xy7 on the same registers produce negatives of each other
    modulo 256, and their no-borrow flags are both 1 exactly when Vx = Vy.
  */
  lemma SubReverseNegatesSub(m: Chip8, x: RegIndex, y: RegIndex)
    requires x != VF && y != VF
    ensures (Sub(m, x, y).v[x] as int + SubReverse(m, x, y).v[x]) % 256 == 0
    ensures Sub(m, x, y).v[VF] as int + SubReverse(m, x, y).v[VF] == if m.v[x] == m.v[y] then 2 else 1
  {
  }
}
