/**
  The instructions that work on the index register I and on memory through
  it: Annn, Fx1E, Fx29, Fx33, Fx55 and Fx65.

  The interpreter indexes memory with `I + k` directly, so every access
  past the end of memory is a precondition here, and so is the `u16`
  overflow of Fx1E.
*/
module Memory {
  import opened Bits
  import opened Machine

  /** Annn: I := nnn. */
  function SetIndex(m: Chip8, addr: Word): (r: Chip8)
    ensures r.i == addr
    ensures r == m.(i := r.i)
  {
    m.(i := addr)
  }

  /**
    Fx1E: I := I + Vx, with neither a 12-bit mask nor a flag in VF. The sum
    must fit in 16 bits.
  */
  function AddIndex(m: Chip8, x: RegIndex): (r: Chip8)
    requires m.i + m.v[x] <= 0xFFFF
    ensures r.i - m.i == m.v[x]
    ensures r == m.(i := r.i)
  {
    m.(i := m.i + m.v[x])
  }

  /** The font table sits unmodified at 0x050. */
  predicate FontIntact(m: Chip8)
  {
    forall k :: 0 <= k < |FontSet| ==> m.ram[FontStart + k] == FontSet[k]
  }

  /**
    Fx29: I := the address of the glyph for digit Vx, that is 0x050 + 5 * Vx.
    Vx is not reduced to its low nibble.
  */
  function FontChar(m: Chip8, x: RegIndex): (r: Chip8)
    ensures r.i >= FontStart && (r.i - FontStart) % GlyphSize == 0
    ensures (r.i - FontStart) / GlyphSize == m.v[x]
    ensures r == m.(i := r.i)
  {
    m.(i := FontStart + m.v[x] as int * GlyphSize)
  }

  /** With the font intact and Vx a hexadecimal digit, Fx29 points I at that digit's five glyph rows. */
  lemma FontCharFindsGlyph(m: Chip8, x: RegIndex)
    requires FontIntact(m) && m.v[x] < 16
    ensures var r := FontChar(m, x);
      r.i + GlyphSize <= RamSize
      && r.ram[r.i..r.i + GlyphSize] == FontSet[GlyphSize * m.v[x]..GlyphSize * m.v[x] + GlyphSize]
  {
    var r, d := FontChar(m, x), m.v[x];
    assert r.i == FontStart + GlyphSize * d && r.ram == m.ram;
    var glyph := FontSet[GlyphSize * d..GlyphSize * d + GlyphSize];
    forall k | 0 <= k < GlyphSize
      ensures r.ram[r.i + k] == glyph[k]
    {
      assert r.i + k == FontStart + (GlyphSize * d + k);
    }
    assert r.ram[r.i..r.i + GlyphSize] == glyph;
  }

  /** With Vx of 16 or more, Fx29 points past the end of the font table. */
  lemma FontCharBeyondFont(m: Chip8, x: RegIndex)
    requires m.v[x] >= 16
    ensures FontChar(m, x).i >= FontStart + |FontSet|
  {
  }

  /** A fresh machine holds the font, and loading a ROM does not disturb it. */
  lemma NewHoldsFont(data: seq<Byte>)
    ensures FontIntact(New())
    ensures FontIntact(LoadRom(New(), data))
  {
  }

  /**
    Fx33: the hundreds, tens and units digits of Vx at I, I+1 and I+2. All
    three addresses must be in memory.
  */
  function StoreBcd(m: Chip8, x: RegIndex): (r: Chip8)
    requires m.i + 2 < RamSize
    ensures r.ram[m.i] <= 9 && r.ram[m.i + 1] <= 9 && r.ram[m.i + 2] <= 9
    ensures 100 * (r.ram[m.i] as int) + 10 * (r.ram[m.i + 1] as int) + r.ram[m.i + 2] as int == m.v[x]
    ensures forall a :: 0 <= a < RamSize && !(m.i <= a <= m.i + 2) ==> r.ram[a] == m.ram[a]
    ensures r == m.(ram := r.ram)
  {
    var value := m.v[x];
    DecimalDigits(value);
    m.(ram := m.ram[m.i := value / 100][m.i + 1 := (value / 10) % 10][m.i + 2 := value % 10])
  }

  /** A byte is its three decimal digits, hundreds first. */
  lemma DecimalDigits(value: Byte)
    ensures value / 100 <= 2 && (value / 10) % 10 <= 9 && value % 10 <= 9
    ensures 100 * (value / 100) + 10 * ((value / 10) % 10) + value % 10 == value
  {
    var tens := value / 10;
    assert value == 10 * tens + value % 10;
    assert tens == 10 * (tens / 10) + tens % 10;
    assert tens / 10 == value / 100;
  }

  /**
    Fx55: V0 ..= Vx stored at I ..= I+x. I itself is left as it was. The
    last address I+x must be in memory.
  */
  function StoreRegs(m: Chip8, x: RegIndex): (r: Chip8)
    requires m.i + x < RamSize
    ensures forall k :: 0 <= k <= x ==> r.ram[m.i + k] == m.v[k]
    ensures forall a :: 0 <= a < RamSize && !(m.i <= a <= m.i + x) ==> r.ram[a] == m.ram[a]
    ensures r == m.(ram := r.ram)
  {
    m.(ram := m.ram[..m.i] + m.v[..x + 1] + m.ram[m.i + x + 1..])
  }

  /**
    Fx65: V0 ..= Vx loaded from I ..= I+x. I itself is left as it was. The
    last address I+x must be in memory.
  */
  function LoadRegs(m: Chip8, x: RegIndex): (r: Chip8)
    requires m.i + x < RamSize
    ensures forall k :: 0 <= k <= x ==> r.v[k] == m.ram[m.i + k]
    ensures forall k :: x < k < RegisterCount ==> r.v[k] == m.v[k]
    ensures r == m.(v := r.v)
  {
    m.(v := m.ram[m.i..m.i + x + 1] + m.v[x + 1..])
  }

  /** Fx55 as the interpreter runs it: one register at a time, V0 first. */
  method StoreRegsLoop(m: Chip8, x: RegIndex) returns (r: Chip8)
    requires m.i + x < RamSize
    ensures r == StoreRegs(m, x)
  {
    var ram := m.ram;
    var k := 0;
    while k <= x
      invariant k <= x + 1
      invariant forall j :: 0 <= j < k ==> ram[m.i + j] == m.v[j]
      invariant forall a :: 0 <= a < RamSize && !(m.i <= a < m.i + k) ==> ram[a] == m.ram[a]
    {
      ram := ram[m.i + k := m.v[k]];
      k := k + 1;
    }
    r := m.(ram := ram);
    assert r.ram == StoreRegs(m, x).ram;
  }

  /** Fx65 as the interpreter runs it: one register at a time, V0 first. */
  method LoadRegsLoop(m: Chip8, x: RegIndex) returns (r: Chip8)
    requires m.i + x < RamSize
    ensures r == LoadRegs(m, x)
  {
    var v := m.v;
    var k := 0;
    while k <= x
      invariant k <= x + 1
      invariant forall j :: 0 <= j < k ==> v[j] == m.ram[m.i + j]
      invariant forall j :: k <= j < RegisterCount ==> v[j] == m.v[j]
    {
      v := v[k := m.ram[m.i + k]];
      k := k + 1;
    }
    r := m.(v := v);
    assert r.v == LoadRegs(m, x).v;
  }

  /**
    Fx33 followed by Fx65 with x = 2, the usual way to display a score:
    V0, V1 and V2 receive the decimal digits of the original Vx.
  */
  lemma StoreBcdThenLoad(m: Chip8, x: RegIndex)
    requires m.i + 2 < RamSize
    ensures var r := LoadRegs(StoreBcd(m, x), 2);
      && r.v[0] <= 9 && r.v[1] <= 9 && r.v[2] <= 9
      && 100 * (r.v[0] as int) + 10 * (r.v[1] as int) + r.v[2] as int == m.v[x]
      && r.i == m.i
  {
  }

  /** Loading right after storing the same registers gives back the stored state. */
  lemma StoreThenLoad(m: Chip8, x: RegIndex)
    requires m.i + x < RamSize
    ensures LoadRegs(StoreRegs(m, x), x) == StoreRegs(m, x)
  {
    var s := StoreRegs(m, x);
    assert LoadRegs(s, x).v == s.v;
  }

  /** Storing right after loading the same registers leaves memory as it was. */
  lemma LoadThenStore(m: Chip8, x: RegIndex)
    requires m.i + x < RamSize
    ensures StoreRegs(LoadRegs(m, x), x) == LoadRegs(m, x)
  {
    var l := LoadRegs(m, x);
    assert StoreRegs(l, x).ram == l.ram;
  }
}
