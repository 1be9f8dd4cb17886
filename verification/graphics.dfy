/**
  The display instructions: 00E0 (clear) and Dxyn (draw an n-row sprite).

  A sprite is n bytes read from memory at I, one byte per row, drawn most
  significant bit first. Each set bit is XORed onto the pixel it lands on;
  both coordinates wrap around the 64 x 32 screen. VF ends as 1 exactly
  when some set bit landed on a pixel that was 1.

  `Drawn` states the result pixel by pixel; `DrawLoop` follows the
  interpreter's row-by-row, column-by-column loop and is proved to compute
  the same state.
*/
module Graphics {
  import opened Bits
  import opened Machine

  /** 00E0: every pixel off; the renderer is told to redraw. */
  function ClearScreen(m: Chip8): (r: Chip8)
    ensures forall k :: 0 <= k < DisplaySize ==> r.display[k] == 0
    ensures r.drawFlag
    ensures r == m.(display := r.display, drawFlag := true)
  {
    m.(display := Zeros(DisplaySize), drawFlag := true)
  }

  /**
    Column `col` of a sprite row, counted from the left: bit `7 - col`. The
    interpreter tests it as `row & (0x80 >> col) != 0` (see `SpriteBitIsMask`).
  */
  predicate SpriteBit(row: Byte, col: nat)
    requires col < 8
  {
    BitAt(row, 7 - col) == 1
  }

  /** The interpreter's mask test picks out the same bit. */
  lemma SpriteBitIsMask(row: Byte, col: nat)
    requires col < 8
    ensures SpriteBit(row, col) <==> And8(row, HighBitShifted(col)) != 0
  {
    AndShiftedHighBit(row, col);
  }

  /** A sprite placed on the screen: its top-left corner and its rows. */
  datatype Sprite = Sprite(x0: nat, y0: nat, rows: seq<Byte>)

  predicate OnScreen(s: Sprite)
  {
    s.x0 < ScreenWidth && s.y0 < ScreenHeight && |s.rows| < 16
  }

  /** The pixel that sprite cell (`row`, `col`) lands on, both coordinates wrapped. */
  function Target(s: Sprite, row: nat, col: nat): (k: nat)
    ensures k < DisplaySize
  {
    (s.x0 + col) % ScreenWidth + ((s.y0 + row) % ScreenHeight) * ScreenWidth
  }

  /** The sprite row whose cells can land on pixel `k`. */
  function CellRow(s: Sprite, k: nat): nat
  {
    (k / ScreenWidth - s.y0) % ScreenHeight
  }

  /** The sprite column whose cells can land on pixel `k`. */
  function CellCol(s: Sprite, k: nat): nat
  {
    (k % ScreenWidth - s.x0) % ScreenWidth
  }

  /** A set sprite bit lands on pixel `k`. */
  predicate Hit(s: Sprite, k: nat)
  {
    CellRow(s, k) < |s.rows| && CellCol(s, k) < 8 && SpriteBit(s.rows[CellRow(s, k)], CellCol(s, k))
  }

  /** The screen after drawing: every hit pixel flipped, every other pixel kept. */
  function Drawn(s: Sprite, d: Screen): Screen
  {
    seq(DisplaySize, k requires 0 <= k < DisplaySize => if Hit(s, k) then Xor8(d[k], 1) else d[k])
  }

  /** Some set sprite bit lands on a pixel that is 1. */
  predicate Collides(s: Sprite, d: Screen)
  {
    exists k :: 0 <= k < DisplaySize && Hit(s, k) && d[k] == 1
  }

  /** The sprite Dxyn draws: at (Vx mod 64, Vy mod 32), rows from I. */
  function SpriteOf(m: Chip8, x: RegIndex, y: RegIndex, n: nat): (s: Sprite)
    requires n < 16 && (n == 0 || m.i + n <= RamSize)
    ensures OnScreen(s) && |s.rows| == n
    ensures s.x0 == m.v[x] % ScreenWidth && s.y0 == m.v[y] % ScreenHeight
    ensures forall row :: 0 <= row < n ==> s.rows[row] == m.ram[m.i + row]
  {
    Sprite(m.v[x] % ScreenWidth, m.v[y] % ScreenHeight, if n == 0 then [] else m.ram[m.i..m.i + n])
  }

  /**
    Dxyn. Memory is read at I .. I+n-1, so that range must lie in memory
    when n > 0. The coordinates are read before VF is cleared.
  */
  function Draw(m: Chip8, x: RegIndex, y: RegIndex, n: nat): (r: Chip8)
    requires n < 16 && (n == 0 || m.i + n <= RamSize)
    ensures r.v[VF] <= 1
    ensures r.drawFlag
    ensures AgreeOutside(r.v, m.v, {VF})
    ensures r == m.(display := r.display, v := r.v, drawFlag := true)
  {
    var s := SpriteOf(m, x, y, n);
    m.(display := Drawn(s, m.display), v := m.v[VF := if Collides(s, m.display) then 1 else 0], drawFlag := true)
  }

  /**
    Dxyn pixel by pixel: the target of every sprite cell is flipped when the
    cell's bit is set and kept otherwise, and a pixel that changed is the
    target of some set bit.
  */
  lemma DrawFlipsTargets(m: Chip8, x: RegIndex, y: RegIndex, n: nat)
    requires n < 16 && (n == 0 || m.i + n <= RamSize)
    ensures var s, r := SpriteOf(m, x, y, n), Draw(m, x, y, n);
      && (forall row, col :: 0 <= row < n && 0 <= col < 8 ==>
            r.display[Target(s, row, col)]
              == if SpriteBit(m.ram[m.i + row], col) then Xor8(m.display[Target(s, row, col)], 1)
                 else m.display[Target(s, row, col)])
      && (forall k :: 0 <= k < DisplaySize && r.display[k] != m.display[k] ==>
            exists row, col :: 0 <= row < n && 0 <= col < 8 && SpriteBit(m.ram[m.i + row], col)
                               && Target(s, row, col) == k)
  {
    HitGeometry(SpriteOf(m, x, y, n));
  }

  /** Dxyn sets VF to 1 exactly when a set sprite bit lands on a lit pixel, and to 0 otherwise. */
  lemma DrawCollision(m: Chip8, x: RegIndex, y: RegIndex, n: nat)
    requires n < 16 && (n == 0 || m.i + n <= RamSize)
    ensures var s, r := SpriteOf(m, x, y, n), Draw(m, x, y, n);
      r.v[VF] == 1 <==>
        exists row, col :: 0 <= row < n && 0 <= col < 8 && SpriteBit(m.ram[m.i + row], col)
                           && m.display[Target(s, row, col)] == 1
  {
    HitGeometry(SpriteOf(m, x, y, n));
  }

  /** A cell's pixel leads back to the cell, and a pixel's cell leads back to the pixel. */
  lemma CellOfTarget(s: Sprite, row: nat, col: nat)
    requires OnScreen(s) && row < ScreenHeight && col < ScreenWidth
    ensures CellRow(s, Target(s, row, col)) == row && CellCol(s, Target(s, row, col)) == col
  {
    var cx := (s.x0 + col) % ScreenWidth;
    var cy := (s.y0 + row) % ScreenHeight;
    var k := cx + cy * ScreenWidth;
    assert k / ScreenWidth == cy && k % ScreenWidth == cx;
  }

  lemma TargetOfCell(s: Sprite, k: nat)
    requires OnScreen(s) && k < DisplaySize
    ensures CellRow(s, k) < ScreenHeight && CellCol(s, k) < ScreenWidth
    ensures Target(s, CellRow(s, k), CellCol(s, k)) == k
  {
    var px, py := k % ScreenWidth, k / ScreenWidth;
    assert py < ScreenHeight;
    assert (s.x0 + CellCol(s, k)) % ScreenWidth == px;
    assert (s.y0 + CellRow(s, k)) % ScreenHeight == py;
  }

  /** Pixel `k` is hit exactly when it is the target of a set sprite bit. */
  lemma HitGeometry(s: Sprite)
    requires OnScreen(s)
    ensures forall row, col :: 0 <= row < |s.rows| && 0 <= col < 8 ==>
              (Hit(s, Target(s, row, col)) <==> SpriteBit(s.rows[row], col))
    ensures forall k :: 0 <= k < DisplaySize && Hit(s, k) ==>
              Target(s, CellRow(s, k), CellCol(s, k)) == k
  {
    forall row, col | 0 <= row < |s.rows| && 0 <= col < 8
      ensures Hit(s, Target(s, row, col)) <==> SpriteBit(s.rows[row], col)
    {
      CellOfTarget(s, row, col);
    }
    forall k | 0 <= k < DisplaySize && Hit(s, k)
      ensures Target(s, CellRow(s, k), CellCol(s, k)) == k
    {
      TargetOfCell(s, k);
    }
  }
  /** Pixel `k` is hit by one of the first `p` sprite cells, counted row by row, eight per row. */
  predicate Done(s: Sprite, p: nat, k: nat)
  {
    Hit(s, k) && CellRow(s, k) * 8 + CellCol(s, k) < p
  }

  /** The screen once the first `p` sprite cells have been drawn. */
  function Overlay(s: Sprite, d: Screen, p: nat): Screen
  {
    seq(DisplaySize, k requires 0 <= k < DisplaySize => if Done(s, p, k) then Xor8(d[k], 1) else d[k])
  }

  /** One of the first `p` sprite cells landed on a pixel that was 1. */
  predicate CollidesBefore(s: Sprite, d: Screen, p: nat)
  {
    exists k :: 0 <= k < DisplaySize && Done(s, p, k) && d[k] == 1
  }

  /** Drawing cell number `p` = (`row`, `col`) touches its target pixel and nothing else. */
  lemma OverlayStep(s: Sprite, d: Screen, row: nat, col: nat)
    requires OnScreen(s) && row < |s.rows| && col < 8
    ensures var p, t := row * 8 + col, Target(s, row, col);
      && Overlay(s, d, p)[t] == d[t]
      && Overlay(s, d, p + 1)
           == (if SpriteBit(s.rows[row], col) then Overlay(s, d, p)[t := Xor8(d[t], 1)] else Overlay(s, d, p))
      && (CollidesBefore(s, d, p + 1) <==> CollidesBefore(s, d, p) || (SpriteBit(s.rows[row], col) && d[t] == 1))
  {
    var p, t := row * 8 + col, Target(s, row, col);
    CellOfTarget(s, row, col);
    forall k | 0 <= k < DisplaySize
      ensures Done(s, p + 1, k) <==> Done(s, p, k) || (k == t && SpriteBit(s.rows[row], col))
    {
      if k != t && Done(s, p + 1, k) && !Done(s, p, k) {
        var cr, cc := CellRow(s, k), CellCol(s, k);
        assert cr * 8 + cc == row * 8 + col;
        assert cr == row && cc == col;
        TargetOfCell(s, k);
        assert false;
      }
    }
  }

  /** Once all `8 * n` cells are drawn, the overlay is the whole sprite. */
  lemma OverlayComplete(s: Sprite, d: Screen)
    ensures Overlay(s, d, 8 * |s.rows|) == Drawn(s, d)
    ensures CollidesBefore(s, d, 8 * |s.rows|) <==> Collides(s, d)
  {
    forall k | 0 <= k < DisplaySize
      ensures Done(s, 8 * |s.rows|, k) <==> Hit(s, k)
    {
      if Hit(s, k) {
        assert CellRow(s, k) + 1 <= |s.rows|;
        assert (CellRow(s, k) + 1) * 8 <= 8 * |s.rows|;
      }
    }
  }

  /** `Draw` is the overlay of all of the sprite's cells. */
  lemma DrawIsOverlay(m: Chip8, x: RegIndex, y: RegIndex, n: nat)
    requires n < 16 && (n == 0 || m.i + n <= RamSize)
    ensures var s := SpriteOf(m, x, y, n);
      Draw(m, x, y, n)
        == m.(display := Overlay(s, m.display, n * 8),
              v := m.v[VF := if CollidesBefore(s, m.display, n * 8) then 1 else 0],
              drawFlag := true)
  {
    OverlayComplete(SpriteOf(m, x, y, n), m.display);
  }

  /**
    Dxyn the way the interpreter runs it: VF cleared, then each sprite row
    in turn, flipping target pixels and raising VF on a collision.
  */
  method DrawLoop(m: Chip8, x: RegIndex, y: RegIndex, height: nat) returns (r: Chip8)
    requires height < 16 && (height == 0 || m.i + height <= RamSize)
    ensures r == Draw(m, x, y, height)
  {
    ghost var s := SpriteOf(m, x, y, height);
    var xCoord := m.v[x] % ScreenWidth;
    var yCoord := m.v[y] % ScreenHeight;
    var v := m.v[VF := 0];
    var display := m.display;
    var row := 0;
    while row < height
      invariant row <= height
      invariant display == Overlay(s, m.display, row * 8)
      invariant v == m.v[VF := if CollidesBefore(s, m.display, row * 8) then 1 else 0]
    {
      var currentY := (yCoord + row) % ScreenHeight;
      display, v := DrawRow(s, m.display, m.ram[m.i + row], xCoord, currentY, row, display, v);
      row := row + 1;
    }
    DrawIsOverlay(m, x, y, height);
    r := m.(v := v, display := display, drawFlag := true);
  }

  /** One sprite row of Dxyn: the eight columns, most significant bit first. */
  method DrawRow(ghost s: Sprite, ghost d: Screen, spriteByte: Byte, xCoord: nat, currentY: nat, row: nat,
                 display0: Screen, v0: Registers) returns (display: Screen, v: Registers)
    requires OnScreen(s) && row < |s.rows| && s.rows[row] == spriteByte
    requires xCoord == s.x0 && currentY == (s.y0 + row) % ScreenHeight
    requires display0 == Overlay(s, d, row * 8)
    requires v0[VF] == if CollidesBefore(s, d, row * 8) then 1 else 0
    ensures display == Overlay(s, d, row * 8 + 8)
    ensures v == v0[VF := if CollidesBefore(s, d, row * 8 + 8) then 1 else 0]
  {
    display, v := display0, v0;
    var col := 0;
    while col < 8
      invariant col <= 8
      invariant display == Overlay(s, d, row * 8 + col)
      invariant v == v0[VF := if CollidesBefore(s, d, row * 8 + col) then 1 else 0]
    {
      var currentX := (xCoord + col) % ScreenWidth;
      display, v := DrawCell(s, d, spriteByte, currentX, currentY, row, col, display, v);
      col := col + 1;
    }
  }

  /**
    One sprite cell of Dxyn: when the cell's bit is set, raise VF if the
    target pixel is 1, then flip it.
  */
  method DrawCell(ghost s: Sprite, ghost d: Screen, spriteByte: Byte, currentX: nat, currentY: nat,
                  row: nat, col: nat, display0: Screen, v0: Registers) returns (display: Screen, v: Registers)
    requires OnScreen(s) && row < |s.rows| && col < 8 && s.rows[row] == spriteByte
    requires currentX == (s.x0 + col) % ScreenWidth && currentY == (s.y0 + row) % ScreenHeight
    requires display0 == Overlay(s, d, row * 8 + col)
    requires v0[VF] == if CollidesBefore(s, d, row * 8 + col) then 1 else 0
    ensures display == Overlay(s, d, row * 8 + col + 1)
    ensures v == v0[VF := if CollidesBefore(s, d, row * 8 + col + 1) then 1 else 0]
  {
    display, v := display0, v0;
    OverlayStep(s, d, row, col);
    SpriteBitIsMask(spriteByte, col);
    var mask := HighBitShifted(col);
    if And8(spriteByte, mask) != 0 {
      var screenIdx := currentX + currentY * ScreenWidth;
      assert screenIdx == Target(s, row, col);
      if display[screenIdx] == 1 {
        v := v[VF := 1];
      }
      display := display[screenIdx := Xor8(display[screenIdx], 1)];
    }
  }

  /** Drawing the same sprite twice restores the screen: XOR is its own inverse. */
  lemma DrawTwice(m: Chip8, x: RegIndex, y: RegIndex, n: nat)
    requires n < 16 && (n == 0 || m.i + n <= RamSize)
    requires x != VF && y != VF
    ensures Draw(Draw(m, x, y, n), x, y, n).display == m.display
  {
    var once := Draw(m, x, y, n);
    var s := SpriteOf(m, x, y, n);
    assert SpriteOf(once, x, y, n) == s;
    forall k | 0 <= k < DisplaySize
      ensures Drawn(s, Drawn(s, m.display))[k] == m.display[k]
    {
      XorTwiceByte(m.display[k], 1);
    }
  }

  /**
    On a blank screen, drawing the same sprite a second time reports a
    collision exactly when the sprite has a set bit: each set bit lands on
    the pixel the first draw lit.
  */
  lemma RedrawCollides(m: Chip8, x: RegIndex, y: RegIndex, n: nat)
    requires n < 16 && (n == 0 || m.i + n <= RamSize)
    requires x != VF && y != VF
    requires forall k :: 0 <= k < DisplaySize ==> m.display[k] == 0
    ensures var s := SpriteOf(m, x, y, n);
      Draw(Draw(m, x, y, n), x, y, n).v[VF] == 1 <==>
        exists row, col :: 0 <= row < n && 0 <= col < 8 && SpriteBit(s.rows[row], col)
  {
    var once := Draw(m, x, y, n);
    var s := SpriteOf(m, x, y, n);
    assert SpriteOf(once, x, y, n) == s;
    DrawOnBlank(m, x, y, n);
    HitGeometry(s);
    forall row, col | 0 <= row < n && 0 <= col < 8
      ensures once.display[Target(s, row, col)] == 1 <==> SpriteBit(s.rows[row], col)
    {
    }
    DrawCollision(once, x, y, n);
  }

  /** Drawing keeps every pixel 0 or 1 when it starts that way. */
  lemma DrawKeepsPixelsBinary(m: Chip8, x: RegIndex, y: RegIndex, n: nat)
    requires n < 16 && (n == 0 || m.i + n <= RamSize)
    requires Sane(m)
    ensures Sane(Draw(m, x, y, n))
  {
    var s := SpriteOf(m, x, y, n);
    forall k | 0 <= k < DisplaySize
      ensures Drawn(s, m.display)[k] <= 1
    {
      XorOne(m.display[k]);
    }
  }

  /** On a blank screen a sprite lights exactly the pixels its set bits land on, with no collision. */
  lemma DrawOnBlank(m: Chip8, x: RegIndex, y: RegIndex, n: nat)
    requires n < 16 && (n == 0 || m.i + n <= RamSize)
    requires forall k :: 0 <= k < DisplaySize ==> m.display[k] == 0
    ensures var s, r := SpriteOf(m, x, y, n), Draw(m, x, y, n);
      && r.v[VF] == 0
      && forall k :: 0 <= k < DisplaySize ==> r.display[k] == if Hit(s, k) then 1 else 0
  {
    XorOne(0);
  }

  /** After 00E0 a sprite is drawn onto a blank screen: it lights exactly its own pixels. */
  lemma ClearThenDraw(m: Chip8, x: RegIndex, y: RegIndex, n: nat)
    requires n < 16 && (n == 0 || m.i + n <= RamSize)
    ensures var s, r := SpriteOf(m, x, y, n), Draw(ClearScreen(m), x, y, n);
      && r.v[VF] == 0
      && forall k :: 0 <= k < DisplaySize ==> r.display[k] == if Hit(s, k) then 1 else 0
  {
    DrawOnBlank(ClearScreen(m), x, y, n);
  }

  /** Which pixels of its first two rows glyph 0 hits when drawn at the origin. */
  lemma GlyphZeroHits(s: Sprite)
    requires s.x0 == 0 && s.y0 == 0 && |s.rows| == GlyphSize
    requires s.rows[0] == 0xF0 && s.rows[1] == 0x90
    ensures Hit(s, 0) && Hit(s, 1) && Hit(s, 2) && Hit(s, 3) && !Hit(s, 4)
    ensures Hit(s, 64) && !Hit(s, 65) && !Hit(s, 66) && Hit(s, 67)
  {
    assert Hit(s, 0);
    assert Hit(s, 1);
    assert Hit(s, 2);
    assert Hit(s, 3);
    assert !Hit(s, 4);
    assert Hit(s, 64);
    assert !Hit(s, 65);
    assert !Hit(s, 66);
  }

  /**
    The font glyph for 0 drawn at the top-left corner of a blank screen
    lights 1111 in its first row and 1..1 in its second, and reports no
    collision.
  */
  lemma DrawFontZero(m: Chip8)
    requires forall k :: 0 <= k < DisplaySize ==> m.display[k] == 0
    requires m.i == FontStart && m.v[0] == 0
    requires forall k :: 0 <= k < GlyphSize ==> m.ram[FontStart + k] == FontSet[k]
    ensures var r := Draw(m, 0, 0, GlyphSize);
      && r.v[VF] == 0
      && r.display[0] == 1 && r.display[1] == 1 && r.display[2] == 1 && r.display[3] == 1
      && r.display[4] == 0
      && r.display[64] == 1 && r.display[65] == 0 && r.display[66] == 0 && r.display[67] == 1
  {
    var s := SpriteOf(m, 0, 0, GlyphSize);
    assert s.rows[0] == 0xF0 && s.rows[1] == 0x90 by {
      assert m.ram[FontStart] == FontSet[0] && m.ram[FontStart + 1] == FontSet[1];
    }
    GlyphZeroHits(s);
    DrawOnBlank(m, 0, 0, GlyphSize);
    var d := Draw(m, 0, 0, GlyphSize).display;
    assert d[0] == 1 && d[1] == 1 && d[2] == 1 && d[3] == 1 && d[4] == 0;
    assert d[64] == 1 && d[65] == 0 && d[66] == 0 && d[67] == 1;
  }
}
