/**
  Machine integers and the bitwise operators the interpreter uses.

  Bytes (`u8` in the interpreter) and words (`u16`) are modelled as bounded
  integers, so that wrap-around is written out explicitly (`% 256`) and the
  arithmetic the contracts speak about is ordinary integer arithmetic.
  The bitwise operators `&`, `|` and `^` are defined bit by bit, least
  significant bit first, which is exactly their meaning on unsigned values.
*/
module Bits {

  /** An unsigned 8-bit value (`u8`). */
  type Byte = b: int | 0 <= b < 256

  /** An unsigned 16-bit value (`u16`). */
  type Word = w: int | 0 <= w < 0x1_0000

  function Pow2(k: nat): (p: nat)
    ensures p >= 1
  {
    if k == 0 then 1 else 2 * Pow2(k - 1)
  }

  datatype BitOp = AndOp | OrOp | XorOp

  /** The boolean operator applied to one bit position. */
  function ApplyBit(op: BitOp, p: bool, q: bool): bool
  {
    match op
    case AndOp => p && q
    case OrOp => p || q
    case XorOp => p != q
  }

  /** `a op b` restricted to the low `width` bits. */
  function Bitwise(op: BitOp, a: nat, b: nat, width: nat): (r: nat)
    ensures r < Pow2(width)
  {
    if width == 0 then 0
    else
      var low := if ApplyBit(op, a % 2 == 1, b % 2 == 1) then 1 else 0;
      low + 2 * Bitwise(op, a / 2, b / 2, width - 1)
  }

  /** `a & b` on bytes. */
  function And8(a: Byte, b: Byte): Byte
  {
    assert Pow2(8) == 256;
    Bitwise(AndOp, a, b, 8)
  }

  /** `a | b` on bytes. */
  function Or8(a: Byte, b: Byte): Byte
  {
    assert Pow2(8) == 256;
    Bitwise(OrOp, a, b, 8)
  }

  /** `a ^ b` on bytes. */
  function Xor8(a: Byte, b: Byte): Byte
  {
    assert Pow2(8) == 256;
    Bitwise(XorOp, a, b, 8)
  }

  /** Masking with zero clears every bit. */
  lemma {:induction false} AndZero(a: nat, width: nat)
    ensures Bitwise(AndOp, a, 0, width) == 0
  {
    if width > 0 {
      AndZero(a / 2, width - 1);
    }
  }

  /** Exclusive-or with zero keeps the value when it fits in `width` bits. */
  lemma {:induction false} XorZero(a: nat, width: nat)
    requires a < Pow2(width)
    ensures Bitwise(XorOp, a, 0, width) == a
  {
    if width > 0 {
      XorZero(a / 2, width - 1);
    }
  }

  /** A mask never lets through more than it holds: `a & b <= b`. */
  lemma {:induction false} AndBelowMask(a: nat, b: nat, width: nat)
    ensures Bitwise(AndOp, a, b, width) <= b
  {
    if width > 0 {
      AndBelowMask(a / 2, b / 2, width - 1);
    }
  }

  /** `a & 0x1` is the least significant bit of `a`. */
  lemma AndLowBit(a: Byte)
    ensures And8(a, 1) == a % 2
  {
    AndZero(a / 2, 7);
  }

  /** `a & 0x80` keeps only the most significant bit of `a`. */
  lemma AndHighBit(a: Byte)
    ensures And8(a, 0x80) == (a / 128) * 128
  {
    var a1 := a / 2;
    var a2 := a1 / 2;
    var a3 := a2 / 2;
    var a4 := a3 / 2;
    var a5 := a4 / 2;
    var a6 := a5 / 2;
    var a7 := a6 / 2;
    assert a7 == a / 128;
    AndZero(a7 / 2, 0);
    var b := Bitwise(AndOp, a7, 1, 1);
    assert b == a7 % 2;
    AndEvenMask(a6, 2, 1);
    AndEvenMask(a5, 4, 2);
    AndEvenMask(a4, 8, 3);
    AndEvenMask(a3, 16, 4);
    AndEvenMask(a2, 32, 5);
    AndEvenMask(a1, 64, 6);
    AndEvenMask(a, 128, 7);
  }

  /** With an even mask the lowest bit is dropped and the rest shifts down. */
  lemma AndEvenMask(a: nat, mask: nat, width: nat)
    requires mask % 2 == 0
    ensures Bitwise(AndOp, a, mask, width + 1) == 2 * Bitwise(AndOp, a / 2, mask / 2, width)
  {}

  /** Bit `j` of `a`, counting the least significant bit as bit 0. */
  function BitAt(a: nat, j: nat): (b: nat)
    ensures b < 2
  {
    if j == 0 then a % 2 else BitAt(a / 2, j - 1)
  }

  /** Masking with the single bit 2^j keeps exactly bit `j` of `a`, in place. */
  lemma {:induction false} AndSingleBit(a: nat, j: nat, width: nat)
    requires j < width
    ensures Bitwise(AndOp, a, Pow2(j), width) == if BitAt(a, j) == 1 then Pow2(j) else 0
    decreases j
  {
    if j == 0 {
      AndZero(a / 2, width - 1);
    } else {
      AndEvenMask(a, Pow2(j), width - 1);
      AndSingleBit(a / 2, j - 1, width - 1);
    }
  }

  /** `0x80 >> k`: the byte with only bit `7 - k` set. */
  function HighBitShifted(k: nat): (mask: Byte)
    requires k < 8
    ensures mask == Pow2(7 - k)
  {
    if k == 0 then
      assert Pow2(7) == 2 * 2 * 2 * 2 * 2 * 2 * 2;
      0x80
    else HighBitShifted(k - 1) / 2
  }

  /** `a & (0x80 >> k)` on bytes is nonzero exactly when bit `7 - k` of `a` is set. */
  lemma AndShiftedHighBit(a: Byte, k: nat)
    requires k < 8
    ensures And8(a, HighBitShifted(k)) != 0 <==> BitAt(a, 7 - k) == 1
  {
    AndSingleBit(a, 7 - k, 8);
  }

  /** `a ^ 0x1` flips the least significant bit of `a` and keeps the rest. */
  lemma XorOne(a: Byte)
    ensures Xor8(a, 1) == if a % 2 == 0 then a + 1 else a - 1
  {
    XorZero(a / 2, 7);
  }

  /** Exclusive-or with the same `b` twice gives `a` back. */
  lemma {:induction false} XorSelfInverse(a: nat, b: nat, width: nat)
    requires a < Pow2(width)
    ensures Bitwise(XorOp, Bitwise(XorOp, a, b, width), b, width) == a
  {
    if width > 0 {
      var c := Bitwise(XorOp, a, b, width);
      var rest := Bitwise(XorOp, a / 2, b / 2, width - 1);
      assert c % 2 == (if (a % 2 == 1) != (b % 2 == 1) then 1 else 0) && c / 2 == rest;
      XorSelfInverse(a / 2, b / 2, width - 1);
    }
  }

  /** Masking with all `width` bits set keeps every value that fits in `width` bits. */
  lemma {:induction false} AndAllOnes(a: nat, width: nat)
    requires a < Pow2(width)
    ensures Bitwise(AndOp, a, Pow2(width) - 1, width) == a
  {
    if width > 0 {
      assert (Pow2(width) - 1) % 2 == 1 && (Pow2(width) - 1) / 2 == Pow2(width - 1) - 1;
      AndAllOnes(a / 2, width - 1);
    }
  }

  /** `a ^ b ^ b == a` on bytes. */
  lemma XorTwiceByte(a: Byte, b: Byte)
    ensures Xor8(Xor8(a, b), b) == a
  {
    assert Pow2(8) == 256;
    XorSelfInverse(a, b, 8);
  }

  /** `a & 0xFF == a` on bytes. */
  lemma AndFullMask(a: Byte)
    ensures And8(a, 0xFF) == a
  {
    assert Pow2(8) == 256;
    AndAllOnes(a, 8);
  }

  /** `a & b` is bounded by both operands. */
  lemma AndBounded(a: Byte, b: Byte)
    ensures And8(a, b) <= a && And8(a, b) <= b
  {
    AndBelowMask(a, b, 8);
    AndBelowMask(b, a, 8);
    Commutes(AndOp, a, b, 8);
  }

  /** Each of the three operators is symmetric in its operands. */
  lemma {:induction false} Commutes(op: BitOp, a: nat, b: nat, width: nat)
    ensures Bitwise(op, a, b, width) == Bitwise(op, b, a, width)
  {
    if width > 0 {
      Commutes(op, a / 2, b / 2, width - 1);
    }
  }

  /** `a | b >= a` when `a` fits in `width` bits: or-ing only sets bits. */
  lemma {:induction false} OrAtLeast(a: nat, b: nat, width: nat)
    requires a < Pow2(width)
    ensures Bitwise(OrOp, a, b, width) >= a
  {
    if width > 0 {
      OrAtLeast(a / 2, b / 2, width - 1);
    }
  }

  /** `a | b` is at least each operand. */
  lemma OrBounded(a: Byte, b: Byte)
    ensures Or8(a, b) >= a && Or8(a, b) >= b
  {
    assert Pow2(8) == 256;
    OrAtLeast(a, b, 8);
    OrAtLeast(b, a, 8);
    Commutes(OrOp, a, b, 8);
  }
}
