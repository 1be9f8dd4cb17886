/**
  Instruction decoding: splitting a 16-bit word into its nibble fields and
  choosing the instruction the first matching dispatch arm selects.

  The interpreter extracts fields with masks and shifts
  (`(opcode & 0x0F00) >> 8`); on unsigned values these are division and
  remainder by powers of two, which is how they are written here.
*/
module Decoder {
  import opened Bits
  import opened Machine

  /** The fields every instruction is read from. */
  datatype Fields = Fields(primary: nat, x: RegIndex, y: RegIndex, n: nat, nn: Byte, nnn: Word)

  /** Splits a word into nibble `primary`, registers `x`, `y`, nibble `n`, byte `nn` and address `nnn`. */
  function Split(opcode: Word): (f: Fields)
    ensures f.primary < 16 && f.n < 16 && f.nnn < 0x1000
    ensures f.primary * 0x1000 + f.x * 0x100 + f.y * 0x10 + f.n == opcode
    ensures f.nn == f.y * 0x10 + f.n && f.nnn == f.x * 0x100 + f.nn
  {
    HexDigits(opcode);
    Fields(opcode / 0x1000, (opcode / 0x100) % 0x10, (opcode / 0x10) % 0x10,
           opcode % 0x10, opcode % 0x100, opcode % 0x1000)
  }

  /** The four hexadecimal digits of a word, as the masks in `Split` see them. */
  lemma HexDigits(opcode: Word)
    ensures opcode == (opcode / 0x1000) * 0x1000 + ((opcode / 0x100) % 0x10) * 0x100
                      + ((opcode / 0x10) % 0x10) * 0x10 + opcode % 0x10
    ensures opcode % 0x100 == ((opcode / 0x10) % 0x10) * 0x10 + opcode % 0x10
    ensures opcode % 0x1000 == ((opcode / 0x100) % 0x10) * 0x100 + opcode % 0x100
    ensures opcode / 0x1000 < 16
  {
    var n := opcode % 16;
    var a := opcode / 16;
    var y := a % 16;
    var b := a / 16;
    var x := b % 16;
    var c := b / 16;
    assert opcode == 16 * a + n;
    assert a == 16 * b + y;
    assert b == 16 * c + x;
    assert opcode == 0x1000 * c + 0x100 * x + 0x10 * y + n;
    assert opcode / 0x1000 == c;
    assert opcode / 0x100 == 16 * c + x;
    assert opcode / 0x10 == 0x100 * c + 0x10 * x + y;
  }

  /** Four nibbles put back together. */
  function Join(primary: nat, x: RegIndex, y: RegIndex, n: nat): Word
    requires primary < 16 && n < 16
  {
    primary * 0x1000 + x * 0x100 + y * 0x10 + n
  }

  /** Splitting is the inverse of joining: the fields of a word are unique. */
  lemma SplitJoin(primary: nat, x: RegIndex, y: RegIndex, n: nat)
    requires primary < 16 && n < 16
    ensures Split(Join(primary, x, y, n))
         == Fields(primary, x, y, n, y * 0x10 + n, x * 0x100 + y * 0x10 + n)
  {
    var w, low := Join(primary, x, y, n), y * 0x10 + n;
    assert w == 0x1000 * primary + (x * 0x100 + low) && x * 0x100 + low < 0x1000;
    assert w / 0x1000 == primary && w % 0x1000 == x * 0x100 + low;
    assert w == 0x100 * (primary * 0x10 + x) + low && low < 0x100;
    assert w / 0x100 == primary * 0x10 + x && w % 0x100 == low;
    assert w == 0x10 * (primary * 0x100 + x * 0x10 + y) + n;
    assert w / 0x10 == primary * 0x100 + x * 0x10 + y && w % 0x10 == n;
  }

  /** One instruction per dispatch arm; the comment gives its word pattern. */
  datatype Instr =
    | Cls                               // 00E0
    | Ret                               // 00EE
    | Sys(addr: Word)                   // 0nnn
    | Jump(addr: Word)                  // 1nnn
    | Call(addr: Word)                  // 2nnn
    | SkipEqImm(x: RegIndex, nn: Byte)  // 3xnn
    | SkipNeImm(x: RegIndex, nn: Byte)  // 4xnn
    | SkipEqReg(x: RegIndex, y: RegIndex) // 5xy0
    | LoadImm(x: RegIndex, nn: Byte)    // 6xnn
    | AddImm(x: RegIndex, nn: Byte)     // 7xnn
    | Copy(x: RegIndex, y: RegIndex)    // 8xy0
    | Or(x: RegIndex, y: RegIndex)      // 8xy1
    | And(x: RegIndex, y: RegIndex)     // 8xy2
    | Xor(x: RegIndex, y: RegIndex)     // 8xy3
    | AddReg(x: RegIndex, y: RegIndex)  // 8xy4
    | Sub(x: RegIndex, y: RegIndex)     // 8xy5
    | ShiftRight(x: RegIndex, y: RegIndex) // 8xy6
    | SubReverse(x: RegIndex, y: RegIndex) // 8xy7
    | ShiftLeft(x: RegIndex, y: RegIndex)  // 8xyE
    | SkipNeReg(x: RegIndex, y: RegIndex)  // 9xy0
    | SetIndex(addr: Word)              // Annn
    | JumpOffset(addr: Word)            // Bnnn
    | Random(x: RegIndex, nn: Byte)     // Cxnn
    | Draw(x: RegIndex, y: RegIndex, n: nat) // Dxyn
    | SkipKey(x: RegIndex)              // Ex9E
    | SkipNoKey(x: RegIndex)            // ExA1
    | ReadDelay(x: RegIndex)            // Fx07
    | WaitKey(x: RegIndex)              // Fx0A
    | SetDelay(x: RegIndex)             // Fx15
    | SetSound(x: RegIndex)             // Fx18
    | AddIndex(x: RegIndex)             // Fx1E
    | FontChar(x: RegIndex)             // Fx29
    | StoreBcd(x: RegIndex)             // Fx33
    | StoreRegs(x: RegIndex)            // Fx55
    | LoadRegs(x: RegIndex)             // Fx65
    | Unknown(opcode: Word)             // anything else: reported and skipped

  /**
    The dispatch: the first arm whose nibble pattern matches. Within the
    0 family, 00E0 and 00EE win over the catch-all 0nnn.
  */
  function Decode(opcode: Word): (r: Instr)
    ensures r.Unknown? ==> r.opcode == opcode
  {
    Dispatch(Split(opcode), opcode)
  }

  /**
    Decoding below 0x1000: 00E0 and 00EE are CLS and RET, every other word
    is 0nnn carrying the whole word; and an unknown word carries the word read.
  */
  lemma SystemFamily(opcode: Word)
    ensures Decode(opcode).Unknown? ==> Decode(opcode).opcode == opcode
    ensures opcode < 0x1000 ==>
      && (Decode(opcode) == Cls <==> opcode == 0x00E0)
      && (Decode(opcode) == Ret <==> opcode == 0x00EE)
      && (Decode(opcode).Sys? <==> opcode != 0x00E0 && opcode != 0x00EE)
    ensures Decode(opcode).Sys? ==> Decode(opcode).addr == opcode
  {
  }

  /**
    The dispatch on the fields of `opcode`. The 0 family tests 00E0 and
    00EE before its catch-all; 5xy0 and 9xy0 need n = 0; the 8 family is
    keyed on n, the E family on y and n, the F family on the low byte.
  */
  function Dispatch(f: Fields, opcode: Word): (r: Instr)
    ensures r.Unknown? ==> r.opcode == opcode
    ensures f.primary == 0x0 ==>
      && (r == Cls <==> f.x == 0 && f.y == 0xE && f.n == 0x0)
      && (r == Ret <==> f.x == 0 && f.y == 0xE && f.n == 0xE)
      && (r.Sys? <==> !(f.x == 0 && f.y == 0xE && (f.n == 0x0 || f.n == 0xE)))
    ensures f.primary == 0x5 || f.primary == 0x9 ==> (r.Unknown? <==> f.n != 0x0)
    ensures f.primary == 0x8 ==> (r.Unknown? <==> 0x7 < f.n != 0xE)
    ensures f.primary == 0xE ==> (r.Unknown? <==> !(f.y == 0x9 && f.n == 0xE) && !(f.y == 0xA && f.n == 0x1))
    ensures f.primary == 0xF ==>
      (r.Unknown? <==> !(|| f.nn == 0x07 || f.nn == 0x0A || f.nn == 0x15 || f.nn == 0x18 || f.nn == 0x1E
                         || f.nn == 0x29 || f.nn == 0x33 || f.nn == 0x55 || f.nn == 0x65))
    ensures (0x1 <= f.primary <= 0x4 || f.primary == 0x6 || f.primary == 0x7 || 0xA <= f.primary <= 0xD) ==> !r.Unknown?
  {
    match f.primary
    case 0x0 =>
      if f.x == 0 && f.y == 0xE && f.n == 0x0 then Cls
      else if f.x == 0 && f.y == 0xE && f.n == 0xE then Ret
      else Sys(f.nnn)
    case 0x1 => Jump(f.nnn)
    case 0x2 => Call(f.nnn)
    case 0x3 => SkipEqImm(f.x, f.nn)
    case 0x4 => SkipNeImm(f.x, f.nn)
    case 0x5 => if f.n == 0x0 then SkipEqReg(f.x, f.y) else Unknown(opcode)
    case 0x6 => LoadImm(f.x, f.nn)
    case 0x7 => AddImm(f.x, f.nn)
    case 0x8 =>
      (match f.n
       case 0x0 => Copy(f.x, f.y)
       case 0x1 => Or(f.x, f.y)
       case 0x2 => And(f.x, f.y)
       case 0x3 => Xor(f.x, f.y)
       case 0x4 => AddReg(f.x, f.y)
       case 0x5 => Sub(f.x, f.y)
       case 0x6 => ShiftRight(f.x, f.y)
       case 0x7 => SubReverse(f.x, f.y)
       case 0xE => ShiftLeft(f.x, f.y)
       case _ => Unknown(opcode))
    case 0x9 => if f.n == 0x0 then SkipNeReg(f.x, f.y) else Unknown(opcode)
    case 0xA => SetIndex(f.nnn)
    case 0xB => JumpOffset(f.nnn)
    case 0xC => Random(f.x, f.nn)
    case 0xD => Draw(f.x, f.y, f.n)
    case 0xE =>
      if f.y == 0x9 && f.n == 0xE then SkipKey(f.x)
      else if f.y == 0xA && f.n == 0x1 then SkipNoKey(f.x)
      else Unknown(opcode)
    case 0xF =>
      (match f.nn
       case 0x07 => ReadDelay(f.x)
       case 0x0A => WaitKey(f.x)
       case 0x15 => SetDelay(f.x)
       case 0x18 => SetSound(f.x)
       case 0x1E => AddIndex(f.x)
       case 0x29 => FontChar(f.x)
       case 0x33 => StoreBcd(f.x)
       case 0x55 => StoreRegs(f.x)
       case 0x65 => LoadRegs(f.x)
       case _ => Unknown(opcode))
    case _ => Unknown(opcode)
  }

  /**
    A row of the CHIP-8 opcode table, given by the digits it fixes: the top
    nibble alone (mask 0xF000), the top and bottom nibbles (mask 0xF00F),
    or the top nibble and the low byte (mask 0xF0FF).
  */
  datatype Pattern =
    | Top(primary: nat)
    | TopAndNibble(primary: nat, n: nat)
    | TopAndByte(primary: nat, nn: nat)

  /** The instruction set as a table of patterns, independent of the dispatch code. */
  const OpcodeTable: seq<Pattern> := WholeRows + RegisterRows + KeyAndMiscRows

  /** Families identified by the top nibble alone: 0nnn (with 00E0, 00EE), 1..4, 6, 7, A..D. */
  const WholeRows: seq<Pattern> := [
    Top(0x0), Top(0x1), Top(0x2), Top(0x3), Top(0x4), Top(0x6), Top(0x7),
    Top(0xA), Top(0xB), Top(0xC), Top(0xD)
  ]

  /** 5xy0, 8xy0..8xy7, 8xyE and 9xy0. */
  const RegisterRows: seq<Pattern> := [
    TopAndNibble(0x5, 0x0),
    TopAndNibble(0x8, 0x0), TopAndNibble(0x8, 0x1), TopAndNibble(0x8, 0x2), TopAndNibble(0x8, 0x3),
    TopAndNibble(0x8, 0x4), TopAndNibble(0x8, 0x5), TopAndNibble(0x8, 0x6), TopAndNibble(0x8, 0x7),
    TopAndNibble(0x8, 0xE),
    TopAndNibble(0x9, 0x0)
  ]

  /** Ex9E, ExA1 and the Fx.. family. */
  const KeyAndMiscRows: seq<Pattern> := [
    TopAndByte(0xE, 0x9E), TopAndByte(0xE, 0xA1),
    TopAndByte(0xF, 0x07), TopAndByte(0xF, 0x0A), TopAndByte(0xF, 0x15),
    TopAndByte(0xF, 0x18), TopAndByte(0xF, 0x1E), TopAndByte(0xF, 0x29),
    TopAndByte(0xF, 0x33), TopAndByte(0xF, 0x55), TopAndByte(0xF, 0x65)
  ]

  predicate Matches(opcode: Word, p: Pattern)
  {
    && opcode / 0x1000 == p.primary
    && match p
       case Top(_) => true
       case TopAndNibble(_, n) => opcode % 0x10 == n
       case TopAndByte(_, nn) => opcode % 0x100 == nn
  }

  /** The word belongs to the instruction set. */
  predicate Known(opcode: Word)
  {
    exists p :: p in OpcodeTable && Matches(opcode, p)
  }

  /** The table row an instruction's words match. */
  function RowOf(ins: Instr): Pattern
    requires !ins.Unknown?
  {
    match ins
    case Cls => Top(0x0)
    case Ret => Top(0x0)
    case Sys(_) => Top(0x0)
    case Jump(_) => Top(0x1)
    case Call(_) => Top(0x2)
    case SkipEqImm(_, _) => Top(0x3)
    case SkipNeImm(_, _) => Top(0x4)
    case SkipEqReg(_, _) => TopAndNibble(0x5, 0x0)
    case LoadImm(_, _) => Top(0x6)
    case AddImm(_, _) => Top(0x7)
    case Copy(_, _) => TopAndNibble(0x8, 0x0)
    case Or(_, _) => TopAndNibble(0x8, 0x1)
    case And(_, _) => TopAndNibble(0x8, 0x2)
    case Xor(_, _) => TopAndNibble(0x8, 0x3)
    case AddReg(_, _) => TopAndNibble(0x8, 0x4)
    case Sub(_, _) => TopAndNibble(0x8, 0x5)
    case ShiftRight(_, _) => TopAndNibble(0x8, 0x6)
    case SubReverse(_, _) => TopAndNibble(0x8, 0x7)
    case ShiftLeft(_, _) => TopAndNibble(0x8, 0xE)
    case SkipNeReg(_, _) => TopAndNibble(0x9, 0x0)
    case SetIndex(_) => Top(0xA)
    case JumpOffset(_) => Top(0xB)
    case Random(_, _) => Top(0xC)
    case Draw(_, _, _) => Top(0xD)
    case SkipKey(_) => TopAndByte(0xE, 0x9E)
    case SkipNoKey(_) => TopAndByte(0xE, 0xA1)
    case ReadDelay(_) => TopAndByte(0xF, 0x07)
    case WaitKey(_) => TopAndByte(0xF, 0x0A)
    case SetDelay(_) => TopAndByte(0xF, 0x15)
    case SetSound(_) => TopAndByte(0xF, 0x18)
    case AddIndex(_) => TopAndByte(0xF, 0x1E)
    case FontChar(_) => TopAndByte(0xF, 0x29)
    case StoreBcd(_) => TopAndByte(0xF, 0x33)
    case StoreRegs(_) => TopAndByte(0xF, 0x55)
    case LoadRegs(_) => TopAndByte(0xF, 0x65)
  }

  /** A word is reported as unknown exactly when no row of the opcode table matches it. */
  lemma UnknownIffNotInTable(opcode: Word)
    ensures Decode(opcode).Unknown? <==> !Known(opcode)
  {
    if Decode(opcode).Unknown? {
      UnknownMatchesNoRow(opcode);
    } else {
      KnownMatchesItsRow(opcode);
    }
  }

  lemma UnknownMatchesNoRow(opcode: Word)
    requires Decode(opcode).Unknown?
    ensures !Known(opcode)
  {
    var f := Split(opcode);
    UnknownShape(opcode);
    var top, n, nn := opcode / 0x1000, opcode % 0x10, opcode % 0x100;
    assert top == f.primary && n == f.n && nn == f.nn;
    assert top in {0x5, 0x8, 0x9, 0xE, 0xF};
    forall p | p in WholeRows
      ensures !Matches(opcode, p)
    {
    }
    forall p | p in RegisterRows
      ensures !Matches(opcode, p)
    {
    }
    forall p | p in KeyAndMiscRows
      ensures !Matches(opcode, p)
    {
    }
  }

  /** The words the dispatch reports as unknown, by family. */
  lemma UnknownShape(opcode: Word)
    requires Decode(opcode).Unknown?
    ensures var f := Split(opcode);
      || (f.primary == 0x5 && f.n != 0x0)
      || (f.primary == 0x8 && f.n !in {0x0, 0x1, 0x2, 0x3, 0x4, 0x5, 0x6, 0x7, 0xE})
      || (f.primary == 0x9 && f.n != 0x0)
      || (f.primary == 0xE && f.nn !in {0x9E, 0xA1})
      || (f.primary == 0xF && f.nn !in {0x07, 0x0A, 0x15, 0x18, 0x1E, 0x29, 0x33, 0x55, 0x65})
  {
  }

  lemma KnownMatchesItsRow(opcode: Word)
    requires !Decode(opcode).Unknown?
    ensures RowOf(Decode(opcode)) in OpcodeTable && Matches(opcode, RowOf(Decode(opcode)))
  {
    var f := Split(opcode);
    assert opcode / 0x1000 == f.primary && opcode % 0x10 == f.n && opcode % 0x100 == f.nn;
    assert Matches(opcode, RowOf(Decode(opcode)));
    RowInTable(Decode(opcode));
  }

  lemma RowInTable(ins: Instr)
    requires !ins.Unknown?
    ensures RowOf(ins) in OpcodeTable
  {
    var p := RowOf(ins);
    if p.Top? {
      assert p in WholeRows;
    } else if p.TopAndNibble? {
      assert p in RegisterRows;
    } else {
      assert p in KeyAndMiscRows;
    }
  }

  /** The addresses and nibbles an instruction carries fit in their fields. */
  predicate Encodable(ins: Instr)
  {
    match ins
    case Sys(a) => a < 0x1000
    case Jump(a) => a < 0x1000
    case Call(a) => a < 0x1000
    case SetIndex(a) => a < 0x1000
    case JumpOffset(a) => a < 0x1000
    case Draw(_, _, n) => n < 16
    case _ => true
  }

  /** The instruction word for an instruction: the inverse of `Decode`. */
  function Encode(ins: Instr): Word
    requires Encodable(ins)
  {
    match ins
    case Cls => 0x00E0
    case Ret => 0x00EE
    case Sys(a) => a
    case Jump(a) => 0x1000 + a
    case Call(a) => 0x2000 + a
    case SkipEqImm(x, nn) => 0x3000 + x * 0x100 + nn
    case SkipNeImm(x, nn) => 0x4000 + x * 0x100 + nn
    case SkipEqReg(x, y) => Join(0x5, x, y, 0x0)
    case LoadImm(x, nn) => 0x6000 + x * 0x100 + nn
    case AddImm(x, nn) => 0x7000 + x * 0x100 + nn
    case Copy(x, y) => Join(0x8, x, y, 0x0)
    case Or(x, y) => Join(0x8, x, y, 0x1)
    case And(x, y) => Join(0x8, x, y, 0x2)
    case Xor(x, y) => Join(0x8, x, y, 0x3)
    case AddReg(x, y) => Join(0x8, x, y, 0x4)
    case Sub(x, y) => Join(0x8, x, y, 0x5)
    case ShiftRight(x, y) => Join(0x8, x, y, 0x6)
    case SubReverse(x, y) => Join(0x8, x, y, 0x7)
    case ShiftLeft(x, y) => Join(0x8, x, y, 0xE)
    case SkipNeReg(x, y) => Join(0x9, x, y, 0x0)
    case SetIndex(a) => 0xA000 + a
    case JumpOffset(a) => 0xB000 + a
    case Random(x, nn) => 0xC000 + x * 0x100 + nn
    case Draw(x, y, n) => Join(0xD, x, y, n)
    case SkipKey(x) => Join(0xE, x, 0x9, 0xE)
    case SkipNoKey(x) => Join(0xE, x, 0xA, 0x1)
    case ReadDelay(x) => Join(0xF, x, 0x0, 0x7)
    case WaitKey(x) => Join(0xF, x, 0x0, 0xA)
    case SetDelay(x) => Join(0xF, x, 0x1, 0x5)
    case SetSound(x) => Join(0xF, x, 0x1, 0x8)
    case AddIndex(x) => Join(0xF, x, 0x1, 0xE)
    case FontChar(x) => Join(0xF, x, 0x2, 0x9)
    case StoreBcd(x) => Join(0xF, x, 0x3, 0x3)
    case StoreRegs(x) => Join(0xF, x, 0x5, 0x5)
    case LoadRegs(x) => Join(0xF, x, 0x6, 0x5)
    case Unknown(w) => w
  }

  /**
    The instructions decoding can produce: a 0nnn whose address would read
    as 00E0 or 00EE is not one, nor is an unknown word that is in the table.
  */
  predicate Canonical(ins: Instr)
  {
    && Encodable(ins)
    && match ins
       case Sys(a) => a != 0x0E0 && a != 0x0EE
       case Unknown(w) => !Known(w)
       case _ => true
  }

  /** Every word is the encoding of the instruction it decodes to. */
  lemma EncodeDecode(opcode: Word)
    ensures Canonical(Decode(opcode))
    ensures Encode(Decode(opcode)) == opcode
  {
    if Decode(opcode).Unknown? {
      UnknownMatchesNoRow(opcode);
    } else if Split(opcode).primary < 8 {
      EncodeDecodeLow(opcode);
    } else if Split(opcode).primary == 8 {
      EncodeDecodeLogic(opcode);
    } else if Split(opcode).primary < 0xE {
      EncodeDecodeHigh(opcode);
    } else {
      EncodeDecodeKeysAndMisc(opcode);
    }
  }

  /** `EncodeDecode` for the known words of the families 0 to 7. */
  lemma EncodeDecodeLow(opcode: Word)
    requires !Decode(opcode).Unknown? && Split(opcode).primary < 8
    ensures Encodable(Decode(opcode)) && Encode(Decode(opcode)) == opcode
  {
  }

  /** `EncodeDecode` for the known words of the 8 family. */
  lemma EncodeDecodeLogic(opcode: Word)
    requires !Decode(opcode).Unknown? && Split(opcode).primary == 8
    ensures Encodable(Decode(opcode)) && Encode(Decode(opcode)) == opcode
  {
  }

  /** `EncodeDecode` for the known words of the families 9 to D. */
  lemma EncodeDecodeHigh(opcode: Word)
    requires !Decode(opcode).Unknown? && 8 < Split(opcode).primary < 0xE
    ensures Encodable(Decode(opcode)) && Encode(Decode(opcode)) == opcode
  {
  }

  /** `EncodeDecode` for the known words of the families E and F. */
  lemma EncodeDecodeKeysAndMisc(opcode: Word)
    requires !Decode(opcode).Unknown? && Split(opcode).primary >= 0xE
    ensures Encodable(Decode(opcode)) && Encode(Decode(opcode)) == opcode
  {
  }

  /** Decoding recovers every instruction from its encoding. */
  lemma DecodeEncode(ins: Instr)
    requires Canonical(ins)
    ensures Decode(Encode(ins)) == ins
  {
    if ins.Unknown? {
      if !Decode(ins.opcode).Unknown? {
        KnownMatchesItsRow(ins.opcode);
      }
    } else {
      DecodeEncodeKnown(ins);
    }
  }

  lemma DecodeEncodeKnown(ins: Instr)
    requires Encodable(ins) && !ins.Unknown?
    requires ins.Sys? ==> ins.addr != 0x0E0 && ins.addr != 0x0EE
    ensures Decode(Encode(ins)) == ins
  {
    if ins.Cls? || ins.Ret? || ins.Sys? {
      RoundTripControl(ins);
    } else if ins.Jump? || ins.Call? || ins.SetIndex? || ins.JumpOffset? {
      RoundTripAddress(ins);
    } else if ins.SkipEqImm? || ins.SkipNeImm? {
      RoundTripSkipImm(ins);
    } else if ins.LoadImm? || ins.AddImm? || ins.Random? {
      RoundTripByte(ins);
    } else if ins.Copy? || ins.Or? || ins.And? || ins.Xor? || ins.AddReg? || ins.Sub? {
      RoundTripLogic(ins);
    } else if ins.ShiftRight? || ins.SubReverse? || ins.ShiftLeft? || ins.SkipEqReg? || ins.SkipNeReg? || ins.Draw? {
      RoundTripRegisters(ins);
    } else if ins.SkipKey? || ins.SkipNoKey? || ins.WaitKey? {
      RoundTripKeys(ins);
    } else if ins.ReadDelay? || ins.SetDelay? || ins.SetSound? {
      RoundTripTimers(ins);
    } else {
      RoundTripIndex(ins);
    }
  }

  lemma RoundTripControl(ins: Instr)
    requires ins.Cls? || ins.Ret? || ins.Sys?
    requires Encodable(ins)
    requires ins.Sys? ==> ins.addr != 0x0E0 && ins.addr != 0x0EE
    ensures Decode(Encode(ins)) == ins
  {
    if ins.Cls? {
      SplitJoin(0x0, 0, 0xE, 0x0);
    } else if ins.Ret? {
      SplitJoin(0x0, 0, 0xE, 0xE);
    } else {
      AddressFields(0x0, ins.addr);
    }
  }

  lemma RoundTripAddress(ins: Instr)
    requires ins.Jump? || ins.Call? || ins.SetIndex? || ins.JumpOffset?
    requires Encodable(ins)
    ensures Decode(Encode(ins)) == ins
  {
    if ins.Jump? {
      AddressFields(0x1, ins.addr);
    } else if ins.Call? {
      AddressFields(0x2, ins.addr);
    } else if ins.SetIndex? {
      AddressFields(0xA, ins.addr);
    } else {
      AddressFields(0xB, ins.addr);
    }
  }

  lemma RoundTripSkipImm(ins: Instr)
    requires ins.SkipEqImm? || ins.SkipNeImm?
    ensures Decode(Encode(ins)) == ins
  {
    ByteFields(if ins.SkipEqImm? then 0x3 else 0x4, ins.x, ins.nn);
  }

  lemma RoundTripByte(ins: Instr)
    requires ins.LoadImm? || ins.AddImm? || ins.Random?
    ensures Decode(Encode(ins)) == ins
  {
    var primary := if ins.LoadImm? then 0x6 else if ins.AddImm? then 0x7 else 0xC;
    ByteFields(primary, ins.x, ins.nn);
  }

  lemma RoundTripLogic(ins: Instr)
    requires ins.Copy? || ins.Or? || ins.And? || ins.Xor? || ins.AddReg? || ins.Sub?
    ensures Decode(Encode(ins)) == ins
  {
    var n := if ins.Copy? then 0x0 else if ins.Or? then 0x1 else if ins.And? then 0x2
      else if ins.Xor? then 0x3 else if ins.AddReg? then 0x4 else 0x5;
    SplitJoin(0x8, ins.x, ins.y, n);
  }

  lemma RoundTripRegisters(ins: Instr)
    requires ins.ShiftRight? || ins.SubReverse? || ins.ShiftLeft? || ins.SkipEqReg? || ins.SkipNeReg? || ins.Draw?
    requires Encodable(ins)
    ensures Decode(Encode(ins)) == ins
  {
    if ins.ShiftRight? {
      SplitJoin(0x8, ins.x, ins.y, 0x6);
    } else if ins.SubReverse? {
      SplitJoin(0x8, ins.x, ins.y, 0x7);
    } else if ins.ShiftLeft? {
      SplitJoin(0x8, ins.x, ins.y, 0xE);
    } else if ins.SkipEqReg? {
      SplitJoin(0x5, ins.x, ins.y, 0x0);
    } else if ins.SkipNeReg? {
      SplitJoin(0x9, ins.x, ins.y, 0x0);
    } else {
      SplitJoin(0xD, ins.x, ins.y, ins.n);
    }
  }

  lemma RoundTripKeys(ins: Instr)
    requires ins.SkipKey? || ins.SkipNoKey? || ins.WaitKey?
    ensures Decode(Encode(ins)) == ins
  {
    if ins.SkipKey? {
      SplitJoin(0xE, ins.x, 0x9, 0xE);
    } else if ins.SkipNoKey? {
      SplitJoin(0xE, ins.x, 0xA, 0x1);
    } else {
      SplitJoin(0xF, ins.x, 0x0, 0xA);
    }
  }

  lemma RoundTripTimers(ins: Instr)
    requires ins.ReadDelay? || ins.SetDelay? || ins.SetSound?
    ensures Decode(Encode(ins)) == ins
  {
    if ins.ReadDelay? {
      SplitJoin(0xF, ins.x, 0x0, 0x7);
    } else if ins.SetDelay? {
      SplitJoin(0xF, ins.x, 0x1, 0x5);
    } else {
      SplitJoin(0xF, ins.x, 0x1, 0x8);
    }
  }

  lemma RoundTripIndex(ins: Instr)
    requires ins.AddIndex? || ins.FontChar? || ins.StoreBcd? || ins.StoreRegs? || ins.LoadRegs?
    ensures Decode(Encode(ins)) == ins
  {
    if ins.AddIndex? {
      SplitJoin(0xF, ins.x, 0x1, 0xE);
    } else if ins.FontChar? {
      SplitJoin(0xF, ins.x, 0x2, 0x9);
    } else if ins.StoreBcd? {
      SplitJoin(0xF, ins.x, 0x3, 0x3);
    } else if ins.StoreRegs? {
      SplitJoin(0xF, ins.x, 0x5, 0x5);
    } else {
      SplitJoin(0xF, ins.x, 0x6, 0x5);
    }
  }

  /** The fields of a word built from a top nibble and a 12-bit address. */
  lemma AddressFields(primary: nat, a: Word)
    requires primary < 16 && a < 0x1000
    ensures Split(primary * 0x1000 + a)
         == Fields(primary, a / 0x100, (a / 0x10) % 0x10, a % 0x10, a % 0x100, a)
  {
    HexDigits(a);
    SplitJoin(primary, a / 0x100, (a / 0x10) % 0x10, a % 0x10);
  }

  /** The fields of a word built from a top nibble, a register and a byte. */
  lemma ByteFields(primary: nat, x: RegIndex, nn: Byte)
    requires primary < 16
    ensures Split(primary * 0x1000 + x * 0x100 + nn)
         == Fields(primary, x, nn / 0x10, nn % 0x10, nn, x * 0x100 + nn)
  {
    SplitJoin(primary, x, nn / 0x10, nn % 0x10);
  }
}
