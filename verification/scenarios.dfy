/**
  Short programs run on a fresh machine, each with the outcome the
  interpreter's own test suite expects of it: fetching the first word,
  a byte addition that carries into VF, a subroutine call and return, and
  drawing the glyph for 0 from the built-in font.
*/
module Scenarios {
  import opened Bits
  import opened Machine
  import opened Decoder
  import Cpu
  import Memory
  import Graphics

  /** A fresh machine with `rom` loaded at 0x200. */
  function Boot(rom: seq<Byte>): (m: Chip8)
    ensures m.pc == ProgramStart && Sane(m)
    ensures forall k :: 0 <= k < |rom| && ProgramStart + k < RamSize ==> m.ram[ProgramStart + k] == rom[k]
    ensures forall k :: 0 <= k < RegisterCount ==> m.v[k] == 0
    ensures m.sp == 0 && m.i == 0
  {
    LoadRom(New(), rom)
  }

  /** The first fetch after loading reads the big-endian word at 0x200 and moves to 0x202. */
  lemma FetchAfterLoad()
    ensures var (opcode, m) := Fetch(Boot([0x12, 0x34, 0x56, 0x78]));
      opcode == 0x1234 && m.pc == 0x202
  {
    var m := Boot([0x12, 0x34, 0x56, 0x78]);
    assert m.ram[0x200] == 0x12 && m.ram[0x201] == 0x34;
  }

  /** The program bytes `rom` are in memory from `addr` on. */
  predicate Holds(m: Chip8, addr: nat, rom: seq<Byte>)
  {
    addr + |rom| <= RamSize && forall k :: 0 <= k < |rom| ==> m.ram[addr + k] == rom[k]
  }

  /** 61C8 (V1 := 200), 6264 (V2 := 100), 710A (V1 += 10), 8124 (V1 += V2). */
  const ArithmeticRom: seq<Byte> := [0x61, 0xC8, 0x62, 0x64, 0x71, 0x0A, 0x81, 0x24]

  /** The arithmetic program is loaded, about to run the word at `pc`, with V1, V2 as given and VF 0. */
  predicate ArithmeticAt(m: Chip8, pc: nat, v1: Byte, v2: Byte)
  {
    Holds(m, ProgramStart, ArithmeticRom) && m.pc == pc && m.v[1] == v1 && m.v[2] == v2 && m.v[VF] == 0
  }

  /** The first cycle fetches 61C8 and sets V1 to 200. */
  lemma ArithmeticFirstLoad(r0: Byte)
    ensures Cpu.CanStep(Boot(ArithmeticRom)) && Fetch(Boot(ArithmeticRom)).0 == 0x61C8
    ensures ArithmeticAt(Cpu.Step(Boot(ArithmeticRom), r0), 0x202, 200, 0)
  {
    var m := Boot(ArithmeticRom);
    assert m.ram[ProgramStart] == ArithmeticRom[0] && m.ram[ProgramStart + 1] == ArithmeticRom[1];
    assert Holds(m, ProgramStart, ArithmeticRom);
    assert Decode(0x61C8) == LoadImm(1, 0xC8);
    Cpu.StepExecutes(m, r0, LoadImm(1, 0xC8));
  }

  /** The second cycle fetches 6264 and sets V2 to 100. */
  lemma ArithmeticSecondLoad(m: Chip8, r1: Byte)
    requires ArithmeticAt(m, 0x202, 200, 0)
    ensures Cpu.CanStep(m) && Fetch(m).0 == 0x6264
    ensures ArithmeticAt(Cpu.Step(m, r1), 0x204, 200, 100)
  {
    assert m.ram[ProgramStart + 2] == ArithmeticRom[2] && m.ram[ProgramStart + 3] == ArithmeticRom[3];
    assert Decode(0x6264) == LoadImm(2, 0x64);
    Cpu.StepExecutes(m, r1, LoadImm(2, 0x64));
  }

  /** The third cycle fetches 710A: V1 becomes 210 and VF stays 0. */
  lemma ArithmeticAddImmediate(m: Chip8, r2: Byte)
    requires ArithmeticAt(m, 0x204, 200, 100)
    ensures Cpu.CanStep(m) && Fetch(m).0 == 0x710A
    ensures ArithmeticAt(Cpu.Step(m, r2), 0x206, 210, 100)
  {
    assert m.ram[ProgramStart + 4] == ArithmeticRom[4] && m.ram[ProgramStart + 5] == ArithmeticRom[5];
    assert Decode(0x710A) == AddImm(1, 0x0A);
    Cpu.StepExecutes(m, r2, AddImm(1, 0x0A));
  }

  /** The fourth cycle fetches 8124: 210 + 100 wraps to 54 and VF records the carry. */
  lemma ArithmeticAddCarries(m: Chip8, r3: Byte)
    requires ArithmeticAt(m, 0x206, 210, 100)
    ensures Cpu.CanStep(m) && Fetch(m).0 == 0x8124
    ensures var r := Cpu.Step(m, r3);
      r.v[1] == 54 && r.v[VF] == 1 && r.pc == 0x208
  {
    assert m.ram[ProgramStart + 6] == ArithmeticRom[6] && m.ram[ProgramStart + 7] == ArithmeticRom[7];
    assert Decode(0x8124) == AddReg(1, 2);
    Cpu.StepExecutes(m, r3, AddReg(1, 2));
  }

  /** 2400 (call 0x400) then 6101 (V1 := 1) at 0x200, and 00EE (return) at 0x400. */
  const CallRom: seq<Byte> := [0x24, 0x00, 0x61, 0x01]

  /** The call program with the return at 0x400, about to run the word at `pc` with `sp` frames. */
  predicate CallAt(m: Chip8, pc: nat, sp: nat)
  {
    && Holds(m, ProgramStart, CallRom) && Holds(m, 0x400, [0x00, 0xEE])
    && m.pc == pc && m.sp == sp
  }

  /** The call jumps to 0x400 and pushes the return address 0x202. */
  lemma CallEnters(r0: Byte)
    ensures var b := Boot(CallRom);
      var m0 := b.(ram := b.ram[0x400 := 0x00][0x401 := 0xEE]);
      && Cpu.CanStep(m0) && Fetch(m0).0 == 0x2400
      && CallAt(Cpu.Step(m0, r0), 0x400, 1) && Cpu.Step(m0, r0).stack[0] == 0x202
  {
    var b := Boot(CallRom);
    var m0 := b.(ram := b.ram[0x400 := 0x00][0x401 := 0xEE]);
    assert m0.ram[0x200] == 0x24 && m0.ram[0x201] == 0x00 && m0.ram[0x202] == 0x61 && m0.ram[0x203] == 0x01;
    assert Holds(m0, ProgramStart, CallRom);
    assert Decode(0x2400) == Call(0x400);
    Cpu.StepExecutes(m0, r0, Call(0x400));
  }

  /** The return at 0x400 pops 0x202 into the program counter. */
  lemma ReturnPops(m: Chip8, r1: Byte)
    requires CallAt(m, 0x400, 1) && m.stack[0] == 0x202
    ensures Cpu.CanStep(m) && Fetch(m).0 == 0x00EE
    ensures CallAt(Cpu.Step(m, r1), 0x202, 0)
  {
    assert m.ram[0x400 + 0] == [0x00, 0xEE][0] && m.ram[0x400 + 1] == [0x00, 0xEE][1];
    assert Decode(0x00EE) == Ret;
    Cpu.StepExecutes(m, r1, Ret);
  }

  /** Back at 0x202, the instruction after the call runs: V1 := 1. */
  lemma ResumesAfterCall(m: Chip8, r2: Byte)
    requires CallAt(m, 0x202, 0)
    ensures Cpu.CanStep(m) && Fetch(m).0 == 0x6101
    ensures Cpu.Step(m, r2).v[1] == 1
  {
    assert m.ram[ProgramStart + 2] == CallRom[2] && m.ram[ProgramStart + 3] == CallRom[3];
    assert Decode(0x6101) == LoadImm(1, 1);
    Cpu.StepExecutes(m, r2, LoadImm(1, 1));
  }

  /** F029 on a fresh machine (V0 = 0) points I at the glyph for 0 and changes nothing else. */
  lemma FontZeroSelected(r0: Byte)
    ensures Cpu.CanExecute(New(), Decode(0xF029))
    ensures Cpu.DecodeExecute(New(), 0xF029, r0) == New().(i := FontStart)
  {
    assert Decode(0xF029) == FontChar(0);
  }

  /**
    D005 after F029 on a fresh machine, without fetching: the top row of
    the glyph for 0 (0xF0) lights pixels 0 to 3, and its second row (0x90)
    lights pixels 64 and 67.
  */
  lemma FontZeroRender(r1: Byte)
    ensures var m1 := New().(i := FontStart);
      && Cpu.CanExecute(m1, Decode(0xD005))
      && var d := Cpu.DecodeExecute(m1, 0xD005, r1).display;
      && d[0] == 1 && d[1] == 1 && d[2] == 1 && d[3] == 1 && d[4] == 0
      && d[64] == 1 && d[65] == 0 && d[66] == 0 && d[67] == 1
  {
    var m1 := New().(i := FontStart);
    assert Decode(0xD005) == Draw(0, 0, 5);
    Graphics.DrawFontZero(m1);
  }

  /**
    5121, 8128, E1FF and F100 each fall in a family of the table but match
    none of its rows, so decoding reports them as unknown.
  */
  lemma UnknownWords()
    ensures Decode(0x5121) == Unknown(0x5121) && Decode(0x8128) == Unknown(0x8128)
    ensures Decode(0xE1FF) == Unknown(0xE1FF) && Decode(0xF100) == Unknown(0xF100)
  {
  }
}
