# CHIP-8 interpreter core, modelled in Dafny

This project models the interpreter core of a CHIP-8 emulator written in Rust: the `Chip8` machine state (4 KiB of memory, sixteen 8-bit registers V0..VF, the index register I, the program counter, a sixteen-entry return stack, a 64 x 32 one-bit display, a sixteen-key keypad, and the delay and sound timers); the constructor with its built-in hexadecimal font; ROM loading; instruction fetch; the opcode dispatch; every instruction handler; and the once-per-frame timer tick.

The state is an immutable datatype, and every operation is a function from state to state. Bytes and words are bounded integers (`Bits.Byte`, `Bits.Word`), so the wrap-around of `u8` arithmetic is written out as `% 256`. The operators `&`, `|` and `^` are defined bit by bit (`Bits.Bitwise`), and the mask-and-shift field extraction is written as division and remainder. Where the Rust code would panic, the model has a precondition instead: an index out of bounds, a `u16` overflow, a return with an empty stack, or a call with a full stack. `Cpu.CanExecute` collects these preconditions, and `Cpu.TryStep` turns a cycle that would panic into `None`.

Modules follow the interpreter's structure:

- `Bits`: machine integers and bitwise operators.
- `Machine`: the state, `new`, `load_rom`, `fetch` and `tick_timers`.
- `Decoder`: the dispatch of `decode_execute`, an independent opcode table, and an encoder that inverts decoding.
- `Flow`, `Alu`, `Graphics`, `Memory`, `Peripherals`: the instruction handlers by family.
- `Cpu`: execute, decode-and-execute, and the fetch-decode-execute cycle.
- `Scenarios`: the interpreter's own unit tests, stated as lemmas.

## Model

| member | source | states |
|---|---|---|
| Machine.New | src/lib.rs:65-81 | A fresh machine has the 80-byte font at 0x050 and zero everywhere else in memory; pc, I, sp, the timers, the registers, the display and the stack are all zero; no key is down. |
| Machine.LoadRom | src/lib.rs:83-90 | pc becomes 0x200; ROM byte k lands at 0x200+k as long as it fits in memory; every other address and every other field is unchanged. |
| Machine.Fetch | src/lib.rs:92-99 | The word is big-endian: its high byte is ram[pc] and its low byte ram[pc+1]. pc advances by two and nothing else changes. |
| Machine.TickTimers | src/lib.rs:53-61 | Each timer drops by exactly one when it is non-zero and stays at zero otherwise; nothing else changes. |
| Machine.Ticks | src/lib.rs:53-61 | k consecutive calls of `tick_timers`; `TicksCountDown` states what they compute. |
| Machine.TicksCountDown | src/lib.rs:53-61 | After k ticks each timer equals max(t - k, 0), and only the timers changed. |
| Decoder.Split | src/lib.rs:101-109 | The primary nibble, x, y and n reassemble the word; nn is the low byte and nnn the low twelve bits. |
| Decoder.SplitJoin | src/lib.rs:101-109 | Splitting a word built from four nibbles gives back exactly those nibbles, so the fields of a word are unique. |
| Decoder.Decode | src/lib.rs:101-161 | A word no arm recognises comes back unchanged inside `Unknown`, which is what the fallback arm reports. `EncodeDecode` and `DecodeEncode` make decoding a bijection onto canonical instructions. |
| Decoder.SystemFamily | src/lib.rs:112-114 | Below 0x1000, 00E0 and 00EE decode to CLS and RET, and every other word decodes to 0nnn carrying the whole word. An unknown word carries the word that was read. |
| Decoder.Dispatch | src/lib.rs:110-161 | The first matching arm wins: in the 0 family 00E0 and 00EE take precedence over 0nnn. 5xy0 and 9xy0 need n = 0. The 8 family is keyed on n (0-7 and E), the E family on y and n (9E, A1), and the F family on the low byte (07, 0A, 15, 18, 1E, 29, 33, 55, 65); any other value in those families is unknown. The families 1-4, 6, 7 and A-D never are. |
| Decoder.UnknownIffNotInTable | src/lib.rs:110-161 | The dispatch reports a word as unknown exactly when it matches no row of the opcode table, which is defined independently from the dispatch. |
| Decoder.UnknownShape | src/lib.rs:110-161 | Every unknown word is in the 5 or 9 family with a non-zero low nibble, in the 8 family with low nibble 8..D or F, or in the E or F family with a low byte outside the table. |
| Decoder.KnownMatchesItsRow | src/lib.rs:110-161 | A word that decodes to an instruction matches the table row of that instruction. |
| Decoder.EncodeDecode | src/lib.rs:110-161 | Every word decodes to a canonical instruction whose encoding is the word itself. |
| Decoder.DecodeEncode | src/lib.rs:110-161 | Every canonical instruction is recovered by decoding its encoding, so decoding is a bijection between words and canonical instructions. |
| Cpu.CanExecute | src/lib.rs:177-435 | The instruction runs without a panic: a return needs 0 < sp <= 16 and a call sp < 16. A skip that is taken, and Bnnn, need the new pc to fit in 16 bits. Dxyn needs I+n <= 4096 when n > 0. Ex9E and ExA1 need Vx < 16. Fx0A with no key in 1..15 down needs pc >= 2. Fx1E needs I + Vx to fit in 16 bits. Fx33 needs I+2 < 4096, and Fx55 and Fx65 need I+x < 4096. |
| Cpu.Execute | src/lib.rs:110-161 | Each decoded instruction runs its handler: 00E0 `Graphics.ClearScreen`, 00EE `Flow.Return`, 0nnn and unknown words nothing, and so on through Fx65 `Memory.LoadRegs`. The frame lemmas below state what each leaves alone. |
| Cpu.ExecuteNoOp | src/lib.rs:189-191 | 0nnn and an unknown word leave the machine unchanged. |
| Cpu.DecodeExecute | src/lib.rs:101-161 | A word that matches no row of the opcode table changes nothing. |
| Cpu.ExecuteKeypadFrame | src/lib.rs:110-161 | No instruction writes the keypad. |
| Cpu.ExecuteDisplayFrame | src/lib.rs:110-161 | Only 00E0 and Dxyn change the display or the redraw flag. |
| Cpu.ExecuteRamFrame | src/lib.rs:110-161 | Only Fx33 and Fx55 write memory. |
| Cpu.ExecuteStackFrame | src/lib.rs:110-161 | Only 2nnn and 00EE change the stack or the stack pointer. |
| Cpu.ExecutePcFrame | src/lib.rs:110-161 | Only jumps, calls, returns, skips and Fx0A change the program counter. |
| Cpu.ExecuteRegisterFrame | src/lib.rs:110-161 | Only the instructions listed in `WritesRegisters` change V0..VF. |
| Cpu.ExecuteTimerFrame | src/lib.rs:110-161 | Only Fx15 and Fx18 change the timers; no instruction ticks them. |
| Cpu.ExecutePreservesSane | src/lib.rs:110-161 | Every instruction keeps the stack pointer within the stack and every pixel 0 or 1. |
| Cpu.Step | src/lib.rs:92-161 | One cycle leaves pc two bytes further on unless the instruction may move pc, and never changes the keypad. |
| Cpu.StepExecutes | src/lib.rs:92-161 | A cycle is fetch, advance pc by two, then execute the decoded word on the advanced machine. |
| Cpu.StepPreservesSane | src/lib.rs:92-161 | A cycle keeps the stack pointer within the stack and every pixel 0 or 1. |
| Cpu.TryStep | src/lib.rs:92-161 | A cycle succeeds exactly when it would not panic, and then yields `Step`. |
| Cpu.Run | src/lib.rs:92-161 | Consecutive fetch-and-execute cycles, one random byte each, ending in `None` at the first cycle that would panic. |
| Cpu.StepUnknown | src/lib.rs:160 | A cycle on an unknown word only moves pc past it. |
| Cpu.WaitKeyIdle | src/lib.rs:376-389 | With no key in 1..15 down, a cycle on Fx0A leaves the machine exactly as it was: the fetch's +2 and the instruction's -2 cancel. |
| Cpu.WaitKeyWaitsForever | src/lib.rs:376-389 | With no key in 1..15 down, any number of cycles on Fx0A leave the machine as it was. |
| Cpu.WaitKeyResumes | src/lib.rs:376-389 | With a key in 1..15 down, a cycle on Fx0A moves on to the next instruction and stores the lowest pressed key in Vx. |
| Cpu.LoadThenCompare | src/lib.rs:206-230 | After 6xnn, 3xnn with the same byte always skips and 4xnn never skips. |
| Cpu.CopyThenCompare | src/lib.rs:220-241 | After 8xy0, 5xy0 always skips and 9xy0 never skips. |
| Flow.Return | src/lib.rs:183-187 | 00EE removes the newest frame from the stack and continues at its address; nothing else changes. |
| Flow.Jump | src/lib.rs:194-197 | 1nnn sets pc to nnn and changes nothing else. |
| Flow.Call | src/lib.rs:199-204 | 2nnn adds the current pc as the newest frame, leaves the stack slots above it alone, and continues at nnn. |
| Flow.CallThenReturn | src/lib.rs:183-204 | A call followed by a return restores pc, sp and the frames. The only trace is the return address left in the freed slot. |
| Flow.SkipEqImm | src/lib.rs:206-211 | 3xnn skips exactly when Vx = nn; only pc changes. |
| Flow.SkipNeImm | src/lib.rs:213-218 | 4xnn skips exactly when Vx != nn; only pc changes. |
| Flow.SkipEqReg | src/lib.rs:220-225 | 5xy0 skips exactly when Vx = Vy; only pc changes. |
| Flow.SkipNeReg | src/lib.rs:297-302 | 9xy0 skips exactly when Vx != Vy; only pc changes. |
| Flow.ImmediateSkipsComplement | src/lib.rs:206-218 | On the same machine, exactly one of 3xnn and 4xnn skips. |
| Flow.RegisterSkipsComplement | src/lib.rs:297-302 | On the same machine, exactly one of 5xy0 and 9xy0 skips. |
| Flow.SkipOnSameRegister | src/lib.rs:220-225 | 5xx0 always skips and 9xx0 never skips. |
| Flow.JumpOffset | src/lib.rs:309-312 | Bnnn continues at nnn + V0; only pc changes. |
| Flow.JumpOffsetZero | src/lib.rs:309-312 | With V0 = 0, Bnnn is the plain jump 1nnn. |
| Flow.SkipKey | src/lib.rs:356-361 | Ex9E skips exactly when the key numbered Vx is down. |
| Flow.SkipNoKey | src/lib.rs:363-368 | ExA1 skips exactly when the key numbered Vx is up. |
| Flow.KeySkipsComplement | src/lib.rs:356-368 | On the same machine, exactly one of Ex9E and ExA1 skips. |
| Alu.LoadImm | src/lib.rs:227-230 | 6xnn sets Vx to nn; no other register or field changes. |
| Alu.AddImm | src/lib.rs:232-235 | 7xnn sets Vx to (Vx + nn) mod 256, and the result is smaller than Vx exactly when the sum overflowed. VF is not touched unless x = F. |
| Alu.WrappingAdd | src/lib.rs:234 | `u8::wrapping_add`: the sum when it is below 256, otherwise the sum minus 256. |
| Alu.AddImmTwice | src/lib.rs:232-235 | Two 7xnn on the same register compose into one whose byte is the wrapped sum of the two bytes. |
| Alu.Copy | src/lib.rs:238-241 | 8xy0 sets Vx to Vy; nothing else changes. |
| Alu.Or | src/lib.rs:243-246 | 8xy1 sets Vx to Vx \| Vy, which is at least each operand; nothing else changes. |
| Alu.And | src/lib.rs:248-251 | 8xy2 sets Vx to Vx & Vy, which is at most each operand; nothing else changes. |
| Alu.Xor | src/lib.rs:253-256 | 8xy3 sets Vx to Vx ^ Vy; nothing else changes. |
| Alu.XorTwice | src/lib.rs:253-256 | 8xy3 applied twice with the same Vy gives back the original machine. |
| Alu.AddCarry | src/lib.rs:258-272 | 8xy4 puts the carry of Vx + Vy in VF, written last; the low byte goes to Vx. For x != F, Vx + 256 * VF equals the exact sum. |
| Alu.Sub | src/lib.rs:274-278 | 8xy5 writes the no-borrow flag to VF, then Vx - Vy mod 256 into Vx. It reads the registers after VF was written, and the contract covers all four cases of x and y being F. For x, y != F, VF = 1 exactly when Vx' + Vy = Vx. |
| Alu.WrappingSub | src/lib.rs:277 | `u8::wrapping_sub`: the difference when it is not negative, otherwise the difference plus 256. |
| Alu.SubUndoesAdd | src/lib.rs:258-278 | 8xy5 after 8xy4 gives back Vx, and the subtraction's no-borrow flag is 1 exactly when the addition did not carry. |
| Alu.ShiftRight | src/lib.rs:280-284 | 8xy6 puts the low bit of Vx in VF and Vx / 2 in Vx (2 * Vx' + VF = Vx). With x = F the result is 0. |
| Alu.SubReverse | src/lib.rs:286-289 | 8xy7 writes the no-borrow flag of Vy - Vx to VF, then Vy - Vx mod 256 into Vx. It reads the registers after VF was written, and the contract covers all four cases of x and y being F. |
| Alu.SubReverseNegatesSub | src/lib.rs:274-289 | 8xy5 and 8xy7 on the same registers give results that sum to 0 mod 256, and both no-borrow flags are 1 exactly when Vx = Vy. |
| Alu.ShiftLeft | src/lib.rs:291-295 | 8xyE puts the high bit of Vx in VF and 2 * Vx mod 256 in Vx (256 * VF + Vx' = 2 * Vx). With x = F the result is twice the flag. |
| Alu.ShiftRightThenLeft | src/lib.rs:280-295 | 8xy6 then 8xyE gives back Vx with its low bit cleared, and leaves VF at 0. |
| Alu.Random | src/lib.rs:314-319 | Cxnn stores the given random byte & nn, which is at most nn. |
| Alu.RandomFullMask | src/lib.rs:314-319 | With nn = 0xFF, Cxnn stores the random byte unchanged. |
| Graphics.ClearScreen | src/lib.rs:177-181 | 00E0 turns every pixel off and raises the redraw flag; nothing else changes. |
| Bits.HighBitShifted | src/lib.rs:337 | `0x80 >> col` is 2^(7 - col), the byte with only bit 7 - col set. |
| Graphics.SpriteBitIsMask | src/lib.rs:337-340 | The test `byte & (0x80 >> col) != 0` selects bit 7 - col, so sprites are drawn most significant bit first. |
| Graphics.SpriteOf | src/lib.rs:321-331 | The sprite sits at (Vx mod 64, Vy mod 32), and its row r is the byte at I + r. |
| Graphics.Draw | src/lib.rs:321-354 | Dxyn sets VF to 0 or 1, changes no other register, and raises the redraw flag. Only the display, VF and the flag change. |
| Graphics.DrawFlipsTargets | src/lib.rs:328-351 | The wrapped target of each set sprite bit is XOR-flipped, and the target of each clear bit is kept. Every pixel that changed is the target of a set bit. |
| Graphics.DrawCollision | src/lib.rs:326-351 | VF is 1 exactly when some set sprite bit lands on a pixel that was 1. |
| Graphics.DrawLoop | src/lib.rs:321-354 | The interpreter's row-by-row, column-by-column loop computes the same state as `Draw`. |
| Graphics.DrawRow | src/lib.rs:328-351 | One pass of the row loop: the eight columns of the row take the screen and VF from the overlay of the cells before the row to the overlay of the cells up to the end of it. |
| Graphics.DrawCell | src/lib.rs:333-350 | One pass of the column loop: when the masked bit is set, VF is raised if the target pixel is 1, and the pixel is XOR-flipped. The result is the overlay of one more cell. |
| Graphics.DrawTwice | src/lib.rs:321-354 | Drawing the same sprite twice at the same place restores the display. |
| Graphics.RedrawCollides | src/lib.rs:321-354 | On a blank screen, drawing the same sprite a second time sets VF to 1 exactly when the sprite has a set bit, because each set bit lands on a pixel the first draw lit. |
| Graphics.DrawKeepsPixelsBinary | src/lib.rs:321-354 | If every pixel is 0 or 1 before a draw, every pixel is 0 or 1 after it. |
| Graphics.DrawOnBlank | src/lib.rs:321-354 | On a blank screen, a sprite lights exactly the pixels its set bits land on, and VF is 0. |
| Graphics.ClearThenDraw | src/lib.rs:177-181 | After 00E0, a draw lights exactly the sprite's own pixels and reports no collision. |
| Graphics.DrawFontZero | src/main.rs:92-111 | The glyph for 0 drawn at (0, 0) on a blank screen lights pixels 0-3, leaves pixel 4 dark, lights pixels 64 and 67, and leaves 65 and 66 dark. |
| Memory.SetIndex | src/lib.rs:304-307 | Annn sets I to nnn; nothing else changes. |
| Memory.AddIndex | src/lib.rs:401-404 | Fx1E adds Vx to I with no 12-bit mask and no flag; nothing else changes, including VF. |
| Memory.FontChar | src/lib.rs:406-410 | Fx29 sets I to 0x050 + 5 * Vx, using Vx unmasked, so (I - 0x050) / 5 = Vx. |
| Memory.FontCharFindsGlyph | src/lib.rs:406-410 | With the font intact and Vx < 16, the five bytes at I are exactly the glyph for digit Vx. |
| Memory.FontCharBeyondFont | src/lib.rs:406-410 | With Vx >= 16, I points past the end of the font table. |
| Memory.NewHoldsFont | src/lib.rs:65-90 | A fresh machine holds the font, and loading a ROM leaves it intact. |
| Memory.StoreBcd | src/lib.rs:412-421 | Fx33 writes three decimal digits at I, I+1 and I+2 whose value 100a + 10b + c is Vx; every other address is kept. |
| Memory.StoreBcdThenLoad | src/lib.rs:412-435 | Fx33 then Fx65 with x = 2 puts the decimal digits of the original Vx in V0, V1 and V2, and I is unchanged. |
| Memory.StoreRegs | src/lib.rs:423-428 | Fx55 writes V0..Vx at I..I+x, keeps every other address, and leaves I alone. |
| Memory.LoadRegs | src/lib.rs:430-435 | Fx65 sets V0..Vx from I..I+x, keeps the higher registers, and leaves I alone. |
| Memory.StoreRegsLoop | src/lib.rs:423-428 | The interpreter's one-register-at-a-time loop computes `StoreRegs`. |
| Memory.LoadRegsLoop | src/lib.rs:430-435 | The interpreter's one-register-at-a-time loop computes `LoadRegs`. |
| Memory.StoreThenLoad | src/lib.rs:423-435 | Fx65 right after Fx55 on the same x leaves the machine as the store left it. |
| Memory.LoadThenStore | src/lib.rs:423-435 | Fx55 right after Fx65 on the same x leaves the machine as the load left it. |
| Peripherals.ReadDelay | src/lib.rs:371-374 | Fx07 copies the delay timer into Vx; nothing else changes. |
| Peripherals.SetDelay | src/lib.rs:391-394 | Fx15 sets the delay timer to Vx; nothing else changes. |
| Peripherals.SetSound | src/lib.rs:396-399 | Fx18 sets the sound timer to Vx; nothing else changes. |
| Peripherals.SetThenReadDelay | src/lib.rs:371-394 | Fx07 right after Fx15 reads back the value that was set. |
| Peripherals.DelayExpires | src/lib.rs:53-61 | A delay set from Vx reaches zero after exactly Vx timer ticks, and not before. |
| Peripherals.SoundExpires | src/lib.rs:53-61 | A sound set from Vx reaches zero after exactly Vx timer ticks, and not before. |
| Peripherals.FirstPressed | src/lib.rs:378-384 | Returns the lowest pressed key at or above the starting key, or reports that none of them is pressed. |
| Peripherals.WaitKey | src/lib.rs:376-389 | With a key in 1..15 down, Fx0A stores the lowest one in Vx. Otherwise it moves pc back by two and changes nothing else. |
| Peripherals.WaitKeyLoop | src/lib.rs:376-389 | The interpreter's scan over keys 1..15 with an early exit computes `WaitKey`. |
| Peripherals.WaitKeyIgnoresKeyZero | src/lib.rs:378 | With only key 0 down, Fx0A behaves as if no key were down. |
| Scenarios.Boot | src/lib.rs:83-90 | Loading a ROM into a fresh machine places it at 0x200, with pc there and the registers, sp and I zero. |
| Scenarios.FetchAfterLoad | src/main.rs:39-47 | After loading 12 34 56 78, the first fetch yields 0x1234 and leaves pc at 0x202. |
| Scenarios.ArithmeticFirstLoad | src/main.rs:60-63 | The first cycle of 61C8 6264 710A 8124 sets V1 to 200. |
| Scenarios.ArithmeticSecondLoad | src/main.rs:65-68 | The second cycle sets V2 to 100. |
| Scenarios.ArithmeticAddImmediate | src/main.rs:70-74 | The third cycle makes V1 210 and leaves VF at 0. |
| Scenarios.ArithmeticAddCarries | src/main.rs:76-82 | The fourth cycle wraps V1 to 54 and sets VF to 1. |
| Scenarios.CallEnters | src/main.rs:126-142 | 2400 moves pc to 0x400 with sp 1 and 0x202 on the stack. |
| Scenarios.ReturnPops | src/main.rs:144-152 | 00EE at 0x400 brings pc back to 0x202 with sp 0. |
| Scenarios.ResumesAfterCall | src/main.rs:154-160 | The instruction after the call runs and sets V1 to 1. |
| Scenarios.FontZeroSelected | src/main.rs:86-90 | F029 on a fresh machine points I at the glyph for 0 and changes nothing else. |
| Scenarios.FontZeroRender | src/main.rs:92-111 | D005 after that lights the pixels the test expects in the glyph's first two rows. |
| Scenarios.UnknownWords | src/lib.rs:160 | 5121, 8128, E1FF and F100 decode as unknown. |

## Left out

- `update_keypad`, `run` and `debug_render_console` in src/lib.rs are host I/O: window input, the frame loop with its sleeps, audio, and console output. They are not part of this model. The keypad is a field of the state that the host would set.
- src/main.rs (window, audio, ROM file) and src/wasm.rs (browser bindings) are host glue and are not part of this model. Only the unit tests of src/main.rs are restated, in `Scenarios`.
- Cxnn's random number generator is a parameter: `Alu.Random` and `Cpu.Execute` take the random byte as an argument, and `Cpu.Run` takes one per cycle.
- The `println!` for an unknown opcode is output only. The model keeps the rest of that path, which leaves the state unchanged.
- Panics are preconditions, collected in `Cpu.CanExecute`. The model does not say what happens after a panic.
- `u16` overflow on `pc += 2` and `i + Vx` is a precondition rather than a wrap, because the Rust code panics there in debug builds.
- Scenarios.FontZeroRender: like the test it restates, it checks only the nine pixels of the glyph's first two rows. `Graphics.DrawOnBlank` gives the whole picture.
- Scenarios.ArithmeticFirstLoad: each test is split into one lemma per cycle, chained through a state predicate such as `ArithmeticAt`, rather than stated as one run of four cycles.
- `test_ibm_logo_logic` in src/main.rs only prints the screen after 20 cycles and asserts nothing, so it has no counterpart here.
- Masks and shifts in field extraction (`(opcode & 0x0F00) >> 8`) are written as division and remainder by powers of two; on unsigned values the two are the same.

## Notes on the source

- In 8xy5, 8xy6, 8xy7 and 8xyE the Rust code writes VF before it computes the new Vx. So when x is F, the flag is overwritten or shifted by the result computation. The model follows the code, and the contracts of `Alu.Sub`, `Alu.ShiftRight`, `Alu.SubReverse` and `Alu.ShiftLeft` state the x = F cases explicitly.
- Fx0A scans keys 1 to 15 and never reports key 0 (`Peripherals.WaitKeyIgnoresKeyZero`). The model keeps this behaviour.
