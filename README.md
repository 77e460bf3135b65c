# CHIP-8 virtual machine core, modelled in Dafny

This project models the core of a CHIP-8 interpreter written in Go: the
`chipVM` machine record, its construction from a program image
(`newChipVM`), the font loader (`setFont`), and the fetch-decode-execute step
(`fetchNextOpcode`). It also models the 60 Hz timer tick that the host loop runs.

The model has two layers:

- **Value layer.** `Chip8`, `Opcodes` and `Semantics` describe the machine as
  functions on an immutable `State`:
  - sixteen 8-bit registers, a 16-bit index register I, and the two timers;
  - an unbounded call stack;
  - 4096 bytes of memory and a 32x64 display;
  - a program counter.
- **Object layer.** In `Vm`, the class `ChipVM` keeps the Go record's fields in
  arrays and updates them in place, with the Go loops as `while`/`for` loops.
  Each method is proved to move `View()` exactly as the value layer says.

Integer widths are explicit. Register arithmetic wraps modulo 256, and I wraps
modulo 65536. The 8-bit product in Fx29 also wraps modulo 256.

A Go index past the end of an array panics. When that would happen, the model
returns a `Fault` instead:

- pc out of range at fetch;
- a sprite, BCD or register block that runs past address 4095;
- 00EE on an empty stack, where the deque panics;
- an image too large for memory.

The host supplies three inputs to each step:

- which keys are held;
- the iteration order of the Go key map, which is unspecified, so any
  permutation of the sixteen keys is allowed;
- the random byte for Cxnn.

Where common CHIP-8 descriptions and this code differ, the model follows the code:

- When a sprite row or column falls off the display, the code drops it rather
  than wrapping it to the other edge (vm.go:231-233). `Properties.BlitClips`
  states this.
- The stack has no capacity, so there is no overflow fault.
- 8xy6 and 8xyE shift Vy, not Vx, into Vx.
- VF is written before Vx in 8xy4, 8xy5, 8xy6, 8xy7 and 8xyE; 8xy0..8xy3 never
  write VF. `Properties.FlagWrittenFirst` states what that order means for each of
  the five when x or y is F.
- Dxyn sets VF by the test at vm.go:236, which flags a lit pixel that stays lit
  rather than one that is turned off. `Semantics.Execute` and
  `Vm.ChipVM.DrawSprite` compute VF that way. The CHIP-8 collision rule is kept
  beside it as `Semantics.DrawIntended`, and the lemmas about it are named as
  such below. See "## Findings".

## Model

| member | source | states |
|---|---|---|
| `Chip8.InstallFont` | vm.go:58-84 | the memory setFont leaves keeps every byte from address 80 up |
| `Chip8.InstallFontPlacesGlyphs` | vm.go:58-84 | glyph d of the sixteen hexadecimal digits occupies bytes 5d..5d+4, and memory from address 80 up is untouched |
| `Chip8.InstallFontIsIntact` | vm.go:77-83 | a memory holding every glyph in place and the old bytes above 79 is exactly what setFont produces |
| `Chip8.LoadImage` | vm.go:52-54 | byte j of the image lands at 0x200 + j, and every address outside 0x200 .. 0x200 + len - 1 keeps its byte |
| `Chip8.Boot` | vm.go:24-56 | a successful boot yields a well-formed machine state |
| `Chip8.BootState` | vm.go:24-56 | booting fails exactly for images longer than 3584 bytes; otherwise pc = 0x200, the image is at 0x200, the font is intact, memory is zero elsewhere, and registers, I, timers, stack and display are cleared |
| `Chip8.Tick` | 8chip.go:109-113 | one tick changes only the timers; delay drops by exactly one unless it is 0, where it stays; sound drops by exactly one unless it is at most 2, where it stays |
| `Chip8.Ticks` | 8chip.go:109-113 | k ticks change only the timers, neither timer rises, delay reaches 0 exactly when it was at most k, and sound never drops below 2 from above 2 and never moves from 2 or below |
| `Chip8.TicksCloseForm` | 8chip.go:109-113 | after k timer ticks delay is max(delay - k, 0); a sound value above 2 drops by k but not below 2, and one at or below 2 stays; nothing else changes |
| `Opcodes.Fetch` | vm.go:87 | the opcode's high byte is memory[pc] and its low byte memory[pc+1] |
| `Opcodes.Pack` | vm.go:88-90 | the four nibbles, the low byte and the low twelve bits of the packed opcode are the given fields |
| `Opcodes.PackAddr` | vm.go:118-124 | the family nibble and the twelve-bit address of the packed opcode are the given ones |
| `Opcodes.AluOpOf` | vm.go:152-205 | an 8xyN low nibble selects an ALU operation exactly when it is 0..7 or E, and that operation's code is the nibble |
| `Opcodes.Decode` | vm.go:98-338 | families 1, 2, 3, 4, 6, 7, A, B, C and D always decode to an instruction; only families 0, 5, 8, 9, E and F have opcodes the dispatch ignores |
| `Opcodes.DecodeEncode` | vm.go:98-338 | decoding the canonical opcode of any instruction gives the instruction back |
| `Opcodes.EncodeDecode` | vm.go:98-338 | every opcode the dispatch acts on is the canonical encoding of what it decodes to; together with DecodeEncode this makes decoding a bijection between the acted-on opcodes and the instructions |
| `Semantics.KeyDown` | vm.go:251-260 | some button of the key map maps to Vx and is held exactly when Vx is below 16 and key Vx is held |
| `Semantics.KeyUp` | vm.go:261-270 | some button of the key map maps to Vx and is not held exactly when Vx is below 16 and key Vx is not held |
| `Semantics.FirstPressed` | vm.go:284-290 | no key is returned exactly when no key in the order is held; a returned key is held, and no key before it in the order is held |
| `Semantics.FirstPressedAt` | vm.go:284-290 | the key at position j is returned when it is held and no earlier key in the order is |
| `Semantics.ApplyAlu` | vm.go:150-206 | an 8xyN update changes no register other than Vx and VF |
| `Semantics.Sprite` | vm.go:229 | the sprite is the n bytes of memory from I on |
| `Semantics.Blit` | vm.go:228-241 | every pixel covered by a set sprite bit inside the 32x64 display is flipped, and every other pixel keeps its value |
| `Semantics.Execute` | vm.go:98-338 | every instruction that does not fault leaves a well-formed state |
| `Semantics.DrawIntended` | vm.go:224-246 | the CHIP-8 form of Dxyn, with VF from the corrected flag, leaves a well-formed state |
| `Semantics.Step` | vm.go:86-97 | a pc whose two opcode bytes are not both in memory faults, and every successful step leaves a well-formed state |
| `Properties.StepFaults` | vm.go:86-338 | a step faults exactly when pc is out of range, 00EE meets an empty stack, or a Dxyn/Fx33/Fx55/Fx65 memory operand runs past address 4095 |
| `Properties.ExecuteFrame` | vm.go:98-338 | only 00EE, Dxyn, Fx33, Fx55 and Fx65 can fault; only Fx33 and Fx55 write memory; only 00E0 and Dxyn change the display; only 2nnn and 00EE change the stack |
| `Properties.StepAdvancesPc` | vm.go:97 | every instruction other than jumps, calls, returns, skips and Fx0A ends with pc advanced by 2 |
| `Properties.UnknownOnlyAdvancesPc` | vm.go:115-116 | an opcode the dispatch does not act on changes nothing but pc, which advances by 2 |
| `Properties.SkipStep` | vm.go:125-143 | each of 3xnn, 4xnn, 5xy0 (vm.go:125-143), 9xy0 (vm.go:207-214), Ex9E and ExA1 (vm.go:247-270) moves pc by 4 when its condition holds, and by 2 otherwise, changing nothing else; Ex9E and ExA1 never skip for Vx > 15 |
| `Properties.RegisterSkipNeedsZeroNibble` | vm.go:135-143 | 5xyN and 9xyN with N != 0 do nothing but advance pc |
| `Properties.CallThenReturn` | vm.go:110-124 | 2nnn pushes the return address and jumps to nnn; a 00EE there brings pc back to the following instruction with the stack as before |
| `Properties.AddCarry` | vm.go:166-174 | 8xy4 puts the sum modulo 256 in Vx and sets VF to 1 exactly on a carry, changing no other register |
| `Properties.SubBorrow` | vm.go:175-183 | 8xy5 puts Vx - Vy modulo 256 in Vx and sets VF to 1 exactly when Vx >= Vy |
| `Properties.SubReverseBorrow` | vm.go:190-198 | 8xy7 puts Vy - Vx modulo 256 in Vx and sets VF to 1 exactly when Vy >= Vx |
| `Properties.Shifts` | vm.go:184-189 | 8xy6 sets VF to the low bit of Vy and Vx to Vy / 2; 8xyE (vm.go:199-203) sets VF to the high bit of Vy and Vx to 2 Vy modulo 256 |
| `Properties.LogicOpsChangeOnlyVx` | vm.go:154-165 | 8xy0..8xy3 change Vx alone, and 8xy0 copies Vy |
| `Properties.FlagWrittenFirst` | vm.go:166-203 | VF is written before Vx in 8xy4, 8xy5, 8xy6, 8xy7 and 8xyE: with y = F the operand is the fresh flag (8xF4 adds the carry, 8xF5 and 8xF7 subtract or are subtracted from the no-borrow bit, 8xF6 gives 0, 8xFE gives twice the old VF's top bit); with x = F the flag ends as the wrapped result rather than the carry or borrow bit |
| `Properties.AddImmediateWraps` | vm.go:147-149 | 7xnn adds modulo 256 and changes no other register, VF included |
| `Properties.BlitInvolution` | vm.go:239 | drawing the same sprite at the same place twice restores the display |
| `Properties.BlitClips` | vm.go:231-233 | only pixels inside the sprite's box can change; nothing wraps to the opposite edge |
| `Properties.CollidesIffErases` | vm.go:236-246 | the corrected collision flag is set exactly when drawing turns some lit pixel off |
| `Properties.RedrawCollides` | vm.go:224-246 | under the corrected flag, drawing a sprite again after it lit some pixel reports a collision |
| `Properties.DrawTwice` | vm.go:224-246 | two identical Dxyn steps leave I and memory alone and restore the display; the second step's VF, computed as written, is 1 exactly when some pixel of the visible sprite box is lit both before the first draw and after it |
| `Properties.DrawIntendedFlagsErasure` | vm.go:224-246 | the intended Dxyn faults exactly when the machine step does; otherwise it leaves the same state except VF, which is 1 exactly when some lit pixel is turned off |
| `Properties.DrawIntendedTwice` | vm.go:224-246 | the intended Dxyn twice restores the display, and the second sets VF whenever the first lit a pixel |
| `Properties.AsWrittenFlagsKeptPixels` | vm.go:236 | the flag as written is set exactly when some pixel inside the visible sprite box is lit and stays lit |
| `Properties.AsWrittenCollisionIsInverted` | vm.go:236 | drawing 0xFF twice at (0, 0) erases pixels but leaves the as-written flag clear; drawing 0x00 over a lit pixel changes nothing but sets it |
| `Properties.StoreBcdDigits` | vm.go:309-315 | Fx33 writes three decimal digits of Vx at I, I+1, I+2 (156 gives 1, 5, 6) and changes nothing else |
| `Properties.StoreRegsWrites` | vm.go:316-324 | Fx55 writes V0..Vx at I..I+x, changes no other memory, and sets I to I + x + 1 |
| `Properties.StoreThenLoad` | vm.go:316-333 | Fx65 from the I where Fx55 started reads back exactly the registers stored, and I ends at the same place |
| `Properties.LoadGlyphAddressesGlyph` | vm.go:304-308 | Fx29 sets I to 5 Vx modulo 256; for a digit below 16 and an intact font, that is the digit's five-byte glyph |
| `Properties.WaitKeyStep` | vm.go:281-293 | Fx0A with no key held leaves the whole state as it was, so it runs again; with a key held, some held key is stored, pc moves past, and nothing else changes |
| `Properties.AnyHeldKeyCanBeStored` | vm.go:284-290 | for every held key, some iteration order of the key map makes Fx0A store it |
| `Properties.AddProgram` | vm.go:144-149 | the program 6005 7005 leaves V0 = 10, pc advanced by 4, and everything else unchanged |
| `Properties.ClearScreenStep` | vm.go:103-109 | 00E0 turns all 2048 pixels off and changes nothing else but pc |
| `Vm.ChipVM.constructor` | vm.go:24-56 | the new object's state is exactly `Boot(rom)` |
| `Vm.ChipVM.SetFont` | vm.go:58-84 | memory after the nested copy loop is `InstallFont` of memory before it |
| `Vm.ChipVM.LoadProgram` | vm.go:52-54 | memory after the image copy loop is `LoadImage` of memory before it |
| `Vm.ChipVM.Step` | vm.go:86-338 | the object's new state, or its fault, is exactly `Semantics.Step` of its old state; a fault changes nothing but possibly pc |
| `Vm.ChipVM.Execute` | vm.go:98-338 | the new state, or fault, is `Semantics.Execute` of the old state and the decoded instruction |
| `Vm.ChipVM.ExecuteFlow` | vm.go:99-124 | 00E0, 00EE, 1nnn, 2nnn, Bnnn (vm.go:218-220) and ignored opcodes in place agree with `Semantics.Execute`, and a fault (00EE on an empty stack) changes nothing |
| `Vm.ChipVM.ExecuteSkip` | vm.go:125-143 | the skips 3xnn, 4xnn, 5xy0, 9xy0 (vm.go:207-214), Ex9E and ExA1 (vm.go:247-270) in place agree with `Semantics.Execute` |
| `Vm.ChipVM.ExecuteRegister` | vm.go:144-223 | 6xnn, 7xnn, 8xyN, Annn and Cxnn in place agree with `Semantics.Execute` |
| `Vm.ChipVM.ExecuteDraw` | vm.go:224-246 | Dxyn in place agrees with `Semantics.Execute`, faulting with nothing drawn when the sprite runs past the end of memory |
| `Vm.ChipVM.ExecuteTimers` | vm.go:278-280 | Fx07 (vm.go:278-280), Fx15 and Fx18 (vm.go:294-299) in place agree with `Semantics.Execute` |
| `Vm.ChipVM.ExecuteIndex` | vm.go:300-308 | Fx1E and Fx29 in place agree with `Semantics.Execute` |
| `Vm.ChipVM.ExecuteStore` | vm.go:316-324 | Fx55 in place agrees with `Semantics.Execute`, faulting with nothing written when I + x is past the end |
| `Vm.ChipVM.ExecuteLoad` | vm.go:325-333 | Fx65 in place agrees with `Semantics.Execute`, faulting with nothing read when I + x is past the end |
| `Vm.ChipVM.RunAlu` | vm.go:150-206 | the registers after the in-place 8xyN update are `ApplyAlu` of the registers before it |
| `Vm.ChipVM.ClearDisplay` | vm.go:103-109 | after the nested loop every pixel is off |
| `Vm.ChipVM.DrawSprite` | vm.go:224-246 | the display becomes `Blit` of the old display and VF the flag as vm.go:236 computes it; all other registers are unchanged |
| `Vm.ChipVM.DrawRows` | vm.go:228-241 | the row loop draws all n rows and sets its flag exactly when some pixel in the sprite's box is lit and its sprite bit is clear, as vm.go:236 tests |
| `Vm.ChipVM.DrawRow` | vm.go:229-240 | one sprite row is drawn, extending the drawn rows by one, and its flag is set exactly when a pixel of that row meets the vm.go:236 test |
| `Vm.ChipVM.DrawBits` | vm.go:230-240 | the bit loop flips exactly the pixels of row r0 covered by set bits, leaves the other rows alone, and sets its flag exactly when a covered pixel was lit and its bit clear |
| `Vm.ChipVM.SkipIfKeyDown` | vm.go:251-260 | the loop over the key map advances pc by 2 exactly when Vx names a held key |
| `Vm.ChipVM.SkipIfKeyUp` | vm.go:261-270 | the loop over the key map advances pc by 2 exactly when Vx names a key that is not held |
| `Vm.ChipVM.WaitForKey` | vm.go:281-293 | the loop stores `FirstPressed` in Vx, or rewinds pc by 2 when no key is held |
| `Vm.ChipVM.StoreDigits` | vm.go:309-315 | Fx33 in place agrees with `Semantics.Execute`, faulting with nothing written when I + 2 is past the end |
| `Vm.ChipVM.StoreRegisters` | vm.go:316-324 | memory after the loop is the old memory with V0..Vx spliced in at I, and I = I + x + 1 modulo 65536 |
| `Vm.ChipVM.LoadRegisters` | vm.go:325-333 | V0..Vx after the loop are memory[I..I+x], the other registers are unchanged, and I = I + x + 1 modulo 65536 |
| `Vm.ChipVM.TickTimers` | 8chip.go:109-113 | the object's new state is `Tick` of its old state |

## Left out

- Reading the image file and the panic on a read error (vm.go:48-51) are left
  out: they are file I/O. The constructor takes the file's bytes.
- `Vm.ChipVM.constructor` requires an image of at most 3584 bytes rather than
  modelling the Go panic; `Chip8.Boot` returns `ImageTooLarge` for a longer one.
- The debug printing (vm.go:91-96) is output only, so it is left out.
- `rand.Intn(256)` is a parameter of each step: the `random` byte of `Inputs`.
- The pixelgl window and its `Pressed` query are left out; the held keys are the
  `keys` vector of `Inputs`.
- The `keys` field (vm.go:20, 30-47) is a fixed bijection from sixteen buttons
  onto the logical keys 0..F. The model indexes held keys by logical key, and the
  map's iteration order is the `order` parameter.
- The deque library is replaced by a Dafny sequence whose last element is the top.
  Its capacity and growth are not modelled, because the code never checks a depth.
- Where Go panics part way through a loop, the model faults before any write.
  This covers Fx33, Fx55, Fx65 (vm.go:330-332) and Dxyn near the end of memory,
  whose earlier in-range writes are not modelled.
- Pixels are booleans rather than Go's 0/1 integers; XOR on 0/1 is boolean inequality.
- Everything else in 8chip.go is left out: the main loop, rendering, audio, the
  FPS title, command-line flags, and the clock that schedules steps and ticks.

## Findings

| source | as written | input that shows it | evidently intended | confidence | as-written member | corrected member |
|---|---|---|---|---|---|---|
| vm.go:236 | `oldbyte == 1 && (oldbyte^newbyte) != 0` flags a pixel that is lit and whose sprite bit is 0, which is a pixel that stays lit | sprite byte 0xFF drawn twice at (0, 0) on a clear screen: the second draw erases eight pixels and VF ends 0; sprite byte 0x00 over a lit pixel changes nothing and VF ends 1 | VF = 1 exactly when a lit pixel is turned off (lit and sprite bit 1), the CHIP-8 collision rule | not executed | `Semantics.Execute`, with `Properties.AsWrittenCollisionIsInverted` and `Properties.DrawTwice` | `Semantics.DrawIntended`, with `Properties.CollidesIffErases` and `Properties.DrawIntendedFlagsErasure` |
