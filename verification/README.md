# CHIP-8 interpreter core in Dafny

This project models the interpreter core of a C++ CHIP-8 virtual machine (`chip8.cpp`, `chip8.h`) as a pure state-transition system, and proves properties of that model. It covers:

- the machine state;
- one fetch-decode-execute cycle (`ExecuteInstruction`);
- XOR sprite compositing;
- the keypad mask and the wait latch of `Fx0A`;
- `Reset`, `ClearScreen` and program loading;
- the timer and batch arithmetic of the main loop (`Run`).

Modules, one per file:

- `Prelude` (prelude.dfy): the fixed-width integer types, C's wrap-around on unsigned stores, and bitwise operations on bytes.
- `Layout` (layout.dfy): the constants of chip8.h and the built-in font. It also computes the byte layout of the anonymous structure that the source overlays on the reserved memory. That layout gives the font's address, 0x38, and shows that the structure ends below program space.
- `Screen` (screen.dfy): the 64x32 display and `Draw`. `Draw` is built from `DrawPrefix`, which follows the source's nested loop cell by cell. `Draw` is then characterised cellwise.
- `Keypad` (keypad.dfy): the 16-bit key mask, `SetKey`, and the encoding of the wait latch.
- `Machine` (machine.dfy): the machine `State`, the faults, `Result`, `ClearScreen`, `Reset`, the power-on state and `LoadProgram`.
- `Decoder` (decoder.dfy): the instruction set as a datatype with one constructor per branch of the if/else chain, `Decode` and `Encode`, and both round trips.
- `Alu` (alu.dfy): the byte arithmetic of 8xy4-8xyE and Fx33.
- `Interpreter` (interpreter.dfy): `Step(s, rnd)`. It checks PC, fetches the big-endian opcode, advances PC by 2, decodes, and applies the rule. Every `assert` of the source becomes a `Halt` carrying a `Fault`.
- `Properties` (properties.dfy): what each instruction does, stated on `Step`, and what no instruction touches.
- `Scheduler` (scheduler.dfy): the main loop with its inputs made explicit. These inputs are:
  - elapsed frames, in place of the clock;
  - key events already mapped to keypad values, in place of SDL events;
  - a byte stream, in place of the `std::mt19937` generator and its `uniform_int_distribution(0, 255)`.
- `Scenarios` (scenarios.dfy): concrete runs. These are:
  - a delay-timer countdown;
  - the two 8xy4 examples;
  - a full sprite row drawn inside the screen, across its right edge, and twice at the same place;
  - a key wait released by a key press.

Quirks of the source that the model reproduces:

- The call stack pre-increments, so slot 0 is never used and only 15 calls nest.
- In 8xy4, 8xy5 and 8xy7, VF is written before Vx, so with x = F the result replaces the flag.
- 8xy6 and 8xyE shift Vy, not Vx, and read Vy again after writing VF.
- Dxyn clears VF before it reads the origin, so an origin register of F reads as 0.
- Fx29 sets I to `0x38 + 5 * (Vx & 0xF)`.
- PC arithmetic wraps at 16 bits, and the batch size wraps at 32 bits.

## Model

| member | source | states |
|---|---|---|
| Layout.ProgramSpaceSize | chip8.h:47-51 | The largest program is 3584 bytes, and program space plus that size is the whole 4 KiB memory. The display has 64x32 = 2048 cells, a whole number of bytes. |
| Layout.UnionLayout | chip8.h:60-87 | With C layout rules, the register structure overlaid on memory puts the 80-byte font table at offset 0x38 and ends at byte 394. That is below 0x200, so a program loaded at 0x200 never overwrites interpreter state. |
| Screen.CellIndex | chip8.cpp:531-534 | Display cells are row-major: cell `64 * row + col` lies inside the display and gives back its column and row. |
| Screen.DrawPrefix | chip8.cpp:526-540 | After the loop has visited its first k cells, row by row and leftmost pixel first, each visited cell holds the XOR of its old pixel and the sprite pixel, and the others are unchanged. The flag is set exactly when some set pixel became unset. |
| Screen.Draw | chip8.cpp:524-542 | Each cell under the 8 x n sprite becomes the XOR of its old pixel and the sprite pixel over it. Placement wraps around both edges. Every other cell is kept. The flag is true exactly when some set pixel was cleared. |
| Screen.DrawCollision | chip8.cpp:536-537 | A collision happens exactly when a set sprite pixel lands on a set display pixel. |
| Screen.DrawTwiceRestores | chip8.cpp:536-538 | Drawing the same sprite twice at the same place restores the display. |
| Keypad.LatchEncoding | chip8.cpp:558-562 | The idle latch 0 is not armed. `0x10 OR x` is armed for register x. A latch is armed exactly when its 0x10 bit is set. |
| Keypad.SetKeyBit | chip8.cpp:253-261 | After `SetKey`, key `key` reads as pressed or released as requested, and every other key keeps its state. |
| Keypad.SetKeyOnlyItsBit | chip8.cpp:253-261 | `SetKey` changes bit `key` of the mask and no other bit. Keys of 16 and above leave the 16-bit mask unchanged. |
| Machine.ClearScreen | chip8.cpp:263-267 | Every pixel is cleared and the display is marked changed. Nothing else changes. |
| Machine.Reset | chip8.cpp:66-79 | Registers, I, timers, keys and latch become 0, SP becomes 0, PC becomes 0x200, and the screen is cleared. Memory and the stack slots are kept. |
| Machine.ResetForgetsRegisters | chip8.cpp:66-79 | The state after a reset depends only on memory and the stack slots. |
| Machine.PowerOnMemory | chip8.cpp:33-51 | Memory after construction is zero except for the font table, copied to 0x38. |
| Machine.PowerOn | chip8.cpp:28-64 | The constructed machine is in the reset state, and the five bytes at `0x38 + 5d` are the glyph of hex digit d. |
| Machine.LoadProgram | chip8.cpp:221-250 | An image is loaded exactly when it has 1 to 3584 bytes; otherwise its size is reported. A loaded image sits byte for byte at 0x200, the rest of memory is kept, and the machine is reset. |
| Decoder.Unpack | chip8.cpp:389-394 | An opcode is its four nibbles w, x, y, z. kk is its low byte and nnn its low 12 bits. |
| Decoder.DecodeEncode | chip8.cpp:397-613 | Every instruction is selected by the branch for its own encoding: decoding an encoded instruction gives it back. |
| Decoder.EncodeDecode | chip8.cpp:397-613 | Every opcode a branch accepts is the encoding of the instruction it decodes to, so no branch reads bits it ignores. |
| Decoder.Handled | chip8.cpp:397-617 | An opcode is executed rather than rejected exactly when it is the encoding of some instruction. |
| Decoder.Unhandled | chip8.cpp:614-617 | Every 0nnn other than 00E0 and 00EE is rejected. So is every 5xyz and 9xyz with z other than 0. |
| Alu.AddWithCarry | chip8.cpp:471-473 | The 16-bit sum splits into a carry of at most 1 and a result byte, with `0x100 * carry + result = a + b`. The carry is 1 exactly when the sum exceeds 255. |
| Alu.SubWithBorrow | chip8.cpp:478-480 | The flag is 1 exactly when `a >= b`. The result is `a - b` when there is no borrow, and `a - b + 256` otherwise. |
| Alu.ShiftsSplit | chip8.cpp:485-499 | The right shift loses exactly its low bit: `2 * half + low = v`. The left shift loses exactly its high bit: `256 * high + result = 2 * v`. Both shifted-out bits are 0 or 1. |
| Alu.BcdDigits | chip8.cpp:589-591 | The three digits are at most 2, 9 and 9, and `100 * d0 + 10 * d1 + d2 = v`. |
| Interpreter.FetchBigEndian | chip8.cpp:385-386 | The byte at PC is the opcode's high byte and the byte at PC + 1 its low byte. |
| Interpreter.SkipIf | chip8.cpp:426 | PC moves exactly when the skip condition holds, and then by one instruction (2 modulo 2^16). Nothing else changes. |
| Interpreter.FontAddress | chip8.cpp:582 | Fx29's address lies inside the font table, on a glyph boundary, at the glyph of `Vx & 0xF`. |
| Interpreter.WriteBcd | chip8.cpp:587-591 | The three digits land at I, I + 1 and I + 2, and no other byte changes. |
| Interpreter.StoreRegisters | chip8.cpp:598-601 | Bytes I..I + x hold V0..Vx, and every other byte is kept. |
| Interpreter.LoadRegisters | chip8.cpp:609-612 | V0..Vx hold bytes I..I + x, and every other register is kept. |
| Interpreter.Step | chip8.cpp:381-617 | A cycle halts with the PC fault exactly when PC is below 0x200, beyond memory or odd (the assert at 383). It halts with the opcode fault, reporting the opcode, exactly when PC is valid and no branch accepts the opcode (614-617). Both directions are stated. |
| Interpreter.StepExecutes | chip8.cpp:381-395 | A cycle that fetches instruction i applies i's rule to the state with PC already advanced by 2. |
| Interpreter.StepDecodes | chip8.cpp:381-395 | A cycle that gets past its fetch executes exactly the instruction encoded at PC. |
| Properties.StepRunsCurrent | chip8.cpp:381-395 | A cycle either halts on its fetch or executes the decoded current instruction after advancing PC. |
| Properties.StepFrame | chip8.cpp:397-613 | No instruction changes the key mask or stack slot 0. Each of the following parts is changed only by the instructions listed, and by no other: the stack by 2nnn; memory by Fx33 and Fx55; the delay timer by Fx15; the sound timer by Fx18; the latch by Fx0A; the display and its changed flag by 00E0 and Dxyn. |
| Properties.CallPushes | chip8.cpp:414-421 | 2nnn succeeds exactly when SP < 15; otherwise it halts with a stack overflow. On success it stores the return address in slot SP + 1, increments SP and jumps to nnn. No other slot changes. |
| Properties.RetPops | chip8.cpp:402-408 | 00EE succeeds exactly when SP > 0; on an empty stack it halts with a stack underflow. On success it jumps to slot SP and decrements SP. |
| Properties.CallThenRet | chip8.cpp:402-421 | A call followed by a return resumes after the call with SP restored. The only trace left is the used stack slot. |
| Properties.CallDepth | chip8.cpp:418-420 | The 15th nested call succeeds and the 16th overflows. |
| Properties.AddRegFlags | chip8.cpp:467-473 | 8xy4: Vx becomes `(Vx + Vy) mod 256` and VF = 1 exactly when the sum exceeds 255. With x = F, the sum replaces the flag. No other register changes. |
| Properties.SubFlags | chip8.cpp:474-480 | 8xy5: Vx becomes `(Vx - Vy) mod 256` and VF = 1 exactly when Vx >= Vy. With x = F, the difference replaces the flag. |
| Properties.SubnFlags | chip8.cpp:487-493 | 8xy7: Vx becomes `(Vy - Vx) mod 256` and VF = 1 exactly when Vy >= Vx. With x = F, the difference replaces the flag. |
| Properties.ShrFlags | chip8.cpp:481-486 | 8xy6: VF is Vy's low bit and Vx is Vy shifted right. With y = F, the shift reads the freshly written flag. |
| Properties.ShlFlags | chip8.cpp:494-499 | 8xyE: VF is Vy's high bit and Vx is `(2 * Vy) mod 256`. With y = F, the shift reads the freshly written flag. |
| Properties.LoadImmediate | chip8.cpp:437-441 | 6xkk writes kk into Vx and changes nothing else. |
| Properties.RegisterLogic | chip8.cpp:447-466 | 8xy0-8xy3 write Vy, `Vx OR Vy`, `Vx & Vy` or `Vx ^ Vy` into Vx. Nothing else changes. |
| Properties.LoadIndex | chip8.cpp:505-509 | Annn loads nnn into I. |
| Properties.AddToIndex | chip8.cpp:573-577 | Fx1E adds Vx to I modulo 2^16 and leaves VF alone. |
| Properties.AddByteWraps | chip8.cpp:442-446 | 7xkk adds modulo 256 and sets no flag. |
| Properties.RandomMasked | chip8.cpp:515-519 | Cxkk stores the random byte ANDed with kk into Vx and changes nothing else. |
| Properties.ConditionalSkip | chip8.cpp:422-552 | 3xkk, 4xkk and 5xy0 (422-436), 9xy0 (500-504), and Ex9E and ExA1 (543-552) advance PC by 4 when their condition holds and by 2 otherwise. Nothing else changes. For Ex9E and ExA1, a key counts as pressed only if Vx < 16 and its bit is set. |
| Properties.JumpTaken | chip8.cpp:409-413 | 1nnn jumps to nnn and changes nothing else. |
| Properties.JumpOutOfProgramSpace | chip8.cpp:383 | A taken jump is not checked: a jump to 0x100 succeeds, and only the next fetch halts with the PC fault. |
| Properties.JumpOffset | chip8.cpp:510-514 | Bnnn jumps to `nnn + V0`. |
| Properties.ClearClears | chip8.cpp:397-401 | 00E0 clears every pixel, marks the display changed and changes nothing else. |
| Properties.DrawRule | chip8.cpp:520-542 | The Dxyn rule applied after the fetch: it halts with the sprite fault unless `I + n < 4096`. Otherwise it XORs the sprite over the display, sets VF to the collision flag, keeps V0-VE and owes a redraw. |
| Properties.DrawEffect | chip8.cpp:520-542 | Dxyn succeeds exactly when `I + n < 4096`; otherwise it halts with the sprite fault. On success it XORs the sprite read from I over the display at (Vx, Vy), wrapping at both edges, and keeps every other cell. VF becomes 1 exactly when a set pixel was cleared. The display is marked changed. |
| Properties.DrawAgainRestores | chip8.cpp:520-542 | Executing the same Dxyn twice at the same place restores the display, for every x and y, VF included. |
| Properties.BcdDigitsStored | chip8.cpp:583-591 | Fx33 succeeds exactly when `I + 2 < 4096`. On success it stores the decimal digits of Vx, each at most 9, at I..I + 2, and no other byte changes. |
| Properties.StoreEffect | chip8.cpp:592-602 | Fx55 succeeds exactly when `I + x < 4096`. On success V0..Vx land at I..I + x, no other byte changes, and I becomes I + x + 1. |
| Properties.LoadEffect | chip8.cpp:603-613 | Fx65 succeeds exactly when `I + x < 4096`. On success V0..Vx are read from I..I + x, the other registers are kept, and I becomes I + x + 1. |
| Properties.StoreThenLoadRestores | chip8.cpp:592-613 | Fx55 with I + x < 4096 succeeds and writes memory m. An Fx65 at the same base, run on a state whose memory is m, succeeds and gives back the stored V0..Vx. |
| Properties.FontPointsAtGlyph | chip8.cpp:578-582 | Fx29 sets I to `0x38 + 5 * (Vx & 0xF)`. While the font table is intact, the five bytes at I are that digit's glyph. |
| Properties.WaitArmsLatch | chip8.cpp:558-562 | Fx0A only arms the latch for register x. PC has already moved past it. |
| Properties.DelayFromRegister | chip8.cpp:563-567 | Fx15 loads the delay timer from Vx. |
| Properties.SoundFromRegister | chip8.cpp:568-572 | Fx18 loads the sound timer from Vx. |
| Properties.DelayToRegister | chip8.cpp:553-557 | Fx07 copies the delay timer into Vx. |
| Scheduler.InstructionsPerFrame | chip8.cpp:301 | `max(1, ips / 60 / 2)` is `max(1, ips / 120)`, and for ips >= 120 it is within one of ips / 120: the machine runs half the configured rate. |
| Scheduler.Budget | chip8.cpp:376 | The next batch is one frame's worth when at most one frame elapsed. It is the exact product `frames * insPerFrame` whenever that fits in 32 bits. |
| Scheduler.BudgetWraps | chip8.cpp:376 | At 4026531840 instructions per second, a lag of 128 frames wraps the batch size to 0. |
| Scheduler.DecrementTimer | chip8.cpp:356-361 | A timer never grows. It reaches 0 exactly when at least as many frames elapsed as it held, and otherwise loses exactly the elapsed frames. |
| Scheduler.TimerCountsFrames | chip8.cpp:355-361 | However the elapsed frames are split into ticks, a timer ends at its start value minus the total, and never below 0. |
| Scheduler.Tick | chip8.cpp:355-374 | When no frame elapsed, nothing changes. Otherwise both timers count down, a frame is presented exactly when the display had changed, and the changed flag is cleared. Nothing else changes. |
| Scheduler.RunBatch | chip8.cpp:321-324 | A batch runs until it has executed its budget or the latch is armed, never beyond its budget. When the latch is already armed, it executes nothing. |
| Scheduler.BatchKeepsKeys | chip8.cpp:321-324 | A batch that does not halt leaves the key mask as it found it. |
| Scheduler.HandleEventEffect | chip8.cpp:330-350 | For one event: Quit stops the loop, and a key event sets or clears only that key's bit. Only a key-down releases the latch; it stores its key in the latch's register and sets the latch to 0. No other register changes. |
| Scheduler.HandleEvents | chip8.cpp:326-352 | After the poll loop, the main loop goes on exactly when no event was Quit. The latch is still armed exactly when it was armed and no event was a key-down. |
| Scheduler.EventsSetKeys | chip8.cpp:338-344 | After the poll loop, each key is pressed exactly when the last event naming it was a key-down, or no event named it and it was pressed before. |
| Scheduler.FirstKeyDownDelivered | chip8.cpp:346-350 | With the latch armed, the first key-down's key lands in the latch's register, and the latch is idle afterwards whatever events follow. |
| Scheduler.IdleEventsKeepRegisters | chip8.cpp:346-350 | With the latch idle, events change no register. |
| Scheduler.HandleEventsFrame | chip8.cpp:326-352 | Events change only the key mask, the latch and the registers. |
| Scheduler.RunIteration | chip8.cpp:318-377 | An iteration fails exactly when its batch fails, and with the batch's fault. Otherwise the loop goes on exactly when no event was Quit, and the next budget is computed from the elapsed frames. |
| Scheduler.WaitingIterationIdles | chip8.cpp:321 | An iteration that starts with the latch armed executes nothing: PC, I, SP, the stack, memory and the display stay put. |
| Scenarios.DelayCountdown | chip8.cpp:355-361 | After `6A12 FA15`, the delay timer holds 0x12. After n frames it holds 0x12 - n, or 0 once n >= 0x12. |
| Scenarios.AddCarryExamples | chip8.cpp:467-473 | 8xy4 with Vx = 0xFF and Vy = 2 gives Vx = 1 and VF = 1. With Vx = Vy = 1 it gives Vx = 2 and VF = 0. |
| Scenarios.FullRowOnBlank | chip8.cpp:524-542 | The sprite byte 0xFF at column x of row 0 on a blank display sets exactly eight cells of row 0 from x on, wrapping at the right edge, with no collision. |
| Scenarios.RowInside | chip8.cpp:524-542 | Drawn at column x <= 56 of row 0, that sprite sets columns x to x + 7 of row 0 and nothing else. At (0, 0) these are columns 0-7. There is no collision. |
| Scenarios.RowDrawnTwice | chip8.cpp:536-537 | Drawn a second time at the same place, the sprite blanks the display again and reports a collision. |
| Scenarios.RowWrapsAround | chip8.cpp:531-534 | Drawn at column 56 < x < 64 of row 0, the sprite sets columns x to 63 and 0 to x - 57. At (60, 0) these are columns 60-63 and 0-3. |
| Scenarios.BatchStopsAtKeyWait | chip8.cpp:321-324 | A batch that reaches Fx0A with the latch idle runs it and stops at once, however large its budget. |
| Scenarios.KeyWaitScenario | chip8.cpp:346-350 | F30A followed, in the same iteration, by a key-down of B leaves V3 = 0x0B, the latch idle, and PC at the instruction after F30A. |

## Left out

- SDL video, textures, the window and the pixel-buffer conversion in `InitSDL` and `DrawScreen` are foreign-library output. Only the handshake on the `screenUpdated` flag is kept, in `Tick`.
- Audio is left out: the tone callback, the sawtooth synthesis, `SetVolume`, and pausing the device when the sound timer reaches 0. It is floating point running on another thread.
- The wall clock, `SDL_Delay` and `SDL_PollEvent` are not modelled. Elapsed frames and the pending events are parameters of `RunIteration`, and the loop's idle sleep is not modelled.
- The scancode-to-keypad table is SDL data. Events arrive already mapped to keypad values 0-F, and unmapped keys and other SDL event types are not represented.
- The file I/O of `LoadProgram` (`stat` and the stream read) is not modelled. `LoadProgram` takes the file's bytes, and a missing or unreadable file is not represented.
- The random byte of Cxkk is a parameter. The source draws it with `std::uniform_int_distribution<unsigned int>(0, 255)` from a `std::mt19937` member (chip8.cpp:519, chip8.h:57), seeded from `std::random_device` (chip8.cpp:53). The model takes it as `rnd` in `Step` and as the stream `rng` in `RunBatch`. Each batch gets a fresh, unconstrained stream, indexed by the instruction's position in the batch. This admits every byte sequence the single generator stream could produce, and more.
- The aliasing of memory over the register structure is not modelled. Registers and memory are separate fields, so with I < 0x200 the model does not do what the source does there. In the source, Fx33 and Fx55 would overwrite register bytes, and Dxyn and Fx65 would read them. Dxyn would then draw register, font or display bytes as its sprite, including the VF it has just cleared. Fx65 would load bytes of the registers, I's own among them. `Layout.UnionLayout` states where the structure lies.
- Interpreter.Step: the model follows a build with assertions enabled, that is, with NDEBUG not defined. A failing assertion is a `Halt` result. The process abort, and the diagnostics printed before it, are not modelled. In an NDEBUG build the unhandled-opcode branch (chip8.cpp:614-617) prints and returns, so an unknown opcode is skipped. The other checks (chip8.cpp:383, 406, 418, 524, 587, 596, 607) vanish in such a build, which leaves out-of-range accesses undefined. The model does not describe that build.
- Keypad.SetKey: requires key < 31. The model follows C++14 or later, where `1 << 31` is defined. With such a key `keys |= 1 << 31` and `keys &= ~(1 << 31)` leave the 16-bit mask unchanged, which the model does not state. A shift by 32 or more is undefined in every standard. `Chip8::SetKey` (chip8.cpp:253-261) is never called in the source. The model reuses it for the inline key update in `Run` (chip8.cpp:338-344), with which it agrees on keys 0-15.
- Ex9E and ExA1: with Vx from 16 to 31 the shifted bit lies outside the 16-bit mask, so the key reads as not pressed (for 31, from C++14 on), as in the model. With Vx >= 32 the shift is undefined in every standard, and the model still reads the key as not pressed.
- The debugger, `halt`, the `Dump*` methods and `main.cpp` are not part of this model. They are declared in chip8.h but not defined in chip8.cpp, or they only parse the command line.
- `frames` comes from subtracting an unsigned count from an int in the source. It is taken here as the integer it is meant to be.

## Behaviour that follows the code

Notes on what `chip8.cpp` does in places where another reading would be easy to assume. The model follows the code, built with assertions enabled; "halts" below means a failing `assert`:

- 0nnn other than 00E0 and 00EE is not a no-op. It reaches the unhandled-opcode branch and, with assertions enabled, halts (`Decoder.Unhandled`). Without them it is skipped.
- Dxyn does not wrap its row fetch around memory. It halts unless `I + n < 4096`. That check is one byte stricter than the reads need, since the last row read is `I + n - 1`.
- PC is not kept inside program space by every cycle. Jumps, calls, returns and skips are not checked; only the next fetch is (`Properties.JumpOutOfProgramSpace`).
- Fx0A is not re-entered while waiting. It arms the latch and PC moves past it, and the main loop then runs no instruction until a key-down releases the latch (`Scheduler.RunBatch`, `Scheduler.WaitingIterationIdles`).
- Dxyn marks the display changed even when the sprite has no set pixel.
- The rate is half the configured instructions per second: `ips / 60 / 2` per frame.
- The batch size is an unsigned 32-bit product and can wrap (`Scheduler.BudgetWraps`).
- The first iteration of `Run` starts with a budget of 0, so it executes nothing.
