# gochip8 interpreter core in Dafny

A model of the CHIP-8 interpreter of the gochip8 repository and proofs about
it. The interpreter is an `Emulator` object made up of:

- 4096 bytes of memory;
- sixteen 8-bit registers V0..VF;
- the index register I, the program counter and the stack pointer;
- the delay and sound timers;
- a 16-entry return stack;
- a 64x32 monochrome framebuffer held as 32 64-bit row words;
- a 16-key keypad.

`New` installs the hexadecimal font and points pc at 0x200. `LoadROM` copies
a program there. Each `EmulateCycle` does four things:
1. fetches the big-endian opcode at pc;
2. splits it into its fields;
3. runs one of the ~35 instruction forms;
4. ticks both timers.

The repository carries two snapshots of this code, and the model covers both:
- `emulator/emulator.go` wraps pixel coordinates modulo 64 and 32 (`Addressing.Wrapping`);
- `emulator/chip8.go` indexes the row unchecked and lets a column past 63 fall off the word (`Addressing.Clipping`).

Otherwise their `EmulateCycle`s differ only in logging.

The project has two layers.

- **The value model** (modules `Machine`, `Framebuffer`, `Sprites`,
  `Semantics`). It gives a machine state as a datatype and one cycle as a
  function, `Semantics.Step`. Every property of the instruction set is proved
  about this function.
- **The object** (module `Interpreter`). Class `Emulator` keeps the source's
  arrays and fields and its methods update them in place, as the Go methods
  do. `Snapshot()` reads the object back as a `State`, and every method is
  proved to produce the value model's state. For `EmulateCycle` that is
  `Reported(o, Snapshot()) == Step(mode, old(Snapshot()), rnd)`.

Module `Rotation` models the two circular-shift helpers and the table of
`emulator/chip8_test.go`.

Behaviour the model follows as the code has it:

- **8xy5/8xy7:** VF is set only on a strict `>`, so VF is 0 when the operands are equal.
- **Flag writes:** 8xy4..8xyE write VF before V[x], so with x or y = F the flag becomes an operand.
- **Fx1E:** sets VF when I + V[x] exceeds 255, not 0xFFF. VF is written before I grows, so FF1E adds the new flag (0 or 1) to I, not the old V[F].
- **Fx33:** tests `> 100` and `> 10`, so it stores 0,0,10 for the value 10 and 0,0,0 for 100.
- **Fx55/Fx65:** move V0..V(x-1), not V0..Vx, and then add x + 1 to I.
- **Unknown opcodes:** an unknown 0nnn, 9xyn with n != 0 and an unknown ExNN change nothing, pc included, so the interpreter spins on them. Only an unknown FxNN ends the process.
- **The stack:** a call increments sp before it writes the slot, so it writes slot 0 only after a return at sp = 0 has wrapped sp to 255.
- **Cycle order:** the timer tick follows the opcode in the same cycle, so Fx15/Fx18 leave the new value already one lower.

## Model

| member | source | states |
|---|---|---|
| Machine.PowerOn | emulator/emulator.go:75-82 | the font at addresses 0..79, all other memory zero, pc = 0x200, I, sp, both timers, every register, stack slot and key zero, a dark screen, no redraw pending |
| Machine.LoadImage | emulator/emulator.go:91-93 | byte j of the ROM lands at 0x200 + j and every other address keeps its value |
| Machine.BootImage | emulator/emulator.go:75-96 | a ROM loaded into a fresh machine is the memory slice from 0x200, the font below it is intact, and the first fetch reads the ROM's first two bytes big-endian |
| Machine.BytesJoin | emulator/emulator.go:141 | `uint16(hi)<<8 \| uint16(lo)` is hi * 256 + lo |
| Machine.Decode | emulator/emulator.go:148-154 | the fields are the opcode's digits: op = family*4096 + x*256 + y*16 + n, nnn = x*256 + kk, kk = y*16 + n |
| Machine.MasksAreFields | emulator/emulator.go:148-156 | for every 16-bit opcode each of the interpreter's mask-and-shift expressions equals the corresponding field of Decode |
| Machine.Opcode | emulator/emulator.go:140-141 | the two bytes at pc, big-endian |
| Machine.Tick | emulator/emulator.go:98-107 | the definition of one timer tick, one lower unless already 0; what ticking promises is stated by Machine.TicksSaturate |
| Machine.Ticks | emulator/emulator.go:98-107 | k ticks in a row |
| Machine.TicksSaturate | emulator/emulator.go:98-107 | after k ticks a timer holds t - k, and 0 once k reaches t: it never wraps below zero |
| Framebuffer.PixelsToggle | emulator/emulator.go:124 | XOR with `(0x1 << 63) >> x` flips pixel x of the row and no other |
| Framebuffer.ToggleOffEdge | emulator/chip8.go:114-116 | for a column of 64 or more the mask is zero and the row is unchanged |
| Framebuffer.PixelsGet | emulator/emulator.go:135 | the AND with the mask is nonzero exactly when the column is below 64 and its pixel is lit |
| Framebuffer.Toggle | emulator/emulator.go:124 | togglePixel's word: pixel x flipped for x < 64, the word itself otherwise |
| Framebuffer.Probe | emulator/emulator.go:135 | getPixel's word is nonzero exactly on a lit on-screen pixel |
| Framebuffer.RowReplaced | emulator/emulator.go:124 | writing one row word changes that row of the screen and no other |
| Framebuffer.FrameZero | emulator/emulator.go:109-114 | 32 zero words are the dark screen |
| Sprites.Screen | emulator/emulator.go:116-123 | emulator.go's coordinates land below 64 and 32; chip8.go's are used as given |
| Sprites.Drawable | emulator/emulator.go:254-269 | the sprite bytes lie in memory and, without wrapping, every row lies on the screen |
| Sprites.Plot | emulator/emulator.go:261-267 | getPixel then togglePixel at one screen pixel: it flips and the flag records that it was lit; off the right edge nothing changes |
| Sprites.PaintPixel | emulator/emulator.go:258-267 | one column of the walk: the pixel is plotted at V[x] + col, with V[F] read as the flag so far, when the sprite bit is set |
| Sprites.PaintRow | emulator/emulator.go:258-268 | the columns of one sprite row up to j, in order |
| Sprites.RowY | emulator/emulator.go:255 | the row coordinate V[y] + row, read when the row begins |
| Sprites.PaintRows | emulator/emulator.go:253-269 | the rows of the sprite up to k, in order, from the old screen with the flag cleared |
| Sprites.PaintUpTo | emulator/emulator.go:253-269 | the walk stopped after its first q pixels |
| Sprites.Paint | emulator/emulator.go:253-269 | the whole walk over the n rows and 8 columns |
| Sprites.PlotPixel | emulator/emulator.go:261-267 | one plotted pixel flips that pixel alone and raises the flag exactly when the pixel was lit |
| Sprites.OffScreenIsNoOp | emulator/chip8.go:114-120 | a pixel right of column 63 changes neither the screen nor the flag |
| Sprites.Unroll | emulator/emulator.go:254-269 | with x, y != F each step of the row-column walk plots its target pixel when the sprite bit is set and the pixel is on screen, and does nothing otherwise |
| Sprites.HitsAre | emulator/emulator.go:254-269 | the hit set is exactly the on-screen targets of set sprite bits |
| Sprites.TargetsDistinct | emulator/emulator.go:255-259 | different pixels of one sprite land on different screen pixels, wrapped or not |
| Sprites.PixelsAfter | emulator/emulator.go:254-269 | part-way through the walk a pixel is lit iff it was lit before xor it was hit so far |
| Sprites.CollisionAfter | emulator/emulator.go:253-269 | part-way through the walk the flag is set iff some pixel hit so far was lit beforehand |
| Sprites.Flip | emulator/emulator.go:251-271 | the screen with exactly the pixels of a set flipped |
| Sprites.DrawXor | emulator/emulator.go:251-271 | Dxyn with x, y != F XORs the sprite onto the screen: exactly the hit pixels flip |
| Sprites.DrawCollision | emulator/emulator.go:253-269 | Dxyn's VF is 1 exactly when a pixel it hits was already lit |
| Sprites.FlipTwice | emulator/emulator.go:251-271 | flipping the same pixels twice restores the screen |
| Sprites.SameTarget | emulator/emulator.go:254-259 | the same Dxyn issued right after reads the same sprite bytes at the same coordinates |
| Sprites.SameHits | emulator/emulator.go:254-269 | the same Dxyn issued right after hits the same pixels |
| Sprites.DrawTwiceRestores | emulator/emulator.go:251-271 | drawing the same sprite twice in a row leaves the screen as it was |
| Sprites.DrawTwiceOnBlank | emulator/emulator.go:251-271 | on a dark screen the first draw reports no collision, and the second one does exactly when the sprite hits some pixel |
| Semantics.Alu | emulator/emulator.go:196-234 | the registers after 8xyN: copy, OR, AND, XOR, the carry/borrow forms with VF written before V[x], the shifts, and no change for another N |
| Semantics.BcdAsWritten | emulator/emulator.go:357-371 | the three bytes Fx33 computes, with the interpreter's `> 100` and `> 10` branch tests |
| Semantics.PressedFrom | emulator/emulator.go:302-308 | the first key from i upward that is down, or -1 |
| Semantics.LowestPressed | emulator/emulator.go:302-308 | the first pressed key of the keypad, or -1 when none is down |
| Semantics.CanExecute | emulator/emulator.go:156-397 | the opcode indexes nothing out of range: the stack for 00EE and 2nnn, the sprite bytes and screen rows for Dxyn, the keypad for ExNN, memory for Fx33, Fx55 and Fx65 |
| Semantics.Draw | emulator/emulator.go:251-271 | Dxyn: the screen and VF the pixel walk leaves, the redraw mark set and pc + 2 |
| Semantics.KeySkip | emulator/emulator.go:272-286 | Ex9E and ExA1 skip on the key named by V[x]; another ExNN changes nothing, pc included |
| Semantics.Misc | emulator/emulator.go:287-397 | FxNN: the timer moves, the key wait, Fx1E, Fx29, Fx33, Fx55, Fx65, and the fatal exit on any other NN |
| Semantics.ClearDisplay | emulator/emulator.go:109-114 | clearDisplay: a dark screen and the redraw mark set |
| Semantics.Execute | emulator/emulator.go:156-401 | the outcome of one opcode, before the timers tick, by its high nibble |
| Semantics.UpdateTimers | emulator/emulator.go:98-107 | both timers ticked once |
| Semantics.CanStep | emulator/emulator.go:139-141 | the fetch reads two bytes inside memory and the decoded opcode can execute |
| Semantics.Step | emulator/emulator.go:139-404 | EmulateCycle: fetch, decode and execute, then the timer tick when the cycle finished |
| Semantics.Decimal | emulator/emulator.go:357-372 | the reference for Fx33: three digits below 10 whose value is n |
| Semantics.BcdIsDecimal | emulator/emulator.go:357-372 | the digits Fx33 stores are the decimal digits of V[x] if and only if V[x] is neither 10 nor 100 |
| Semantics.BcdAtTenAndHundred | emulator/emulator.go:359-371 | for 10 and 100 Fx33 stores 0,0,10 and 0,0,0 |
| Semantics.StoreRegisters | emulator/emulator.go:377-383 | after Fx55 address I + k holds V[k] for k < x and every other address is unchanged |
| Semantics.LoadRegisters | emulator/emulator.go:388-394 | after Fx65 V[k] holds memory[I + k] for k < x and V[x..F] are unchanged |
| Semantics.StoreThenLoad | emulator/emulator.go:377-394 | reading back the block Fx55 stored yields the stored registers below x and keeps the rest |
| Semantics.LowestPressedIsLowest | emulator/emulator.go:302-312 | the key scan returns -1 exactly when no key is down, and otherwise a pressed key with no lower key pressed |
| Semantics.AddCarries | emulator/emulator.go:206-212 | 8xy4 with x, y != F: 256 * VF + V[x] is the full sum and VF is 0 or 1, with no other register below F changed; the x or y = F cases are the three rows below |
| Semantics.FlagOverwrittenBySum | emulator/emulator.go:206-229 | 8Fy4, 8Fy5 and 8Fy7 with y != F: VF ends as the flag c plus V[y], c minus V[y], or V[y] minus c, modulo 256, where c is the carry or borrow test on the old V[F]; V0..VE are unchanged |
| Semantics.FlagIsOperand | emulator/emulator.go:206-229 | 8xF4, 8xF5 and 8xF7 with x != F: VF keeps the flag c, and V[x] becomes V[x] + c, V[x] - c or c - V[x] modulo 256; the other registers below F are unchanged |
| Semantics.FlagWithItself | emulator/emulator.go:206-229 | 8FF4 leaves 2 in VF when V[F] is at least 128 and 0 otherwise; 8FF5 and 8FF7 leave 0 |
| Semantics.SubtractBorrows | emulator/emulator.go:213-229 | 8xy5 and 8xy7 with x, y != F: VF = 1 iff the difference is positive, and V[x] is the difference modulo 256 |
| Semantics.ShiftsOut | emulator/emulator.go:220-233 | 8xy6 and 8xyE with x != F: VF is the bit shifted out and V[x] the rest, with 2 * V[x] + VF or V[x] + 256 * VF the old value |
| Semantics.FlagOverwritten | emulator/emulator.go:220-233 | with x = F the shift acts on the flag just written: 8xy6 leaves 0 in VF and 8xyE twice the old top bit |
| Semantics.AluFrame | emulator/emulator.go:196-234 | 8xy0..8xy3 write V[x] alone; an unknown selector writes no register |
| Semantics.CallThenReturn | emulator/emulator.go:162-170 | whenever the incremented sp (modulo 256) indexes the stack, 2nnn jumps to nnn and pushes pc + 2 there; a 00EE after it resumes at pc + 2 with sp restored |
| Semantics.ReturnUnderflows | emulator/emulator.go:162-164 | 00EE with sp = 0 wraps sp to 255, and the next 00EE would index outside the stack |
| Semantics.Skips | emulator/emulator.go:172-189 | each skip changes pc alone, by 4 when its test holds and by 2 otherwise |
| Semantics.Jumps | emulator/emulator.go:166-167 | 1nnn and Bnnn set pc to nnn (plus V0) and change nothing else |
| Semantics.UnknownOpcodes | emulator/emulator.go:157-400 | an unknown 0nnn, 9xyn or ExNN changes nothing, an unknown 8xyN only advances pc, and an unknown FxNN is the fatal exit |
| Semantics.OnlyFxStops | emulator/emulator.go:287-397 | a cycle ends without a next state exactly for Fx0A with no key down, and for an unknown FxNN |
| Semantics.ByteLoads | emulator/emulator.go:190-195 | 6xkk and 7xkk write V[x] alone (kk, or V[x] + kk modulo 256, VF untouched) and advance pc |
| Semantics.AluStep | emulator/emulator.go:196-234 | an 8xyN cycle sets the registers to Alu of the old ones, advances pc by 2 and changes nothing else, so the ALU lemmas above hold of the machine |
| Semantics.IndexAndRandom | emulator/emulator.go:243-250 | Annn sets I alone; Cxkk writes the random byte AND kk into V[x] alone |
| Semantics.RandomMasked | emulator/emulator.go:248-250 | whatever the random byte, Cxkk's V[x] has no bit set that kk lacks, and is 0 when kk is 0 |
| Semantics.IndexAdd | emulator/emulator.go:338-345 | Fx1E sets VF exactly when I + V[x] exceeds 255 and changes nothing but VF, I and pc; I grows modulo 2^16 by V[x] for x != F, and by the new flag for FF1E |
| Semantics.FontAddress | emulator/emulator.go:350-352 | Fx29 points I at the five font bytes of the digit in V[x] |
| Semantics.TimerMoves | emulator/emulator.go:292-333 | Fx07, Fx15 and Fx18 copy a byte between V[x] and a timer and change nothing else |
| Semantics.KeyWait | emulator/emulator.go:299-319 | Fx0A waits exactly while no key is down; otherwise V[x] gets the lowest pressed key and pc advances |
| Semantics.StoresDigits | emulator/emulator.go:357-372 | Fx33 writes its three digits at I, I+1 and I+2 and no other address; they are the decimal digits apart from 10 and 100 |
| Semantics.Transfers | emulator/emulator.go:377-394 | Fx55 and Fx65 move V0..V(x-1) to or from the memory at I, leave everything else alone and add x + 1 to I |
| Semantics.SaveThenRestore | emulator/emulator.go:377-394 | Fx65 from the address an Fx55 stored to restores the registers as they were |
| Semantics.ClearsScreen | emulator/emulator.go:159-161 | 00E0 darkens every pixel, marks the screen for redrawing and advances pc |
| Semantics.DrawsSprite | emulator/emulator.go:251-271 | Dxyn with x, y != F flips exactly the hit pixels, sets VF to 1 exactly on a collision and changes only screen, VF, the redraw mark and pc |
| Semantics.DrawnSprite | emulator/emulator.go:251-271 | right after a Dxyn the machine holds the redraw of its sprite |
| Semantics.DrawTwiceRestoresScreen | emulator/emulator.go:251-271 | the same Dxyn twice in a row leaves the screen as it found it |
| Semantics.DrawTwiceOnClearScreen | emulator/emulator.go:251-271 | on a dark screen Dxyn reports no collision, and repeating it reports one exactly when the sprite hits a pixel |
| Semantics.TimersTick | emulator/emulator.go:403 | a finished cycle ticks both timers once after the opcode ran, and a cycle that waits or exits ticks nothing |
| Semantics.SpinsOnUnknown | emulator/emulator.go:157-403 | an opcode that changes nothing is fetched again by the next cycle while the timers run down |
| Rotation.Rotated8 | emulator/emulator.go:418-423 | k one-bit left rotations of a byte |
| Rotation.Rotated64 | emulator/emulator.go:439-444 | k one-bit left rotations of a 64-bit word |
| Rotation.Shifted8 | emulator/emulator.go:406-425 | the promised result of cicularShiftLeftUint8: a rotation by shiftBy, none for shiftBy below one |
| Rotation.Shifted64 | emulator/emulator.go:427-446 | the same for cicularShiftLeftUint64 |
| Rotation.CircularShiftLeft8 | emulator/emulator.go:406-425 | the result is the input rotated left by shiftBy bits, or the input itself for a shift of 0 or less |
| Rotation.CircularShiftLeft64 | emulator/emulator.go:427-446 | the same for a 64-bit word |
| Rotation.OneBit8 | emulator/emulator.go:419-421 | the loop body, shift left and or-in the top bit, is a one-bit rotation |
| Rotation.OneBit64 | emulator/emulator.go:440-442 | the same for 64 bits |
| Rotation.Compose8 | emulator/emulator.go:418-423 | rotating by a and then by b is rotating by a + b |
| Rotation.Compose64 | emulator/emulator.go:439-444 | the same for 64 bits |
| Rotation.Period8 | emulator/emulator.go:409-411 | eight one-bit rotations give back the byte |
| Rotation.Period64 | emulator/emulator.go:430-432 | sixty-four one-bit rotations give back the word |
| Rotation.Periodic8 | emulator/emulator.go:409-416 | rotating by 8q + r is rotating by r, which justifies the early return and the reduction modulo 8 |
| Rotation.Periodic64 | emulator/emulator.go:430-437 | rotating by 64q + r is rotating by r |
| Rotation.Undo8 | emulator/emulator.go:406-425 | a rotation by k followed by one by 8 - k restores the byte |
| Rotation.Undo64 | emulator/emulator.go:427-446 | a rotation by k followed by one by 64 - k restores the word |
| Rotation.ShiftTable | emulator/chip8_test.go:16-93 | the thirteen input, shift and expected-value rows of the test table |
| Interpreter.Emulator.constructor | emulator/emulator.go:75-82 | the new object's snapshot is PowerOn |
| Interpreter.Emulator.InstallFont | emulator/emulator.go:77-79 | the font loop turns zeroed memory into PowerOn's memory |
| Interpreter.Emulator.LoadROM | emulator/emulator.go:85-96 | memory becomes LoadImage of the old memory and the ROM bytes, and only memory changes |
| Interpreter.Emulator.UpdateTimers | emulator/emulator.go:98-107 | the new snapshot is Semantics.UpdateTimers of the old one |
| Interpreter.Emulator.ClearDisplay | emulator/emulator.go:109-114 | the new snapshot is Semantics.ClearDisplay of the old one |
| Interpreter.Emulator.Place | emulator/emulator.go:117-122 | the coordinates getPixel and togglePixel address are Screen's |
| Interpreter.Emulator.TogglePixel | emulator/emulator.go:116-125 | the screen becomes Plot of the old screen at Screen(x, y), and only the framebuffer changes |
| Interpreter.Emulator.GetPixel | emulator/emulator.go:127-136 | the result is nonzero exactly when the addressed pixel is lit |
| Interpreter.Emulator.DrawPixel | emulator/emulator.go:261-267 | a set sprite bit plots the pixel and records a collision in VF; a clear one changes nothing |
| Interpreter.Emulator.DrawColumn | emulator/emulator.go:258-267 | column col of a sprite row advances screen and VF to the value model's PaintRow by one column |
| Interpreter.Emulator.DrawRow | emulator/emulator.go:254-269 | one sprite row advances screen and VF from PaintRows(row) to PaintRows(row + 1) |
| Interpreter.Emulator.DrawSprite | emulator/emulator.go:251-271 | the new snapshot is Semantics.Draw of the old one |
| Interpreter.Emulator.Arithmetic | emulator/emulator.go:196-234 | the registers become Alu of the old registers |
| Interpreter.Emulator.FirstPressed | emulator/emulator.go:302-308 | the scan returns LowestPressed of the keypad |
| Interpreter.Emulator.StoreLoop | emulator/emulator.go:378-381 | memory becomes StoreRegisters of the old memory |
| Interpreter.Emulator.LoadLoop | emulator/emulator.go:389-392 | the registers become LoadRegisters of the old registers |
| Interpreter.Emulator.StoreDigits | emulator/emulator.go:357-371 | I, I+1 and I+2 receive BcdAsWritten(V[x]) and no other address changes |
| Interpreter.Emulator.Miscellaneous | emulator/emulator.go:287-397 | the outcome and new snapshot are Semantics.Misc of the old snapshot, and a cycle that waits or exits changes nothing |
| Interpreter.Emulator.Dispatch | emulator/emulator.go:156-401 | the outcome and new snapshot are Semantics.Execute of the old snapshot |
| Interpreter.Emulator.EmulateCycle | emulator/emulator.go:139-404 | the outcome and new snapshot are Semantics.Step of the old snapshot, and a cycle that waits or exits changes nothing |

## Left out

- I/O stays outside the model:
  - reading the ROM from an `io.Reader`, and its read-error `log.Fatalf`: `LoadROM` takes the bytes;
  - the log lines;
  - the `print("beep..")` of the sound timer.
- `rand.Intn(255)` becomes the parameter `rnd`. It ranges over 0..254, as Go's does.
- Fx0A's 10 ms ticker loop is not modelled as a loop. With no key down the cycle ends as `Waiting` (`AwaitingKey`) with the state unchanged. The next call polls again, which is what the loop's next tick does. The concurrent keypad writer is not modelled.
- The `log.Fatalf` of an unknown FxNN ends the cycle as `Exited` (`Fatal`) before the timer tick. The process exit itself is not modelled. The outer `unrecognised opcode` default is unreachable, since the switch covers all sixteen high nibbles.
- Go's index-out-of-range panics become preconditions of the model and the object, collected in `Semantics.CanExecute` and `Semantics.CanStep`. The model does not say what happens after a panic. The checked conditions are:
  - pc + 1 below 4096;
  - the stack pointer inside the stack;
  - the sprite bytes and, for chip8.go, the sprite rows inside memory and the screen;
  - the key index of ExNN;
  - the memory addressed by Fx33, Fx55 and Fx65.
- `LoadROM` requires the ROM to fit from 0x200 to the end of memory, because a larger one makes the Go loop panic.
- Bytes are modelled as integers 0..255, with Go's `uint8` wrap-around written out as `Wrap8`. `|`, `&` and `^` on bytes go through 8-bit vectors. The opcode masks and the shifts of 8xy6 and 8xyE are stated as division and remainder:
  - `Machine.MasksAreFields` proves the opcode masks equal;
  - the low bit of 8xy6 (`& 0x1`) and the top bit of 8xyE (`>> 7 & 0x1`) are `% 2` and `/ 128` and are not proved against the bit expressions.
- Sprites.DrawXor, Sprites.DrawCollision, Semantics.DrawsSprite and the other draw lemmas hold only for x, y != F. With VF as a coordinate register the loop reads back the flag it is computing. The value model and the object cover that case; the closed forms do not.
- The value model's screen is a grid of booleans. Only the object keeps Go's 32 `uint64` row words, and `Framebuffer.FrameOf` relates the two.
- Rotation.CircularShiftLeft8: `shiftBy` is an unbounded integer. Go's 64-bit `int` cannot reach where that would differ. The specification is k one-bit rotations (`Rotated8`/`Rotated64`), not Dafny's `RotateLeft(k)`.
- The callers are not part of this model: the SDL player, the GIF sample, the keyboard adapter and `pkg/chip8`.
