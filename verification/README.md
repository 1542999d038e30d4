# CHIP-8 interpreter core, modelled in Dafny

A model of the interpreter core of a small Rust CHIP-8 emulator. The
repository holds several loosely connected snapshots of the interpreter,
and each is modelled against its own constants and types:

- `Instructions`: the instruction enum and the opcode decoder
  `Instruction::from_opcode` of `src/instructions.rs`. It is a total
  function from a 16-bit word to an instruction or an
  `UnknownInstruction` error. A reference assembler `Encode` is its
  partner: decoding undoes assembling, and assembling undoes decoding
  exactly where the decoder keeps the whole word.
- `InstructionList`: the second instruction enum and the list parser
  `parse_instructions` of `src/instruction.rs`, which drops words it does
  not recognise.
- `Emulator`: the emulator of `src/emulator.rs`. Its state is registers,
  an unbounded stack of return addresses, 4096 bytes of memory with the
  program at 0x200, the 64x32 frame and `pc`. The model covers
  `from_program`, `fetch_instruction`, `do_instruction` (without the
  rendering and the sleep) and `run`, with a fuel bound. `Sprite` holds
  the sprite-drawing loop of `Drw`. `EmulatorScenarios` runs the
  programs of the emulator's unit tests through the model.
- `Memory`, `Stack`, `Registers`: the leaf structures of `src/memory.rs`,
  `src/stack.rs` and `src/registers.rs`. Memory has a restricted area
  below 0x201. The stack has 16 slots.
- `Display` and `Window`: the 2-D pixel grid of `src/display.rs` and the
  flat pixel buffer of `src/window.rs`, with `Window` holding the keypad
  tables of that file too.
- `Keyboard`: the raylib keypad table of `src/keyboard.rs` and the scan
  order of `wait_for_key`. Key state is a predicate the caller supplies,
  one per poll.
- `Chip8`: the toy interpreter of `src/chip8.rs`. It runs a list of
  parsed instructions and executes only the jump.
- `Processor`: the processor of `src/processor.rs`, which combines
  `Memory`, `Stack` and `Registers` with a big-endian fetch. Its decoder
  is a parameter.
- `Common`: the integer types, the errors, `Result` and `Option`, the
  wrapping and overflowing `u8` operations, and bitwise OR/AND/XOR on
  bytes defined bit by bit.

Rust panics become error values in memory reads past the end of memory
and, with overflow checks on (the debug and test builds), in the `usize`
subtraction below zero of the jumps. The pixel flips
of `Display` and `Window` instead require an in-range index. Integers are unbounded. Every
8-bit wrap is written out. The 64-bit wrap of `usize::wrapping_add` is
written out too, as `USIZE_MODULUS`.

Where the code and the usual CHIP-8 description (Cowgod's CHIP-8
Technical Reference) disagree, the model follows the code:

- The memory of `src/memory.rs` treats everything below 0x201 as
  restricted and stores the program from 0x201. Its backing array has
  0xFFF bytes, so address 0xFFF does not exist and the largest program
  is 3582 bytes. `src/emulator.rs` instead indexes a memory it does not
  define, through `MEMORY_PROGRAM_START`. That memory is modelled as 4096
  bytes with the program at 0x200, which is what the jump test
  (`JP 0x206` landing on the fourth word) requires.
- The emulator's call stack is a `Vec`: it never overflows. `Ret` on an
  empty stack is an error.
- `Shl` and `Shr` do not set VF. `Bnnn` (`JpV0`) jumps to nnn + V0.
- `Drw` clears VF before it reads Vx and Vy, so a coordinate taken from
  VF reads 0. Every sprite pixel wraps around the frame edges on its
  own; nothing is clipped.
- Timers, the font, BCD, the register dump and load, `Rnd`, the key
  skips and `LD Vx, K` are not implemented. They fall into the
  catch-all arm and only advance `pc`.
- The decoder of `src/instructions.rs` reads both Fx07 and Fx15 as
  `LdDt`. It ignores the low nibble of 5xyN and 9xyN and the y field of
  the shifts. The parser of `src/instruction.rs` reads Bnnn as a plain
  `Jp` and drops 0x0000.
- The comment on the fifth word (0x6404) of the emulator's skip test
  calls it `SNE V2, 4`. The word is `LD V4, 4`, and the scenario is
  modelled on the word.

## Model

| member | source | states |
|---|---|---|
| Common.WrappingAdd | src/emulator.rs:94-96 | `u8::wrapping_add` gives the sum modulo 256 |
| Common.OverflowingAdd | src/emulator.rs:97-101 | `u8::overflowing_add` gives the sum modulo 256 and reports overflow exactly when the true sum reaches 256 |
| Common.OverflowingSub | src/emulator.rs:103-112 | `u8::overflowing_sub` gives the difference modulo 256 and reports a borrow exactly when the subtrahend is larger |
| Common.WrappingAddUsize | src/emulator.rs:102 | `usize::wrapping_add` on a 64-bit target stays below 2^64 and equals the sum modulo 2^64 |
| Common.ShiftLeft1 | src/emulator.rs:117 | `v <<= 1` on a byte is doubling modulo 256 |
| Common.XorCancels | src/emulator.rs:116 | XOR with the same byte twice gives back the original byte |
| Common.OrAndAbsorb | src/emulator.rs:114-115 | OR-ing or AND-ing the same byte a second time changes nothing |
| Common.OrAndSelf | src/emulator.rs:114-115 | a byte OR itself and a byte AND itself are the byte |
| Common.BitOr | src/emulator.rs:114 | `v[x] \|= v[y]`: bit k of the result is set exactly when bit k is set in either byte |
| Common.BitAnd | src/emulator.rs:115 | `v[x] &= v[y]`: bit k of the result is set exactly when bit k is set in both bytes |
| Common.BitXor | src/emulator.rs:116 | `v[x] ^= v[y]`: bit k of the result is set exactly when the two bytes differ at bit k |
| Common.BitwiseBit | src/emulator.rs:114-116 | the bit-by-bit definition of the three connectives acts on each bit independently |
| Display.New | src/display.rs:22-26 | a new grid is 32 rows of 64 pixels, all off |
| Display.Clear | src/display.rs:28-30 | clearing yields a full grid with every pixel off, whatever was drawn |
| Display.XorPixel | src/display.rs:32-36 | returns the old value of pixel (x, y), flips exactly that pixel and leaves every other pixel alone; x < 64 and y < 32 are required |
| Display.XorPixelTwice | src/display.rs:32-36 | two flips of the same pixel restore the grid, and the second reports the opposite of the first |
| Window.Clear | src/window.rs:38-40 | every cell of the 64*32 flat buffer is off |
| Window.XorPixel | src/window.rs:50-55 | addresses cell y*64 + x, returns its old value and flips only that cell; the flat index must be below 64*32 |
| Window.XorPixelTwice | src/window.rs:50-55 | two flips of the same cell restore the buffer, and the second reports the opposite of the first |
| Window.CodeToKey | src/window.rs:85-104 | every code above 15 maps to `Key0` |
| Window.KeyToCode | src/window.rs:106-125 | the code is at most 15, and it is 0 exactly for the keys outside the fifteen keypad keys |
| Window.CodeKeyRoundTrip | src/window.rs:85-125 | `key_to_code(code_to_key(c)) == c` for every c in 0..15 |
| Window.KeyCodeRoundTrip | src/window.rs:85-125 | `code_to_key(key_to_code(k)) == k` for every keypad key |
| Keyboard.CodeToKey | src/keyboard.rs:20-39 | a code maps to `KEY_ZERO` exactly when it is 0 or above 15 |
| Keyboard.IsKeyPressed | src/keyboard.rs:5-7 | a code outside 1..15 reads the state of `KEY_ZERO`; a code in 1..15 reads the state of its own key, which is never `KEY_ZERO` |
| Keyboard.CodeToKeyInjective | src/keyboard.rs:20-39 | distinct codes in 0..15 map to distinct keys |
| Keyboard.ScanOnce | src/keyboard.rs:10-15 | one pass returns the smallest code in 1..15 whose key is down, or none when no such key is down; it never returns 0 |
| Keyboard.FirstPressedSpec | src/keyboard.rs:10-15 | the reference scan from any start code finds a pressed code with no pressed code before it, or finds none when no code from there on is pressed |
| Keyboard.IdleIsNoKeyDown | src/keyboard.rs:10-15 | a poll yields nothing exactly when none of the codes 1..15 is down |
| Keyboard.WaitForKey | src/keyboard.rs:9-18 | the wait returns the first pressed code of the first poll that has one; every earlier poll had no key down; when nothing is found, every poll was idle |
| Memory.New | src/memory.rs:23-28 | a new memory has 0xFFF zero bytes and no program |
| Memory.At | src/memory.rs:30-35 | reading succeeds exactly for 0x201 <= i < 0xFFF and returns the stored byte; below 0x201 it is the restricted-access error |
| Memory.LoadProgram | src/memory.rs:37-49 | fails exactly when the program is longer than 3582 bytes; otherwise sets `program_len`, makes `at(0x201 + k)` return byte k, fits inside the array and leaves every other byte alone |
| Memory.NewReadsZero | src/memory.rs:56-71 | a new memory reads 0 on the whole unrestricted area and refuses every read below 0x201 |
| Memory.LoadBoundary | src/memory.rs:3-46 | a 3582-byte program loads, and one more byte is refused with its length |
| Memory.LoadExample | src/memory.rs:73-85 | loading `00 E0 00 EE` stores those bytes at 0x201..0x204 and sets `program_len` to 4 |
| Registers.New | src/registers.rs:36-41 | sixteen data registers, every one 0, and I = 0 |
| Stack.New | src/stack.rs:21-26 | a new stack is empty and every slot holds 0 |
| Stack.Push | src/stack.rs:31-40 | fails with overflow exactly when 16 addresses are stored; otherwise the stored addresses gain `address` on top |
| Stack.Pop | src/stack.rs:46-53 | fails exactly when the stack is empty; otherwise it returns the top address and the rest of the stack below it |
| Stack.PushThenPop | src/stack.rs:31-53 | a push then a pop returns the pushed address and restores the pointer and the stored addresses |
| Stack.PushAllContents | src/stack.rs:31-40 | a series of pushes succeeds exactly when the addresses fit in the free slots, and appends them in order |
| Stack.PopNReverse | src/stack.rs:46-53 | popping n addresses yields the top n in reverse and leaves the rest |
| Stack.PushAllPopAll | src/stack.rs:31-53 | LIFO: up to sixteen pushes onto a new stack, then as many pops, give the addresses back in reverse and empty the stack |
| Stack.SeventeenthPushFails | src/stack.rs:79-85 | sixteen pushes succeed and the seventeenth overflows |
| Stack.PushPopExample | src/stack.rs:69-88 | push 42, push 7, then the pops give 7 and 42; popping a new stack underflows |
| Instructions.FieldsRecompose | src/instructions.rs:92-96 | the decoder's fields are the nibbles of the word: group, x, y and nibble recompose it, byte is y:nibble and addr is x:byte |
| Instructions.FromOpcode | src/instructions.rs:91-143 | decoding succeeds exactly on the recognised words, fails with the word itself otherwise, and every decoded field fits its opcode field |
| Instructions.DecodeEncode | src/instructions.rs:91-143 | decoding the canonical opcode of any well-formed instruction gives that instruction back |
| Instructions.EncodeDecode | src/instructions.rs:91-143 | re-assembling a decoded word gives its canonical form (N of 5xyN and 9xyN cleared, y of 8xy6 and 8xyE cleared, Fx07 read as Fx15), so the decoded instruction depends on that form alone; it gives the word itself exactly when none of those bits was dropped |
| Instructions.ForgottenBitsIgnored | src/instructions.rs:108-131 | for every word, the low nibble of 5xyN and 9xyN, the y field of 8xy6 and 8xyE, and Fx07 against Fx15 make no difference to the decoded result |
| Instructions.NotInjective | src/instructions.rs:116-118 | Fx07 and Fx15 decode to the same `LdDt` |
| Instructions.WholeGroupsDecode | src/instructions.rs:100-138 | leading nibbles 1-7 and 9-D decode whatever the low twelve bits |
| Instructions.SystemGroup | src/instructions.rs:98-141 | in group 0 only 0x0000 (Nop), 0x00E0 (Cls) and 0x00EE (Ret) decode |
| Instructions.ArithmeticGroup | src/instructions.rs:114-141 | in group 8 the low nibbles 8-D and F are errors and the others decode |
| Instructions.DecodeVectors1 | src/instructions.rs:156-165 | the first nine sample opcodes of the unit test decode as the test expects |
| Instructions.DecodeVectors2 | src/instructions.rs:166-175 | the next nine sample opcodes decode as expected |
| Instructions.DecodeVectors3 | src/instructions.rs:176-185 | the next nine sample opcodes decode as expected |
| Instructions.DecodeVectors4 | src/instructions.rs:186-192 | the shift and arithmetic sample opcodes decode as expected |
| Instructions.DecodeVectors5 | src/instructions.rs:194-202 | 0xD123 decodes to `Drw(1, 2, 3)` and 0x00E0 to `Cls` |
| InstructionList.ParseOne | src/instruction.rs:123-170 | every instruction the parser produces from a word has fields that fit the opcode fields |
| InstructionList.ParseInstructions | src/instruction.rs:119-175 | the loop's output is the per-word reference parse in input order, no longer than the input, and every instruction in it is well formed |
| InstructionList.ParsedAppend | src/instruction.rs:122-172 | parsing a concatenation is the concatenation of the parses |
| InstructionList.ParsedBounds | src/instruction.rs:123-171 | the parse is never longer than its input and produces only well-formed instructions |
| InstructionList.ParseOneMatchesDecoder | src/instruction.rs:123-170 | every word parses to the instruction the decoder of `src/instructions.rs` gives it, fields included, under this file's names, with Bnnn a plain `Jp` and 0x0000 dropped; the only difference is Fx07, parsed as `LdVxDt` where the decoder gives the `LdDt` of Fx15 |
| InstructionList.AgreesWithDecoder | src/instruction.rs:129-169 | a word is kept exactly when the decoder of `src/instructions.rs` accepts it, except 0x0000, which is dropped |
| InstructionList.JumpWithOffsetIsPlainJump | src/instruction.rs:133-153 | 0xBnnn parses to the same `Jp` as 0x1nnn |
| InstructionList.NeverJpV0Addr | src/instruction.rs:129-169 | no parse ever contains `JpV0Addr` |
| InstructionList.ArithmeticGroupKept | src/instruction.rs:141-169 | a group-8 word is kept exactly when its low nibble is 0-7 or E |
| InstructionList.ParseNoArgs | src/instruction.rs:181-187 | `[0x00E0, 0x00EE]` parses to `[Cls, Ret]` |
| InstructionList.ParseAddrArgs | src/instruction.rs:189-195 | `[0x1abc, 0x2def]` parses to `[Jp 0xabc, Call 0xdef]` |
| InstructionList.ParseVxByteArgs | src/instruction.rs:197-206 | `[0x3abc, 0x4def]` parses to the two byte comparisons |
| InstructionList.ParseVxVyArgs | src/instruction.rs:208-217 | `[0x8ab0, 0x8cd1]` parses to `LdVxVy` and `OrVxVy` |
| InstructionList.ParseFPrefix | src/instruction.rs:219-229 | `[0xFA07, 0xFB0A, 0xFC15]` parses to the three timer and key loads |
| InstructionList.ParseEPrefix | src/instruction.rs:231-237 | `[0xEA9E, 0xEBA1]` parses to the two key skips |
| InstructionList.ParseDraw | src/instruction.rs:239-249 | `[0xD123]` parses to `Drw(1, 2, 3)` |
| InstructionList.ParseDropsZero | src/instruction.rs:129-169 | 0x0000 is dropped without an error, and parsing continues after it |
| Chip8.New | src/chip8.rs:12-20 | fifteen zero registers, sixteen zero stack slots, sp 0, pc 0 and no program |
| Chip8.LoadProgram | src/chip8.rs:22-24 | the program is replaced, and pc, sp, registers and stack stay as they were |
| Chip8.DoInstruction | src/chip8.rs:32-42 | a `Jp` sets pc to its address with no increment; anything else adds 1 to pc; nothing but pc changes |
| Chip8.Run | src/chip8.rs:26-30 | when the run stops, pc has left the program and only pc has changed |
| Chip8.RunStraightLine | src/chip8.rs:26-42 | a stretch without jumps runs off the end of the program and stops with pc at its length |
| Chip8.SelfJumpNeverStops | src/chip8.rs:26-42 | a jump to itself never stops, whatever the fuel |
| Chip8.JumpExample | src/chip8.rs:49-66 | a loaded program is kept as given, and `[Jp 0xa]` from pc 0 stops with pc 0xa |
| Processor.FromProgram | src/processor.rs:17-26 | fails exactly when the memory refuses the program, with its error; otherwise fresh registers, an empty stack, pc 0x201 and the program readable at 0x201 |
| Processor.FetchInstruction | src/processor.rs:35-39 | decodes memory[pc]*256 + memory[pc+1] and advances pc by exactly 2 after two successful reads, even when decoding then fails; a failed read leaves pc alone; from pc >= 0x201 only the end of memory can fail a read |
| Processor.FetchExample | src/processor.rs:56-65 | after loading `00 E0 00 EE`, three fetches decode 0x00E0, 0x00EE and 0x0000 and leave pc at 0x207 |
| Emulator.FromProgram | src/emulator.rs:26-36 | fails exactly when the program does not fit above 0x200; otherwise zero registers, an empty stack, a clear frame, pc 0x200 and the program at 0x200 |
| Emulator.BigEndian | src/emulator.rs:166 | the word's high byte is the first byte and its low byte the second |
| Emulator.Flag | src/emulator.rs:100 | `bool::into` gives 1 for true and 0 for false, the only two values VF takes from a flag |
| Emulator.Advance | src/emulator.rs:149 | the trailing `pc += 2`: an error from the arm passes through unchanged, and otherwise only `pc` moves, by 2 |
| Emulator.Fetch | src/emulator.rs:165-168 | decodes the big-endian word at pc; fails exactly when that word lies past the end of memory or is not a recognised opcode |
| Emulator.Draw | src/emulator.rs:121-144 | each pixel the sprite at I hits, at the wrapped coordinates, is flipped and no other pixel is; VF = 1 exactly when some flipped pixel was lit; only VF and the frame change; fails exactly when the sprite runs past the end of memory |
| Emulator.ExecuteFlow | src/emulator.rs:73-83 | `Jp` and `JpV0` land on addr and addr + V0, `Call` pushes its own address and lands on addr; `Jp` and `Call` fail when addr < 2 and `JpV0` when addr + V0 < 2; `Ret` fails exactly on an empty stack and otherwise resumes 2 past the popped address |
| Emulator.ExecuteSkip | src/emulator.rs:85-88 | each skip advances pc by 4 when its condition holds and by 2 otherwise, and changes nothing else |
| Emulator.ExecuteLoad | src/emulator.rs:90-102 | loads set Vx or I; `AddVxByte` adds modulo 256 and leaves VF alone; `AddI` adds modulo 2^64; nothing else but pc changes |
| Emulator.ExecuteArith | src/emulator.rs:97-112 | add, sub and subn write the result modulo 256 to Vx and then VF = carry or no-borrow, so the flag wins when x is F |
| Emulator.ExecuteLogic | src/emulator.rs:114-116 | OR, AND and XOR change only Vx (and pc) |
| Emulator.ExecuteShift | src/emulator.rs:117-118 | `Shl` doubles Vx modulo 256 and `Shr` halves it; VF is untouched |
| Emulator.ExecuteOther | src/emulator.rs:120-146 | `Cls` turns every pixel off and changes nothing else; `Drw` is the draw above; every unimplemented instruction only advances pc by 2 |
| Emulator.Execute | src/emulator.rs:61-159 | no instruction writes memory or changes the program length, and every successful step leaves a well-formed machine |
| Emulator.Step | src/emulator.rs:52-53 | one loop turn keeps memory and the program length and leaves a well-formed machine |
| Emulator.Run | src/emulator.rs:42-56 | when the run halts, pc has left the program and memory is unchanged; a machine already outside its program halts at once |
| Emulator.CallThenRet | src/emulator.rs:76-83 | a `Ret` after a `Call`, once the stack is back as the call left it, resumes 2 past the call with the stack as before |
| Emulator.XorTwiceRestores | src/emulator.rs:116 | `XOR Vx, Vy` twice (x != y) restores every register; only pc moves |
| Emulator.OrIdempotent | src/emulator.rs:114 | a second `OR Vx, Vy` changes nothing but pc |
| Emulator.AndIdempotent | src/emulator.rs:115 | a second `AND Vx, Vy` changes nothing but pc |
| Emulator.DrawTwiceRestores | src/emulator.rs:121-144 | the same `Drw` twice restores the frame |
| Emulator.FetchExample | src/emulator.rs:185-196 | after loading `00 E0 00 EE` the words at 0x200, 0x202 and 0x204 decode to `Cls`, `Ret` and `Nop` |
| Emulator.RetOutsideSubroutineFails | src/emulator.rs:282-287 | running the program `00 EE` fails with the return-outside-subroutine error |
| Sprite.BitSet | src/emulator.rs:134 | the mask test `sprite_byte & (0x80 >> bit) != 0` holds exactly when bit 7 - bit of the row, counted from the least significant, is 1 |
| Sprite.DrawRow | src/emulator.rs:133-142 | drawing one sprite row keeps the frame well formed |
| Sprite.DrawRowFlips | src/emulator.rs:133-142 | a row flips exactly the pixels of its line that its set bits hit, wrapping at 64 columns, and reports a collision exactly when one of them was lit |
| Sprite.DrawSprite | src/emulator.rs:130-143 | drawing the rows keeps the frame well formed |
| Sprite.DrawSpriteFlips | src/emulator.rs:130-143 | a sprite of at most 15 rows flips exactly the pixels it hits, wrapping at both edges, and reports a collision exactly when one of them was lit |
| Sprite.HitIsSetBit | src/emulator.rs:133-136 | pixel (qx, qy) is hit exactly when some row r and bit b with ((x0 + b) mod 64, (y0 + r) mod 32) = (qx, qy) has that bit set |
| Sprite.DrawTwiceRestores | src/emulator.rs:130-143 | drawing the same sprite at the same place twice restores the frame |
| EmulatorScenarios.Loaded | src/emulator.rs:26-36 | a fresh machine holds its program at 0x200, starts at 0x200 and has an empty stack |
| EmulatorScenarios.Through | src/emulator.rs:51-53 | while pc is inside the program, one loop turn fetches the word at pc from the program, executes it and keeps the program loaded |
| EmulatorScenarios.JumpScenario | src/emulator.rs:198-212 | the jump test's program halts with V1 = 0x42 and V2 = 0x24 |
| EmulatorScenarios.LoadScenario | src/emulator.rs:214-221 | the load test's program halts with V1 = V2 = 0xAB |
| EmulatorScenarios.SkipScenario | src/emulator.rs:223-245 | the skip test's program halts with V1..V4 = 2, 4, 6, 8 |
| EmulatorScenarios.ArithmeticScenario | src/emulator.rs:247-263 | the arithmetic test's program halts with V1 = 4, V2 = 6 and VF = 1 |
| EmulatorScenarios.SubroutineScenario | src/emulator.rs:265-280 | the subroutine test's program halts with V1 = 0x42 and V2 = 7 |

## Left out

- Rendering and windowing are left out as foreign I/O. This covers raylib
  set-up, the draw handle, `render` and the one-millisecond sleep of
  `do_instruction`, `Display::draw` and `draw_pixel`, and the minifb
  window with its scaled framebuffer and `update`.
- Live keyboard queries are left out: `is_key_down`, `get_pressed_key`,
  `should_close` and the key query behind `is_key_pressed`. Key state is
  a caller-supplied predicate instead.
- Keyboard.WaitForKey: the source polls forever and sleeps between polls.
  The model takes a finite list of polls and returns nothing when all of
  them are idle.
- `Processor::run` is left out: an endless loop that prints instructions.
- `decode_instruction` of `src/processor.rs` is not part of this model.
  `Processor.FetchInstruction` takes the decoder as a parameter.
- `src/main.rs` is left out: argument parsing, logging and reading the
  program file.
- Timers, the font, BCD, the register dump and load, `Rnd` and key waits
  are not implemented by any executor. The model only shows them falling
  into the no-op arm, in `Emulator.ExecuteOther`.
- Emulator.Run and Chip8.Run take a fuel bound. A run that needs more
  steps ends as `OutOfFuel` or `None`, so a run that never stops is not
  told apart from one that stops later.
- Emulator.Execute requires a well-formed instruction (register
  selectors below 16, addresses below 0x1000). `do_instruction` is only
  fed decoder output, which always has that shape.
- Emulator.Execute: `pc` is unbounded in the model. The `usize` overflow
  of `pc += 2` after about 2^64 steps is not modelled.
- Cross-file mismatches are not reconciled: the `Memory` and `Display`
  API that `src/emulator.rs` calls, and the `Copy` the `Chip8`
  interpreter assumes of its instructions. Each file is modelled against
  its own constants.
- EmulatorScenarios.JumpScenario, LoadScenario, SkipScenario,
  ArithmeticScenario and SubroutineScenario are stated for any machine
  holding the program at 0x200 with `pc` at 0x200. `EmulatorScenarios.Loaded`
  shows that `from_program` yields such a machine.
- Sprite.DrawRow and Sprite.DrawSprite: their own contracts only keep the
  frame well formed. What they draw is stated by Sprite.DrawRowFlips and
  Sprite.DrawSpriteFlips, which the `Drw` contract builds on.
- InstructionList.ParseOne: its own contract states only that the fields
  fit. What each word becomes is stated by
  InstructionList.ParseOneMatchesDecoder against the decoder, and which
  words are kept by InstructionList.AgreesWithDecoder and
  InstructionList.ArithmeticGroupKept.
- Window.XorPixel / Display.XorPixel: they require an in-range index
  instead of modelling the index panic of `src/window.rs:50-55` and
  `src/display.rs:32-36`. The only caller of `Display::xor_pixel` is
  the `Drw` arm (`src/emulator.rs:135-138`), which wraps both
  coordinates before it calls. `Window::xor_pixel` has no caller in the
  repository, so its requirement (`y * 64 + x < 2048`) rules out no
  existing call.
- Emulator.ExecuteFlow: the `addr - 2` of `Jp`, `JpV0` and `Call` is an
  error below address 2, as in a build with overflow checks on. A
  release build wraps the subtraction and the trailing `pc += 2` wraps
  back, so there `JP 0x000` lands on 0; that behaviour is not modelled.
- Emulator.Execute and Emulator.Step: their own contracts state only the
  frame (memory, program length, well-formedness). The effect of each
  instruction is stated per family by Emulator.ExecuteFlow,
  Emulator.ExecuteSkip, Emulator.ExecuteLoad, Emulator.ExecuteArith,
  Emulator.ExecuteLogic, Emulator.ExecuteShift and Emulator.ExecuteOther,
  which `Execute` dispatches to.
