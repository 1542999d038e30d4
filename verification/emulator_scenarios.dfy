/** The programs the emulator of src/emulator.rs is exercised with, run
    through the model: each lemma follows a program from `from_program`
    to the end of `run` and states the registers it leaves behind. Longer
    programs are followed a few steps per lemma. */
module EmulatorScenarios {
  import opened Common
  import Instructions
  import opened Emulator

  /** `e` holds `program` at 0x200 and knows its length. */
  predicate Holds(e: Emulator, program: seq<u8>) {
    && e.Valid()
    && e.programLen == |program|
    && |program| <= MEMORY_SIZE - MEMORY_PROGRAM_START
    && forall k | 0 <= k < |program| :: e.memory[MEMORY_PROGRAM_START + k] == program[k]
  }

  /** A fresh machine holds its program and starts at 0x200. */
  lemma Loaded(program: seq<u8>)
    requires |program| <= MEMORY_SIZE - MEMORY_PROGRAM_START
    ensures FromProgram(program).Ok?
    ensures var e := FromProgram(program).value;
            Holds(e, program) && e.pc == MEMORY_PROGRAM_START && e.stack == []
  {
  }

  /** The word at `pc`, inside `program`, decodes to `ins`. */
  predicate At(e: Emulator, program: seq<u8>, ins: Instructions.Instruction) {
    && MEMORY_PROGRAM_START <= e.pc && e.pc + 1 < MEMORY_PROGRAM_START + |program|
    && Instructions.FromOpcode(BigEndian(program[e.pc - MEMORY_PROGRAM_START],
                                         program[e.pc - MEMORY_PROGRAM_START + 1])) == Ok(ins)
  }

  /** One turn of the loop of `run`: at a `pc` inside the program, the
      word there is fetched and executed, and the program stays loaded. */
  lemma Through(e: Emulator, fuel: nat, program: seq<u8>, ins: Instructions.Instruction, next: Emulator)
    requires Holds(e, program) && fuel > 0 && At(e, program, ins)
    requires ins.WellFormed() && Execute(e, ins) == Ok(next)
    ensures Run(e, fuel) == Run(next, fuel - 1)
    ensures Holds(next, program)
  {
    assert e.memory[e.pc] == program[e.pc - MEMORY_PROGRAM_START];
    assert e.memory[e.pc + 1] == program[e.pc - MEMORY_PROGRAM_START + 1];
  }

  /** Loop turns of `run`, one per kind of instruction the programs below
      use, each naming the state the turn leaves. */
  lemma LoadStep(e: Emulator, fuel: nat, program: seq<u8>, x: nat, byte: u8)
    requires Holds(e, program) && fuel > 0 && At(e, program, Instructions.LdVxByte(x, byte))
    ensures var next := WithData(e, e.registers.data[x := byte]);
            Holds(next, program) && Run(e, fuel) == Run(next, fuel - 1)
  {
    Through(e, fuel, program, Instructions.LdVxByte(x, byte), WithData(e, e.registers.data[x := byte]));
  }

  lemma CopyStep(e: Emulator, fuel: nat, program: seq<u8>, x: nat, y: nat)
    requires Holds(e, program) && fuel > 0 && At(e, program, Instructions.LdVxVy(x, y))
    ensures var next := WithData(e, e.registers.data[x := e.registers.data[y]]);
            Holds(next, program) && Run(e, fuel) == Run(next, fuel - 1)
  {
    Through(e, fuel, program, Instructions.LdVxVy(x, y), WithData(e, e.registers.data[x := e.registers.data[y]]));
  }

  lemma AddByteStep(e: Emulator, fuel: nat, program: seq<u8>, x: nat, byte: u8, sum: u8)
    requires Holds(e, program) && fuel > 0 && At(e, program, Instructions.AddVxByte(x, byte))
    requires x < 16 && sum == (e.registers.data[x] as int + byte) % 0x100
    ensures var next := WithData(e, e.registers.data[x := sum]);
            Holds(next, program) && Run(e, fuel) == Run(next, fuel - 1)
  {
    Through(e, fuel, program, Instructions.AddVxByte(x, byte), WithData(e, e.registers.data[x := sum]));
  }

  /** The ALU steps take the result byte and the flag the caller expects. */
  lemma AddStep(e: Emulator, fuel: nat, program: seq<u8>, x: nat, y: nat, sum: u8, carry: bool)
    requires Holds(e, program) && fuel > 0 && At(e, program, Instructions.AddVxVy(x, y))
    requires x < 16 && y < 16
    requires sum == (e.registers.data[x] as int + e.registers.data[y]) % 0x100
    requires carry <==> e.registers.data[x] as int + e.registers.data[y] >= 0x100
    ensures var next := WithData(e, e.registers.data[x := sum][FLAG := Flag(carry)]);
            Holds(next, program) && Run(e, fuel) == Run(next, fuel - 1)
  {
    Through(e, fuel, program, Instructions.AddVxVy(x, y), WithData(e, e.registers.data[x := sum][FLAG := Flag(carry)]));
  }

  lemma SubStep(e: Emulator, fuel: nat, program: seq<u8>, x: nat, y: nat, diff: u8, noBorrow: bool)
    requires Holds(e, program) && fuel > 0 && At(e, program, Instructions.Sub(x, y))
    requires x < 16 && y < 16
    requires diff == (e.registers.data[x] as int - e.registers.data[y]) % 0x100
    requires noBorrow <==> e.registers.data[x] >= e.registers.data[y]
    ensures var next := WithData(e, e.registers.data[x := diff][FLAG := Flag(noBorrow)]);
            Holds(next, program) && Run(e, fuel) == Run(next, fuel - 1)
  {
    Through(e, fuel, program, Instructions.Sub(x, y), WithData(e, e.registers.data[x := diff][FLAG := Flag(noBorrow)]));
  }

  lemma SubnStep(e: Emulator, fuel: nat, program: seq<u8>, x: nat, y: nat, diff: u8, noBorrow: bool)
    requires Holds(e, program) && fuel > 0 && At(e, program, Instructions.Subn(x, y))
    requires x < 16 && y < 16
    requires diff == (e.registers.data[y] as int - e.registers.data[x]) % 0x100
    requires noBorrow <==> e.registers.data[y] >= e.registers.data[x]
    ensures var next := WithData(e, e.registers.data[x := diff][FLAG := Flag(noBorrow)]);
            Holds(next, program) && Run(e, fuel) == Run(next, fuel - 1)
  {
    Through(e, fuel, program, Instructions.Subn(x, y), WithData(e, e.registers.data[x := diff][FLAG := Flag(noBorrow)]));
  }

  lemma JumpStep(e: Emulator, fuel: nat, program: seq<u8>, addr: nat)
    requires Holds(e, program) && fuel > 0 && At(e, program, Instructions.Jp(addr)) && addr >= 2
    ensures Holds(e.(pc := addr), program) && Run(e, fuel) == Run(e.(pc := addr), fuel - 1)
  {
    Through(e, fuel, program, Instructions.Jp(addr), e.(pc := addr));
  }

  lemma CallStep(e: Emulator, fuel: nat, program: seq<u8>, addr: nat)
    requires Holds(e, program) && fuel > 0 && At(e, program, Instructions.Call(addr)) && addr >= 2
    ensures var next := e.(stack := e.stack + [e.pc], pc := addr);
            Holds(next, program) && Run(e, fuel) == Run(next, fuel - 1)
  {
    Through(e, fuel, program, Instructions.Call(addr), e.(stack := e.stack + [e.pc], pc := addr));
  }

  lemma RetStep(e: Emulator, fuel: nat, program: seq<u8>, rest: seq<nat>, back: nat)
    requires Holds(e, program) && fuel > 0 && At(e, program, Instructions.Ret) && e.stack == rest + [back]
    ensures var next := e.(stack := rest, pc := back + 2);
            Holds(next, program) && Run(e, fuel) == Run(next, fuel - 1)
  {
    assert e.stack[..|e.stack| - 1] == rest;
    assert ExecuteFlow(e, Instructions.Ret) == Ok(e.(stack := rest, pc := back + 2));
    Through(e, fuel, program, Instructions.Ret, e.(stack := rest, pc := back + 2));
  }

  lemma SkipStep(e: Emulator, fuel: nat, program: seq<u8>, ins: Instructions.Instruction, taken: bool)
    requires Holds(e, program) && fuel > 0 && At(e, program, ins)
    requires ins.SeVxByte? ==> (taken <==> e.registers.data[ins.x] == ins.byte)
    requires ins.SeVxVy? ==> (taken <==> e.registers.data[ins.x] == e.registers.data[ins.y])
    requires ins.SneVxVy? ==> (taken <==> e.registers.data[ins.x] != e.registers.data[ins.y])
    requires ins.SeVxByte? || ins.SeVxVy? || ins.SneVxVy?
    ensures var next := e.(pc := e.pc + if taken then 4 else 2);
            Holds(next, program) && Run(e, fuel) == Run(next, fuel - 1)
  {
    Through(e, fuel, program, ins, e.(pc := e.pc + if taken then 4 else 2));
  }

  // Each program below is followed one loop turn per lemma: a lemma takes
  // the state at one `pc`, runs the word there and hands the next state
  // on, and the last one shows the run leaving the program.

  const JUMP_PROGRAM: seq<u8> := [0x61, 0x42, 0x12, 0x06, 0x61, 0xFF, 0x62, 0x24]

  predicate JumpResult(r: Outcome) {
    r.Halted? && r.state.Valid() && r.state.registers.data[1] == 0x42 && r.state.registers.data[2] == 0x24
  }

  /** `LD V1, 0x42; JP 0x206; LD V1, 0xFF; LD V2, 0x24`: the jump skips
      the second load of V1. */
  lemma JumpScenario(e: Emulator)
    requires Holds(e, JUMP_PROGRAM) && e.pc == MEMORY_PROGRAM_START
    ensures JumpResult(Run(e, 3))
  {
    assert Instructions.FromOpcode(0x6142) == Ok(Instructions.LdVxByte(1, 0x42));
    LoadStep(e, 3, JUMP_PROGRAM, 1, 0x42);
    JumpFrom202(WithData(e, e.registers.data[1 := 0x42]));
  }

  lemma JumpFrom202(e: Emulator)
    requires Holds(e, JUMP_PROGRAM) && e.pc == 0x202 && e.registers.data[1] == 0x42
    ensures JumpResult(Run(e, 2))
  {
    assert Instructions.FromOpcode(0x1206) == Ok(Instructions.Jp(0x206));
    JumpStep(e, 2, JUMP_PROGRAM, 0x206);
    JumpFrom206(e.(pc := 0x206));
  }

  lemma JumpFrom206(e: Emulator)
    requires Holds(e, JUMP_PROGRAM) && e.pc == 0x206 && e.registers.data[1] == 0x42
    ensures JumpResult(Run(e, 1))
  {
    assert Instructions.FromOpcode(0x6224) == Ok(Instructions.LdVxByte(2, 0x24));
    LoadStep(e, 1, JUMP_PROGRAM, 2, 0x24);
    assert Run(e, 1) == Halted(WithData(e, e.registers.data[2 := 0x24]));
  }

  const LOAD_PROGRAM: seq<u8> := [0x61, 0xAB, 0x82, 0x10]

  predicate LoadResult(r: Outcome) {
    r.Halted? && r.state.Valid() && r.state.registers.data[1] == 0xAB && r.state.registers.data[2] == 0xAB
  }

  /** `LD V1, 0xAB; LD V2, V1` copies the byte into V2. */
  lemma LoadScenario(e: Emulator)
    requires Holds(e, LOAD_PROGRAM) && e.pc == MEMORY_PROGRAM_START
    ensures LoadResult(Run(e, 2))
  {
    assert Instructions.FromOpcode(0x61AB) == Ok(Instructions.LdVxByte(1, 0xAB));
    LoadStep(e, 2, LOAD_PROGRAM, 1, 0xAB);
    LoadFrom202(WithData(e, e.registers.data[1 := 0xAB]));
  }

  lemma LoadFrom202(e: Emulator)
    requires Holds(e, LOAD_PROGRAM) && e.pc == 0x202 && e.registers.data[1] == 0xAB
    ensures LoadResult(Run(e, 1))
  {
    assert Instructions.FromOpcode(0x8210) == Ok(Instructions.LdVxVy(2, 1));
    CopyStep(e, 1, LOAD_PROGRAM, 2, 1);
    assert Run(e, 1) == Halted(WithData(e, e.registers.data[2 := 0xAB]));
  }

  const SUBROUTINE_PROGRAM: seq<u8> := [0x22, 0x06, 0x62, 0x07, 0x13, 0x00, 0x61, 0x42, 0x00, 0xEE]

  predicate SubroutineResult(r: Outcome) {
    r.Halted? && r.state.Valid() && r.state.registers.data[1] == 0x42 && r.state.registers.data[2] == 0x07
  }

  /** `CALL 0x206` runs `LD V1, 0x42; RET`, comes back to `LD V2, 7`, and
      `JP 0x300` leaves the program. */
  lemma SubroutineScenario(e: Emulator)
    requires Holds(e, SUBROUTINE_PROGRAM) && e.pc == MEMORY_PROGRAM_START
    ensures SubroutineResult(Run(e, 5))
  {
    assert Instructions.FromOpcode(0x2206) == Ok(Instructions.Call(0x206));
    CallStep(e, 5, SUBROUTINE_PROGRAM, 0x206);
    SubroutineFrom206(e.(stack := e.stack + [e.pc], pc := 0x206), e.stack);
  }

  lemma SubroutineFrom206(e: Emulator, rest: seq<nat>)
    requires Holds(e, SUBROUTINE_PROGRAM) && e.pc == 0x206 && e.stack == rest + [0x200]
    ensures SubroutineResult(Run(e, 4))
  {
    assert Instructions.FromOpcode(0x6142) == Ok(Instructions.LdVxByte(1, 0x42));
    LoadStep(e, 4, SUBROUTINE_PROGRAM, 1, 0x42);
    SubroutineFrom208(WithData(e, e.registers.data[1 := 0x42]), rest);
  }

  lemma SubroutineFrom208(e: Emulator, rest: seq<nat>)
    requires Holds(e, SUBROUTINE_PROGRAM) && e.pc == 0x208 && e.stack == rest + [0x200]
    requires e.registers.data[1] == 0x42
    ensures SubroutineResult(Run(e, 3))
  {
    assert At(e, SUBROUTINE_PROGRAM, Instructions.Ret) by {
      assert Instructions.FromOpcode(0x00EE) == Ok(Instructions.Ret);
    }
    RetStep(e, 3, SUBROUTINE_PROGRAM, rest, 0x200);
    var next := e.(stack := rest, pc := 0x202);
    assert next.pc == 0x202 && next.registers.data[1] == 0x42;
    SubroutineFrom202(next);
  }

  lemma SubroutineFrom202(e: Emulator)
    requires Holds(e, SUBROUTINE_PROGRAM) && e.pc == 0x202 && e.registers.data[1] == 0x42
    ensures SubroutineResult(Run(e, 2))
  {
    assert Instructions.FromOpcode(0x6207) == Ok(Instructions.LdVxByte(2, 0x07));
    LoadStep(e, 2, SUBROUTINE_PROGRAM, 2, 0x07);
    SubroutineFrom204(WithData(e, e.registers.data[2 := 0x07]));
  }

  lemma SubroutineFrom204(e: Emulator)
    requires Holds(e, SUBROUTINE_PROGRAM) && e.pc == 0x204
    requires e.registers.data[1] == 0x42 && e.registers.data[2] == 0x07
    ensures SubroutineResult(Run(e, 1))
  {
    assert Instructions.FromOpcode(0x1300) == Ok(Instructions.Jp(0x300));
    JumpStep(e, 1, SUBROUTINE_PROGRAM, 0x300);
    assert Run(e, 1) == Halted(e.(pc := 0x300));
  }

  const ARITHMETIC_PROGRAM: seq<u8> := [0x61, 0x02, 0x62, 0x04, 0x72, 0x02, 0x81, 0x24, 0x81, 0x25, 0x81, 0x27]

  predicate ArithmeticResult(r: Outcome) {
    && r.Halted? && r.state.Valid()
    && r.state.registers.data[1] == 4 && r.state.registers.data[2] == 6 && r.state.registers.data[FLAG] == 1
  }

  /** V1 = 2, V2 = 4, V2 += 2, V1 += V2, V1 -= V2, V1 = V2 - V1: the run
      ends with V1 = 4, V2 = 6 and, as the last subtraction does not
      borrow, VF = 1. */
  lemma ArithmeticScenario(e: Emulator)
    requires Holds(e, ARITHMETIC_PROGRAM) && e.pc == MEMORY_PROGRAM_START
    ensures ArithmeticResult(Run(e, 6))
  {
    assert Instructions.FromOpcode(0x6102) == Ok(Instructions.LdVxByte(1, 2));
    LoadStep(e, 6, ARITHMETIC_PROGRAM, 1, 2);
    ArithmeticFrom202(WithData(e, e.registers.data[1 := 2]));
  }

  lemma ArithmeticFrom202(e: Emulator)
    requires Holds(e, ARITHMETIC_PROGRAM) && e.pc == 0x202 && e.registers.data[1] == 2
    ensures ArithmeticResult(Run(e, 5))
  {
    assert Instructions.FromOpcode(0x6204) == Ok(Instructions.LdVxByte(2, 4));
    LoadStep(e, 5, ARITHMETIC_PROGRAM, 2, 4);
    var next := WithData(e, e.registers.data[2 := 4]);
    assert next.pc == 0x204 && next.registers.data[1] == 2 && next.registers.data[2] == 4;
    ArithmeticFrom204(next);
  }

  lemma ArithmeticFrom204(e: Emulator)
    requires Holds(e, ARITHMETIC_PROGRAM) && e.pc == 0x204
    requires e.registers.data[1] == 2 && e.registers.data[2] == 4
    ensures ArithmeticResult(Run(e, 4))
  {
    assert Instructions.FromOpcode(0x7202) == Ok(Instructions.AddVxByte(2, 2));
    AddByteStep(e, 4, ARITHMETIC_PROGRAM, 2, 2, 6);
    ArithmeticFrom206(WithData(e, e.registers.data[2 := 6]));
  }

  /** `ADD V1, V2` from 2 + 6: no carry, so VF = 0. */
  lemma ArithmeticFrom206(e: Emulator)
    requires Holds(e, ARITHMETIC_PROGRAM) && e.pc == 0x206
    requires e.registers.data[1] == 2 && e.registers.data[2] == 6
    ensures ArithmeticResult(Run(e, 3))
  {
    assert Instructions.FromOpcode(0x8124) == Ok(Instructions.AddVxVy(1, 2));
    AddStep(e, 3, ARITHMETIC_PROGRAM, 1, 2, 8, false);
    ArithmeticFrom208(WithData(e, e.registers.data[1 := 8][FLAG := Flag(false)]));
  }

  /** `SUB V1, V2` from 8 - 6: no borrow, so VF = 1. */
  lemma ArithmeticFrom208(e: Emulator)
    requires Holds(e, ARITHMETIC_PROGRAM) && e.pc == 0x208
    requires e.registers.data[1] == 8 && e.registers.data[2] == 6
    ensures ArithmeticResult(Run(e, 2))
  {
    assert Instructions.FromOpcode(0x8125) == Ok(Instructions.Sub(1, 2));
    SubStep(e, 2, ARITHMETIC_PROGRAM, 1, 2, 2, true);
    ArithmeticFrom20A(WithData(e, e.registers.data[1 := 2][FLAG := Flag(true)]));
  }

  /** `SUBN V1, V2` from 6 - 2: no borrow, so VF = 1. */
  lemma ArithmeticFrom20A(e: Emulator)
    requires Holds(e, ARITHMETIC_PROGRAM) && e.pc == 0x20A
    requires e.registers.data[1] == 2 && e.registers.data[2] == 6
    ensures ArithmeticResult(Run(e, 1))
  {
    assert Instructions.FromOpcode(0x8127) == Ok(Instructions.Subn(1, 2));
    SubnStep(e, 1, ARITHMETIC_PROGRAM, 1, 2, 4, true);
    assert Run(e, 1) == Halted(WithData(e, e.registers.data[1 := 4][FLAG := Flag(true)]));
  }

  const SKIP_PROGRAM: seq<u8> := [
    0x61, 0x02, 0x62, 0x04, 0x31, 0x02, 0x63, 0x07, 0x64, 0x04,
    0x63, 0x06, 0x51, 0x20, 0x64, 0x08, 0x91, 0x20, 0x64, 0x09]

  predicate SkipResult(r: Outcome) {
    && r.Halted? && r.state.Valid()
    && r.state.registers.data[1] == 2 && r.state.registers.data[2] == 4
    && r.state.registers.data[3] == 6 && r.state.registers.data[4] == 8
  }

  /** The conditional skips: `SE V1, 2` skips `LD V3, 7`, `SE V1, V2` does
      not skip `LD V4, 8`, `SNE V1, V2` skips `LD V4, 9`. The fifth word,
      0x6404, is `LD V4, 4` (its comment in the source calls it
      `SNE V2, 4`), which `LD V4, 8` later overwrites. */
  lemma SkipScenario(e: Emulator)
    requires Holds(e, SKIP_PROGRAM) && e.pc == MEMORY_PROGRAM_START
    ensures SkipResult(Run(e, 8))
  {
    assert Instructions.FromOpcode(0x6102) == Ok(Instructions.LdVxByte(1, 2));
    LoadStep(e, 8, SKIP_PROGRAM, 1, 2);
    SkipFrom202(WithData(e, e.registers.data[1 := 2]));
  }

  lemma SkipFrom202(e: Emulator)
    requires Holds(e, SKIP_PROGRAM) && e.pc == 0x202 && e.registers.data[1] == 2
    ensures SkipResult(Run(e, 7))
  {
    assert Instructions.FromOpcode(0x6204) == Ok(Instructions.LdVxByte(2, 4));
    LoadStep(e, 7, SKIP_PROGRAM, 2, 4);
    SkipFrom204(WithData(e, e.registers.data[2 := 4]));
  }

  /** `SE V1, 2` holds and skips `LD V3, 7`. */
  lemma SkipFrom204(e: Emulator)
    requires Holds(e, SKIP_PROGRAM) && e.pc == 0x204
    requires e.registers.data[1] == 2 && e.registers.data[2] == 4
    ensures SkipResult(Run(e, 6))
  {
    assert Instructions.FromOpcode(0x3102) == Ok(Instructions.SeVxByte(1, 2));
    SkipStep(e, 6, SKIP_PROGRAM, Instructions.SeVxByte(1, 2), true);
    SkipFrom208(e.(pc := 0x208));
  }

  lemma SkipFrom208(e: Emulator)
    requires Holds(e, SKIP_PROGRAM) && e.pc == 0x208
    requires e.registers.data[1] == 2 && e.registers.data[2] == 4
    ensures SkipResult(Run(e, 5))
  {
    assert Instructions.FromOpcode(0x6404) == Ok(Instructions.LdVxByte(4, 4));
    LoadStep(e, 5, SKIP_PROGRAM, 4, 4);
    SkipFrom20A(WithData(e, e.registers.data[4 := 4]));
  }

  lemma SkipFrom20A(e: Emulator)
    requires Holds(e, SKIP_PROGRAM) && e.pc == 0x20A
    requires e.registers.data[1] == 2 && e.registers.data[2] == 4
    ensures SkipResult(Run(e, 4))
  {
    assert Instructions.FromOpcode(0x6306) == Ok(Instructions.LdVxByte(3, 6));
    LoadStep(e, 4, SKIP_PROGRAM, 3, 6);
    SkipFrom20C(WithData(e, e.registers.data[3 := 6]));
  }

  /** `SE V1, V2` fails, so `LD V4, 8` runs. */
  lemma SkipFrom20C(e: Emulator)
    requires Holds(e, SKIP_PROGRAM) && e.pc == 0x20C
    requires e.registers.data[1] == 2 && e.registers.data[2] == 4 && e.registers.data[3] == 6
    ensures SkipResult(Run(e, 3))
  {
    assert Instructions.FromOpcode(0x5120) == Ok(Instructions.SeVxVy(1, 2));
    SkipStep(e, 3, SKIP_PROGRAM, Instructions.SeVxVy(1, 2), false);
    SkipFrom20E(e.(pc := 0x20E));
  }

  lemma SkipFrom20E(e: Emulator)
    requires Holds(e, SKIP_PROGRAM) && e.pc == 0x20E
    requires e.registers.data[1] == 2 && e.registers.data[2] == 4 && e.registers.data[3] == 6
    ensures SkipResult(Run(e, 2))
  {
    assert Instructions.FromOpcode(0x6408) == Ok(Instructions.LdVxByte(4, 8));
    LoadStep(e, 2, SKIP_PROGRAM, 4, 8);
    SkipFrom210(WithData(e, e.registers.data[4 := 8]));
  }

  /** `SNE V1, V2` holds and skips `LD V4, 9`, past the end of the program. */
  lemma SkipFrom210(e: Emulator)
    requires Holds(e, SKIP_PROGRAM) && e.pc == 0x210
    requires e.registers.data[1] == 2 && e.registers.data[2] == 4
    requires e.registers.data[3] == 6 && e.registers.data[4] == 8
    ensures SkipResult(Run(e, 1))
  {
    assert Instructions.FromOpcode(0x9120) == Ok(Instructions.SneVxVy(1, 2));
    SkipStep(e, 1, SKIP_PROGRAM, Instructions.SneVxVy(1, 2), true);
    assert Run(e, 1) == Halted(e.(pc := 0x214));
  }
}
