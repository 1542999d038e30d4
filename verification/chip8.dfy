/** The toy interpreter of src/chip8.rs. Its program is a list of parsed
    instructions (src/instruction.rs), `pc` indexes that list, and the only
    instruction it executes is the jump; every other one just moves to the
    next list entry. */
module Chip8 {
  import opened Common
  import InstructionList

  type Instruction = InstructionList.Instruction

  const REGISTER_COUNT: nat := 15
  const STACK_SLOTS: nat := 16

  /** Fifteen byte registers (the source declares `[u8; 15]`), sixteen
      stack slots, stack pointer, program and program counter. */
  datatype Chip8 = Chip8(
    registers: seq<u8>,
    stack: seq<u16>,
    sp: nat,
    program: seq<Instruction>,
    pc: nat)

  /** `Chip8::new`: everything zero and no program. */
  function New(): (c: Chip8)
    ensures |c.registers| == REGISTER_COUNT && forall k | 0 <= k < REGISTER_COUNT :: c.registers[k] == 0
    ensures |c.stack| == STACK_SLOTS && forall k | 0 <= k < STACK_SLOTS :: c.stack[k] == 0
    ensures c.sp == 0 && c.pc == 0 && c.program == []
  {
    Chip8(seq(REGISTER_COUNT, _ => 0), seq(STACK_SLOTS, _ => 0), 0, [], 0)
  }

  /** `Chip8::load_program`: the program is replaced and nothing else
      moves; in particular `pc` is not reset. */
  function LoadProgram(c: Chip8, program: seq<Instruction>): (r: Chip8)
    ensures r.program == program
    ensures r.pc == c.pc && r.sp == c.sp && r.registers == c.registers && r.stack == c.stack
  {
    c.(program := program)
  }

  /** `Chip8::do_instruction`: a jump lands exactly on its target; anything
      else advances `pc` by one list entry. Only `pc` changes. */
  function DoInstruction(c: Chip8, ins: Instruction): (r: Chip8)
    ensures ins.Jp? ==> r.pc == ins.addr
    ensures !ins.Jp? ==> r.pc == c.pc + 1
    ensures r.(pc := c.pc) == c
  {
    var jumped := match ins
      case Jp(addr) => c.(pc := addr)
      case _ => c;
    if !ins.Jp? then jumped.(pc := jumped.pc + 1) else jumped
  }

  /** `Chip8::run`, given at most `fuel` steps: `None` when the fuel runs
      out first (a jump can loop forever). When it stops, `pc` has left
      the program and only `pc` has changed. */
  function Run(c: Chip8, fuel: nat): (r: Option<Chip8>)
    ensures r.Some? ==> r.value.pc >= |c.program|
    ensures r.Some? ==> r.value.(pc := c.pc) == c
    decreases fuel
  {
    if c.pc >= |c.program| then Some(c)
    else if fuel == 0 then None
    else Run(DoInstruction(c, c.program[c.pc]), fuel - 1)
  }

  /** A program without jumps runs straight off its end: from `pc` it
      takes exactly `|program| - pc` steps and stops at `|program|`. */
  lemma {:induction false} RunStraightLine(c: Chip8, fuel: nat)
    requires c.pc <= |c.program|
    requires forall k | c.pc <= k < |c.program| :: !c.program[k].Jp?
    requires fuel >= |c.program| - c.pc
    ensures Run(c, fuel).Some? && Run(c, fuel).value.pc == |c.program|
    decreases |c.program| - c.pc
  {
    if c.pc < |c.program| {
      RunStraightLine(DoInstruction(c, c.program[c.pc]), fuel - 1);
    }
  }

  /** A jump to itself never stops, whatever the fuel. */
  lemma {:induction false} SelfJumpNeverStops(c: Chip8, fuel: nat)
    requires c.pc < |c.program| && c.program[c.pc].Jp? && c.program[c.pc].addr == c.pc
    ensures Run(c, fuel).None?
    decreases fuel
  {
    if fuel > 0 {
      SelfJumpNeverStops(DoInstruction(c, c.program[c.pc]), fuel - 1);
    }
  }

  /** The source's test: `[Jp 0xa]` from a fresh interpreter ends with
      `pc == 0xa`; loading a program keeps it. */
  lemma JumpExample()
    ensures LoadProgram(New(), [InstructionList.Call(0xabc)]).program == [InstructionList.Call(0xabc)]
    ensures var c := LoadProgram(New(), [InstructionList.Jp(0xa)]);
            c.pc == 0 && Run(c, 1) == Some(c.(pc := 0xa))
  {
  }
}
