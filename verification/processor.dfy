/** The processor of src/processor.rs: registers, the fixed-size stack and
    the restricted memory of src/memory.rs, and a program counter that
    starts at the first unrestricted address. The opcode decoder it calls
    is not part of this model, so it is a parameter. */
module Processor {
  import opened Common
  import Registers
  import Stack
  import Memory

  datatype Processor = Processor(
    registers: Registers.Registers,
    stack: Stack.Stack,
    memory: Memory.Memory,
    pc: nat)
  {
    predicate Valid() {
      registers.Valid() && stack.Valid() && memory.Valid()
    }
  }

  /** `Processor::from_program`: fresh registers, stack and memory with the
      program loaded, `pc` at 0x201; a program that does not fit is an
      error. */
  function FromProgram(program: seq<u8>): (r: Result<Processor>)
    ensures r.Err? <==> |program| > Memory.MEMORY_UNRESTRICTED_SIZE
    ensures r.Err? ==> r.error == ProgramTooLarge(|program|)
    ensures r.Ok? ==> r.value.Valid() && r.value.pc == Memory.MEMORY_UNRESTRICTED_START
    ensures r.Ok? ==> r.value.stack.Contents() == [] && r.value.registers == Registers.New()
    ensures r.Ok? ==> r.value.memory.programLen == |program|
    ensures r.Ok? ==> forall k | 0 <= k < |program| ::
                        Memory.At(r.value.memory, Memory.MEMORY_UNRESTRICTED_START + k) == Ok(program[k])
  {
    var memory :- Memory.LoadProgram(Memory.New(), program);
    Ok(Processor(Registers.New(), Stack.New(), memory, Memory.MEMORY_UNRESTRICTED_START))
  }

  /** Whether both opcode bytes at `pc` can be read. */
  predicate Readable(p: Processor)
  {
    Memory.MEMORY_UNRESTRICTED_START <= p.pc && p.pc + 1 < Memory.MEMORY_UNRESTRICTED_END
  }

  /** `Processor::fetch_instruction`: read the byte at `pc` and the next,
      high byte first, advance `pc` by two and decode. A failed read
      returns before `pc` moves; a failed decode comes after it. */
  function FetchInstruction<I>(p: Processor, decode: u16 -> Result<I>): (r: (Processor, Result<I>))
    requires p.Valid()
    ensures r.0.Valid()
    ensures Readable(p) ==> r.0 == p.(pc := p.pc + 2)
    ensures Readable(p) ==> r.1 == decode(p.memory.cells[p.pc] as int * 0x100 + p.memory.cells[p.pc + 1] as int)
    ensures !Readable(p) ==> r.0 == p && r.1.Err?
    ensures r.0.pc >= p.pc
    ensures p.pc >= Memory.MEMORY_UNRESTRICTED_START && !Readable(p) ==> r.1.error.IndexOutOfBounds?
  {
    match Memory.At(p.memory, p.pc)
    case Err(e) => (p, Err(e))
    case Ok(high) =>
      match Memory.At(p.memory, p.pc + 1)
      case Err(e) => (p, Err(e))
      case Ok(low) =>
        (p.(pc := p.pc + 2), decode(high as int * 0x100 + low as int))
  }

  /** The source's test: after loading `00 E0 00 EE`, three fetches see
      the words 0x00E0, 0x00EE and then the zero word past the program,
      each moving `pc` on by two. */
  lemma FetchExample<I>(decode: u16 -> Result<I>)
    ensures FromProgram([0x00, 0xE0, 0x00, 0xEE]).Ok?
    ensures var p0 := FromProgram([0x00, 0xE0, 0x00, 0xEE]).value;
            var (p1, r1) := FetchInstruction(p0, decode);
            var (p2, r2) := FetchInstruction(p1, decode);
            var (p3, r3) := FetchInstruction(p2, decode);
            && r1 == decode(0x00E0) && r2 == decode(0x00EE) && r3 == decode(0x0000)
            && p3.pc == 0x207
  {
    var p0 := FromProgram([0x00, 0xE0, 0x00, 0xEE]).value;
    assert p0.memory.cells[0x201] == 0x00 && p0.memory.cells[0x202] == 0xE0;
    assert p0.memory.cells[0x203] == 0x00 && p0.memory.cells[0x204] == 0xEE;
    assert p0.memory.cells[0x205] == 0x00 && p0.memory.cells[0x206] == 0x00;
  }
}
