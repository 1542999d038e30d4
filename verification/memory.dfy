/** The RAM of src/memory.rs. This snapshot of the interpreter treats
    everything below 0x201 as the restricted interpreter area, stores the
    program from 0x201 on, and backs the whole space with an array of
    0xFFF bytes (so address 0xFFF itself does not exist). */
module Memory {
  import opened Common

  const MEMORY_UNRESTRICTED_START: nat := 0x201
  const MEMORY_UNRESTRICTED_END: nat := 0xFFF
  const MEMORY_UNRESTRICTED_SIZE: nat := MEMORY_UNRESTRICTED_END - MEMORY_UNRESTRICTED_START

  datatype Memory = Memory(cells: seq<u8>, programLen: nat) {
    /** The backing array has `MEMORY_UNRESTRICTED_END` bytes. */
    predicate Valid() {
      |cells| == MEMORY_UNRESTRICTED_END
    }
  }

  /** `Memory::new`: all bytes zero, no program. */
  function New(): (m: Memory)
    ensures m.Valid()
    ensures m.programLen == 0
    ensures forall i | 0 <= i < MEMORY_UNRESTRICTED_END :: m.cells[i] == 0
  {
    Memory(seq(MEMORY_UNRESTRICTED_END, _ => 0), 0)
  }

  /** `Memory::at`: reading the restricted area is an error; reading past
      the array indexes out of bounds, which panics in the source. */
  function At(m: Memory, index: nat): (r: Result<u8>)
    requires m.Valid()
    ensures r.Ok? <==> MEMORY_UNRESTRICTED_START <= index < MEMORY_UNRESTRICTED_END
    ensures r.Ok? ==> r.value == m.cells[index]
    ensures index < MEMORY_UNRESTRICTED_START ==> r == Err(RestrictedAccess(index))
  {
    if index < MEMORY_UNRESTRICTED_START then Err(RestrictedAccess(index))
    else if index >= |m.cells| then Err(IndexOutOfBounds(index))
    else Ok(m.cells[index])
  }

  /** `Memory::load_program`: copy the program to the start of the
      unrestricted area, or fail (leaving the memory as it was) when it
      does not fit. */
  function LoadProgram(m: Memory, program: seq<u8>): (r: Result<Memory>)
    requires m.Valid()
    ensures r.Err? <==> |program| > MEMORY_UNRESTRICTED_SIZE
    ensures r.Err? ==> r.error == ProgramTooLarge(|program|)
    ensures r.Ok? ==> r.value.Valid() && r.value.programLen == |program|
    ensures r.Ok? ==> MEMORY_UNRESTRICTED_START + |program| <= |m.cells|
    ensures r.Ok? ==> forall k | 0 <= k < |program| ::
                        At(r.value, MEMORY_UNRESTRICTED_START + k) == Ok(program[k])
    ensures r.Ok? ==> forall i | 0 <= i < MEMORY_UNRESTRICTED_END ::
                        (i < MEMORY_UNRESTRICTED_START || MEMORY_UNRESTRICTED_START + |program| <= i)
                        ==> r.value.cells[i] == m.cells[i]
  {
    if |program| > MEMORY_UNRESTRICTED_SIZE then
      Err(ProgramTooLarge(|program|))
    else
      var end := MEMORY_UNRESTRICTED_START + |program|;
      Ok(Memory(m.cells[..MEMORY_UNRESTRICTED_START] + program + m.cells[end..], |program|))
  }

  /** A fresh memory reads 0 everywhere outside the restricted area and
      refuses every read inside it. */
  lemma NewReadsZero()
    ensures forall i | MEMORY_UNRESTRICTED_START <= i < MEMORY_UNRESTRICTED_END :: At(New(), i) == Ok(0)
    ensures forall i | 0 <= i < MEMORY_UNRESTRICTED_START :: At(New(), i).Err?
  {
  }

  /** The largest program that fits is 3582 bytes; one more byte is
      refused. */
  lemma LoadBoundary(m: Memory, program: seq<u8>, b: u8)
    requires m.Valid() && |program| == MEMORY_UNRESTRICTED_SIZE
    ensures MEMORY_UNRESTRICTED_SIZE == 3582
    ensures LoadProgram(m, program).Ok?
    ensures LoadProgram(m, program + [b]) == Err(ProgramTooLarge(3583))
  {
  }

  /** Loading `00 E0 00 EE` stores those bytes at 0x201..0x204. */
  lemma LoadExample()
    ensures var r := LoadProgram(New(), [0x00, 0xE0, 0x00, 0xEE]);
            && r.Ok?
            && At(r.value, 0x201) == Ok(0x00) && At(r.value, 0x202) == Ok(0xE0)
            && At(r.value, 0x203) == Ok(0x00) && At(r.value, 0x204) == Ok(0xEE)
            && r.value.programLen == 4
  {
    var r := LoadProgram(New(), [0x00, 0xE0, 0x00, 0xEE]);
    assert At(r.value, MEMORY_UNRESTRICTED_START + 3) == Ok(0xEE);
  }
}
