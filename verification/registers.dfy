/** The CPU register file of src/registers.rs: sixteen 8-bit data registers
    V0..VF and the address register I (a `usize` in the source). */
module Registers {
  import opened Common

  const DATA_REGISTER_COUNT: nat := 16

  datatype Registers = Registers(data: seq<u8>, i: nat) {
    /** The data array has exactly one slot per hexadecimal digit. */
    predicate Valid() {
      |data| == DATA_REGISTER_COUNT
    }
  }

  /** `Registers::new`: every data register and I set to 0. */
  function New(): (r: Registers)
    ensures r.Valid()
    ensures forall k | 0 <= k < DATA_REGISTER_COUNT :: r.data[k] == 0
    ensures r.i == 0
  {
    Registers(seq(DATA_REGISTER_COUNT, _ => 0), 0)
  }
}
