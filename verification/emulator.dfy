/** The emulator of src/emulator.rs: registers, an unbounded call stack of
    return addresses, 4 KiB of directly indexed memory with the program at
    0x200, the 64x32 frame and the program counter, stepped by
    `fetch_instruction` and `do_instruction` without the rendering. */
module Emulator {
  import opened Common
  import Registers
  import Display
  import Sprite
  import Instructions

  type Instruction = Instructions.Instruction

  /** The size of the memory and where the program is loaded. */
  const MEMORY_SIZE: nat := 0x1000
  const MEMORY_PROGRAM_START: nat := 0x200

  /** VF, the flag register. */
  const FLAG: nat := 0xF

  datatype Emulator = Emulator(
    registers: Registers.Registers,
    stack: seq<nat>,
    memory: seq<u8>,
    programLen: nat,
    display: Display.Display,
    pc: nat)
  {
    /** What the Rust types guarantee: 16 data registers, a 64-bit I, a
        full memory and a full frame. */
    predicate Valid() {
      registers.Valid() && registers.i < USIZE_MODULUS && |memory| == MEMORY_SIZE && display.Valid()
    }

    /** The loop condition of `run`: `pc` is still inside the program. */
    predicate Running() {
      pc < MEMORY_PROGRAM_START + programLen
    }
  }

  /** A zeroed memory with `program` copied in at `MEMORY_PROGRAM_START`. */
  function LoadedMemory(program: seq<u8>): (m: seq<u8>)
    requires |program| <= MEMORY_SIZE - MEMORY_PROGRAM_START
    ensures |m| == MEMORY_SIZE
    ensures forall k | 0 <= k < |program| :: m[MEMORY_PROGRAM_START + k] == program[k]
    ensures forall a | 0 <= a < MEMORY_SIZE && !(MEMORY_PROGRAM_START <= a < MEMORY_PROGRAM_START + |program|) ::
              m[a] == 0
  {
    seq(MEMORY_PROGRAM_START, _ => 0) + program
      + seq(MEMORY_SIZE - MEMORY_PROGRAM_START - |program|, _ => 0)
  }

  /** `Emulator::from_program`: a fresh machine with the program loaded,
      or an error when the program does not fit above 0x200. */
  function FromProgram(program: seq<u8>): (r: Result<Emulator>)
    ensures r.Err? <==> |program| > MEMORY_SIZE - MEMORY_PROGRAM_START
    ensures r.Err? ==> r.error == ProgramTooLarge(|program|)
    ensures r.Ok? ==> var e := r.value;
              && e.Valid()
              && e.pc == MEMORY_PROGRAM_START && e.stack == [] && e.programLen == |program|
              && e.registers.i == 0
              && (forall k | 0 <= k < Registers.DATA_REGISTER_COUNT :: e.registers.data[k] == 0)
              && e.display.AllOff()
              && (forall k | 0 <= k < |program| :: e.memory[MEMORY_PROGRAM_START + k] == program[k])
  {
    if |program| > MEMORY_SIZE - MEMORY_PROGRAM_START then Err(ProgramTooLarge(|program|))
    else Ok(Emulator(Registers.New(), [], LoadedMemory(program), |program|, Display.New(), MEMORY_PROGRAM_START))
  }

  /** `u16::from_be_bytes([hi, lo])`. */
  function BigEndian(hi: u8, lo: u8): (w: u16)
    ensures w / 0x100 == hi && w % 0x100 == lo
  {
    hi * 0x100 + lo
  }

  /** `fetch_instruction`: decode the big-endian word at `pc`. Reading past
      the end of memory panics in the source. */
  function Fetch(e: Emulator): (r: Result<Instruction>)
    requires e.Valid()
    ensures r.Ok? ==> r.value.WellFormed()
    ensures e.pc + 1 >= MEMORY_SIZE ==> r.Err? && r.error.IndexOutOfBounds?
    ensures e.pc + 1 < MEMORY_SIZE ==>
              r == Instructions.FromOpcode(BigEndian(e.memory[e.pc], e.memory[e.pc + 1]))
    ensures r.Err? <==> e.pc + 1 >= MEMORY_SIZE
                        || !Instructions.Recognized(BigEndian(e.memory[e.pc], e.memory[e.pc + 1]))
  {
    if e.pc >= MEMORY_SIZE then Err(IndexOutOfBounds(e.pc))
    else if e.pc + 1 >= MEMORY_SIZE then Err(IndexOutOfBounds(e.pc + 1))
    else Instructions.FromOpcode(BigEndian(e.memory[e.pc], e.memory[e.pc + 1]))
  }

  /** The instructions `do_instruction` leaves to its catch-all arm: no
      timers, keys, font, BCD, register dumps or randomness. */
  predicate Ignored(ins: Instruction) {
    ins.Nop? || ins.Skp? || ins.Sknp? || ins.LdK? || ins.LdDt? || ins.LdSt?
    || ins.LdF? || ins.LdB? || ins.LdI? || ins.LdIVx? || ins.Rnd?
  }

  /** The step that changes only the data registers, to `data`. */
  function WithData(e: Emulator, data: seq<u8>): Emulator {
    e.(registers := e.registers.(data := data), pc := e.pc + 2)
  }

  /** The coordinate a `Drw` reads from register `sel`, wrapped at `size`.
      The flag is cleared before the registers are read, so selecting VF
      yields 0. */
  function Coordinate(e: Emulator, sel: nat, size: nat): nat
    requires e.Valid() && sel < 16 && size > 0
  {
    (if sel == FLAG then 0 else e.registers.data[sel]) % size
  }

  /** The `nibble` bytes at I that form a sprite, when they lie in memory. */
  function SpriteAt(e: Emulator, nibble: nat): seq<u8>
    requires e.Valid() && (nibble == 0 || e.registers.i + nibble <= MEMORY_SIZE)
  {
    if nibble == 0 then [] else e.memory[e.registers.i .. e.registers.i + nibble]
  }

  /** The `Drw` arm: clear VF, read the coordinates, XOR the sprite at I
      onto the frame and set VF when a lit pixel was turned off. Reading a
      sprite byte past the end of memory panics in the source. */
  function Draw(e: Emulator, x: nat, y: nat, nibble: u8): (r: Result<Emulator>)
    requires e.Valid() && x < 16 && y < 16 && nibble < 16
    ensures r.Err? <==> nibble > 0 && e.registers.i + nibble > MEMORY_SIZE
    ensures r.Err? ==> r.error.IndexOutOfBounds?
    ensures r.Ok? ==> var d := r.value.display;
              && r.value.Valid()
              && r.value == e.(registers := e.registers.(data := e.registers.data[FLAG := r.value.registers.data[FLAG]]),
                               display := d)
              && (forall qy, qx | 0 <= qy < Display.DISPLAY_HEIGHT && 0 <= qx < Display.DISPLAY_WIDTH ::
                    d.buf[qy][qx]
                    == (e.display.buf[qy][qx]
                        != Sprite.SpriteHit(Coordinate(e, x, Display.DISPLAY_WIDTH), Coordinate(e, y, Display.DISPLAY_HEIGHT),
                                            SpriteAt(e, nibble), 0, qx, qy)))
              && (r.value.registers.data[FLAG] == 1 || r.value.registers.data[FLAG] == 0)
              && (r.value.registers.data[FLAG] == 1
                  <==> exists qy, qx | 0 <= qy < Display.DISPLAY_HEIGHT && 0 <= qx < Display.DISPLAY_WIDTH ::
                         Sprite.SpriteHit(Coordinate(e, x, Display.DISPLAY_WIDTH), Coordinate(e, y, Display.DISPLAY_HEIGHT),
                                          SpriteAt(e, nibble), 0, qx, qy)
                         && e.display.buf[qy][qx])
  {
    var v := e.registers.data[FLAG := 0];
    var x0 := v[x] % Display.DISPLAY_WIDTH;
    var y0 := v[y] % Display.DISPLAY_HEIGHT;
    var i := e.registers.i;
    if nibble > 0 && i + nibble > MEMORY_SIZE then
      Err(IndexOutOfBounds(if i >= MEMORY_SIZE then i else MEMORY_SIZE))
    else
      var sprite := SpriteAt(e, nibble);
      Sprite.DrawSpriteFlips(e.display, x0, y0, sprite, 0);
      var drawn := Sprite.DrawSprite(e.display, x0, y0, sprite, 0);
      Ok(e.(registers := e.registers.(data := v[FLAG := Flag(drawn.1)]), display := drawn.0))
  }

  /** `n` wrapped to a byte, as every `u8` operation of the source does. */
  function Wrap(n: int): (r: u8)
    ensures r == n % 0x100
  {
    n % 0x100
  }

  /** A flag value: `bool::into` for `u8`. */
  function Flag(b: bool): (r: u8)
    ensures r == 1 <==> b
    ensures r == 0 <==> !b
  {
    if b then 1 else 0
  }

  /** The trailing `pc += 2` of `do_instruction`, after an arm that did not
      fail. */
  function Advance(next: Result<Emulator>): (r: Result<Emulator>)
    ensures next.Err? ==> r == next
    ensures next.Ok? ==> r.Ok? && r.value.pc == next.value.pc + 2
                         && r.value.(pc := next.value.pc) == next.value
  {
    var s :- next;
    Ok(s.(pc := s.pc + 2))
  }

  /** The arms of `do_instruction` that move `pc`. The `addr - 2` of the
      jumps is a `usize` subtraction that panics below zero. */
  function ExecuteFlow(e: Emulator, ins: Instruction): (r: Result<Emulator>)
    requires e.Valid() && ins.WellFormed() && (ins.Jp? || ins.JpV0? || ins.Call? || ins.Ret?)
    ensures r.Ok? ==> r.value.Valid() && r.value.memory == e.memory && r.value.programLen == e.programLen
    ensures ins.Jp? ==> r == if ins.addr < 2 then Err(AddressUnderflow) else Ok(e.(pc := ins.addr))
    ensures ins.JpV0? ==> r == if ins.addr + e.registers.data[0] < 2 then Err(AddressUnderflow)
                               else Ok(e.(pc := ins.addr + e.registers.data[0]))
    ensures ins.Call? ==> r == if ins.addr < 2 then Err(AddressUnderflow)
                               else Ok(e.(stack := e.stack + [e.pc], pc := ins.addr))
    ensures ins.Ret? ==> (r.Err? <==> e.stack == [])
    ensures ins.Ret? && r.Err? ==> r.error == RetOutsideSubroutine
    ensures ins.Ret? && r.Ok? ==> r.value.stack + [r.value.pc - 2] == e.stack
                                  && r.value == e.(stack := r.value.stack, pc := r.value.pc)
  {
    Advance(
      match ins
      case Jp(addr) => if addr < 2 then Err(AddressUnderflow) else Ok(e.(pc := addr - 2))
      case JpV0(addr) =>
        var target := addr + e.registers.data[0];
        if target < 2 then Err(AddressUnderflow) else Ok(e.(pc := target - 2))
      case Call(addr) =>
        if addr < 2 then Err(AddressUnderflow) else Ok(e.(stack := e.stack + [e.pc], pc := addr - 2))
      case Ret =>
        if |e.stack| == 0 then Err(RetOutsideSubroutine)
        else Ok(e.(stack := e.stack[..|e.stack| - 1], pc := e.stack[|e.stack| - 1])))
  }

  /** The conditional skips: the arm adds 2 to `pc` when the condition
      holds, on top of the trailing `pc += 2`. */
  function ExecuteSkip(e: Emulator, ins: Instruction): (r: Result<Emulator>)
    requires e.Valid() && ins.WellFormed() && (ins.SeVxByte? || ins.SneVxByte? || ins.SeVxVy? || ins.SneVxVy?)
    ensures r.Ok? && r.value.Valid() && r.value.memory == e.memory && r.value.programLen == e.programLen
    ensures ins.SeVxByte? ==> r == Ok(e.(pc := e.pc + if e.registers.data[ins.x] == ins.byte then 4 else 2))
    ensures ins.SneVxByte? ==> r == Ok(e.(pc := e.pc + if e.registers.data[ins.x] != ins.byte then 4 else 2))
    ensures ins.SeVxVy? ==>
              r == Ok(e.(pc := e.pc + if e.registers.data[ins.x] == e.registers.data[ins.y] then 4 else 2))
    ensures ins.SneVxVy? ==>
              r == Ok(e.(pc := e.pc + if e.registers.data[ins.x] != e.registers.data[ins.y] then 4 else 2))
  {
    var v := e.registers.data;
    var skip :=
      match ins
      case SeVxByte(x, byte) => v[x] == byte
      case SneVxByte(x, byte) => v[x] != byte
      case SeVxVy(x, y) => v[x] == v[y]
      case SneVxVy(x, y) => v[x] != v[y];
    Advance(Ok(if skip then e.(pc := e.pc + 2) else e))
  }

  /** Loads and additions into a register or I: only the written
      register changes. */
  function ExecuteLoad(e: Emulator, ins: Instruction): (r: Result<Emulator>)
    requires e.Valid() && ins.WellFormed()
    requires ins.LdVxByte? || ins.LdVxVy? || ins.LdIAddr? || ins.AddVxByte? || ins.AddI?
    ensures r.Ok? && r.value.Valid() && r.value.memory == e.memory && r.value.programLen == e.programLen
    ensures ins.LdVxByte? ==> r == Ok(WithData(e, e.registers.data[ins.x := ins.byte]))
    ensures ins.LdVxVy? ==> r == Ok(WithData(e, e.registers.data[ins.x := e.registers.data[ins.y]]))
    ensures ins.LdIAddr? ==> r == Ok(e.(registers := e.registers.(i := ins.addr), pc := e.pc + 2))
    ensures ins.AddVxByte? ==>
              r == Ok(WithData(e, e.registers.data[ins.x := Wrap(e.registers.data[ins.x] as int + ins.byte)]))
    ensures ins.AddI? ==>
              r == Ok(e.(registers := e.registers.(i := (e.registers.i + e.registers.data[ins.x]) % USIZE_MODULUS),
                         pc := e.pc + 2))
  {
    var v := e.registers.data;
    Advance(
      match ins
      case LdVxByte(x, byte) => Ok(e.(registers := e.registers.(data := v[x := byte])))
      case LdVxVy(x, y) => Ok(e.(registers := e.registers.(data := v[x := v[y]])))
      case LdIAddr(addr) => Ok(e.(registers := e.registers.(i := addr)))
      case AddVxByte(x, byte) => Ok(e.(registers := e.registers.(data := v[x := WrappingAdd(v[x], byte)])))
      case AddI(x) => Ok(e.(registers := e.registers.(i := WrappingAddUsize(e.registers.i, v[x])))))
  }

  /** Two-register arithmetic. The carry and borrow flags are written
      after the result, so they win when x is VF. */
  function ExecuteArith(e: Emulator, ins: Instruction): (r: Result<Emulator>)
    requires e.Valid() && ins.WellFormed() && (ins.AddVxVy? || ins.Sub? || ins.Subn?)
    ensures r.Ok? && r.value.Valid() && r.value.memory == e.memory && r.value.programLen == e.programLen
    ensures ins.AddVxVy? ==>
              var a, b := e.registers.data[ins.x] as int, e.registers.data[ins.y] as int;
              r == Ok(WithData(e, e.registers.data[ins.x := Wrap(a + b)][FLAG := Flag(a + b >= 0x100)]))
    ensures ins.Sub? ==>
              var a, b := e.registers.data[ins.x] as int, e.registers.data[ins.y] as int;
              r == Ok(WithData(e, e.registers.data[ins.x := Wrap(a - b)][FLAG := Flag(a >= b)]))
    ensures ins.Subn? ==>
              var a, b := e.registers.data[ins.x] as int, e.registers.data[ins.y] as int;
              r == Ok(WithData(e, e.registers.data[ins.x := Wrap(b - a)][FLAG := Flag(b >= a)]))
  {
    var v := e.registers.data;
    Advance(
      match ins
      case AddVxVy(x, y) =>
        var sum := OverflowingAdd(v[x], v[y]);
        Ok(e.(registers := e.registers.(data := v[x := sum.0][FLAG := Flag(sum.1)])))
      case Sub(x, y) =>
        var diff := OverflowingSub(v[x], v[y]);
        Ok(e.(registers := e.registers.(data := v[x := diff.0][FLAG := Flag(!diff.1)])))
      case Subn(x, y) =>
        var diff := OverflowingSub(v[y], v[x]);
        Ok(e.(registers := e.registers.(data := v[x := diff.0][FLAG := Flag(!diff.1)]))))
  }

  /** Bitwise logic, which leaves VF alone. */
  function ExecuteLogic(e: Emulator, ins: Instruction): (r: Result<Emulator>)
    requires e.Valid() && ins.WellFormed() && (ins.Or? || ins.And? || ins.Xor?)
    ensures r.Ok? && r.value.Valid() && r.value.memory == e.memory && r.value.programLen == e.programLen
    ensures ins.Or? ==>
              r == Ok(WithData(e, e.registers.data[ins.x := BitOr(e.registers.data[ins.x], e.registers.data[ins.y])]))
    ensures ins.And? ==>
              r == Ok(WithData(e, e.registers.data[ins.x := BitAnd(e.registers.data[ins.x], e.registers.data[ins.y])]))
    ensures ins.Xor? ==>
              r == Ok(WithData(e, e.registers.data[ins.x := BitXor(e.registers.data[ins.x], e.registers.data[ins.y])]))
  {
    var v := e.registers.data;
    Advance(
      match ins
      case Or(x, y) => Ok(e.(registers := e.registers.(data := v[x := BitOr(v[x], v[y])])))
      case And(x, y) => Ok(e.(registers := e.registers.(data := v[x := BitAnd(v[x], v[y])])))
      case Xor(x, y) => Ok(e.(registers := e.registers.(data := v[x := BitXor(v[x], v[y])]))))
  }

  /** The shifts, which in this emulator leave VF alone too. */
  function ExecuteShift(e: Emulator, ins: Instruction): (r: Result<Emulator>)
    requires e.Valid() && ins.WellFormed() && (ins.Shl? || ins.Shr?)
    ensures r.Ok? && r.value.Valid() && r.value.memory == e.memory && r.value.programLen == e.programLen
    ensures ins.Shl? ==> r == Ok(WithData(e, e.registers.data[ins.x := Wrap(2 * e.registers.data[ins.x] as int)]))
    ensures ins.Shr? ==> r == Ok(WithData(e, e.registers.data[ins.x := e.registers.data[ins.x] / 2]))
  {
    var v := e.registers.data;
    Advance(
      match ins
      case Shl(x) => Ok(e.(registers := e.registers.(data := v[x := ShiftLeft1(v[x])])))
      case Shr(x) => Ok(e.(registers := e.registers.(data := v[x := v[x] / 2]))))
  }

  /** The screen instructions and the instructions the emulator ignores. */
  function ExecuteOther(e: Emulator, ins: Instruction): (r: Result<Emulator>)
    requires e.Valid() && ins.WellFormed() && (ins.Cls? || ins.Drw? || Ignored(ins))
    ensures r.Ok? ==> r.value.Valid() && r.value.memory == e.memory && r.value.programLen == e.programLen
    ensures Ignored(ins) ==> r == Ok(e.(pc := e.pc + 2))
    ensures ins.Cls? ==> r.Ok? && r.value.display.AllOff() && r.value == e.(display := r.value.display, pc := e.pc + 2)
    ensures ins.Drw? ==> r == Advance(Draw(e, ins.x, ins.y, ins.nibble))
  {
    match ins
    case Cls => Advance(Ok(e.(display := Display.Clear(e.display))))
    case Drw(x, y, nibble) => Advance(Draw(e, x, y, nibble))
    case _ => Advance(Ok(e))
  }

  /** `do_instruction`: perform one instruction, then advance `pc` by 2. */
  function Execute(e: Emulator, ins: Instruction): (r: Result<Emulator>)
    requires e.Valid() && ins.WellFormed()
    ensures r.Ok? ==> r.value.Valid() && r.value.memory == e.memory && r.value.programLen == e.programLen
  {
    match ins
    case Jp(_) | JpV0(_) | Call(_) | Ret => ExecuteFlow(e, ins)
    case SeVxByte(_, _) | SneVxByte(_, _) | SeVxVy(_, _) | SneVxVy(_, _) => ExecuteSkip(e, ins)
    case LdVxByte(_, _) | LdVxVy(_, _) | LdIAddr(_) | AddVxByte(_, _) | AddI(_) => ExecuteLoad(e, ins)
    case AddVxVy(_, _) | Sub(_, _) | Subn(_, _) => ExecuteArith(e, ins)
    case Or(_, _) | And(_, _) | Xor(_, _) => ExecuteLogic(e, ins)
    case Shl(_) | Shr(_) => ExecuteShift(e, ins)
    case _ => ExecuteOther(e, ins)
  }

  /** One iteration of the loop of `run`: fetch, then execute. */
  function Step(e: Emulator): (r: Result<Emulator>)
    requires e.Valid()
    ensures r.Ok? ==> r.value.Valid() && r.value.memory == e.memory && r.value.programLen == e.programLen
  {
    var ins :- Fetch(e);
    Execute(e, ins)
  }

  /** How a bounded run of the emulator ends. */
  datatype Outcome =
    | Halted(state: Emulator)
    | Failed(error: Error)
    | OutOfFuel(state: Emulator)

  /** `run` without the window: step while `pc` is inside the program,
      stopping at the first error, for at most `fuel` steps. */
  function Run(e: Emulator, fuel: nat): (r: Outcome)
    requires e.Valid()
    ensures r.Halted? ==> !r.state.Running() && r.state.Valid()
                          && r.state.memory == e.memory && r.state.programLen == e.programLen
    ensures !e.Running() ==> r == Halted(e)
    ensures r.OutOfFuel? ==> r.state.Running()
    decreases fuel
  {
    if !e.Running() then Halted(e)
    else if fuel == 0 then OutOfFuel(e)
    else
      match Step(e)
      case Err(error) => Failed(error)
      case Ok(next) => Run(next, fuel - 1)
  }

  /** A `Call` followed, once the subroutine has restored the stack, by a
      `Ret` resumes at the instruction after the call: the pushed address
      is the call's own, and `Ret` adds 2 to it. */
  lemma CallThenRet(e: Emulator, addr: nat, body: Emulator)
    requires e.Valid() && 2 <= addr < 0x1000
    requires body.Valid() && body.stack == Execute(e, Instructions.Call(addr)).value.stack
    ensures Execute(body, Instructions.Ret) == Ok(body.(stack := e.stack, pc := e.pc + 2))
  {
    var r := Execute(body, Instructions.Ret).value;
    assert r.stack + [r.pc - 2] == e.stack + [e.pc];
    assert r.stack == (r.stack + [r.pc - 2])[..|r.stack|];
    assert e.stack == (e.stack + [e.pc])[..|e.stack|];
  }

  /** `XOR Vx, Vy` twice restores Vx (x and y distinct); only `pc` moves. */
  lemma XorTwiceRestores(e: Emulator, x: nat, y: nat)
    requires e.Valid() && x < 16 && y < 16 && x != y
    ensures var once := Execute(e, Instructions.Xor(x, y)).value;
            Execute(once, Instructions.Xor(x, y)) == Ok(e.(pc := e.pc + 4))
  {
    var v := e.registers.data;
    XorCancels(v[x], v[y], 8);
    var once := WithData(e, v[x := BitXor(v[x], v[y])]);
    assert Execute(e, Instructions.Xor(x, y)) == Ok(once);
    assert once.registers.data[x := BitXor(BitXor(v[x], v[y]), v[y])] == v;
  }

  /** `OR Vx, Vy` is idempotent: a second one changes only `pc`. */
  lemma OrIdempotent(e: Emulator, x: nat, y: nat)
    requires e.Valid() && x < 16 && y < 16
    ensures var once := Execute(e, Instructions.Or(x, y)).value;
            Execute(once, Instructions.Or(x, y)) == Ok(once.(pc := once.pc + 2))
  {
    var once := Execute(e, Instructions.Or(x, y)).value;
    var w := once.registers.data;
    if x == y {
      OrAndSelf(OrOp, e.registers.data[x], 8);
      OrAndSelf(OrOp, w[x], 8);
    } else {
      OrAndAbsorb(OrOp, e.registers.data[x], e.registers.data[y], 8);
    }
    assert w[x := BitOr(w[x], w[y])] == w;
  }

  /** `AND Vx, Vy` is idempotent: a second one changes only `pc`. */
  lemma AndIdempotent(e: Emulator, x: nat, y: nat)
    requires e.Valid() && x < 16 && y < 16
    ensures var once := Execute(e, Instructions.And(x, y)).value;
            Execute(once, Instructions.And(x, y)) == Ok(once.(pc := once.pc + 2))
  {
    var once := Execute(e, Instructions.And(x, y)).value;
    var w := once.registers.data;
    if x == y {
      OrAndSelf(AndOp, e.registers.data[x], 8);
      OrAndSelf(AndOp, w[x], 8);
    } else {
      OrAndAbsorb(AndOp, e.registers.data[x], e.registers.data[y], 8);
    }
    assert w[x := BitAnd(w[x], w[y])] == w;
  }

  /** A `Drw` repeated with the same operands turns the frame back to what
      it was: the first one changes only VF, which the second does not
      read (it is cleared first), so both draw the same sprite at the same
      place. */
  lemma DrawTwiceRestores(e: Emulator, x: nat, y: nat, nibble: u8)
    requires e.Valid() && x < 16 && y < 16 && nibble < 16
    requires Execute(e, Instructions.Drw(x, y, nibble)).Ok?
    ensures var once := Execute(e, Instructions.Drw(x, y, nibble)).value;
            var twice := Execute(once, Instructions.Drw(x, y, nibble));
            twice.Ok? && twice.value.display == e.display
  {
    var x0, y0 := Coordinate(e, x, Display.DISPLAY_WIDTH), Coordinate(e, y, Display.DISPLAY_HEIGHT);
    var sprite := SpriteAt(e, nibble);
    var once := Draw(e, x, y, nibble).value;
    assert Coordinate(once, x, Display.DISPLAY_WIDTH) == x0;
    assert Coordinate(once, y, Display.DISPLAY_HEIGHT) == y0;
    assert SpriteAt(once, nibble) == sprite;
    var twice := Draw(once, x, y, nibble).value;
    forall qy, qx | 0 <= qy < Display.DISPLAY_HEIGHT && 0 <= qx < Display.DISPLAY_WIDTH
      ensures twice.display.buf[qy][qx] == e.display.buf[qy][qx]
    {
      var hit := Sprite.SpriteHit(x0, y0, sprite, 0, qx, qy);
      assert once.display.buf[qy][qx] == (e.display.buf[qy][qx] != hit);
      assert twice.display.buf[qy][qx] == (once.display.buf[qy][qx] != hit);
    }
    Display.Extensionality(twice.display, e.display);
  }

  /** `fetch_instruction` on a fresh machine: the words at 0x200 and 0x202
      are `CLS` and `RET`, and past the program memory reads as zero, which
      decodes to `Nop`. */
  lemma FetchExample()
    ensures var e := FromProgram([0x00, 0xE0, 0x00, 0xEE]).value;
            && Fetch(e) == Ok(Instructions.Cls)
            && Fetch(e.(pc := e.pc + 2)) == Ok(Instructions.Ret)
            && Fetch(e.(pc := e.pc + 4)) == Ok(Instructions.Nop)
  {
    var e := FromProgram([0x00, 0xE0, 0x00, 0xEE]).value;
    assert e.memory[0x200] == 0x00 && e.memory[0x201] == 0xE0;
    assert e.memory[0x202] == 0x00 && e.memory[0x203] == 0xEE;
    assert e.memory[0x204] == 0x00 && e.memory[0x205] == 0x00;
    Instructions.DecodeVectors1();
    assert Instructions.FromOpcode(0x00E0) == Ok(Instructions.Cls);
  }

  /** A `RET` with nothing to return to stops the run with an error. */
  lemma RetOutsideSubroutineFails()
    ensures Run(FromProgram([0x00, 0xEE]).value, 1) == Failed(RetOutsideSubroutine)
  {
    var e := FromProgram([0x00, 0xEE]).value;
    assert e.memory[0x200] == 0x00 && e.memory[0x201] == 0xEE;
    Instructions.DecodeVectors1();
    assert Fetch(e) == Ok(Instructions.Ret);
  }
}
