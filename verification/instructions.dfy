/** The instruction set and opcode decoder of src/instructions.rs, the one
    the emulator of src/emulator.rs executes. Decoding is total: every
    16-bit word yields an instruction or an `UnknownInstruction` error. */
module Instructions {
  import opened Common

  /** One case per instruction. Register selectors and addresses are
      `usize` in the source, bytes and sprite heights `u8`. */
  datatype Instruction =
    | Nop
    | Jp(addr: nat)
    | JpV0(addr: nat)
    | Call(addr: nat)
    | Ret
    | SeVxByte(x: nat, byte: u8)
    | SneVxByte(x: nat, byte: u8)
    | SeVxVy(x: nat, y: nat)
    | SneVxVy(x: nat, y: nat)
    | Skp(x: nat)
    | Sknp(x: nat)
    | LdVxByte(x: nat, byte: u8)
    | LdVxVy(x: nat, y: nat)
    | LdIAddr(addr: nat)
    | LdK(x: nat)
    | LdDt(x: nat)
    | LdSt(x: nat)
    | LdF(x: nat)
    | LdB(x: nat)
    | LdI(x: nat)
    | LdIVx(x: nat)
    | Rnd(x: nat, byte: u8)
    | AddVxByte(x: nat, byte: u8)
    | AddVxVy(x: nat, y: nat)
    | AddI(x: nat)
    | Sub(x: nat, y: nat)
    | Subn(x: nat, y: nat)
    | And(x: nat, y: nat)
    | Or(x: nat, y: nat)
    | Xor(x: nat, y: nat)
    | Shr(x: nat)
    | Shl(x: nat)
    | Cls
    | Drw(x: nat, y: nat, nibble: u8)
  {
    /** Every field fits the opcode field it comes from: register selectors
        and the sprite height are nibbles, addresses are 12 bits. */
    predicate WellFormed() {
      match this
      case Nop | Ret | Cls => true
      case Jp(addr) => addr < 0x1000
      case JpV0(addr) => addr < 0x1000
      case Call(addr) => addr < 0x1000
      case LdIAddr(addr) => addr < 0x1000
      case SeVxByte(x, _) => x < 16
      case SneVxByte(x, _) => x < 16
      case LdVxByte(x, _) => x < 16
      case Rnd(x, _) => x < 16
      case AddVxByte(x, _) => x < 16
      case Skp(x) => x < 16
      case Sknp(x) => x < 16
      case LdK(x) => x < 16
      case LdDt(x) => x < 16
      case LdSt(x) => x < 16
      case LdF(x) => x < 16
      case LdB(x) => x < 16
      case LdI(x) => x < 16
      case LdIVx(x) => x < 16
      case AddI(x) => x < 16
      case Shr(x) => x < 16
      case Shl(x) => x < 16
      case SeVxVy(x, y) => x < 16 && y < 16
      case SneVxVy(x, y) => x < 16 && y < 16
      case LdVxVy(x, y) => x < 16 && y < 16
      case AddVxVy(x, y) => x < 16 && y < 16
      case Sub(x, y) => x < 16 && y < 16
      case Subn(x, y) => x < 16 && y < 16
      case And(x, y) => x < 16 && y < 16
      case Or(x, y) => x < 16 && y < 16
      case Xor(x, y) => x < 16 && y < 16
      case Drw(x, y, nibble) => x < 16 && y < 16 && nibble < 16
    }
  }

  /** The opcode fields: leading nibble, x (bits 8-11), y (bits 4-7), the
      low byte, the low 12 bits and the low nibble. The source extracts
      them with masks and shifts; here they are written with division and
      remainder by powers of two. */
  function Group(op: u16): (r: nat)
    ensures r < 16
  {
    op / 0x1000
  }

  function X(op: u16): (r: nat)
    ensures r < 16
  {
    (op / 0x100) % 0x10
  }

  function Y(op: u16): (r: nat)
    ensures r < 16
  {
    (op / 0x10) % 0x10
  }

  function Byte(op: u16): (r: u8) {
    op % 0x100
  }

  function Addr(op: u16): (r: nat)
    ensures r < 0x1000
  {
    op % 0x1000
  }

  function Nibble(op: u16): (r: u8)
    ensures r < 16
  {
    op % 0x10
  }

  /** The fields partition the word: the four nibbles recompose it, and the
      byte and address fields are its low nibbles. */
  lemma FieldsRecompose(op: u16)
    ensures op == Group(op) * 0x1000 + X(op) * 0x100 + Y(op) * 0x10 + Nibble(op)
    ensures Byte(op) == Y(op) * 0x10 + Nibble(op)
    ensures Addr(op) == X(op) * 0x100 + Byte(op)
  {
    var low12 := op % 0x1000;
    var low8 := low12 % 0x100;
    assert op == Group(op) * 0x1000 + low12;
    assert low12 == (low12 / 0x100) * 0x100 + low8;
    assert low8 == (low8 / 0x10) * 0x10 + low8 % 0x10;
    FieldsOf(op, Group(op), low12 / 0x100, low8 / 0x10, low8 % 0x10);
  }

  /** The words the decoder accepts, group by group: in group 0 only
      0x0000, 0x00E0 and 0x00EE; in group 8 the low nibbles 0-7 and E; in
      groups E and F the listed trailing bytes; every other group whole. */
  predicate Recognized(op: u16) {
    var group := Group(op);
    if group == 0x0 then op in {0x0000, 0x00E0, 0x00EE}
    else if group == 0x8 then Nibble(op) in {0x0, 0x1, 0x2, 0x3, 0x4, 0x5, 0x6, 0x7, 0xE}
    else if group == 0xE then Byte(op) in {0x9E, 0xA1}
    else if group == 0xF then Byte(op) in {0x07, 0x0A, 0x15, 0x18, 0x1E, 0x29, 0x33, 0x55, 0x65}
    else true
  }

  /** `Instruction::from_opcode`. */
  function FromOpcode(op: u16): (r: Result<Instruction>)
    ensures r.Ok? <==> Recognized(op)
    ensures r.Err? ==> r.error == UnknownInstruction(op)
    ensures r.Ok? ==> r.value.WellFormed()
  {
    var x := X(op);
    var y := Y(op);
    var byte := Byte(op);
    var addr := Addr(op);
    var e := Nibble(op);
    match Group(op)
    case 0x0 =>
      if op == 0x0000 then Ok(Nop)
      else if op == 0x00EE then Ok(Ret)
      else if op == 0x00E0 then Ok(Cls)
      else Err(UnknownInstruction(op))
    case 0x1 => Ok(Jp(addr))
    case 0x2 => Ok(Call(addr))
    case 0x3 => Ok(SeVxByte(x, byte))
    case 0x4 => Ok(SneVxByte(x, byte))
    case 0x5 => Ok(SeVxVy(x, y))
    case 0x6 => Ok(LdVxByte(x, byte))
    case 0x7 => Ok(AddVxByte(x, byte))
    case 0x8 =>
      if e == 0x0 then Ok(LdVxVy(x, y))
      else if e == 0x1 then Ok(Or(x, y))
      else if e == 0x2 then Ok(And(x, y))
      else if e == 0x3 then Ok(Xor(x, y))
      else if e == 0x6 then Ok(Shr(x))
      else if e == 0xE then Ok(Shl(x))
      else if e == 0x4 then Ok(AddVxVy(x, y))
      else if e == 0x5 then Ok(Sub(x, y))
      else if e == 0x7 then Ok(Subn(x, y))
      else Err(UnknownInstruction(op))
    case 0x9 => Ok(SneVxVy(x, y))
    case 0xA => Ok(LdIAddr(addr))
    case 0xB => Ok(JpV0(addr))
    case 0xC => Ok(Rnd(x, byte))
    case 0xD => Ok(Drw(x, y, e))
    case 0xE =>
      if byte == 0x9E then Ok(Skp(x))
      else if byte == 0xA1 then Ok(Sknp(x))
      else Err(UnknownInstruction(op))
    case 0xF =>
      if byte == 0x07 then Ok(LdDt(x))
      else if byte == 0x0A then Ok(LdK(x))
      else if byte == 0x15 then Ok(LdDt(x))
      else if byte == 0x18 then Ok(LdSt(x))
      else if byte == 0x1E then Ok(AddI(x))
      else if byte == 0x29 then Ok(LdF(x))
      else if byte == 0x33 then Ok(LdB(x))
      else if byte == 0x55 then Ok(LdI(x))
      else if byte == 0x65 then Ok(LdIVx(x))
      else Err(UnknownInstruction(op))
  }

  /** A reference assembler: the canonical opcode of each well-formed
      instruction. `LdDt` is assembled as Fx15 and the shifts with y = 0. */
  function Encode(ins: Instruction): (op: u16)
    requires ins.WellFormed()
  {
    match ins
    case Nop => 0x0000
    case Jp(addr) => 0x1000 + addr
    case JpV0(addr) => 0xB000 + addr
    case Call(addr) => 0x2000 + addr
    case Ret => 0x00EE
    case SeVxByte(x, byte) => 0x3000 + x * 0x100 + byte
    case SneVxByte(x, byte) => 0x4000 + x * 0x100 + byte
    case SeVxVy(x, y) => 0x5000 + x * 0x100 + y * 0x10
    case SneVxVy(x, y) => 0x9000 + x * 0x100 + y * 0x10
    case Skp(x) => 0xE09E + x * 0x100
    case Sknp(x) => 0xE0A1 + x * 0x100
    case LdVxByte(x, byte) => 0x6000 + x * 0x100 + byte
    case LdVxVy(x, y) => 0x8000 + x * 0x100 + y * 0x10
    case LdIAddr(addr) => 0xA000 + addr
    case LdK(x) => 0xF00A + x * 0x100
    case LdDt(x) => 0xF015 + x * 0x100
    case LdSt(x) => 0xF018 + x * 0x100
    case LdF(x) => 0xF029 + x * 0x100
    case LdB(x) => 0xF033 + x * 0x100
    case LdI(x) => 0xF055 + x * 0x100
    case LdIVx(x) => 0xF065 + x * 0x100
    case Rnd(x, byte) => 0xC000 + x * 0x100 + byte
    case AddVxByte(x, byte) => 0x7000 + x * 0x100 + byte
    case AddVxVy(x, y) => 0x8004 + x * 0x100 + y * 0x10
    case AddI(x) => 0xF01E + x * 0x100
    case Sub(x, y) => 0x8005 + x * 0x100 + y * 0x10
    case Subn(x, y) => 0x8007 + x * 0x100 + y * 0x10
    case And(x, y) => 0x8002 + x * 0x100 + y * 0x10
    case Or(x, y) => 0x8001 + x * 0x100 + y * 0x10
    case Xor(x, y) => 0x8003 + x * 0x100 + y * 0x10
    case Shr(x) => 0x8006 + x * 0x100
    case Shl(x) => 0x800E + x * 0x100
    case Cls => 0x00E0
    case Drw(x, y, nibble) => 0xD000 + x * 0x100 + y * 0x10 + nibble
  }

  /** Decoding undoes assembling: every well-formed instruction is
      recovered from its canonical opcode. */
  lemma DecodeEncode(ins: Instruction)
    requires ins.WellFormed()
    ensures FromOpcode(Encode(ins)) == Ok(ins)
  {
    if ins.Nop? || ins.Ret? || ins.Cls? {
    } else if ins.Jp? || ins.JpV0? || ins.Call? || ins.LdIAddr? {
      DecodeEncodeAddr(ins);
    } else if ins.SeVxByte? || ins.SneVxByte? || ins.LdVxByte? || ins.AddVxByte? || ins.Rnd? {
      DecodeEncodeXByte(ins);
    } else if ins.Skp? || ins.Sknp? {
      DecodeEncodeKeys(ins);
    } else if ins.LdK? || ins.LdDt? || ins.LdSt? || ins.AddI? || ins.LdF? || ins.LdB? || ins.LdI? || ins.LdIVx? {
      DecodeEncodeMisc(ins);
    } else if ins.SeVxVy? || ins.SneVxVy? || ins.Drw? {
      DecodeEncodeXY(ins);
    } else {
      DecodeEncodeAlu(ins);
    }
  }

  lemma DecodeEncodeAddr(ins: Instruction)
    requires ins.WellFormed() && (ins.Jp? || ins.JpV0? || ins.Call? || ins.LdIAddr?)
    ensures FromOpcode(Encode(ins)) == Ok(ins)
  {
    var op := Encode(ins);
    match ins
    case Jp(addr) => FieldsOfAddr(op, 0x1, addr);
    case JpV0(addr) => FieldsOfAddr(op, 0xB, addr);
    case Call(addr) => FieldsOfAddr(op, 0x2, addr);
    case LdIAddr(addr) => FieldsOfAddr(op, 0xA, addr);
  }

  lemma DecodeEncodeXByte(ins: Instruction)
    requires ins.WellFormed()
    requires ins.SeVxByte? || ins.SneVxByte? || ins.LdVxByte? || ins.AddVxByte? || ins.Rnd?
    ensures FromOpcode(Encode(ins)) == Ok(ins)
  {
    var op := Encode(ins);
    match ins
    case SeVxByte(x, byte) => FieldsOfXByte(op, 0x3, x, byte);
    case SneVxByte(x, byte) => FieldsOfXByte(op, 0x4, x, byte);
    case LdVxByte(x, byte) => FieldsOfXByte(op, 0x6, x, byte);
    case AddVxByte(x, byte) => FieldsOfXByte(op, 0x7, x, byte);
    case Rnd(x, byte) => FieldsOfXByte(op, 0xC, x, byte);
  }

  lemma DecodeEncodeKeys(ins: Instruction)
    requires ins.WellFormed() && (ins.Skp? || ins.Sknp?)
    ensures FromOpcode(Encode(ins)) == Ok(ins)
  {
    var op := Encode(ins);
    match ins
    case Skp(x) => FieldsOfXByte(op, 0xE, x, 0x9E);
    case Sknp(x) => FieldsOfXByte(op, 0xE, x, 0xA1);
  }

  lemma DecodeEncodeMisc(ins: Instruction)
    requires ins.WellFormed()
    requires ins.LdK? || ins.LdDt? || ins.LdSt? || ins.AddI? || ins.LdF? || ins.LdB? || ins.LdI? || ins.LdIVx?
    ensures FromOpcode(Encode(ins)) == Ok(ins)
  {
    var op := Encode(ins);
    FieldsOfXByte(op, 0xF, ins.x, op % 0x100);
  }

  lemma DecodeEncodeXY(ins: Instruction)
    requires ins.WellFormed() && (ins.SeVxVy? || ins.SneVxVy? || ins.Drw?)
    ensures FromOpcode(Encode(ins)) == Ok(ins)
  {
    var op := Encode(ins);
    match ins
    case SeVxVy(x, y) => FieldsOf(op, 0x5, x, y, 0);
    case SneVxVy(x, y) => FieldsOf(op, 0x9, x, y, 0);
    case Drw(x, y, nibble) => FieldsOf(op, 0xD, x, y, nibble);
  }

  lemma DecodeEncodeAlu(ins: Instruction)
    requires ins.WellFormed()
    requires ins.LdVxVy? || ins.Or? || ins.And? || ins.Xor? || ins.AddVxVy? || ins.Sub?
          || ins.Shr? || ins.Subn? || ins.Shl?
    ensures FromOpcode(Encode(ins)) == Ok(ins)
  {
    if ins.LdVxVy? || ins.Or? || ins.And? || ins.Xor? {
      DecodeEncodeLogic(ins);
    } else {
      DecodeEncodeArith(ins);
    }
  }

  lemma DecodeEncodeLogic(ins: Instruction)
    requires ins.WellFormed() && (ins.LdVxVy? || ins.Or? || ins.And? || ins.Xor?)
    ensures FromOpcode(Encode(ins)) == Ok(ins)
  {
    var op := Encode(ins);
    match ins
    case LdVxVy(x, y) => FieldsOf(op, 0x8, x, y, 0x0);
    case Or(x, y) => FieldsOf(op, 0x8, x, y, 0x1);
    case And(x, y) => FieldsOf(op, 0x8, x, y, 0x2);
    case Xor(x, y) => FieldsOf(op, 0x8, x, y, 0x3);
  }

  lemma DecodeEncodeArith(ins: Instruction)
    requires ins.WellFormed() && (ins.AddVxVy? || ins.Sub? || ins.Shr? || ins.Subn? || ins.Shl?)
    ensures FromOpcode(Encode(ins)) == Ok(ins)
  {
    var op := Encode(ins);
    match ins
    case AddVxVy(x, y) => FieldsOf(op, 0x8, x, y, 0x4);
    case Sub(x, y) => FieldsOf(op, 0x8, x, y, 0x5);
    case Shr(x) => FieldsOf(op, 0x8, x, 0, 0x6);
    case Subn(x, y) => FieldsOf(op, 0x8, x, y, 0x7);
    case Shl(x) => FieldsOf(op, 0x8, x, 0, 0xE);
  }

  /** The word the decoder actually reads: 5xyN and 9xyN with N cleared,
      8xy6 and 8xyE with y cleared, and Fx07 read as Fx15. Every other
      word is read whole. */
  function Canonical(op: u16): (c: u16)
    ensures Group(c) == Group(op) && X(c) == X(op)
  {
    FieldsRecompose(op);
    var g := Group(op);
    var n := Nibble(op);
    if g == 0x5 || g == 0x9 then
      FieldsOf(op - n, g, X(op), Y(op), 0);
      op - n
    else if g == 0x8 && (n == 0x6 || n == 0xE) then
      FieldsOf(op - Y(op) * 0x10, g, X(op), 0, n);
      op - Y(op) * 0x10
    else if g == 0xF && Byte(op) == 0x07 then
      FieldsOf(op + 0x0E, g, X(op), 1, 5);
      op + 0x0E
    else op
  }

  /** Assembling undoes decoding up to the bits the decoder forgets: the
      decoded instruction assembles to the canonical form of the word, so
      it is a function of that form alone. The word itself comes back
      exactly when nothing was forgotten: Fx07 decodes like Fx15, the
      shifts drop y, and 5xyN and 9xyN drop N. */
  lemma EncodeDecode(op: u16)
    requires Recognized(op)
    ensures Encode(FromOpcode(op).value) == Canonical(op)
    ensures var ins := FromOpcode(op).value;
            Encode(ins) == op
            <==> && !(ins.LdDt? && Byte(op) == 0x07)
                 && !((ins.Shr? || ins.Shl?) && Y(op) != 0)
                 && !((ins.SeVxVy? || ins.SneVxVy?) && Nibble(op) != 0)
  {
    var g := Group(op);
    if g == 0x8 {
      EncodeDecodeAlu(op);
    } else if g == 0xE || g == 0xF {
      EncodeDecodeXByte(op);
    } else if g == 0x5 || g == 0x9 {
      EncodeDecodeXY(op);
    } else if g != 0 {
      EncodeDecodeWhole(op);
    }
  }

  /** The bits the decoder forgets make no difference, for every word: the
      low nibble of 5xyN and 9xyN, the y field of 8xy6 and 8xyE, and
      Fx07 against Fx15. */
  lemma ForgottenBitsIgnored(op: u16)
    ensures (Group(op) == 0x5 || Group(op) == 0x9) ==> FromOpcode(op) == FromOpcode(op - Nibble(op))
    ensures Group(op) == 0x8 && (Nibble(op) == 0x6 || Nibble(op) == 0xE)
            ==> FromOpcode(op) == FromOpcode(op - Y(op) * 0x10)
    ensures Group(op) == 0xF && Byte(op) == 0x07 ==> FromOpcode(op) == FromOpcode(op + 0x0E)
  {
    if Recognized(op) {
      var ins := FromOpcode(op).value;
      EncodeDecode(op);
      DecodeEncode(ins);
      assert FromOpcode(Canonical(op)) == FromOpcode(op);
    }
  }

  lemma EncodeDecodeXY(op: u16)
    requires (Group(op) == 0x5 || Group(op) == 0x9) && FromOpcode(op).Ok?
    ensures Encode(FromOpcode(op).value) == Canonical(op)
    ensures Encode(FromOpcode(op).value) == op <==> Nibble(op) == 0
  {
    FieldsRecompose(op);
    assert Encode(FromOpcode(op).value) == Group(op) * 0x1000 + X(op) * 0x100 + Y(op) * 0x10;
  }

  lemma EncodeDecodeWhole(op: u16)
    requires Group(op) in {0x1, 0x2, 0x3, 0x4, 0x6, 0x7, 0xA, 0xB, 0xC, 0xD}
    ensures FromOpcode(op).Ok? && Encode(FromOpcode(op).value) == op == Canonical(op)
  {
    FieldsRecompose(op);
    if Group(op) == 0xD {
      assert Encode(FromOpcode(op).value) == 0xD000 + X(op) * 0x100 + Y(op) * 0x10 + Nibble(op);
    } else {
      assert Encode(FromOpcode(op).value) == Group(op) * 0x1000 + Addr(op);
    }
  }

  lemma EncodeDecodeAlu(op: u16)
    requires Group(op) == 0x8 && FromOpcode(op).Ok?
    ensures var ins := FromOpcode(op).value;
            Encode(ins) == Canonical(op)
            && (Encode(ins) == op <==> !((ins.Shr? || ins.Shl?) && Y(op) != 0))
  {
    FieldsRecompose(op);
    var ins := FromOpcode(op).value;
    var y := if ins.Shr? || ins.Shl? then 0 else Y(op);
    assert Encode(ins) == 0x8000 + X(op) * 0x100 + y * 0x10 + Nibble(op);
  }

  lemma EncodeDecodeXByte(op: u16)
    requires (Group(op) == 0xE || Group(op) == 0xF) && FromOpcode(op).Ok?
    ensures var ins := FromOpcode(op).value;
            Encode(ins) == Canonical(op)
            && (Encode(ins) == op <==> !(ins.LdDt? && Byte(op) == 0x07))
  {
    FieldsRecompose(op);
    var ins := FromOpcode(op).value;
    var byte := if ins.LdDt? then 0x15 else Byte(op);
    assert Encode(ins) == Group(op) * 0x1000 + X(op) * 0x100 + byte;
  }

  /** Helper: dividing `q * d + r` by `d` gives back `q` and `r`. */
  lemma DivMod(q: nat, r: nat, d: nat)
    requires d == 0x10 || d == 0x100 || d == 0x1000
    requires 0 <= r < d
    ensures (q * d + r) / d == q && (q * d + r) % d == r
  {
    if d == 0x10 {
      assert (q * 0x10 + r) / 0x10 == q;
    } else if d == 0x100 {
      assert (q * 0x100 + r) / 0x100 == q;
    } else {
      assert (q * 0x1000 + r) / 0x1000 == q;
    }
  }

  /** Helper: the fields of a word built from four nibbles. */
  lemma FieldsOf(op: u16, g: nat, x: nat, y: nat, n: nat)
    requires g < 16 && x < 16 && y < 16 && n < 16
    requires op == g * 0x1000 + x * 0x100 + y * 0x10 + n
    ensures Group(op) == g && X(op) == x && Y(op) == y && Nibble(op) == n
    ensures Byte(op) == y * 0x10 + n && Addr(op) == x * 0x100 + y * 0x10 + n
  {
    DivMod(g, x * 0x100 + y * 0x10 + n, 0x1000);
    DivMod(g * 0x10 + x, y * 0x10 + n, 0x100);
    DivMod(g, x, 0x10);
    DivMod(g * 0x100 + x * 0x10 + y, n, 0x10);
    DivMod(g * 0x10 + x, y, 0x10);
  }

  /** Helper: the fields of a word built from a nibble and a 12-bit
      address. */
  lemma FieldsOfAddr(op: u16, g: nat, addr: nat)
    requires g < 16 && addr < 0x1000
    requires op == g * 0x1000 + addr
    ensures Group(op) == g && Addr(op) == addr
  {
  }

  /** Helper: the fields of a word built from two nibbles and a byte. */
  lemma FieldsOfXByte(op: u16, g: nat, x: nat, byte: nat)
    requires g < 16 && x < 16 && byte < 0x100
    requires op == g * 0x1000 + x * 0x100 + byte
    ensures Group(op) == g && X(op) == x && Byte(op) == byte
  {
  }

  /** The decoder is not injective: 0xFx07 and 0xFx15 both give `LdDt`. */
  lemma NotInjective(x: nat)
    requires x < 16
    ensures FromOpcode(0xF007 + x * 0x100) == FromOpcode(0xF015 + x * 0x100) == Ok(LdDt(x))
  {
    FieldsOf(0xF007 + x * 0x100, 0xF, x, 0, 7);
    FieldsOf(0xF015 + x * 0x100, 0xF, x, 1, 5);
  }

  /** Leading nibbles 1-7 and 9-D decode whatever the low twelve bits. */
  lemma WholeGroupsDecode(op: u16)
    requires Group(op) in {0x1, 0x2, 0x3, 0x4, 0x5, 0x6, 0x7, 0x9, 0xA, 0xB, 0xC, 0xD}
    ensures FromOpcode(op).Ok?
  {
  }

  /** In group 0 only Nop, Cls and Ret exist. */
  lemma SystemGroup(op: u16)
    requires Group(op) == 0
    ensures FromOpcode(op).Ok? <==> op == 0x0000 || op == 0x00E0 || op == 0x00EE
    ensures op == 0x0000 ==> FromOpcode(op) == Ok(Nop)
    ensures op == 0x00E0 ==> FromOpcode(op) == Ok(Cls)
    ensures op == 0x00EE ==> FromOpcode(op) == Ok(Ret)
  {
  }

  /** In group 8 the low nibbles 8-D and F are errors. */
  lemma ArithmeticGroup(op: u16)
    requires Group(op) == 8
    ensures FromOpcode(op).Err? <==> Nibble(op) in {0x8, 0x9, 0xA, 0xB, 0xC, 0xD, 0xF}
  {
  }

  /** The sample opcodes of the source's unit test, in four parts. */
  lemma DecodeVectors1()
    ensures FromOpcode(0x0000) == Ok(Nop)
    ensures FromOpcode(0x1234) == Ok(Jp(0x234))
    ensures FromOpcode(0xB234) == Ok(JpV0(0x234))
    ensures FromOpcode(0x2345) == Ok(Call(0x345))
    ensures FromOpcode(0x00EE) == Ok(Ret)
    ensures FromOpcode(0x3122) == Ok(SeVxByte(1, 0x22))
    ensures FromOpcode(0x4122) == Ok(SneVxByte(1, 0x22))
    ensures FromOpcode(0x5120) == Ok(SeVxVy(1, 2))
    ensures FromOpcode(0x9120) == Ok(SneVxVy(1, 2))
  {
  }

  lemma DecodeVectors2()
    ensures FromOpcode(0xE19E) == Ok(Skp(1))
    ensures FromOpcode(0xE1A1) == Ok(Sknp(1))
    ensures FromOpcode(0x6122) == Ok(LdVxByte(1, 0x22))
    ensures FromOpcode(0x8120) == Ok(LdVxVy(1, 2))
    ensures FromOpcode(0xA123) == Ok(LdIAddr(0x123))
    ensures FromOpcode(0xF107) == Ok(LdDt(1))
    ensures FromOpcode(0xF10A) == Ok(LdK(1))
    ensures FromOpcode(0xF115) == Ok(LdDt(1))
    ensures FromOpcode(0xF118) == Ok(LdSt(1))
  {
  }

  lemma DecodeVectors3()
    ensures FromOpcode(0xF11E) == Ok(AddI(1))
    ensures FromOpcode(0xF129) == Ok(LdF(1))
    ensures FromOpcode(0xF133) == Ok(LdB(1))
    ensures FromOpcode(0xF155) == Ok(LdI(1))
    ensures FromOpcode(0xF165) == Ok(LdIVx(1))
    ensures FromOpcode(0xC122) == Ok(Rnd(1, 0x22))
    ensures FromOpcode(0x8121) == Ok(Or(1, 2))
    ensures FromOpcode(0x8122) == Ok(And(1, 2))
    ensures FromOpcode(0x8123) == Ok(Xor(1, 2))
  {
  }

  lemma DecodeVectors4()
    ensures FromOpcode(0x8126) == Ok(Shr(1))
    ensures FromOpcode(0x812E) == Ok(Shl(1))
    ensures FromOpcode(0x7122) == Ok(AddVxByte(1, 0x22))
    ensures FromOpcode(0x8124) == Ok(AddVxVy(1, 2))
    ensures FromOpcode(0x8125) == Ok(Sub(1, 2))
    ensures FromOpcode(0x8127) == Ok(Subn(1, 2))
  {
  }

  lemma DecodeVectors5()
    ensures FromOpcode(0xD123) == Ok(Drw(1, 2, 3))
    ensures FromOpcode(0x00E0) == Ok(Cls)
  {
  }
}
