/** The second instruction set of the repository, src/instruction.rs,
    named after Cowgod's CHIP-8 Technical Reference, and its list parser
    `parse_instructions`. Every field is a `u16`. Unlike the decoder of
    src/instructions.rs, the parser reports nothing: words it does not
    recognise are dropped. */
module InstructionList {
  import opened Common
  import Instructions

  datatype Instruction =
    | Cls
    | Ret
    | Jp(addr: u16)
    | Call(addr: u16)
    | SeVxByte(vx: u16, byte: u16)
    | SneVxByte(vx: u16, byte: u16)
    | SeVxVy(vx: u16, vy: u16)
    | LdVxByte(vx: u16, byte: u16)
    | AddVxByte(vx: u16, byte: u16)
    | LdVxVy(vx: u16, vy: u16)
    | OrVxVy(vx: u16, vy: u16)
    | AndVxVy(vx: u16, vy: u16)
    | XorVxVy(vx: u16, vy: u16)
    | AddVxVy(vx: u16, vy: u16)
    | SubVxVy(vx: u16, vy: u16)
    | ShrVx(vx: u16)
    | SubnVxVy(vx: u16, vy: u16)
    | ShlVx(vx: u16)
    | SneVxVy(vx: u16, vy: u16)
    | LdIAddr(addr: u16)
    | JpV0Addr(addr: u16)
    | Rnd(vx: u16, byte: u16)
    | Drw(vx: u16, vy: u16, nibble: u16)
    | SkpVx(vx: u16)
    | SknpVx(vx: u16)
    | LdVxDt(vx: u16)
    | LdVxK(vx: u16)
    | LdDtVx(vx: u16)
    | LdStVx(vx: u16)
    | AddIVx(vx: u16)
    | LdFVx(vx: u16)
    | LdBVx(vx: u16)
    | LdIVx(vx: u16)
    | LdVxI(vx: u16)
  {
    /** Every field fits the opcode field it was cut from. */
    predicate WellFormed() {
      match this
      case Cls | Ret => true
      case Jp(addr) => addr < 0x1000
      case Call(addr) => addr < 0x1000
      case LdIAddr(addr) => addr < 0x1000
      case JpV0Addr(addr) => addr < 0x1000
      case SeVxByte(vx, byte) => vx < 16 && byte < 0x100
      case SneVxByte(vx, byte) => vx < 16 && byte < 0x100
      case LdVxByte(vx, byte) => vx < 16 && byte < 0x100
      case AddVxByte(vx, byte) => vx < 16 && byte < 0x100
      case Rnd(vx, byte) => vx < 16 && byte < 0x100
      case SeVxVy(vx, vy) => vx < 16 && vy < 16
      case SneVxVy(vx, vy) => vx < 16 && vy < 16
      case LdVxVy(vx, vy) => vx < 16 && vy < 16
      case OrVxVy(vx, vy) => vx < 16 && vy < 16
      case AndVxVy(vx, vy) => vx < 16 && vy < 16
      case XorVxVy(vx, vy) => vx < 16 && vy < 16
      case AddVxVy(vx, vy) => vx < 16 && vy < 16
      case SubVxVy(vx, vy) => vx < 16 && vy < 16
      case SubnVxVy(vx, vy) => vx < 16 && vy < 16
      case Drw(vx, vy, nibble) => vx < 16 && vy < 16 && nibble < 16
      case ShrVx(vx) => vx < 16
      case ShlVx(vx) => vx < 16
      case SkpVx(vx) => vx < 16
      case SknpVx(vx) => vx < 16
      case LdVxDt(vx) => vx < 16
      case LdVxK(vx) => vx < 16
      case LdDtVx(vx) => vx < 16
      case LdStVx(vx) => vx < 16
      case AddIVx(vx) => vx < 16
      case LdFVx(vx) => vx < 16
      case LdBVx(vx) => vx < 16
      case LdIVx(vx) => vx < 16
      case LdVxI(vx) => vx < 16
    }
  }

  /** The decision `parse_instructions` takes on one word: `None` is the
      `continue` that drops it. */
  function ParseOne(op: u16): (r: Option<Instruction>)
    ensures r.Some? ==> r.value.WellFormed()
  {
    var vx := (op / 0x100) % 0x10;
    var vy := (op / 0x10) % 0x10;
    var byte := op % 0x100;
    var addr := op % 0x1000;
    var e := op % 0x10;
    match op / 0x1000
    case 0x0 =>
      if op == 0x00E0 then Some(Cls)
      else if op == 0x00EE then Some(Ret)
      else None
    case 0x1 => Some(Jp(addr))
    case 0x2 => Some(Call(addr))
    case 0x3 => Some(SeVxByte(vx, byte))
    case 0x4 => Some(SneVxByte(vx, byte))
    case 0x5 => Some(SeVxVy(vx, vy))
    case 0x6 => Some(LdVxByte(vx, byte))
    case 0x7 => Some(AddVxByte(vx, byte))
    case 0x8 =>
      if e == 0x0 then Some(LdVxVy(vx, vy))
      else if e == 0x1 then Some(OrVxVy(vx, vy))
      else if e == 0x2 then Some(AndVxVy(vx, vy))
      else if e == 0x3 then Some(XorVxVy(vx, vy))
      else if e == 0x4 then Some(AddVxVy(vx, vy))
      else if e == 0x5 then Some(SubVxVy(vx, vy))
      else if e == 0x6 then Some(ShrVx(vx))
      else if e == 0x7 then Some(SubnVxVy(vx, vy))
      else if e == 0xE then Some(ShlVx(vx))
      else None
    case 0x9 => Some(SneVxVy(vx, vy))
    case 0xA => Some(LdIAddr(addr))
    case 0xB => Some(Jp(addr))
    case 0xC => Some(Rnd(vx, byte))
    case 0xD => Some(Drw(vx, vy, e))
    case 0xE =>
      if byte == 0x9E then Some(SkpVx(vx))
      else if byte == 0xA1 then Some(SknpVx(vx))
      else None
    case 0xF =>
      if byte == 0x07 then Some(LdVxDt(vx))
      else if byte == 0x0A then Some(LdVxK(vx))
      else if byte == 0x15 then Some(LdDtVx(vx))
      else if byte == 0x18 then Some(LdStVx(vx))
      else if byte == 0x1E then Some(AddIVx(vx))
      else if byte == 0x29 then Some(LdFVx(vx))
      else if byte == 0x33 then Some(LdBVx(vx))
      else if byte == 0x55 then Some(LdIVx(vx))
      else if byte == 0x65 then Some(LdVxI(vx))
      else None
  }

  /** The reference meaning of the parser: each word contributes its
      instruction, or nothing, in input order. */
  function Parsed(opcodes: seq<u16>): seq<Instruction> {
    if opcodes == [] then []
    else Parsed(opcodes[..|opcodes| - 1]) + Kept(opcodes[|opcodes| - 1])
  }

  /** What one word contributes to the output. */
  function Kept(op: u16): seq<Instruction> {
    match ParseOne(op)
    case Some(ins) => [ins]
    case None => []
  }

  /** `parse_instructions`: walk the words in order, pushing each
      recognised instruction. */
  method ParseInstructions(opcodes: seq<u16>) returns (instructions: seq<Instruction>)
    ensures instructions == Parsed(opcodes)
    ensures |instructions| <= |opcodes|
    ensures forall k | 0 <= k < |instructions| :: instructions[k].WellFormed()
  {
    instructions := [];
    var n := 0;
    while n < |opcodes|
      invariant n <= |opcodes|
      invariant instructions == Parsed(opcodes[..n])
      invariant |instructions| <= n
      invariant forall k | 0 <= k < |instructions| :: instructions[k].WellFormed()
    {
      var op := opcodes[n];
      assert opcodes[..n + 1][..n] == opcodes[..n];
      n := n + 1;
      match ParseOne(op)
      case Some(ins) =>
        instructions := instructions + [ins];
      case None =>
    }
    assert opcodes[..n] == opcodes;
  }

  /** Parsing distributes over concatenation, so the output keeps the
      input order. */
  lemma {:induction false} ParsedAppend(a: seq<u16>, b: seq<u16>)
    ensures Parsed(a + b) == Parsed(a) + Parsed(b)
    decreases |b|
  {
    if b == [] {
      assert a + b == a;
    } else {
      var last := b[|b| - 1];
      var init := b[..|b| - 1];
      assert (a + b)[..|a + b| - 1] == a + init;
      ParsedAppend(a, init);
    }
  }

  /** The parser never lengthens its input, and every instruction it
      produces is well formed. */
  lemma {:induction false} ParsedBounds(opcodes: seq<u16>)
    ensures |Parsed(opcodes)| <= |opcodes|
    ensures forall k | 0 <= k < |Parsed(opcodes)| :: Parsed(opcodes)[k].WellFormed()
    decreases |opcodes|
  {
    if opcodes != [] {
      ParsedBounds(opcodes[..|opcodes| - 1]);
    }
  }

  /** A word is kept exactly when the decoder of src/instructions.rs
      accepts it, except 0x0000, which that decoder reads as `Nop` and this
      parser drops. */
  lemma AgreesWithDecoder(op: u16)
    ensures ParseOne(op).Some? <==> Instructions.FromOpcode(op).Ok? && op != 0x0000
  {
  }

  /** The parser's name for each instruction of the decoder of
      src/instructions.rs: the same fields under this file's names, with
      `JpV0` read as a plain jump, the decoder's `LdDt` (which it also
      gives Fx15) as `LdDtVx`, and its `Nop` (0x0000) and its errors as a
      dropped word. */
  function Translate(r: Result<Instructions.Instruction>): (t: Option<Instruction>)
    requires r.Ok? ==> r.value.WellFormed()
    ensures t.None? <==> r.Err? || r.value.Nop?
  {
    match r
    case Err(_) => None
    case Ok(ins) =>
      match ins
      case Nop => None
      case Jp(addr) => Some(Jp(addr))
      case JpV0(addr) => Some(Jp(addr))
      case Call(addr) => Some(Call(addr))
      case Ret => Some(Ret)
      case SeVxByte(x, byte) => Some(SeVxByte(x, byte))
      case SneVxByte(x, byte) => Some(SneVxByte(x, byte))
      case SeVxVy(x, y) => Some(SeVxVy(x, y))
      case SneVxVy(x, y) => Some(SneVxVy(x, y))
      case Skp(x) => Some(SkpVx(x))
      case Sknp(x) => Some(SknpVx(x))
      case LdVxByte(x, byte) => Some(LdVxByte(x, byte))
      case LdVxVy(x, y) => Some(LdVxVy(x, y))
      case LdIAddr(addr) => Some(LdIAddr(addr))
      case LdK(x) => Some(LdVxK(x))
      case LdDt(x) => Some(LdDtVx(x))
      case LdSt(x) => Some(LdStVx(x))
      case LdF(x) => Some(LdFVx(x))
      case LdB(x) => Some(LdBVx(x))
      case LdI(x) => Some(LdIVx(x))
      case LdIVx(x) => Some(LdVxI(x))
      case Rnd(x, byte) => Some(Rnd(x, byte))
      case AddVxByte(x, byte) => Some(AddVxByte(x, byte))
      case AddVxVy(x, y) => Some(AddVxVy(x, y))
      case AddI(x) => Some(AddIVx(x))
      case Sub(x, y) => Some(SubVxVy(x, y))
      case Subn(x, y) => Some(SubnVxVy(x, y))
      case And(x, y) => Some(AndVxVy(x, y))
      case Or(x, y) => Some(OrVxVy(x, y))
      case Xor(x, y) => Some(XorVxVy(x, y))
      case Shr(x) => Some(ShrVx(x))
      case Shl(x) => Some(ShlVx(x))
      case Cls => Some(Cls)
      case Drw(x, y, nibble) => Some(Drw(x, y, nibble))
  }

  /** Every word parses to the decoder's instruction under the parser's
      names, fields included. The one word pair the two files tell apart
      differently is Fx07 and Fx15: the decoder reads both as `LdDt`, the
      parser reads Fx07 as `LdVxDt`. */
  lemma ParseOneMatchesDecoder(op: u16)
    ensures !(Instructions.Group(op) == 0xF && Instructions.Byte(op) == 0x07)
            ==> ParseOne(op) == Translate(Instructions.FromOpcode(op))
    ensures Instructions.Group(op) == 0xF && Instructions.Byte(op) == 0x07
            ==> ParseOne(op) == Some(LdVxDt(Instructions.X(op)))
  {
    var g := Instructions.Group(op);
    if g == 0x8 {
      MatchesDecoderAlu(op);
    } else if g == 0xE || g == 0xF {
      MatchesDecoderKeys(op);
    } else {
      MatchesDecoderRest(op);
    }
  }

  lemma MatchesDecoderAlu(op: u16)
    requires Instructions.Group(op) == 0x8
    ensures ParseOne(op) == Translate(Instructions.FromOpcode(op))
  {
  }

  lemma MatchesDecoderKeys(op: u16)
    requires Instructions.Group(op) == 0xE || Instructions.Group(op) == 0xF
    ensures !(Instructions.Group(op) == 0xF && Instructions.Byte(op) == 0x07)
            ==> ParseOne(op) == Translate(Instructions.FromOpcode(op))
    ensures Instructions.Group(op) == 0xF && Instructions.Byte(op) == 0x07
            ==> ParseOne(op) == Some(LdVxDt(Instructions.X(op)))
  {
  }

  lemma MatchesDecoderRest(op: u16)
    requires Instructions.Group(op) !in {0x8, 0xE, 0xF}
    ensures ParseOne(op) == Translate(Instructions.FromOpcode(op))
  {
  }

  /** 0xBnnn is parsed as a plain jump, indistinguishable from 0x1nnn. */
  lemma JumpWithOffsetIsPlainJump(addr: nat)
    requires addr < 0x1000
    ensures ParseOne(0xB000 + addr) == ParseOne(0x1000 + addr) == Some(Jp(addr))
  {
  }

  /** No word ever parses to `JpV0Addr`. */
  lemma {:induction false} NeverJpV0Addr(opcodes: seq<u16>)
    ensures forall k | 0 <= k < |Parsed(opcodes)| :: !Parsed(opcodes)[k].JpV0Addr?
    decreases |opcodes|
  {
    if opcodes != [] {
      NeverJpV0Addr(opcodes[..|opcodes| - 1]);
    }
  }

  /** In group 8 only the low nibbles 0-7 and E are kept. */
  lemma ArithmeticGroupKept(op: u16)
    requires op / 0x1000 == 8
    ensures ParseOne(op).Some? <==> op % 0x10 in {0x0, 0x1, 0x2, 0x3, 0x4, 0x5, 0x6, 0x7, 0xE}
  {
  }

  /** The samples of the source's unit tests; the last shows a dropped
      word. */
  lemma ParseNoArgs()
    ensures Parsed([0x00E0, 0x00EE]) == [Cls, Ret]
  {
    ParsedAppend([0x00E0], [0x00EE]);
    assert [0x00E0] + [0x00EE] == [0x00E0, 0x00EE];
  }

  lemma ParseAddrArgs()
    ensures Parsed([0x1abc, 0x2def]) == [Jp(0xabc), Call(0xdef)]
  {
    ParsedAppend([0x1abc], [0x2def]);
    assert [0x1abc] + [0x2def] == [0x1abc, 0x2def];
  }

  lemma ParseVxByteArgs()
    ensures Parsed([0x3abc, 0x4def]) == [SeVxByte(0xa, 0xbc), SneVxByte(0xd, 0xef)]
  {
    ParsedAppend([0x3abc], [0x4def]);
    assert [0x3abc] + [0x4def] == [0x3abc, 0x4def];
  }

  lemma ParseVxVyArgs()
    ensures Parsed([0x8ab0, 0x8cd1]) == [LdVxVy(0xa, 0xb), OrVxVy(0xc, 0xd)]
  {
    ParsedAppend([0x8ab0], [0x8cd1]);
    assert [0x8ab0] + [0x8cd1] == [0x8ab0, 0x8cd1];
  }

  lemma ParseEPrefix()
    ensures Parsed([0xEA9E, 0xEBA1]) == [SkpVx(0xA), SknpVx(0xB)]
  {
    ParsedAppend([0xEA9E], [0xEBA1]);
    assert [0xEA9E] + [0xEBA1] == [0xEA9E, 0xEBA1];
  }

  lemma ParseDropsZero()
    ensures Parsed([0x0000, 0x00E0]) == [Cls]
  {
    ParsedAppend([0x0000], [0x00E0]);
    assert [0x0000] + [0x00E0] == [0x0000, 0x00E0];
  }

  lemma ParseFPrefix()
    ensures Parsed([0xFA07, 0xFB0A, 0xFC15]) == [LdVxDt(0xA), LdVxK(0xB), LdDtVx(0xC)]
  {
    assert Kept(0xFA07) == [LdVxDt(0xA)];
    assert Kept(0xFB0A) == [LdVxK(0xB)];
    assert Kept(0xFC15) == [LdDtVx(0xC)];
    ParsedAppend([0xFA07], [0xFB0A]);
    assert [0xFA07] + [0xFB0A] == [0xFA07, 0xFB0A];
    ParsedAppend([0xFA07, 0xFB0A], [0xFC15]);
    assert [0xFA07, 0xFB0A] + [0xFC15] == [0xFA07, 0xFB0A, 0xFC15];
  }

  lemma ParseDraw()
    ensures Parsed([0xD123]) == [Drw(0x1, 0x2, 0x3)]
  {
    assert [0xD123][..0] == [];
  }
}
