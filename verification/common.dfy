/** Shared vocabulary of the CHIP-8 model: fixed-width integers, the
    error values that stand in for `anyhow::Error` and for Rust panics, a
    failure-compatible `Result`, and bitwise operators on bytes defined bit
    by bit. */
module Common {

  /** Rust `u8`, `u16` as subsets of the mathematical integers. */
  type u8 = x: int | 0 <= x < 0x100
  type u16 = x: int | 0 <= x < 0x1_0000

  /** Modulus of a 64-bit `usize`, for the one place the source relies on
      `wrapping_add` of a `usize`. */
  const USIZE_MODULUS: nat := 0x1_0000_0000_0000_0000

  /** Every way an operation of the interpreter can fail: the source's
      `anyhow!` errors plus the panics (index out of bounds, `usize`
      subtraction below zero) that abort a step. */
  datatype Error =
    | UnknownInstruction(opcode: u16)
    | RetOutsideSubroutine
    | RestrictedAccess(index: nat)
    | ProgramTooLarge(length: nat)
    | StackOverflow(address: nat)
    | StackUnderflow
    | IndexOutOfBounds(index: nat)
    | AddressUnderflow

  datatype Result<+T> = Ok(value: T) | Err(error: Error) {
    predicate IsFailure() {
      Err?
    }

    function PropagateFailure<U>(): Result<U>
      requires Err?
    {
      Err(error)
    }

    function Extract(): T
      requires Ok?
    {
      value
    }
  }

  datatype Option<+T> = None | Some(value: T)

  /** `u8::wrapping_add`: the sum, wrapped at 256. */
  function WrappingAdd(a: u8, b: u8): (r: u8)
    ensures r == (a + b) % 0x100
  {
    if a + b < 0x100 then a + b else a + b - 0x100
  }

  /** `u8::overflowing_add`: the wrapped sum and whether it wrapped. */
  function OverflowingAdd(a: u8, b: u8): (r: (u8, bool))
    ensures r.0 == (a + b) % 0x100
    ensures r.1 <==> a + b >= 0x100
  {
    if a + b < 0x100 then (a + b, false) else (a + b - 0x100, true)
  }

  /** `u8::overflowing_sub`: the wrapped difference and whether it
      borrowed. */
  function OverflowingSub(a: u8, b: u8): (r: (u8, bool))
    ensures r.0 == (a - b) % 0x100
    ensures r.1 <==> a < b
  {
    if b <= a then (a - b, false) else (a - b + 0x100, true)
  }

  /** `usize::wrapping_add` on a 64-bit target. */
  function WrappingAddUsize(a: nat, b: nat): (r: nat)
    requires a < USIZE_MODULUS && b < USIZE_MODULUS
    ensures r < USIZE_MODULUS && r == (a + b) % USIZE_MODULUS
  {
    if a + b < USIZE_MODULUS then a + b else a + b - USIZE_MODULUS
  }

  /** `x << 1` on a `u8`: the bit shifted out of the top is lost. */
  function ShiftLeft1(a: u8): (r: u8)
    ensures r == (2 * a) % 0x100
  {
    if a < 0x80 then 2 * a else 2 * a - 0x100
  }

  function Pow2(n: nat): (r: nat)
    ensures r >= 1
  {
    if n == 0 then 1 else 2 * Pow2(n - 1)
  }

  /** The three bitwise connectives the interpreter uses. */
  datatype BitOp = OrOp | AndOp | XorOp

  function ApplyBit(op: BitOp, a: nat, b: nat): (r: nat)
    requires a < 2 && b < 2
    ensures r < 2
  {
    match op
    case OrOp => if a == 1 || b == 1 then 1 else 0
    case AndOp => if a == 1 && b == 1 then 1 else 0
    case XorOp => if a != b then 1 else 0
  }

  /** `op` applied to the low `width` bits of `a` and `b`, least
      significant bit first. */
  function Bitwise(op: BitOp, a: nat, b: nat, width: nat): (r: nat)
    ensures r < Pow2(width)
  {
    if width == 0 then 0
    else 2 * Bitwise(op, a / 2, b / 2, width - 1) + ApplyBit(op, a % 2, b % 2)
  }

  /** Bit `k` of `n`, counting from the least significant. */
  function Bit(n: nat, k: nat): (r: nat)
    ensures r < 2
  {
    if k == 0 then n % 2 else Bit(n / 2, k - 1)
  }

  /** `Bitwise` works bit by bit: bit `k` of the result, for `k` below the
      width, is the connective applied to bit `k` of each operand. */
  lemma {:induction false} BitwiseBit(op: BitOp, a: nat, b: nat, width: nat, k: nat)
    requires k < width
    ensures Bit(Bitwise(op, a, b, width), k) == ApplyBit(op, Bit(a, k), Bit(b, k))
    decreases k
  {
    var c := Bitwise(op, a, b, width);
    assert c / 2 == Bitwise(op, a / 2, b / 2, width - 1);
    assert c % 2 == ApplyBit(op, a % 2, b % 2);
    if k > 0 {
      BitwiseBit(op, a / 2, b / 2, width - 1, k - 1);
    }
  }

  /** `a | b` on bytes: a bit is set exactly when it is set in either. */
  function BitOr(a: u8, b: u8): (r: u8)
    ensures forall k | 0 <= k < 8 :: Bit(r, k) == 1 <==> Bit(a, k) == 1 || Bit(b, k) == 1
  {
    BitwiseBits(OrOp, a, b);
    Bitwise(OrOp, a, b, 8)
  }

  /** `a & b` on bytes: a bit is set exactly when it is set in both. */
  function BitAnd(a: u8, b: u8): (r: u8)
    ensures forall k | 0 <= k < 8 :: Bit(r, k) == 1 <==> Bit(a, k) == 1 && Bit(b, k) == 1
  {
    BitwiseBits(AndOp, a, b);
    Bitwise(AndOp, a, b, 8)
  }

  /** `a ^ b` on bytes: a bit is set exactly when the operands differ
      there. */
  function BitXor(a: u8, b: u8): (r: u8)
    ensures forall k | 0 <= k < 8 :: Bit(r, k) == 1 <==> Bit(a, k) != Bit(b, k)
  {
    BitwiseBits(XorOp, a, b);
    Bitwise(XorOp, a, b, 8)
  }

  /** Helper: `BitwiseBit` for every bit of a byte. */
  lemma BitwiseBits(op: BitOp, a: u8, b: u8)
    ensures forall k | 0 <= k < 8 :: Bit(Bitwise(op, a, b, 8), k) == ApplyBit(op, Bit(a, k), Bit(b, k))
  {
    forall k | 0 <= k < 8
      ensures Bit(Bitwise(op, a, b, 8), k) == ApplyBit(op, Bit(a, k), Bit(b, k))
    {
      BitwiseBit(op, a, b, 8, k);
    }
  }

  /** `(a ^ b) ^ b == a` on bytes: the fact behind XOR sprite drawing and
      the `XOR Vx, Vy` instruction being self-inverse. */
  lemma {:induction false} XorCancels(a: nat, b: nat, width: nat)
    requires a < Pow2(width)
    ensures Bitwise(XorOp, Bitwise(XorOp, a, b, width), b, width) == a
    decreases width
  {
    if width > 0 {
      var c := Bitwise(XorOp, a, b, width);
      assert c / 2 == Bitwise(XorOp, a / 2, b / 2, width - 1);
      assert c % 2 == ApplyBit(XorOp, a % 2, b % 2);
      XorCancels(a / 2, b / 2, width - 1);
    }
  }

  /** `(a | b) | b == a | b` and `(a & b) & b == a & b`. */
  lemma {:induction false} OrAndAbsorb(op: BitOp, a: nat, b: nat, width: nat)
    requires op != XorOp
    ensures Bitwise(op, Bitwise(op, a, b, width), b, width) == Bitwise(op, a, b, width)
    decreases width
  {
    if width > 0 {
      var c := Bitwise(op, a, b, width);
      assert c / 2 == Bitwise(op, a / 2, b / 2, width - 1);
      assert c % 2 == ApplyBit(op, a % 2, b % 2);
      OrAndAbsorb(op, a / 2, b / 2, width - 1);
    }
  }

  /** `a | a == a` and `a & a == a`. */
  lemma {:induction false} OrAndSelf(op: BitOp, a: nat, width: nat)
    requires op != XorOp && a < Pow2(width)
    ensures Bitwise(op, a, a, width) == a
    decreases width
  {
    if width > 0 {
      OrAndSelf(op, a / 2, width - 1);
    }
  }
}
