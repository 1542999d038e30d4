/** The pixel buffer and key tables of src/window.rs. The buffer is flat:
    64 * 32 cells, row-major, cell `y * 64 + x` holding pixel (x, y). */
module Window {
  import opened Common

  const DISPLAY_WIDTH: nat := 64
  const DISPLAY_HEIGHT: nat := 32

  /** The frame state of `Window`; the native window and the scaled
      framebuffer belong to the rendering library and are not modelled. */
  datatype Window = Window(buffer: seq<bool>) {
    predicate Valid() {
      |buffer| == DISPLAY_WIDTH * DISPLAY_HEIGHT
    }
  }

  /** `Window::clear`: every cell off. */
  function Clear(w: Window): (r: Window)
    ensures r.Valid()
    ensures forall k | 0 <= k < DISPLAY_WIDTH * DISPLAY_HEIGHT :: !r.buffer[k]
  {
    Window(seq(DISPLAY_WIDTH * DISPLAY_HEIGHT, _ => false))
  }

  /** `Window::xor_pixel`: flip cell `y * 64 + x` and report its old value.
      Only the flat index is bounds-checked by the source, so an `x` past
      the row end addresses a cell of a later row. */
  function XorPixel(w: Window, x: nat, y: nat): (r: (Window, bool))
    requires w.Valid() && y * DISPLAY_WIDTH + x < DISPLAY_WIDTH * DISPLAY_HEIGHT
    ensures r.0.Valid()
    ensures r.1 == w.buffer[y * DISPLAY_WIDTH + x]
    ensures forall k | 0 <= k < DISPLAY_WIDTH * DISPLAY_HEIGHT ::
              r.0.buffer[k] == (if k == y * DISPLAY_WIDTH + x then !w.buffer[k] else w.buffer[k])
  {
    var index := y * DISPLAY_WIDTH + x;
    var wasSet := w.buffer[index];
    (Window(w.buffer[index := w.buffer[index] != true]), wasSet)
  }

  /** Flipping the same cell twice restores the buffer. */
  lemma XorPixelTwice(w: Window, x: nat, y: nat)
    requires w.Valid() && y * DISPLAY_WIDTH + x < DISPLAY_WIDTH * DISPLAY_HEIGHT
    ensures var (w1, first) := XorPixel(w, x, y);
            var (w2, second) := XorPixel(w1, x, y);
            w2 == w && second == !first
  {
    var (w1, first) := XorPixel(w, x, y);
    var (w2, second) := XorPixel(w1, x, y);
    assert w2.buffer == w.buffer;
  }

  /** The keys of the windowing library that the tables mention, plus every
      other key as `OtherKey`. */
  datatype Key =
    | Key0
    | NumPad1 | NumPad2 | NumPad3 | NumPad4 | NumPad5 | NumPad6 | NumPad7 | NumPad8 | NumPad9
    | A | B | C | D | E | F
    | Escape
    | OtherKey(id: nat)

  /** `code_to_key`: the CHIP-8 keypad laid out on the numeric pad and the
      letters A-F; every other code maps to `Key0`. */
  function CodeToKey(code: u8): (k: Key)
    ensures code > 0xF ==> k == Key0
  {
    match code
    case 0x1 => NumPad7
    case 0x2 => NumPad8
    case 0x3 => NumPad9
    case 0x4 => NumPad4
    case 0x5 => NumPad5
    case 0x6 => NumPad6
    case 0x7 => NumPad1
    case 0x8 => NumPad2
    case 0x9 => NumPad3
    case 0xA => A
    case 0xB => B
    case 0xC => C
    case 0xD => D
    case 0xE => E
    case 0xF => F
    case _ => Key0
  }

  /** `key_to_code`: the inverse table; unlisted keys map to 0. */
  function KeyToCode(k: Key): (code: u8)
    ensures code <= 0xF
    ensures code == 0 <==> !(k in KeypadKeys())
  {
    match k
    case NumPad7 => 0x1
    case NumPad8 => 0x2
    case NumPad9 => 0x3
    case NumPad4 => 0x4
    case NumPad5 => 0x5
    case NumPad6 => 0x6
    case NumPad1 => 0x7
    case NumPad2 => 0x8
    case NumPad3 => 0x9
    case A => 0xA
    case B => 0xB
    case C => 0xC
    case D => 0xD
    case E => 0xE
    case F => 0xF
    case _ => 0x0
  }

  /** The fifteen keys that stand for a nonzero keypad code. */
  function KeypadKeys(): set<Key> {
    {NumPad1, NumPad2, NumPad3, NumPad4, NumPad5, NumPad6, NumPad7, NumPad8, NumPad9, A, B, C, D, E, F}
  }

  /** `key_to_code` undoes `code_to_key` on every keypad code 0..15, so
      `code_to_key` is injective there. */
  lemma CodeKeyRoundTrip(code: u8)
    requires code <= 0xF
    ensures KeyToCode(CodeToKey(code)) == code
  {
  }

  /** `code_to_key` undoes `key_to_code` on every key of the table. */
  lemma KeyCodeRoundTrip(k: Key)
    requires k in KeypadKeys()
    ensures CodeToKey(KeyToCode(k)) == k
  {
  }
}
