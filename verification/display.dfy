/** The monochrome frame of src/display.rs: a 32-row by 64-column grid of
    booleans, indexed `buf[y][x]`. */
module Display {

  const DISPLAY_WIDTH: nat := 64
  const DISPLAY_HEIGHT: nat := 32

  datatype Display = Display(buf: seq<seq<bool>>) {
    /** 32 rows of 64 pixels each. */
    predicate Valid() {
      |buf| == DISPLAY_HEIGHT && forall y | 0 <= y < |buf| :: |buf[y]| == DISPLAY_WIDTH
    }

    predicate AllOff()
      requires Valid()
    {
      forall y, x | 0 <= y < DISPLAY_HEIGHT && 0 <= x < DISPLAY_WIDTH :: !buf[y][x]
    }
  }

  /** `EMPTY_DISPLAY_BUFFER`. */
  function EmptyBuffer(): seq<seq<bool>> {
    seq(DISPLAY_HEIGHT, _ => seq(DISPLAY_WIDTH, _ => false))
  }

  /** `Display::new`: every pixel off. */
  function New(): (d: Display)
    ensures d.Valid() && d.AllOff()
  {
    Display(EmptyBuffer())
  }

  /** `Display::clear`: every pixel off, whatever was drawn before. */
  function Clear(d: Display): (r: Display)
    ensures r.Valid() && r.AllOff()
  {
    Display(EmptyBuffer())
  }

  /** `Display::xor_pixel`: flip pixel (x, y) and report whether it was on.
      The source indexes the fixed-size buffer, so callers must keep to
      its bounds. */
  function XorPixel(d: Display, x: nat, y: nat): (r: (Display, bool))
    requires d.Valid() && x < DISPLAY_WIDTH && y < DISPLAY_HEIGHT
    ensures r.0.Valid()
    ensures r.1 == d.buf[y][x]
    ensures forall py, px | 0 <= py < DISPLAY_HEIGHT && 0 <= px < DISPLAY_WIDTH ::
              r.0.buf[py][px] == (if px == x && py == y then !d.buf[py][px] else d.buf[py][px])
  {
    var wasSet := d.buf[y][x];
    (Display(d.buf[y := d.buf[y][x := d.buf[y][x] != true]]), wasSet)
  }

  /** Two valid displays that agree on every pixel are the same display. */
  lemma Extensionality(a: Display, b: Display)
    requires a.Valid() && b.Valid()
    requires forall y, x | 0 <= y < DISPLAY_HEIGHT && 0 <= x < DISPLAY_WIDTH :: a.buf[y][x] == b.buf[y][x]
    ensures a == b
  {
    forall y | 0 <= y < DISPLAY_HEIGHT
      ensures a.buf[y] == b.buf[y]
    {
      assert forall x | 0 <= x < DISPLAY_WIDTH :: a.buf[y][x] == b.buf[y][x];
    }
  }

  /** Flipping the same pixel twice restores the frame, and the second call
      reports the opposite of the first. */
  lemma XorPixelTwice(d: Display, x: nat, y: nat)
    requires d.Valid() && x < DISPLAY_WIDTH && y < DISPLAY_HEIGHT
    ensures var (d1, first) := XorPixel(d, x, y);
            var (d2, second) := XorPixel(d1, x, y);
            d2 == d && second == !first
  {
    var (d1, first) := XorPixel(d, x, y);
    var (d2, second) := XorPixel(d1, x, y);
    Extensionality(d2, d);
  }
}
