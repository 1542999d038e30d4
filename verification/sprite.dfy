/** The sprite-drawing loop of the `Drw` instruction in src/emulator.rs:
    every set bit of every sprite row flips one pixel through
    `Display::xor_pixel`, each coordinate wrapped modulo the frame size,
    and the draw reports whether any flipped pixel was lit. */
module Sprite {
  import opened Common
  import Display

  const W: nat := Display.DISPLAY_WIDTH
  const H: nat := Display.DISPLAY_HEIGHT

  /** The test `sprite_byte & (0x80 >> bit) != 0`: bit `bit` of the row,
      counting from the most significant. */
  predicate BitSet(row: nat, bit: nat): (r: bool)
    requires bit < 8
    ensures r <==> Bit(row, 7 - bit) == 1
    decreases 7 - bit
  {
    if bit == 7 then row % 2 == 1 else BitSet(row / 2, bit + 1)
  }

  /** Column `qx` is flipped by one of the bits `from..7` of a row drawn at
      column `x0`. Because a row is 8 pixels and the frame 64 wide, at most
      one bit lands on each column, namely bit `Offset(x0, qx, 64)`. */
  predicate RowHit(x0: nat, row: u8, from: nat, qx: nat)
    requires x0 < W && qx < W
  {
    var b := Offset(x0, qx, W);
    from <= b < 8 && BitSet(row, b)
  }

  /** `(q - origin) mod size` for coordinates already inside the frame:
      how far past `origin` position `q` lies, wrapping at `size`. */
  function Offset(origin: nat, q: nat, size: nat): (r: nat)
    requires origin < size && q < size
    ensures r < size && (origin + r == q || origin + r == q + size)
  {
    if origin <= q then q - origin else q + size - origin
  }

  /** Pixel (qx, qy) is flipped by one of the bits `from..7` of a row drawn
      at (x0, py). */
  predicate LineHit(x0: nat, py: nat, row: u8, from: nat, qx: nat, qy: nat)
    requires x0 < W && qx < W
  {
    qy == py && RowHit(x0, row, from, qx)
  }

  /** Pixel (qx, qy) is flipped by one of the rows `from..` of `sprite`
      drawn at (x0, y0). A sprite has at most 15 rows and the frame 32, so
      at most row `Offset(y0, qy, 32)` lands on each line. */
  predicate SpriteHit(x0: nat, y0: nat, sprite: seq<u8>, from: nat, qx: nat, qy: nat)
    requires x0 < W && y0 < H && qx < W && qy < H
  {
    var k := Offset(y0, qy, H);
    from <= k < |sprite| && RowHit(x0, sprite[k], 0, qx)
  }

  /** The inner loop over the bits `bit..7` of one sprite row at line
      `py`: flip the pixels of the set bits, and report whether one of them
      was lit. */
  function DrawRow(d: Display.Display, x0: nat, py: nat, row: u8, bit: nat): (r: (Display.Display, bool))
    requires d.Valid() && x0 < W && py < H && bit <= 8
    ensures r.0.Valid()
    decreases 8 - bit
  {
    if bit == 8 then (d, false)
    else if BitSet(row, bit) then
      var flipped := Display.XorPixel(d, (x0 + bit) % W, py);
      var rest := DrawRow(flipped.0, x0, py, row, bit + 1);
      (rest.0, flipped.1 || rest.1)
    else
      DrawRow(d, x0, py, row, bit + 1)
  }

  /** `DrawRow` flips exactly the pixels of line `py` the row hits from bit
      `bit` on, and collides exactly when one of them was lit. */
  lemma {:induction false} DrawRowFlips(d: Display.Display, x0: nat, py: nat, row: u8, bit: nat)
    requires d.Valid() && x0 < W && py < H && bit <= 8
    ensures forall qy, qx | 0 <= qy < H && 0 <= qx < W ::
              DrawRow(d, x0, py, row, bit).0.buf[qy][qx] == (d.buf[qy][qx] != LineHit(x0, py, row, bit, qx, qy))
    ensures DrawRow(d, x0, py, row, bit).1
            <==> exists qx | 0 <= qx < W :: RowHit(x0, row, bit, qx) && d.buf[py][qx]
    decreases 8 - bit
  {
    if bit < 8 {
      if BitSet(row, bit) {
        var flipped := Display.XorPixel(d, (x0 + bit) % W, py);
        DrawRowFlips(flipped.0, x0, py, row, bit + 1);
        var rest := DrawRow(flipped.0, x0, py, row, bit + 1);
        DrawRowStep(d, flipped.0, rest.0, x0, py, row, bit, rest.1);
      } else {
        DrawRowFlips(d, x0, py, row, bit + 1);
        DrawRowSkip(d, x0, py, row, bit);
      }
    }
  }

  /** Column `qx` is the one bit `bit` of a row at `x0` lands on. */
  lemma ColumnOfBit(x0: nat, bit: nat, qx: nat)
    requires x0 < W && bit < 8 && qx < W
    ensures Offset(x0, qx, W) == bit <==> qx == (x0 + bit) % W
  {
  }

  lemma DrawRowSkip(d: Display.Display, x0: nat, py: nat, row: u8, bit: nat)
    requires x0 < W && bit < 8 && !BitSet(row, bit)
    ensures forall qx | 0 <= qx < W :: RowHit(x0, row, bit, qx) == RowHit(x0, row, bit + 1, qx)
  {
  }

  /** One set bit: flipping its pixel and then the rest of the row is the
      same as flipping every pixel the row hits from this bit on. */
  lemma DrawRowStep(d: Display.Display, d1: Display.Display, d2: Display.Display,
                    x0: nat, py: nat, row: u8, bit: nat, collision: bool)
    requires d.Valid() && d1.Valid() && d2.Valid() && x0 < W && py < H && bit < 8 && BitSet(row, bit)
    requires forall qy, qx | 0 <= qy < H && 0 <= qx < W ::
               d1.buf[qy][qx] == (if qx == (x0 + bit) % W && qy == py then !d.buf[qy][qx] else d.buf[qy][qx])
    requires forall qy, qx | 0 <= qy < H && 0 <= qx < W ::
               d2.buf[qy][qx] == (d1.buf[qy][qx] != LineHit(x0, py, row, bit + 1, qx, qy))
    requires collision <==> exists qx | 0 <= qx < W :: RowHit(x0, row, bit + 1, qx) && d1.buf[py][qx]
    ensures forall qy, qx | 0 <= qy < H && 0 <= qx < W ::
              d2.buf[qy][qx] == (d.buf[qy][qx] != LineHit(x0, py, row, bit, qx, qy))
    ensures (d.buf[py][(x0 + bit) % W] || collision)
            <==> exists qx | 0 <= qx < W :: RowHit(x0, row, bit, qx) && d.buf[py][qx]
  {
    var px := (x0 + bit) % W;
    forall qx | 0 <= qx < W
      ensures RowHit(x0, row, bit, qx) == (qx == px || RowHit(x0, row, bit + 1, qx))
      ensures qx == px ==> !RowHit(x0, row, bit + 1, qx)
    {
      ColumnOfBit(x0, bit, qx);
    }
    if collision {
      var qx :| 0 <= qx < W && RowHit(x0, row, bit + 1, qx) && d1.buf[py][qx];
      assert RowHit(x0, row, bit, qx) && d.buf[py][qx];
    }
    if d.buf[py][px] {
      assert RowHit(x0, row, bit, px);
    }
    if exists qx | 0 <= qx < W :: RowHit(x0, row, bit, qx) && d.buf[py][qx] {
      var qx :| 0 <= qx < W && RowHit(x0, row, bit, qx) && d.buf[py][qx];
      if qx != px {
        assert RowHit(x0, row, bit + 1, qx) && d1.buf[py][qx];
      }
    }
  }

  /** The outer loop over the rows `row..` of a sprite anchored at
      (x0, y0): each row is drawn on line `(y0 + row) mod 32`. */
  function DrawSprite(d: Display.Display, x0: nat, y0: nat, sprite: seq<u8>, row: nat): (r: (Display.Display, bool))
    requires d.Valid() && x0 < W && y0 < H && row <= |sprite|
    ensures r.0.Valid()
    decreases |sprite| - row
  {
    if row == |sprite| then (d, false)
    else
      var drawn := DrawRow(d, x0, (y0 + row) % H, sprite[row], 0);
      var rest := DrawSprite(drawn.0, x0, y0, sprite, row + 1);
      (rest.0, drawn.1 || rest.1)
  }

  /** A sprite of at most 15 rows flips exactly the pixels it hits, and
      collides exactly when one of them was lit. Taller sprites would wrap
      onto lines they had already drawn. */
  lemma {:induction false} DrawSpriteFlips(d: Display.Display, x0: nat, y0: nat, sprite: seq<u8>, row: nat)
    requires d.Valid() && x0 < W && y0 < H && |sprite| < 16 && row <= |sprite|
    ensures forall qy, qx | 0 <= qy < H && 0 <= qx < W ::
              DrawSprite(d, x0, y0, sprite, row).0.buf[qy][qx] == (d.buf[qy][qx] != SpriteHit(x0, y0, sprite, row, qx, qy))
    ensures DrawSprite(d, x0, y0, sprite, row).1
            <==> exists qy, qx | 0 <= qy < H && 0 <= qx < W ::
                   SpriteHit(x0, y0, sprite, row, qx, qy) && d.buf[qy][qx]
    decreases |sprite| - row
  {
    if row < |sprite| {
      var py := (y0 + row) % H;
      DrawRowFlips(d, x0, py, sprite[row], 0);
      var drawn := DrawRow(d, x0, py, sprite[row], 0);
      DrawSpriteFlips(drawn.0, x0, y0, sprite, row + 1);
      var rest := DrawSprite(drawn.0, x0, y0, sprite, row + 1);
      DrawSpriteStep(d, drawn.0, rest.0, x0, y0, sprite, row, drawn.1, rest.1);
    }
  }

  /** Line `qy` is the one row `row` of a sprite at `y0` lands on. */
  lemma LineOfRow(y0: nat, row: nat, qy: nat)
    requires y0 < H && row < 16 && qy < H
    ensures Offset(y0, qy, H) == row <==> qy == (y0 + row) % H
  {
  }

  /** One row: drawing it and then the remaining rows is the same as
      flipping every pixel the sprite hits from this row on. */
  lemma DrawSpriteStep(d: Display.Display, d1: Display.Display, d2: Display.Display,
                       x0: nat, y0: nat, sprite: seq<u8>, row: nat, c1: bool, c2: bool)
    requires d.Valid() && d1.Valid() && d2.Valid() && x0 < W && y0 < H && |sprite| < 16 && row < |sprite|
    requires forall qy, qx | 0 <= qy < H && 0 <= qx < W ::
               d1.buf[qy][qx] == (d.buf[qy][qx] != LineHit(x0, (y0 + row) % H, sprite[row], 0, qx, qy))
    requires c1 <==> exists qx | 0 <= qx < W :: RowHit(x0, sprite[row], 0, qx) && d.buf[(y0 + row) % H][qx]
    requires forall qy, qx | 0 <= qy < H && 0 <= qx < W ::
               d2.buf[qy][qx] == (d1.buf[qy][qx] != SpriteHit(x0, y0, sprite, row + 1, qx, qy))
    requires c2 <==> exists qy, qx | 0 <= qy < H && 0 <= qx < W ::
                       SpriteHit(x0, y0, sprite, row + 1, qx, qy) && d1.buf[qy][qx]
    ensures forall qy, qx | 0 <= qy < H && 0 <= qx < W ::
              d2.buf[qy][qx] == (d.buf[qy][qx] != SpriteHit(x0, y0, sprite, row, qx, qy))
    ensures (c1 || c2) <==> exists qy, qx | 0 <= qy < H && 0 <= qx < W ::
                              SpriteHit(x0, y0, sprite, row, qx, qy) && d.buf[qy][qx]
  {
    var py := (y0 + row) % H;
    forall qy, qx | 0 <= qy < H && 0 <= qx < W
      ensures SpriteHit(x0, y0, sprite, row, qx, qy)
              == (LineHit(x0, py, sprite[row], 0, qx, qy) || SpriteHit(x0, y0, sprite, row + 1, qx, qy))
      ensures qy == py ==> !SpriteHit(x0, y0, sprite, row + 1, qx, qy)
    {
      LineOfRow(y0, row, qy);
    }
    if c1 {
      var qx :| 0 <= qx < W && RowHit(x0, sprite[row], 0, qx) && d.buf[py][qx];
      assert SpriteHit(x0, y0, sprite, row, qx, py) && d.buf[py][qx];
    }
    if c2 {
      var qy, qx :| 0 <= qy < H && 0 <= qx < W && SpriteHit(x0, y0, sprite, row + 1, qx, qy) && d1.buf[qy][qx];
      assert SpriteHit(x0, y0, sprite, row, qx, qy) && d.buf[qy][qx];
    }
    if exists qy, qx | 0 <= qy < H && 0 <= qx < W :: SpriteHit(x0, y0, sprite, row, qx, qy) && d.buf[qy][qx] {
      var qy, qx :| 0 <= qy < H && 0 <= qx < W && SpriteHit(x0, y0, sprite, row, qx, qy) && d.buf[qy][qx];
      if qy == py {
        assert RowHit(x0, sprite[row], 0, qx) && d.buf[py][qx];
      } else {
        assert SpriteHit(x0, y0, sprite, row + 1, qx, qy) && d1.buf[qy][qx];
      }
    }
  }

  /** Drawing the same sprite twice at the same place restores the frame. */
  lemma DrawTwiceRestores(d: Display.Display, x0: nat, y0: nat, sprite: seq<u8>)
    requires d.Valid() && x0 < W && y0 < H && |sprite| < 16
    ensures var (d1, _) := DrawSprite(d, x0, y0, sprite, 0);
            DrawSprite(d1, x0, y0, sprite, 0).0 == d
  {
    var d1 := DrawSprite(d, x0, y0, sprite, 0).0;
    DrawSpriteFlips(d, x0, y0, sprite, 0);
    DrawSpriteFlips(d1, x0, y0, sprite, 0);
    Display.Extensionality(DrawSprite(d1, x0, y0, sprite, 0).0, d);
  }

  /** The closed form read back as the loop states it: a pixel is flipped
      exactly when it is ((x0 + bit) mod 64, (y0 + row) mod 32) for a set
      bit of a row of the sprite. */
  lemma HitIsSetBit(x0: nat, y0: nat, sprite: seq<u8>, qx: nat, qy: nat)
    requires x0 < W && y0 < H && |sprite| < 16 && qx < W && qy < H
    ensures SpriteHit(x0, y0, sprite, 0, qx, qy)
            <==> exists row, bit | 0 <= row < |sprite| && 0 <= bit < 8 ::
                   BitSet(sprite[row], bit) && qx == (x0 + bit) % W && qy == (y0 + row) % H
  {
    if SpriteHit(x0, y0, sprite, 0, qx, qy) {
      var k, b := Offset(y0, qy, H), Offset(x0, qx, W);
      LineOfRow(y0, k, qy);
      ColumnOfBit(x0, b, qx);
      assert 0 <= k < |sprite| && 0 <= b < 8 && BitSet(sprite[k], b) && qx == (x0 + b) % W && qy == (y0 + k) % H;
      assert exists row, bit | 0 <= row < |sprite| && 0 <= bit < 8 ::
                BitSet(sprite[row], bit) && qx == (x0 + bit) % W && qy == (y0 + row) % H;
    } else if exists row, bit | 0 <= row < |sprite| && 0 <= bit < 8 ::
                BitSet(sprite[row], bit) && qx == (x0 + bit) % W && qy == (y0 + row) % H {
      var row, bit :| 0 <= row < |sprite| && 0 <= bit < 8
                      && BitSet(sprite[row], bit) && qx == (x0 + bit) % W && qy == (y0 + row) % H;
      LineOfRow(y0, row, qy);
      ColumnOfBit(x0, bit, qx);
      assert RowHit(x0, sprite[row], 0, qx);
      assert false;
    }
  }
}
