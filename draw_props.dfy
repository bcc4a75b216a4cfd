/**
 * Which framebuffer cells the drawing routines change, stated cell by cell
 * over the functions that specify DrawRect, DrawChar and DrawString.
 */
module DrawProps {
  import opened Machine
  import opened Draw

  // ---------------------------------------------------------------------
  // Rectangles
  // ---------------------------------------------------------------------

  /** Cell `k` is one of the first `cols` cells of row `row`. */
  ghost predicate InRow(fw: u16, x: u16, y: u16, row: int, cols: int, k: int)
  {
    exists col :: 0 <= col < cols && RectCell(fw, x, y, row, col) == k
  }

  /** Cell `k` is one of the `w` by `h` cells of the rectangle. */
  ghost predicate InRect(fw: u16, x: u16, y: u16, w: int, h: int, k: int)
  {
    exists row, col :: 0 <= row < h && 0 <= col < w && RectCell(fw, x, y, row, col) == k
  }

  lemma {:induction false} PaintRowAt<T>(s: seq<T>, fw: u16, x: u16, y: u16, row: int, cols: nat, c: T, k: int)
    requires forall col :: 0 <= col < cols ==> RectCell(fw, x, y, row, col) < |s|
    requires 0 <= k < |s|
    ensures PaintRow(s, fw, x, y, row, cols, c)[k] == if InRow(fw, x, y, row, cols, k) then c else s[k]
    decreases cols
  {
    if cols > 0 {
      PaintRowAt(s, fw, x, y, row, cols - 1, c, k);
      if RectCell(fw, x, y, row, cols - 1) != k && InRow(fw, x, y, row, cols, k) {
        var col :| 0 <= col < cols && RectCell(fw, x, y, row, col) == k;
        assert InRow(fw, x, y, row, cols - 1, k);
      }
    }
  }

  /**
   * `draw_rect` sets exactly the cells `base + col` of its rows to the
   * colour and leaves every other cell as it was.
   */
  lemma {:induction false} PaintRectAt<T>(s: seq<T>, fw: u16, x: u16, y: u16, w: nat, h: nat, c: T, k: int)
    requires RectFits(|s|, fw, x, y, w, h)
    requires 0 <= k < |s|
    ensures PaintRect(s, fw, x, y, w, h, c)[k] == if InRect(fw, x, y, w, h, k) then c else s[k]
    decreases h
  {
    if h > 0 {
      PaintRectAt(s, fw, x, y, w, h - 1, c, k);
      PaintRowAt(PaintRect(s, fw, x, y, w, h - 1, c), fw, x, y, h - 1, w, c, k);
      if InRect(fw, x, y, w, h, k) {
        var row, col :| 0 <= row < h && 0 <= col < w && RectCell(fw, x, y, row, col) == k;
        if row == h - 1 {
          assert InRow(fw, x, y, h - 1, w, k);
        } else {
          assert InRect(fw, x, y, w, h - 1, k);
        }
      }
      if InRow(fw, x, y, h - 1, w, k) {
        var col :| 0 <= col < w && RectCell(fw, x, y, h - 1, col) == k;
        assert InRect(fw, x, y, w, h, k);
      }
      if InRect(fw, x, y, w, h - 1, k) {
        var row, col :| 0 <= row < h - 1 && 0 <= col < w && RectCell(fw, x, y, row, col) == k;
        assert InRect(fw, x, y, w, h, k);
      }
    }
  }

  /** An empty rectangle leaves the framebuffer as it was. */
  lemma PaintRectEmpty<T>(s: seq<T>, fw: u16, x: u16, y: u16, w: nat, h: nat, c: T)
    requires RectFits(|s|, fw, x, y, w, h)
    requires w == 0 || h == 0
    ensures PaintRect(s, fw, x, y, w, h, c) == s
  {
    forall k | 0 <= k < |s|
      ensures PaintRect(s, fw, x, y, w, h, c)[k] == s[k]
    {
      PaintRectAt(s, fw, x, y, w, h, c, k);
    }
  }

  /** Without uint32_t overflow, the cell written is `(y + row) * fb_width + x + col`. */
  lemma RectCellPlain(fw: u16, x: u16, y: u16, row: nat, col: nat)
    requires (y + row) * fw + x + col < TWO32
    ensures RectCell(fw, x, y, row, col) == (y + row) * fw + x + col
  {
    MulMonotonic(0, y + row, fw);
  }

  // ---------------------------------------------------------------------
  // Glyphs
  // ---------------------------------------------------------------------

  /** The loops reach pixel (row, byte, bit) and its index is `k`. */
  ghost predicate Hit(g: Glyph, k: int, row: int, byte: int, bit: int)
  {
    Processed(g, row, byte, bit) && GlyphCell(g, row, byte, bit) == k
  }

  /** ... and they write there: its bit is set, or the background is opaque. */
  ghost predicate Writes<T>(g: Glyph, pen: Pen<T>, k: int, row: int, byte: int, bit: int)
  {
    Hit(g, k, row, byte, bit) && (BitSet(Data(g, row, byte), bit) || pen.transparent == 0)
  }

  /** What a pixel alone does to a cell that held `prev`. */
  function PixelValue<T>(prev: T, g: Glyph, pen: Pen<T>, row: int, byte: int, bit: int): T
    requires 0 <= bit < 8
  {
    if BitSet(Data(g, row, byte), bit) then pen.color
    else if pen.transparent == 0 then pen.bg
    else prev
  }

  lemma {:induction false} ByteUntouched<T>(s: seq<T>, g: Glyph, pen: Pen<T>, row: int, byte: int, bit: nat, k: int)
    requires 0 <= row < g.height && 0 <= byte < g.bpr && bit <= 8 && GlyphFits(g, |s|)
    requires 0 <= k < |s|
    requires forall b :: bit <= b ==> !Writes(g, pen, k, row, byte, b)
    ensures PaintByteFrom(s, g, pen, row, byte, bit)[k] == s[k]
    decreases 8 - bit
  {
    if bit < 8 {
      var s' := if Col(byte, bit) < g.width then Pixel(s, g, pen, row, byte, bit) else s;
      assert !Writes(g, pen, k, row, byte, bit);
      assert s'[k] == s[k];
      ByteUntouched(s', g, pen, row, byte, bit + 1, k);
    }
  }

  lemma {:induction false} RowUntouched<T>(s: seq<T>, g: Glyph, pen: Pen<T>, row: int, byte: nat, k: int)
    requires 0 <= row < g.height && byte <= g.bpr && GlyphFits(g, |s|)
    requires 0 <= k < |s|
    requires forall b, t :: byte <= b ==> !Writes(g, pen, k, row, b, t)
    ensures PaintRowFrom(s, g, pen, row, byte)[k] == s[k]
    decreases g.bpr - byte
  {
    if byte < g.bpr {
      ByteUntouched(s, g, pen, row, byte, 0, k);
      RowUntouched(PaintByteFrom(s, g, pen, row, byte, 0), g, pen, row, byte + 1, k);
    }
  }

  lemma {:induction false} GlyphUntouched<T>(s: seq<T>, g: Glyph, pen: Pen<T>, row: nat, k: int)
    requires row <= g.height && GlyphFits(g, |s|)
    requires 0 <= k < |s|
    requires forall r, b, t :: row <= r ==> !Writes(g, pen, k, r, b, t)
    ensures PaintGlyphFrom(s, g, pen, row)[k] == s[k]
    decreases g.height - row
  {
    if row < g.height {
      RowUntouched(s, g, pen, row, 0, k);
      GlyphUntouched(PaintRowFrom(s, g, pen, row, 0), g, pen, row + 1, k);
    }
  }

  lemma {:induction false} ByteHit<T>(s: seq<T>, g: Glyph, pen: Pen<T>, row: int, byte: int, bit: nat, t: int, k: int)
    requires 0 <= row < g.height && 0 <= byte < g.bpr && bit <= t && GlyphFits(g, |s|)
    requires Hit(g, k, row, byte, t)
    requires forall b :: Hit(g, k, row, byte, b) ==> b == t
    ensures PaintByteFrom(s, g, pen, row, byte, bit)[k] == PixelValue(s[k], g, pen, row, byte, t)
    decreases 8 - bit
  {
    var s' := if Col(byte, bit) < g.width then Pixel(s, g, pen, row, byte, bit) else s;
    if bit == t {
      assert s'[k] == PixelValue(s[k], g, pen, row, byte, t);
      ByteUntouched(s', g, pen, row, byte, bit + 1, k);
    } else {
      assert !Hit(g, k, row, byte, bit);
      assert s'[k] == s[k];
      ByteHit(s', g, pen, row, byte, bit + 1, t, k);
    }
  }

  lemma {:induction false} RowHit<T>(s: seq<T>, g: Glyph, pen: Pen<T>, row: int, byte: nat, b: int, t: int, k: int)
    requires 0 <= row < g.height && byte <= b && GlyphFits(g, |s|)
    requires Hit(g, k, row, b, t)
    requires forall b', t' :: Hit(g, k, row, b', t') ==> b' == b && t' == t
    ensures PaintRowFrom(s, g, pen, row, byte)[k] == PixelValue(s[k], g, pen, row, b, t)
    decreases g.bpr - byte
  {
    var s' := PaintByteFrom(s, g, pen, row, byte, 0);
    if byte == b {
      ByteHit(s, g, pen, row, b, 0, t, k);
      RowUntouched(s', g, pen, row, byte + 1, k);
    } else {
      ByteUntouched(s, g, pen, row, byte, 0, k);
      RowHit(s', g, pen, row, byte + 1, b, t, k);
    }
  }

  lemma {:induction false} GlyphHit<T>(s: seq<T>, g: Glyph, pen: Pen<T>, row: nat, r: int, b: int, t: int, k: int)
    requires row <= r && GlyphFits(g, |s|)
    requires Hit(g, k, r, b, t)
    requires forall r', b', t' :: Hit(g, k, r', b', t') ==> r' == r && b' == b && t' == t
    ensures PaintGlyphFrom(s, g, pen, row)[k] == PixelValue(s[k], g, pen, r, b, t)
    decreases g.height - row
  {
    if row == r {
      HitRowFirst(s, g, pen, r, b, t, k);
    } else {
      var s' := PaintRowFrom(s, g, pen, row, 0);
      assert forall b', t' :: !Writes(g, pen, k, row, b', t');
      RowUntouched(s, g, pen, row, 0, k);
      GlyphHit(s', g, pen, row + 1, r, b, t, k);
    }
  }

  /** When only one pixel lands on `k`, no row below it writes there. */
  lemma LaterRowsSilent<T>(g: Glyph, pen: Pen<T>, r: int, b: int, t: int, k: int)
    requires forall r', b', t' :: Hit(g, k, r', b', t') ==> r' == r && b' == b && t' == t
    ensures forall r', b', t' :: r + 1 <= r' ==> !Writes(g, pen, k, r', b', t')
  {
  }

  /** The row holding the only pixel at `k` sets it, and the rows below leave it. */
  lemma HitRowFirst<T>(s: seq<T>, g: Glyph, pen: Pen<T>, r: nat, b: int, t: int, k: int)
    requires GlyphFits(g, |s|)
    requires Hit(g, k, r, b, t)
    requires forall r', b', t' :: Hit(g, k, r', b', t') ==> r' == r && b' == b && t' == t
    ensures PaintGlyphFrom(s, g, pen, r)[k] == PixelValue(s[k], g, pen, r, b, t)
  {
    RowHit(s, g, pen, r, 0, b, t, k);
    LaterRowsSilent(g, pen, r, b, t, k);
    RowThenRest(s, g, pen, r, k);
  }

  /** Row `r` decides cell `k` when no row below it writes there. */
  lemma RowThenRest<T>(s: seq<T>, g: Glyph, pen: Pen<T>, r: nat, k: int)
    requires r < g.height && GlyphFits(g, |s|) && 0 <= k < |s|
    requires forall r', b', t' :: r + 1 <= r' ==> !Writes(g, pen, k, r', b', t')
    ensures PaintGlyphFrom(s, g, pen, r)[k] == PaintRowFrom(s, g, pen, r, 0)[k]
  {
    GlyphUntouched(PaintRowFrom(s, g, pen, r, 0), g, pen, r + 1, k);
  }

  /** `draw_char` is a no-op for a NULL font or table and for a character outside 32..126. */
  lemma CharNoOp<T>(s: seq<T>, fw: u16, x: u16, y: u16, ch: u8, pen: Pen<T>, font: Option<Font>)
    requires CharFits(|s|, fw, x, y, ch, font)
    requires font.None? || font.value.table.None? || ch < 32 || ch > 126
    ensures PaintChar(s, fw, x, y, ch, pen, font) == s
  {
  }

  /**
   * `draw_char` changes no cell that no pixel of the glyph writes: nothing
   * outside the glyph's box, and in transparent mode nothing under a clear
   * bit.
   */
  lemma CharUntouched<T>(s: seq<T>, fw: u16, x: u16, y: u16, ch: u8, pen: Pen<T>, f: Font, k: int)
    requires CharFits(|s|, fw, x, y, ch, Some(f))
    requires 0 <= k < |s|
    requires f.table.Some? ==> forall r, b, t :: !Writes(GlyphOf(fw, x, y, ch, f), pen, k, r, b, t)
    ensures PaintChar(s, fw, x, y, ch, pen, Some(f))[k] == s[k]
  {
    if Draws(ch, Some(f)) {
      GlyphUntouched(s, GlyphOf(fw, x, y, ch, f), pen, 0, k);
    }
  }

  /** A multiple of 8 below 256 is its own uint8_t conversion, and so is adding a bit number to it. */
  lemma ColPlain(byte: int, bit: int)
    requires 0 <= byte && 0 <= bit < 8 && byte * 8 + bit < TWO8
    ensures Col(byte, bit) == byte * 8 + bit
  {
  }

  /** Distinct columns of a row lie in distinct cells when the row fits in `fw`. */
  lemma CellsDistinct(a: nat, c: nat, a': nat, c': nat, fw: nat)
    requires c < fw && c' < fw && a * fw + c == a' * fw + c'
    ensures a == a' && c == c'
  {
    DivMod(a * fw + c, fw, a, c);
    DivMod(a' * fw + c', fw, a', c');
  }

  /** The index of a glyph pixel without uint32_t overflow. */
  lemma GlyphCellPlain(g: Glyph, row: nat, byte: nat, bit: nat)
    requires row < g.height && g.x + g.width <= g.fw && (g.y + g.height) * g.fw <= TWO32
    requires Col(byte, bit) < g.width
    ensures GlyphCell(g, row, byte, bit) == (g.y + row) * g.fw + g.x + Col(byte, bit)
  {
    MulMonotonic(g.y + row + 1, g.y + g.height, g.fw);
    MulMonotonic(0, g.y + row, g.fw);
    WrapSmall((g.y + row) * g.fw + g.x + Col(byte, bit));
  }

  /** The glyph is narrower than 256 columns, its rows fit in `fw` and its indices do not overflow. */
  ghost predicate Plain(g: Glyph)
  {
    g.width < TWO8 && g.x + g.width <= g.fw && (g.y + g.height) * g.fw <= TWO32 && g.bpr == Wrap8((g.width + 7) / 8)
  }

  /** On a plain glyph, a pixel that reaches the index of (row, col) is (row, col). */
  lemma SameHit(g: Glyph, row: nat, col: nat, k: int, r: int, b: int, t: int)
    requires Plain(g) && row < g.height && col < g.width
    requires k == (g.y + row) * g.fw + g.x + col
    requires Hit(g, k, r, b, t)
    ensures r == row && b == col / 8 && t == col % 8
  {
    ColPlain(b, t);
    GlyphCellPlain(g, r, b, t);
    CellsDistinct(g.y + r, g.x + Col(b, t), g.y + row, g.x + col, g.fw);
    DivMod(col, 8, b, t);
  }

  /** On a plain glyph pixel (row, col) is the only one the loops send to its index. */
  lemma OnlyHit(g: Glyph, row: nat, col: nat, k: int)
    requires Plain(g) && row < g.height && col < g.width
    requires k == (g.y + row) * g.fw + g.x + col
    ensures Hit(g, k, row, col / 8, col % 8)
    ensures forall r, b, t :: Hit(g, k, r, b, t) ==> r == row && b == col / 8 && t == col % 8
  {
    ColPlain(col / 8, col % 8);
    GlyphCellPlain(g, row, col / 8, col % 8);
    forall r, b, t | Hit(g, k, r, b, t)
      ensures r == row && b == col / 8 && t == col % 8
    {
      SameHit(g, row, col, k, r, b, t);
    }
  }

  /**
   * Pixel (x + col, y + row) of a drawn glyph, when glyph rows fit in the
   * framebuffer width, the font is narrower than 256 columns and indices do
   * not overflow: it takes the foreground colour iff bit `7 - col % 8` of
   * the glyph byte `col / 8` of row `row` is set, otherwise the background
   * colour unless transparent, otherwise it is unchanged.
   */
  lemma CharPixel<T>(s: seq<T>, fw: u16, x: u16, y: u16, ch: u8, pen: Pen<T>, f: Font, row: nat, col: nat)
    requires Draws(ch, Some(f)) && CharFits(|s|, fw, x, y, ch, Some(f))
    requires f.width < TWO8 && x + f.width <= fw && (y + f.height) * fw <= TWO32
    requires row < f.height && col < f.width
    ensures 0 <= (y + row) * fw + x + col < |s|
    ensures PaintChar(s, fw, x, y, ch, pen, Some(f))[(y + row) * fw + x + col] ==
              if BitSet(Data(GlyphOf(fw, x, y, ch, f), row, col / 8), col % 8) then pen.color
              else if pen.transparent == 0 then pen.bg
              else s[(y + row) * fw + x + col]
  {
    var g := GlyphOf(fw, x, y, ch, f);
    OnlyHit(g, row, col, (y + row) * fw + x + col);
    GlyphHit(s, g, pen, 0, row, col / 8, col % 8, (y + row) * fw + x + col);
  }

  // ---------------------------------------------------------------------
  // Strings
  // ---------------------------------------------------------------------

  /** `draw_string` of the empty string changes nothing. */
  lemma EmptyString<T>(a: seq<T>, fw: u16, x: u16, y: u16, pen: Pen<T>, f: Font)
    ensures PaintString(a, fw, x, y, Some([]), pen, Some(f)) == a
  {
  }

  /**
   * `draw_string` is `draw_char` of the first character at x followed by
   * `draw_string` of the rest at x + Width (modulo 2^16).
   */
  lemma {:induction false} StringStep<T>(a: seq<T>, fw: u16, x: u16, y: u16, s: seq<u8>, pen: Pen<T>, f: Font, i: nat)
    requires i < |s| && StringFits(|a|, fw, x, y, s, f)
    ensures StringFits(|a|, fw, CharX(x, i + 1, f.width), y, s[i + 1..], f)
    ensures PaintStringFrom(a, fw, x, y, s, pen, f, i) ==
            PaintStringFrom(PaintChar(a, fw, CharX(x, i, f.width), y, s[i], pen, Some(f)),
                            fw, CharX(x, i + 1, f.width), y, s[i + 1..], pen, f, 0)
  {
    var a' := PaintChar(a, fw, CharX(x, i, f.width), y, s[i], pen, Some(f));
    ShiftFits(|a|, fw, x, y, s, f, i + 1);
    ShiftFrom(a', fw, x, y, s, pen, f, i + 1, 0);
  }

  lemma ShiftFits(n: int, fw: u16, x: u16, y: u16, s: seq<u8>, f: Font, d: nat)
    requires d <= |s| && StringFits(n, fw, x, y, s, f)
    ensures StringFits(n, fw, CharX(x, d, f.width), y, s[d..], f)
  {
    forall j | 0 <= j < |s| - d
      ensures CharFits(n, fw, CharX(CharX(x, d, f.width), j, f.width), y, s[d..][j], Some(f))
    {
      ShiftX(x, d, j, f.width);
      assert CharFits(n, fw, CharX(x, d + j, f.width), y, s[d + j], Some(f));
    }
  }

  lemma ShiftX(x: u16, d: int, j: int, w: u16)
    ensures CharX(CharX(x, d, w), j, w) == CharX(x, d + j, w)
  {
    Wrap16Add(x + d * w, j * w);
    assert x + d * w + j * w == x + (d + j) * w;
  }

  lemma {:induction false} ShiftFrom<T>(a: seq<T>, fw: u16, x: u16, y: u16, s: seq<u8>, pen: Pen<T>, f: Font, d: nat, j: nat)
    requires d + j <= |s| && StringFits(|a|, fw, x, y, s, f)
    requires StringFits(|a|, fw, CharX(x, d, f.width), y, s[d..], f)
    ensures PaintStringFrom(a, fw, x, y, s, pen, f, d + j) ==
            PaintStringFrom(a, fw, CharX(x, d, f.width), y, s[d..], pen, f, j)
    decreases |s| - d - j
  {
    if d + j < |s| {
      ShiftX(x, d, j, f.width);
      assert s[d..][j] == s[d + j];
      var a' := PaintChar(a, fw, CharX(x, d + j, f.width), y, s[d + j], pen, Some(f));
      ShiftFrom(a', fw, x, y, s, pen, f, d, j + 1);
    }
  }

  /** Some pixel of some character of the string writes cell `k`. */
  ghost predicate StringWrites<T>(fw: u16, x: u16, y: u16, s: seq<u8>, pen: Pen<T>, f: Font, k: int)
  {
    f.table.Some? &&
    exists i, r, b, t :: 0 <= i < |s| && Writes(GlyphOf(fw, CharX(x, i, f.width), y, s[i], f), pen, k, r, b, t)
  }

  /** `draw_string` changes no cell that no pixel of its characters writes. */
  lemma StringUntouched<T>(a: seq<T>, fw: u16, x: u16, y: u16, s: seq<u8>, pen: Pen<T>, f: Font, k: int)
    requires StringFits(|a|, fw, x, y, s, f)
    requires 0 <= k < |a| && !StringWrites(fw, x, y, s, pen, f, k)
    ensures PaintString(a, fw, x, y, Some(s), pen, Some(f))[k] == a[k]
  {
    StringFromUntouched(a, fw, x, y, s, pen, f, 0, k);
  }

  lemma {:induction false} StringFromUntouched<T>(a: seq<T>, fw: u16, x: u16, y: u16, s: seq<u8>, pen: Pen<T>, f: Font, i: nat, k: int)
    requires i <= |s| && StringFits(|a|, fw, x, y, s, f)
    requires 0 <= k < |a| && !StringWrites(fw, x, y, s, pen, f, k)
    ensures PaintStringFrom(a, fw, x, y, s, pen, f, i)[k] == a[k]
    decreases |s| - i
  {
    if i < |s| {
      var a' := PaintChar(a, fw, CharX(x, i, f.width), y, s[i], pen, Some(f));
      CharUntouched(a, fw, CharX(x, i, f.width), y, s[i], pen, f, k);
      StringFromUntouched(a', fw, x, y, s, pen, f, i + 1, k);
    }
  }
}
