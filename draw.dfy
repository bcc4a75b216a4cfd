/**
 * Software rendering into the draw framebuffer (Common/Src/akiegui_draw.c).
 *
 * The framebuffer is an array of native pixels; the element type is a
 * parameter, because the source writes `uint16_t` cells at 16 bpp and
 * `uint32_t` cells at 24 and 32 bpp with the same loops.  `fbWidth` is the
 * descriptor's `fb_width`, which every routine first truncates to 16 bits.
 * Each drawing method is specified by a function on the array's contents
 * that follows the loops of the source; the lemmas in DrawProps say which
 * cells those functions change.
 */
module Draw {
  import opened Machine
  import opened CString

  /** A bitmap font (`pFONT`); `table` is None when `pTable` is NULL. */
  datatype Font = Font(table: Option<seq<u8>>, width: u16, height: u16, sizes: u16, tableRows: u16)

  // ---------------------------------------------------------------------
  // akiegui_draw_rect
  // ---------------------------------------------------------------------

  /**
   * The index written for cell `col` of row `row`: `base + col`, where
   * `base = (y + row) * fb_width + x`, each sum converted to uint32_t.
   */
  function RectCell(fw: u16, x: u16, y: u16, row: int, col: int): u32
  {
    Wrap32(Wrap32((y + row) * fw + x) + col)
  }

  /** Every cell of the first `h` rows of a `w`-wide rectangle is inside an array of `n` pixels. */
  ghost predicate RectFits(n: int, fw: u16, x: u16, y: u16, w: int, h: int)
  {
    forall row, col :: 0 <= row < h && 0 <= col < w ==> RectCell(fw, x, y, row, col) < n
  }

  /** The first `cols` cells of row `row` painted left to right. */
  function PaintRow<T>(s: seq<T>, fw: u16, x: u16, y: u16, row: int, cols: nat, c: T): (r: seq<T>)
    requires forall col :: 0 <= col < cols ==> RectCell(fw, x, y, row, col) < |s|
    ensures |r| == |s|
  {
    if cols == 0 then s
    else PaintRow(s, fw, x, y, row, cols - 1, c)[RectCell(fw, x, y, row, cols - 1) := c]
  }

  /** The first `rows` rows of a `w`-wide rectangle painted top to bottom. */
  function PaintRect<T>(s: seq<T>, fw: u16, x: u16, y: u16, w: nat, rows: nat, c: T): (r: seq<T>)
    requires RectFits(|s|, fw, x, y, w, rows)
    ensures |r| == |s|
  {
    if rows == 0 then s
    else PaintRow(PaintRect(s, fw, x, y, w, rows - 1, c), fw, x, y, rows - 1, w, c)
  }

  /** `akiegui_draw_rect`: fill `w` by `h` cells at (x, y) with `color`. */
  method DrawRect<T>(fb: array<T>, fbWidth: u32, x: u16, y: u16, w: u16, h: u16, color: T)
    requires RectFits(fb.Length, Wrap16(fbWidth), x, y, w, h)
    modifies fb
    ensures fb[..] == PaintRect(old(fb[..]), Wrap16(fbWidth), x, y, w, h, color)
  {
    var fw: u16 := Wrap16(fbWidth);
    var row: u16 := 0;
    while row < h
      invariant row <= h
      invariant fb[..] == PaintRect(old(fb[..]), fw, x, y, w, row, color)
    {
      var base: u32 := Wrap32((y + row) * fw + x);
      var col: u16 := 0;
      ghost var start := fb[..];
      while col < w
        invariant col <= w
        invariant fb[..] == PaintRow(start, fw, x, y, row, col, color)
      {
        assert RectCell(fw, x, y, row, col) == Wrap32(base + col);
        fb[Wrap32(base + col)] := color;
        col := col + 1;
      }
      row := row + 1;
    }
  }

  // ---------------------------------------------------------------------
  // akiegui_draw_char
  // ---------------------------------------------------------------------

  /**
   * What `draw_char` computes before its loops: the framebuffer width cut
   * to 16 bits, the glyph's first table byte `offset` (uint16_t) and the
   * bytes per glyph row `bpr` (uint8_t).
   */
  datatype Glyph = Glyph(fw: u16, x: u16, y: u16, table: seq<u8>, offset: u16, bpr: u8, width: u16, height: u16)

  /** The foreground colour, the background colour and the transparency flag. */
  datatype Pen<T> = Pen(color: T, bg: T, transparent: u8)

  predicate Printable(ch: u8)
  {
    32 <= ch <= 126
  }

  /** `draw_char` draws anything at all: a font with a table and a printable character. */
  predicate Draws(ch: u8, font: Option<Font>)
  {
    font.Some? && font.value.table.Some? && Printable(ch)
  }

  function GlyphOf(fw: u16, x: u16, y: u16, ch: u8, f: Font): Glyph
    requires f.table.Some?
  {
    Glyph(fw, x, y, f.table.value, Wrap16((ch - 32) * f.sizes), Wrap8((f.width + 7) / 8), f.width, f.height)
  }

  /** The column of bit `bit` of byte `byte`: `start_col + bit` with `start_col = byte * 8`, both uint8_t. */
  function Col(byte: int, bit: int): u8
  {
    Wrap8(Wrap8(byte * 8) + bit)
  }

  /** The framebuffer index `(y + row) * fb_width + (x + col)` in uint32_t. */
  function GlyphCell(g: Glyph, row: int, byte: int, bit: int): u32
  {
    Wrap32((g.y + row) * g.fw + (g.x + Col(byte, bit)))
  }

  /** The table index `offset + row * bytes_per_row + byte` of a glyph byte. */
  function TableIndex(g: Glyph, row: int, byte: int): int
  {
    g.offset + row * g.bpr + byte
  }

  /** The glyph byte the loops read (0 stands for a read the fit condition rules out). */
  function Data(g: Glyph, row: int, byte: int): u8
  {
    var i := TableIndex(g, row, byte);
    if 0 <= i < |g.table| then g.table[i] else 0
  }

  /** `data & (1 << (7 - bit))` is nonzero: bits are read most significant first. */
  predicate BitSet(data: u8, bit: int)
    requires 0 <= bit < 8
  {
    (data as bv8) & ((1 as bv8) << (7 - bit)) != 0
  }

  /** The innermost loop body runs for this row, byte and bit without breaking out. */
  predicate Processed(g: Glyph, row: int, byte: int, bit: int)
  {
    0 <= row < g.height && 0 <= byte < g.bpr && 0 <= bit < 8 && Col(byte, bit) < g.width
  }

  /** Every table read is inside the table and every write inside an array of `n` pixels. */
  ghost predicate GlyphFits(g: Glyph, n: int)
  {
    (forall row, byte :: 0 <= row < g.height && 0 <= byte < g.bpr ==> TableIndex(g, row, byte) < |g.table|) &&
    (forall row, byte, bit :: Processed(g, row, byte, bit) ==> GlyphCell(g, row, byte, bit) < n)
  }

  /**
   * What `draw_char` demands of a call that draws: the row counter is a
   * uint8_t, so a font of 256 rows or more never leaves the loop, and
   * every read and write must stay inside the table and the framebuffer.
   */
  ghost predicate CharFits(n: int, fw: u16, x: u16, y: u16, ch: u8, font: Option<Font>)
  {
    Draws(ch, font) ==> font.value.height < TWO8 && GlyphFits(GlyphOf(fw, x, y, ch, font.value), n)
  }

  /** One pixel: the foreground on a set bit, the background on a clear bit unless transparent. */
  function Pixel<T>(s: seq<T>, g: Glyph, pen: Pen<T>, row: int, byte: int, bit: int): (r: seq<T>)
    requires Processed(g, row, byte, bit) && GlyphCell(g, row, byte, bit) < |s|
    ensures |r| == |s|
  {
    var k := GlyphCell(g, row, byte, bit);
    if BitSet(Data(g, row, byte), bit) then s[k := pen.color]
    else if pen.transparent == 0 then s[k := pen.bg]
    else s
  }

  /** The bit loop of one glyph byte, from bit `bit` on; a column past the width is skipped. */
  function PaintByteFrom<T>(s: seq<T>, g: Glyph, pen: Pen<T>, row: int, byte: int, bit: nat): (r: seq<T>)
    requires 0 <= row < g.height && 0 <= byte < g.bpr && bit <= 8 && GlyphFits(g, |s|)
    ensures |r| == |s|
    decreases 8 - bit
  {
    if bit == 8 then s
    else
      var s' := if Col(byte, bit) < g.width then Pixel(s, g, pen, row, byte, bit) else s;
      PaintByteFrom(s', g, pen, row, byte, bit + 1)
  }

  /** The byte loop of one glyph row, from byte `byte` on. */
  function PaintRowFrom<T>(s: seq<T>, g: Glyph, pen: Pen<T>, row: int, byte: nat): (r: seq<T>)
    requires 0 <= row < g.height && byte <= g.bpr && GlyphFits(g, |s|)
    ensures |r| == |s|
    decreases g.bpr - byte
  {
    if byte == g.bpr then s
    else PaintRowFrom(PaintByteFrom(s, g, pen, row, byte, 0), g, pen, row, byte + 1)
  }

  /** The row loop of a glyph, from row `row` on. */
  function PaintGlyphFrom<T>(s: seq<T>, g: Glyph, pen: Pen<T>, row: nat): (r: seq<T>)
    requires row <= g.height && GlyphFits(g, |s|)
    ensures |r| == |s|
    decreases g.height - row
  {
    if row == g.height then s
    else PaintGlyphFrom(PaintRowFrom(s, g, pen, row, 0), g, pen, row + 1)
  }

  /** The framebuffer after `draw_char`. */
  function PaintChar<T>(s: seq<T>, fw: u16, x: u16, y: u16, ch: u8, pen: Pen<T>, font: Option<Font>): (r: seq<T>)
    requires CharFits(|s|, fw, x, y, ch, font)
    ensures |r| == |s|
  {
    if Draws(ch, font) then PaintGlyphFrom(s, GlyphOf(fw, x, y, ch, font.value), pen, 0) else s
  }

  /** Once a column reaches the width, every later bit of the byte is past it too. */
  lemma {:induction false} ByteTailIdle<T>(s: seq<T>, g: Glyph, pen: Pen<T>, row: int, byte: int, bit: nat)
    requires 0 <= row < g.height && 0 <= byte < g.bpr && bit < 8 && GlyphFits(g, |s|)
    requires Col(byte, bit) >= g.width
    ensures PaintByteFrom(s, g, pen, row, byte, bit) == s
    decreases 8 - bit
  {
    if bit < 7 {
      ColStep(byte, bit);
      ByteTailIdle(s, g, pen, row, byte, bit + 1);
    }
  }

  /** Within one byte the next bit is the next column: `start_col` is a multiple of 8 below 256. */
  lemma ColStep(byte: int, bit: int)
    requires 0 <= bit < 7
    ensures Col(byte, bit + 1) == Col(byte, bit) + 1
  {
    assert Wrap8(byte * 8) % 8 == 0 by {
      var q := byte * 8 / TWO8;
      assert byte * 8 == q * TWO8 + Wrap8(byte * 8);
      assert Wrap8(byte * 8) == (byte - 32 * q) * 8;
    }
  }

  /** `akiegui_draw_char`: one character of `font` at (x, y). */
  method DrawChar<T>(fb: array<T>, fbWidth: u32, x: u16, y: u16, ch: u8, pen: Pen<T>, font: Option<Font>)
    requires CharFits(fb.Length, Wrap16(fbWidth), x, y, ch, font)
    modifies fb
    ensures fb[..] == PaintChar(old(fb[..]), Wrap16(fbWidth), x, y, ch, pen, font)
  {
    if font.None? || font.value.table.None? || ch < 32 || ch > 126 {
      return;
    }
    var f := font.value;
    var fw: u16 := Wrap16(fbWidth);
    var offset: u16 := Wrap16((ch - 32) * f.sizes);
    var bpr: u8 := Wrap8((f.width + 7) / 8);
    var g := Glyph(fw, x, y, f.table.value, offset, bpr, f.width, f.height);
    assert g == GlyphOf(fw, x, y, ch, f);
    ghost var goal := PaintGlyphFrom(fb[..], g, pen, 0);
    var row: u8 := 0;
    while row < f.height
      invariant row <= f.height
      invariant goal == PaintGlyphFrom(fb[..], g, pen, row)
    {
      DrawGlyphRow(fb, g, pen, row);
      row := row + 1;
    }
  }

  /** The byte loop of `draw_char` for one glyph row. */
  method DrawGlyphRow<T>(fb: array<T>, g: Glyph, pen: Pen<T>, row: u8)
    requires row < g.height && GlyphFits(g, fb.Length)
    modifies fb
    ensures fb[..] == PaintRowFrom(old(fb[..]), g, pen, row, 0)
  {
    ghost var goal := PaintRowFrom(fb[..], g, pen, row, 0);
    var byte: u8 := 0;
    while byte < g.bpr
      invariant byte <= g.bpr
      invariant goal == PaintRowFrom(fb[..], g, pen, row, byte)
    {
      MulMonotonic(0, row, g.bpr);
      assert TableIndex(g, row, byte) == g.offset + row * g.bpr + byte < |g.table|;
      var data: u8 := g.table[g.offset + row * g.bpr + byte];
      DrawGlyphByte(fb, g, pen, row, byte, data);
      byte := byte + 1;
    }
  }

  /** The bit loop of `draw_char` for one glyph byte `data`, leaving it at the first column past the width. */
  method DrawGlyphByte<T>(fb: array<T>, g: Glyph, pen: Pen<T>, row: u8, byte: u8, data: u8)
    requires row < g.height && byte < g.bpr && GlyphFits(g, fb.Length)
    requires data == Data(g, row, byte)
    modifies fb
    ensures fb[..] == PaintByteFrom(old(fb[..]), g, pen, row, byte, 0)
  {
    ghost var goal := PaintByteFrom(fb[..], g, pen, row, byte, 0);
    var bit: u8 := 0;
    while bit < 8
      invariant bit <= 8
      invariant goal == PaintByteFrom(fb[..], g, pen, row, byte, bit)
    {
      var col: u8 := Col(byte, bit);
      if col >= g.width {
        ByteTailIdle(fb[..], g, pen, row, byte, bit);
        break;
      }
      var idx: u32 := GlyphCell(g, row, byte, bit);
      ghost var before := fb[..];
      if BitSet(data, bit) {
        fb[idx] := pen.color;
      } else if pen.transparent == 0 {
        fb[idx] := pen.bg;
      }
      assert fb[..] == Pixel(before, g, pen, row, byte, bit);
      bit := bit + 1;
    }
  }

  // ---------------------------------------------------------------------
  // akiegui_draw_string and akiegui_text_width
  // ---------------------------------------------------------------------

  /** Where character `i` is drawn: `cur_x` advanced `i` times by the width in uint16_t. */
  function CharX(x: u16, i: int, width: u16): u16
  {
    Wrap16(x + i * width)
  }

  /** Every character of the string is drawable where it lands. */
  ghost predicate StringFits(n: int, fw: u16, x: u16, y: u16, s: seq<u8>, f: Font)
  {
    forall i :: 0 <= i < |s| ==> CharFits(n, fw, CharX(x, i, f.width), y, s[i], Some(f))
  }

  /** Characters `i` onwards drawn left to right. */
  function PaintStringFrom<T>(a: seq<T>, fw: u16, x: u16, y: u16, s: seq<u8>, pen: Pen<T>, f: Font, i: nat): (r: seq<T>)
    requires i <= |s| && StringFits(|a|, fw, x, y, s, f)
    ensures |r| == |a|
    decreases |s| - i
  {
    if i == |s| then a
    else PaintStringFrom(PaintChar(a, fw, CharX(x, i, f.width), y, s[i], pen, Some(f)), fw, x, y, s, pen, f, i + 1)
  }

  /** The framebuffer after `draw_string`: nothing for a NULL string or font. */
  function PaintString<T>(a: seq<T>, fw: u16, x: u16, y: u16, str: Option<seq<u8>>, pen: Pen<T>, font: Option<Font>): (r: seq<T>)
    requires str.Some? && font.Some? ==> StringFits(|a|, fw, x, y, str.value, font.value)
    ensures |r| == |a|
    ensures str.None? || font.None? ==> r == a
  {
    if str.None? || font.None? then a else PaintStringFrom(a, fw, x, y, str.value, pen, font.value, 0)
  }

  /** `akiegui_draw_string`: the characters of `str` up to its NUL, side by side. */
  method DrawString<T>(fb: array<T>, fbWidth: u32, x: u16, y: u16, str: Option<seq<u8>>, pen: Pen<T>, font: Option<Font>)
    requires str.Some? ==> NoNul(str.value)
    requires str.Some? && font.Some? ==> StringFits(fb.Length, Wrap16(fbWidth), x, y, str.value, font.value)
    modifies fb
    ensures fb[..] == PaintString(old(fb[..]), Wrap16(fbWidth), x, y, str, pen, font)
  {
    if str.None? || font.None? {
      return;
    }
    var s := str.value;
    var f := font.value;
    ghost var goal := PaintStringFrom(fb[..], Wrap16(fbWidth), x, y, s, pen, f, 0);
    var curX: u16 := x;
    var i := 0;
    while i < |s| && s[i] != 0
      invariant i <= |s|
      invariant curX == CharX(x, i, f.width)
      invariant goal == PaintStringFrom(fb[..], Wrap16(fbWidth), x, y, s, pen, f, i)
    {
      DrawChar(fb, fbWidth, curX, y, s[i], pen, font);
      Wrap16Add(x + i * f.width, f.width);
      curX := Wrap16(curX + f.width);
      i := i + 1;
    }
  }

  /** `akiegui_text_width`: how far `draw_string` advances the pen, 0 for NULL arguments. */
  function TextWidth(str: Option<seq<u8>>, font: Option<Font>): (r: u16)
    ensures str.None? || font.None? ==> r == 0
  {
    if str.None? || font.None? then 0 else Wrap16(|str.value| * font.value.width)
  }

  /**
   * `draw_string` leaves its pen `text_width` to the right of where it
   * started: the character after the last would be drawn at
   * `x + text_width`, modulo 2^16.
   */
  lemma PenEndsAtTextWidth(x: u16, s: seq<u8>, f: Font)
    ensures CharX(x, |s|, f.width) == Wrap16(x + TextWidth(Some(s), Some(f)))
  {
    Wrap16Add(|s| * f.width, x);
  }
}
