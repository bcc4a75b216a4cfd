/**
 * Colour conversions between the RGB888 values the API takes and the
 * framebuffer's native pixel format, one pair per supported depth
 * (Common/Inc/akiegui_color.h).  The depth is a build-time choice; the
 * shipped configuration (akiegui_config.h) selects 32 bpp.
 */
module Color {

  const RED: bv32 := 0xFF0000
  const GREEN: bv32 := 0x00FF00
  const BLUE: bv32 := 0x0000FF
  const WHITE: bv32 := 0xFFFFFF
  const BLACK: bv32 := 0x000000
  /** Also the key the label uses for "transparent background". */
  const YELLOW: bv32 := 0xFFFF00
  const CYAN: bv32 := 0x00FFFF
  const MAGENTA: bv32 := 0xFF00FF
  const GRAY: bv32 := 0x808080
  const LTGRAY: bv32 := 0xC0C0C0
  const DKGRAY: bv32 := 0x404040

  /** The colour bits of an RGB888 or native word: everything below the alpha byte. */
  function Low24(c: bv32): bv32 { c & 0xFFFFFF }

  /** Red, green and blue fields of an RGB565 pixel. */
  function Red565(c: bv16): bv16 { c >> 11 }
  function Green565(c: bv16): bv16 { (c >> 5) & 0x3F }
  function Blue565(c: bv16): bv16 { c & 0x1F }

  /** 16 bpp `akiegui_rgb888_to_native`: the top bits of each channel, packed RRRRRGGGGGGBBBBB. */
  function Rgb888To565(rgb: bv32): (c: bv16)
    ensures Red565(c) as bv32 == (rgb >> 19) & 0x1F
    ensures Green565(c) as bv32 == (rgb >> 10) & 0x3F
    ensures Blue565(c) as bv32 == (rgb >> 3) & 0x1F
  {
    var r := (rgb >> 19) & 0x1F;
    var g := (rgb >> 10) & 0x3F;
    var b := (rgb >> 3) & 0x1F;
    ((r << 11) | (g << 5) | b) as bv16
  }

  /** Widening a channel of `bits` bits to 8 by repeating its high bits below it. */
  function Widen(v: bv16, bits: nat): bv32
    requires bits == 5 || bits == 6
  {
    if bits == 5 then (((v << 3) | (v >> 2)) & 0xFF) as bv32
    else (((v << 2) | (v >> 4)) & 0xFF) as bv32
  }

  /** 16 bpp `akiegui_native_to_rgb888`: each field widened to a full byte. */
  function Rgb565To888(c: bv16): (rgb: bv32)
    ensures rgb <= 0xFFFFFF
    ensures rgb >> 16 == Widen(Red565(c), 5)
    ensures (rgb >> 8) & 0xFF == Widen(Green565(c), 6)
    ensures rgb & 0xFF == Widen(Blue565(c), 5)
  {
    (Widen(Red565(c), 5) << 16) | (Widen(Green565(c), 6) << 8) | Widen(Blue565(c), 5)
  }

  /** Widening keeps the field in the high bits and repeats its top bits in the low ones. */
  lemma WidenReplicates(v: bv16)
    requires v < 0x40
    ensures v < 0x20 ==> Widen(v, 5) >> 3 == v as bv32 && Widen(v, 5) & 7 == (v >> 2) as bv32
    ensures Widen(v, 6) >> 2 == v as bv32 && Widen(v, 6) & 3 == (v >> 4) as bv32
  {
  }

  /** At 16 bpp every native colour survives the trip through RGB888. */
  lemma RoundTrip565(c: bv16)
    ensures Rgb888To565(Rgb565To888(c)) == c
  {
  }

  /** Converting an RGB888 value to 565 and back changes each channel only in its dropped low bits. */
  lemma RoundTrip888(rgb: bv32)
    ensures Rgb565To888(Rgb888To565(rgb)) >> 19 == (rgb >> 19) & 0x1F
    ensures (Rgb565To888(Rgb888To565(rgb)) >> 10) & 0x3F == (rgb >> 10) & 0x3F
    ensures (Rgb565To888(Rgb888To565(rgb)) >> 3) & 0x1F == (rgb >> 3) & 0x1F
  {
  }

  /** 24 bpp `akiegui_rgb888_to_native`: the low 24 bits. */
  function Rgb888To24(rgb: bv32): (c: bv32)
    ensures c <= 0xFFFFFF && Low24(c) == Low24(rgb)
  {
    rgb & 0x00FFFFFF
  }

  /** 24 bpp `akiegui_native_to_rgb888`: the low 24 bits. */
  function Native24To888(c: bv32): (rgb: bv32)
    ensures rgb <= 0xFFFFFF && Low24(rgb) == Low24(c)
  {
    c & 0x00FFFFFF
  }

  /** At 24 bpp both conversions are idempotent and each undoes the other. */
  lemma Masks24(v: bv32)
    ensures Rgb888To24(Rgb888To24(v)) == Rgb888To24(v)
    ensures Native24To888(Native24To888(v)) == Native24To888(v)
    ensures Native24To888(Rgb888To24(v)) == Rgb888To24(v)
    ensures v <= 0xFFFFFF ==> Rgb888To24(v) == v && Native24To888(v) == v
  {
  }

  /** 32 bpp `akiegui_rgb888_to_native`: opaque ARGB8888. */
  function Rgb888To32(rgb: bv32): (c: bv32)
    ensures c >> 24 == 0xFF
    ensures Low24(c) == Low24(rgb)
  {
    0xFF000000 | (rgb & 0x00FFFFFF)
  }

  /** 32 bpp `akiegui_native_to_rgb888`: the alpha byte dropped. */
  function Native32To888(c: bv32): (rgb: bv32)
    ensures rgb <= 0xFFFFFF && Low24(rgb) == Low24(c)
  {
    c & 0x00FFFFFF
  }

  /**
   * At 32 bpp the trip through the native format keeps the low 24 bits,
   * and a native colour comes back exactly when its alpha byte is 0xFF.
   */
  lemma RoundTrip32(rgb: bv32, c: bv32)
    ensures Native32To888(Rgb888To32(rgb)) == Low24(rgb)
    ensures Rgb888To32(Native32To888(c)) == c <==> c >> 24 == 0xFF
  {
  }

  /** A uint32_t colour stored in a uint16_t field: its low 16 bits. */
  function Low16(c: bv32): bv16
  {
    (c & 0xFFFF) as bv16
  }

  /**
   * At 32 bpp a native colour kept in 16 bits has lost its alpha and red
   * bytes: only green and blue remain.
   */
  lemma Native32In16Bits(rgb: bv32)
    ensures Low16(Rgb888To32(rgb)) == Low16(rgb)
    ensures Low16(Rgb888To32(rgb)) == Low16(Rgb888To32(rgb & 0xFFFF))
  {
  }
}
