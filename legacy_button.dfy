/**
 * The older button (Widget/Src/akiegui_button.c): the same widget drawn
 * straight into a 16 bpp framebuffer with file-local copies of the drawing
 * routines, its colours converted to RGB565.  It defines the same entry
 * points as the newer button file, so a build links one or the other.
 *
 * Its local `draw_rect` is the loop of `akiegui_draw_rect` at 16 bpp and
 * its local `draw_char` is `akiegui_draw_char` with the background always
 * opaque, so both are modelled by Draw.DrawRect and Draw.DrawChar over
 * `bv16` cells, the latter with a pen whose `transparent` is 0.
 */
module LegacyButton {
  import opened Machine
  import opened CString
  import opened Color
  import opened Draw
  import opened DrawProps
  import opened Widget
  import opened Button

  /** The pen the caption is drawn with. */
  function LegacyPen(st: WidgetState): Pen<bv16>
    requires st.priv.ButtonPriv?
  {
    Pen(st.priv.button.textColor, Background(st), 0)
  }

  ghost predicate LegacyFits(n: int, fw: u16, st: WidgetState)
    requires ButtonShaped(st)
  {
    FaceFits(n, fw, st) &&
    (ShowsText(st) ==> StringFits(n, fw, CaptionX(st), CaptionY(st), Caption(st), st.priv.button.font.value))
  }

  /** The 16 bpp framebuffer after this file's `button_draw`. */
  function LegacyPicture(s: seq<bv16>, fw: u16, st: WidgetState): (r: seq<bv16>)
    requires ButtonShaped(st) && LegacyFits(|s|, fw, st)
    ensures |r| == |s|
  {
    var face := PaintFace(s, fw, st, Background(st), st.borderColor);
    if ShowsText(st) then
      PaintString(face, fw, CaptionX(st), CaptionY(st), Some(Caption(st)), LegacyPen(st), st.priv.button.font)
    else face
  }

  /**
   * The caption loop: character `i` of the text, for `i` below
   * `(uint16_t)strlen(text)`, at `start_x + i * Width` converted to uint16_t.
   */
  method DrawCaption(fb: array<bv16>, fbWidth: u32, st: WidgetState, pen: Pen<bv16>)
    requires ButtonShaped(st) && ShowsText(st)
    requires StringFits(fb.Length, Wrap16(fbWidth), CaptionX(st), CaptionY(st), Caption(st), st.priv.button.font.value)
    modifies fb
    ensures fb[..] == PaintString(old(fb[..]), Wrap16(fbWidth), CaptionX(st), CaptionY(st), Some(Caption(st)), pen,
                                  st.priv.button.font)
  {
    var font := st.priv.button.font.value;
    var text := st.priv.button.text;
    var textLen: u16 := Wrap16(Strlen(text));
    Wrap16Small(Strlen(text));
    assert textLen == |Caption(st)|;
    var textW: u16 := Wrap16(textLen * font.width);
    assert textW == TextWidth(Some(Caption(st)), st.priv.button.font);
    var startX: u16 := CentreStart(st.x, st.w, textW);
    var startY: u16 := CentreStart(st.y, st.h, font.height);
    assert startX == CaptionX(st) && startY == CaptionY(st);
    ghost var fw := Wrap16(fbWidth);
    ghost var goal := PaintStringFrom(fb[..], fw, startX, startY, Caption(st), pen, font, 0);
    var i: u16 := 0;
    while i < textLen
      invariant i <= textLen
      invariant goal == PaintStringFrom(fb[..], fw, startX, startY, Caption(st), pen, font, i)
    {
      assert text[i] == Caption(st)[i];
      assert CharFits(fb.Length, fw, CharX(startX, i, font.width), startY, text[i], Some(font));
      DrawChar(fb, fbWidth, CharX(startX, i, font.width), startY, text[i], pen, Some(font));
      i := i + 1;
    }
  }

  /** This file's `button_draw`, on a 16 bpp framebuffer. */
  method DrawButton(btn: Widget, fb: array<bv16>, fbWidth: u32)
    requires ButtonShaped(btn.Fields()) && LegacyFits(fb.Length, Wrap16(fbWidth), btn.Fields())
    modifies btn, fb
    ensures fb[..] == LegacyPicture(old(fb[..]), Wrap16(fbWidth), old(btn.Fields()))
    ensures btn.Fields() == old(btn.Fields()).(dirty := 0)
  {
    var st := btn.Fields();
    var priv := st.priv.button;
    var bg := priv.bgColor;
    if HasFlag(st.state, STATE_PRESSED) {
      bg := priv.pressColor;
    }
    DrawFace(fb, fbWidth, st, bg, st.borderColor);
    if priv.text[0] != 0 && priv.font.Some? {
      DrawCaption(fb, fbWidth, st, Pen(priv.textColor, bg, 0));
    }
    btn.dirty := 0;
  }

  /**
   * What this `button_draw` leaves in a cell that no caption pixel writes:
   * the border colour on the border, the press or background colour in
   * the box, and the old value outside it.
   */
  lemma LegacyPixel(s: seq<bv16>, fw: u16, st: WidgetState, k: int)
    requires ButtonShaped(st) && LegacyFits(|s|, fw, st) && 0 <= k < |s|
    requires ShowsText(st) ==>
      !StringWrites(fw, CaptionX(st), CaptionY(st), Caption(st), LegacyPen(st), st.priv.button.font.value, k)
    ensures LegacyPicture(s, fw, st)[k] ==
            if st.borderWidth > 0 && InBorder(fw, st.x, st.y, st.w, st.h, st.borderWidth, k) then st.borderColor
            else if InRect(fw, st.x, st.y, st.w, st.h, k) then
              (if HasFlag(st.state, STATE_PRESSED) then st.priv.button.pressColor else st.priv.button.bgColor)
            else s[k]
  {
    var face := PaintFace(s, fw, st, Background(st), st.borderColor);
    FaceAt(s, fw, st, Background(st), st.borderColor, k);
    if ShowsText(st) {
      StringUntouched(face, fw, CaptionX(st), CaptionY(st), Caption(st), LegacyPen(st), st.priv.button.font.value, k);
    }
  }

  /**
   * The colours this file stores survive the trip back to RGB888 in their
   * top 5, 6 and 5 bits, and the black border is stored as 0.
   */
  lemma StoredKeepsTopBits(rgb: bv32)
    ensures Rgb565To888(Rgb888To565(rgb)) >> 19 == (rgb >> 19) & 0x1F
    ensures (Rgb565To888(Rgb888To565(rgb)) >> 10) & 0x3F == (rgb >> 10) & 0x3F
    ensures (Rgb565To888(Rgb888To565(rgb)) >> 3) & 0x1F == (rgb >> 3) & 0x1F
    ensures Rgb888To565(BLACK) == 0
  {
    RoundTrip888(rgb);
  }

  /**
   * This file's `draw_char` has no transparent mode: a glyph pixel takes
   * the text colour on a set bit and the background on every clear bit.
   */
  lemma LegacyCharPixel(s: seq<bv16>, fw: u16, x: u16, y: u16, ch: u8, color: bv16, bg: bv16, f: Font, row: nat, col: nat)
    requires Draws(ch, Some(f)) && CharFits(|s|, fw, x, y, ch, Some(f))
    requires f.width < TWO8 && x + f.width <= fw && (y + f.height) * fw <= TWO32
    requires row < f.height && col < f.width
    ensures 0 <= (y + row) * fw + x + col < |s|
    ensures PaintChar(s, fw, x, y, ch, Pen(color, bg, 0), Some(f))[(y + row) * fw + x + col] ==
              if BitSet(Data(GlyphOf(fw, x, y, ch, f), row, col / 8), col % 8) then color else bg
  {
    CharPixel(s, fw, x, y, ch, Pen(color, bg, 0), f, row, col);
  }

  /** This file's pool `g_buttons` and its count. */
  class LegacyButtons {
    var count: u8
    /** `ASCII_8x16`; its contents are not part of this model. */
    const defaultFont: Font

    constructor (font: Font)
      ensures count == 0 && defaultFont == font
    {
      count := 0;
      defaultFont := font;
    }

    /** This file's `AkieGUI_Button_Create`: as the newer one, with RGB565 colours and this file's `button_draw`. */
    method Create(x: u16, y: u16, w: u16, h: u16, text: Option<seq<u8>>,
                  textColor: bv32, bgColor: bv32, pressColor: bv32) returns (r: Widget?)
      requires text.Some? ==> NoNul(text.value)
      modifies this
      ensures old(count) as int >= MAX_BUTTONS ==> r == null && count == old(count)
      ensures old(count) as int < MAX_BUTTONS ==>
        r != null && fresh(r) && count == old(count) + 1 &&
        r.Fields() == NewButton(x, y, w, h, text, Rgb888To565(textColor), Rgb888To565(bgColor),
                                Rgb888To565(pressColor), Rgb888To565(BLACK), defaultFont).(draw := LegacyButtonDraw)
    {
      if count as int >= MAX_BUTTONS {
        return null;
      }
      r := new Widget(NewButton(x, y, w, h, text, Rgb888To565(textColor), Rgb888To565(bgColor),
                                Rgb888To565(pressColor), Rgb888To565(BLACK), defaultFont).(draw := LegacyButtonDraw));
      count := count + 1;
    }
  }

  /** This file's `AkieGUI_Button_SetColors`: RGB565 colours and a redraw, unless NULL or not a button. */
  method SetColors(btn: Widget?, textColor: bv32, bgColor: bv32, pressColor: bv32)
    requires btn != null && btn.kind == ButtonWidget ==> ButtonShaped(btn.Fields())
    modifies btn
    ensures btn != null ==>
      btn.Fields() == WithColors(old(btn.Fields()), Rgb888To565(textColor), Rgb888To565(bgColor), Rgb888To565(pressColor))
  {
    if btn == null || btn.kind != ButtonWidget {
      return;
    }
    btn.priv := ButtonPriv(btn.priv.button.(textColor := Rgb888To565(textColor), bgColor := Rgb888To565(bgColor),
                                            pressColor := Rgb888To565(pressColor)));
    btn.dirty := 1;
  }
}
