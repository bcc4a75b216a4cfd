/**
 * The button widget (Widget/Button/akiegui_button.c), built on the shared
 * drawing routines, in the shipped 32 bpp configuration.
 *
 * A button is a widget whose `priv` is a `Button_Private` record
 * (Widget/Inc/akiegui_button.h): a 32-byte text array, three colours and a
 * font.  The record's colour fields are `uint16_t`, so the 32-bit native
 * colours `akiegui_rgb888_to_native` returns are cut to their low 16 bits
 * when stored and widened back to 32 bits when drawn.
 *
 * The geometry of the face (background, border and centred caption) is
 * also used by the 16 bpp button in LegacyButton.
 */
module Button {
  import opened Machine
  import opened CString
  import opened Color
  import opened Draw
  import opened DrawProps
  import opened Widget

  const MAX_BUTTONS: nat := 10
  /** `sizeof(priv->text)`. */
  const TEXT_SIZE: nat := 32

  /** The private record of a button, as every operation here leaves it. */
  predicate ButtonShaped(st: WidgetState)
  {
    st.priv.ButtonPriv? && |st.priv.button.text| == TEXT_SIZE && st.priv.button.text[TEXT_SIZE - 1] == 0
  }

  // ---------------------------------------------------------------------
  // The face: background and border
  // ---------------------------------------------------------------------

  /** A `uint16_t` colour field passed where an `akiegui_color_t` is expected. */
  function Tone(c: bv16): bv32
  {
    c as bv32
  }

  /** The background colour: the press colour while the button is pressed. */
  function Background(st: WidgetState): bv16
    requires st.priv.ButtonPriv?
  {
    if HasFlag(st.state, STATE_PRESSED) then st.priv.button.pressColor else st.priv.button.bgColor
  }

  /** The rectangles of the four border strips, with the coordinates converted to uint16_t. */
  ghost predicate BorderFits(n: int, fw: u16, x: u16, y: u16, w: u16, h: u16, bw: u16)
  {
    RectFits(n, fw, x, y, w, bw) && RectFits(n, fw, x, Wrap16(y + h - bw), w, bw) &&
    RectFits(n, fw, x, y, bw, h) && RectFits(n, fw, Wrap16(x + w - bw), y, bw, h)
  }

  /** Top, bottom, left and right strips of width `bw`, in that order. */
  function PaintBorder<T>(s: seq<T>, fw: u16, x: u16, y: u16, w: u16, h: u16, bw: u16, c: T): (r: seq<T>)
    requires BorderFits(|s|, fw, x, y, w, h, bw)
    ensures |r| == |s|
  {
    var top := PaintRect(s, fw, x, y, w, bw, c);
    var bottom := PaintRect(top, fw, x, Wrap16(y + h - bw), w, bw, c);
    var left := PaintRect(bottom, fw, x, y, bw, h, c);
    PaintRect(left, fw, Wrap16(x + w - bw), y, bw, h, c)
  }

  /** Cell `k` lies in one of the four border strips. */
  ghost predicate InBorder(fw: u16, x: u16, y: u16, w: u16, h: u16, bw: u16, k: int)
  {
    InRect(fw, x, y, w, bw, k) || InRect(fw, x, Wrap16(y + h - bw), w, bw, k) ||
    InRect(fw, x, y, bw, h, k) || InRect(fw, Wrap16(x + w - bw), y, bw, h, k)
  }

  ghost predicate FaceFits(n: int, fw: u16, st: WidgetState)
  {
    RectFits(n, fw, st.x, st.y, st.w, st.h) &&
    (st.borderWidth > 0 ==> BorderFits(n, fw, st.x, st.y, st.w, st.h, st.borderWidth))
  }

  /** The background rectangle, then the border when `border_width > 0`. */
  function PaintFace<T>(s: seq<T>, fw: u16, st: WidgetState, bg: T, border: T): (r: seq<T>)
    requires FaceFits(|s|, fw, st)
    ensures |r| == |s|
  {
    var back := PaintRect(s, fw, st.x, st.y, st.w, st.h, bg);
    if st.borderWidth > 0 then PaintBorder(back, fw, st.x, st.y, st.w, st.h, st.borderWidth, border) else back
  }

  /** The border strips set exactly the cells in them to the border colour. */
  lemma BorderAt<T>(s: seq<T>, fw: u16, x: u16, y: u16, w: u16, h: u16, bw: u16, c: T, k: int)
    requires BorderFits(|s|, fw, x, y, w, h, bw) && 0 <= k < |s|
    ensures PaintBorder(s, fw, x, y, w, h, bw, c)[k] == if InBorder(fw, x, y, w, h, bw, k) then c else s[k]
  {
    var top := PaintRect(s, fw, x, y, w, bw, c);
    var bottom := PaintRect(top, fw, x, Wrap16(y + h - bw), w, bw, c);
    var left := PaintRect(bottom, fw, x, y, bw, h, c);
    PaintRectAt(s, fw, x, y, w, bw, c, k);
    PaintRectAt(top, fw, x, Wrap16(y + h - bw), w, bw, c, k);
    PaintRectAt(bottom, fw, x, y, bw, h, c, k);
    PaintRectAt(left, fw, Wrap16(x + w - bw), y, bw, h, c, k);
  }

  /**
   * After the face is painted a cell holds the border colour when it is in a
   * border strip, the background when it is elsewhere in the widget's box,
   * and its old value outside the box.
   */
  lemma FaceAt<T>(s: seq<T>, fw: u16, st: WidgetState, bg: T, border: T, k: int)
    requires FaceFits(|s|, fw, st) && 0 <= k < |s|
    ensures PaintFace(s, fw, st, bg, border)[k] ==
            if st.borderWidth > 0 && InBorder(fw, st.x, st.y, st.w, st.h, st.borderWidth, k) then border
            else if InRect(fw, st.x, st.y, st.w, st.h, k) then bg
            else s[k]
  {
    var back := PaintRect(s, fw, st.x, st.y, st.w, st.h, bg);
    PaintRectAt(s, fw, st.x, st.y, st.w, st.h, bg, k);
    if st.borderWidth > 0 {
      BorderAt(back, fw, st.x, st.y, st.w, st.h, st.borderWidth, border, k);
    }
  }

  /** The four strips of `draw_rect` calls that draw the border. */
  method DrawBorder<T>(fb: array<T>, fbWidth: u32, x: u16, y: u16, w: u16, h: u16, bw: u16, c: T)
    requires BorderFits(fb.Length, Wrap16(fbWidth), x, y, w, h, bw)
    modifies fb
    ensures fb[..] == PaintBorder(old(fb[..]), Wrap16(fbWidth), x, y, w, h, bw, c)
  {
    DrawRect(fb, fbWidth, x, y, w, bw, c);
    DrawRect(fb, fbWidth, x, Wrap16(y + h - bw), w, bw, c);
    DrawRect(fb, fbWidth, x, y, bw, h, c);
    DrawRect(fb, fbWidth, Wrap16(x + w - bw), y, bw, h, c);
  }

  /** The background rectangle and, when `border_width > 0`, the border. */
  method DrawFace<T>(fb: array<T>, fbWidth: u32, st: WidgetState, bg: T, border: T)
    requires FaceFits(fb.Length, Wrap16(fbWidth), st)
    modifies fb
    ensures fb[..] == PaintFace(old(fb[..]), Wrap16(fbWidth), st, bg, border)
  {
    DrawRect(fb, fbWidth, st.x, st.y, st.w, st.h, bg);
    if st.borderWidth > 0 {
      DrawBorder(fb, fbWidth, st.x, st.y, st.w, st.h, st.borderWidth, border);
    }
  }

  // ---------------------------------------------------------------------
  // The caption
  // ---------------------------------------------------------------------

  /** The characters of the text array up to its NUL. */
  function Caption(st: WidgetState): (r: seq<u8>)
    requires ButtonShaped(st)
    ensures NoNul(r) && |r| < TEXT_SIZE
  {
    Contents(st.priv.button.text)
  }

  /** The caption is drawn when the text is not empty and a font is set. */
  predicate ShowsText(st: WidgetState)
    requires ButtonShaped(st)
  {
    st.priv.button.text[0] != 0 && st.priv.button.font.Some?
  }

  /**
   * The start of a caption `tw` wide centred in a span of `w` at `x`:
   * `x + (w - tw) / 2` in int with C's division, converted to uint16_t.
   */
  function CentreStart(x: u16, w: u16, tw: u16): u16
  {
    Wrap16(x + CHalf(w - tw))
  }

  /**
   * A caption no wider than the span starts inside it and ends inside it,
   * with the margins on its two sides equal or the right one a pixel wider.
   */
  lemma CentredInSpan(x: u16, w: u16, tw: u16)
    requires tw <= w && x + w <= TWO16
    ensures x <= CentreStart(x, w, tw) && CentreStart(x, w, tw) + tw <= x + w
    ensures var left := CentreStart(x, w, tw) - x;
            var right := x + w - (CentreStart(x, w, tw) + tw);
            right == left || right == left + 1
  {
  }

  /**
   * A caption wider than the span starts left of it, by half the overhang
   * rounded toward zero (modulo 2^16).
   */
  lemma OverhangsLeft(x: u16, w: u16, tw: u16)
    requires tw > w
    ensures CentreStart(x, w, tw) == Wrap16(x - (tw - w) / 2)
  {
  }

  /** Where the caption starts. */
  function CaptionX(st: WidgetState): u16
    requires ButtonShaped(st) && ShowsText(st)
  {
    CentreStart(st.x, st.w, TextWidth(Some(Caption(st)), st.priv.button.font))
  }

  function CaptionY(st: WidgetState): u16
    requires ButtonShaped(st) && ShowsText(st)
  {
    CentreStart(st.y, st.h, st.priv.button.font.value.height)
  }

  /** The pen the caption is drawn with: text colour over the background, never transparent. */
  function CaptionPen(st: WidgetState): Pen<bv32>
    requires st.priv.ButtonPriv?
  {
    Pen(Tone(st.priv.button.textColor), Tone(Background(st)), 0)
  }

  /** Every cell `button_draw` writes is inside the framebuffer. */
  ghost predicate ButtonFits(n: int, fw: u16, st: WidgetState)
    requires ButtonShaped(st)
  {
    FaceFits(n, fw, st) &&
    (ShowsText(st) ==> StringFits(n, fw, CaptionX(st), CaptionY(st), Caption(st), st.priv.button.font.value))
  }

  /** The framebuffer after `button_draw`. */
  function ButtonPicture(s: seq<bv32>, fw: u16, st: WidgetState): (r: seq<bv32>)
    requires ButtonShaped(st) && ButtonFits(|s|, fw, st)
    ensures |r| == |s|
  {
    var face := PaintFace(s, fw, st, Tone(Background(st)), Tone(st.borderColor));
    if ShowsText(st) then
      PaintString(face, fw, CaptionX(st), CaptionY(st), Some(Caption(st)), CaptionPen(st), st.priv.button.font)
    else face
  }

  /**
   * What `button_draw` leaves in a cell that no caption pixel writes: the
   * border colour on the border, the press colour inside the box while
   * pressed and the background colour otherwise, and the old value outside.
   */
  lemma ButtonPixel(s: seq<bv32>, fw: u16, st: WidgetState, k: int)
    requires ButtonShaped(st) && ButtonFits(|s|, fw, st) && 0 <= k < |s|
    requires ShowsText(st) ==>
      !StringWrites(fw, CaptionX(st), CaptionY(st), Caption(st), CaptionPen(st), st.priv.button.font.value, k)
    ensures ButtonPicture(s, fw, st)[k] ==
            if st.borderWidth > 0 && InBorder(fw, st.x, st.y, st.w, st.h, st.borderWidth, k) then Tone(st.borderColor)
            else if InRect(fw, st.x, st.y, st.w, st.h, k) then
              (if HasFlag(st.state, STATE_PRESSED) then Tone(st.priv.button.pressColor) else Tone(st.priv.button.bgColor))
            else s[k]
  {
    var face := PaintFace(s, fw, st, Tone(Background(st)), Tone(st.borderColor));
    FaceAt(s, fw, st, Tone(Background(st)), Tone(st.borderColor), k);
    if ShowsText(st) {
      StringUntouched(face, fw, CaptionX(st), CaptionY(st), Caption(st), CaptionPen(st), st.priv.button.font.value, k);
    }
  }

  /** With an empty text or no font `button_draw` paints the face alone. */
  lemma NoCaption(s: seq<bv32>, fw: u16, st: WidgetState)
    requires ButtonShaped(st) && ButtonFits(|s|, fw, st)
    requires st.priv.button.text[0] == 0 || st.priv.button.font.None?
    ensures ButtonPicture(s, fw, st) == PaintFace(s, fw, st, Tone(Background(st)), Tone(st.borderColor))
  {
  }

  /** `button_draw`, the callback of a button. */
  method DrawButton(btn: Widget, fb: array<bv32>, fbWidth: u32)
    requires ButtonShaped(btn.Fields()) && ButtonFits(fb.Length, Wrap16(fbWidth), btn.Fields())
    modifies btn, fb
    ensures fb[..] == ButtonPicture(old(fb[..]), Wrap16(fbWidth), old(btn.Fields()))
    ensures btn.Fields() == old(btn.Fields()).(dirty := 0)
  {
    var st := btn.Fields();
    ghost var s0 := fb[..];
    var priv := st.priv.button;
    var bg: bv32 := Tone(priv.bgColor);
    if HasFlag(st.state, STATE_PRESSED) {
      bg := Tone(priv.pressColor);
    }
    assert bg == Tone(Background(st));
    DrawFace(fb, fbWidth, st, bg, Tone(st.borderColor));
    if priv.text[0] != 0 && priv.font.Some? {
      var text := Contents(priv.text);
      var tw := TextWidth(Some(text), priv.font);
      var th := priv.font.value.height;
      var sx := CentreStart(st.x, st.w, tw);
      var sy := CentreStart(st.y, st.h, th);
      assert text == Caption(st) && sx == CaptionX(st) && sy == CaptionY(st);
      DrawString(fb, fbWidth, sx, sy, Some(text), Pen(Tone(priv.textColor), bg, 0), priv.font);
    }
    assert fb[..] == ButtonPicture(s0, Wrap16(fbWidth), st);
    btn.dirty := 0;
  }

  // ---------------------------------------------------------------------
  // Creation and setters
  // ---------------------------------------------------------------------

  /** `akiegui_rgb888_to_native` at 32 bpp, stored in a uint16_t field. */
  function Stored(rgb: bv32): bv16
  {
    Low16(Rgb888To32(rgb))
  }

  /**
   * A stored colour, as drawn, keeps only the green and blue bytes of the
   * RGB888 value it was given: red and the opaque alpha byte are lost, so
   * pure red is drawn as 0.
   */
  lemma StoredLosesRed(rgb: bv32)
    ensures Tone(Stored(rgb)) == rgb & 0xFFFF
    ensures Tone(Stored(RED)) == 0 && Tone(Stored(BLACK)) == BLACK
  {
    Native32In16Bits(rgb);
  }

  /** A text argument copied into a zeroed array with `strncpy(.., 31)`; NULL leaves it zeroed. */
  function NewText(text: Option<seq<u8>>): seq<u8>
  {
    if text.Some? then Strncpy(Zeros(TEXT_SIZE), text.value, TEXT_SIZE - 1) else Zeros(TEXT_SIZE)
  }

  /**
   * The widget `AkieGUI_Button_Create` returns, given the colours already
   * converted for storage: the zeroed widget with the button's fields set.
   */
  function NewButton(x: u16, y: u16, w: u16, h: u16, text: Option<seq<u8>>,
                     textColor: bv16, bgColor: bv16, pressColor: bv16, borderColor: bv16, font: Font): WidgetState
  {
    ZEROED.(kind := ButtonWidget, x := x, y := y, w := w, h := h,
            state := Union(STATE_VISIBLE, STATE_ENABLED), borderColor := borderColor, borderWidth := 1,
            dirty := 1, draw := ButtonDraw,
            priv := ButtonPriv(ButtonRecord(NewText(text), textColor, bgColor, pressColor, Some(font))))
  }

  /**
   * A new button is visible, enabled, not pressed and dirty, has a
   * one-pixel border and the default font, and holds its text cut to 31
   * characters (nothing for NULL).
   */
  lemma NewButtonIs(x: u16, y: u16, w: u16, h: u16, text: Option<seq<u8>>,
                    textColor: bv16, bgColor: bv16, pressColor: bv16, borderColor: bv16, font: Font)
    requires text.Some? ==> NoNul(text.value)
    ensures var st := NewButton(x, y, w, h, text, textColor, bgColor, pressColor, borderColor, font);
            ButtonShaped(st) &&
            HasFlag(st.state, STATE_VISIBLE) && HasFlag(st.state, STATE_ENABLED) &&
            !HasFlag(st.state, STATE_PRESSED) && !HasFlag(st.state, STATE_FOCUSED) &&
            st.dirty == 1 && st.borderWidth == 1 && st.priv.button.font == Some(font) &&
            Caption(st) == (if text.Some? then text.value[..Min(|text.value|, TEXT_SIZE - 1)] else [])
  {
    if text.Some? {
      StrncpyStores(Zeros(TEXT_SIZE), text.value, TEXT_SIZE - 1);
    } else {
      StrlenIs(Zeros(TEXT_SIZE), 0);
    }
  }

  /** The button pool `g_buttons` and its count `g_button_count`. */
  class Buttons {
    var count: u8
    /** `ASCII_8x16`, the font every new button gets; its contents are not part of this model. */
    const defaultFont: Font

    constructor (font: Font)
      ensures count == 0 && defaultFont == font
    {
      count := 0;
      defaultFont := font;
    }

    /**
     * `AkieGUI_Button_Create`: NULL once ten buttons exist, otherwise a new
     * button.  Slots are never reused, so each call that succeeds hands out
     * a widget no one else holds.
     */
    method Create(x: u16, y: u16, w: u16, h: u16, text: Option<seq<u8>>,
                  textColor: bv32, bgColor: bv32, pressColor: bv32) returns (r: Widget?)
      requires text.Some? ==> NoNul(text.value)
      modifies this
      ensures old(count) as int >= MAX_BUTTONS ==> r == null && count == old(count)
      ensures old(count) as int < MAX_BUTTONS ==>
        r != null && fresh(r) && count == old(count) + 1 &&
        r.Fields() == NewButton(x, y, w, h, text, Stored(textColor), Stored(bgColor), Stored(pressColor),
                                Stored(BLACK), defaultFont)
    {
      if count as int >= MAX_BUTTONS {
        return null;
      }
      r := new Widget(NewButton(x, y, w, h, text, Stored(textColor), Stored(bgColor), Stored(pressColor),
                                Stored(BLACK), defaultFont));
      count := count + 1;
    }
  }

  /** `AkieGUI_Button_SetFont` on the widget's fields: a non-button or a NULL font changes nothing. */
  function WithFont(st: WidgetState, font: Option<Font>): WidgetState
    requires st.kind == ButtonWidget ==> ButtonShaped(st)
  {
    if st.kind != ButtonWidget || font.None? then st
    else st.(priv := ButtonPriv(st.priv.button.(font := font)), dirty := 1)
  }

  /** `AkieGUI_Button_SetFont`. */
  method SetFont(btn: Widget?, font: Option<Font>)
    requires btn != null && btn.kind == ButtonWidget ==> ButtonShaped(btn.Fields())
    modifies btn
    ensures btn != null ==> btn.Fields() == WithFont(old(btn.Fields()), font)
  {
    if btn == null || btn.kind != ButtonWidget || font.None? {
      return;
    }
    btn.priv := ButtonPriv(btn.priv.button.(font := font));
    btn.dirty := 1;
  }

  /** The text array after `strncpy(priv->text, text, 31)` and `priv->text[31] = 0`. */
  function CopyText(buf: seq<u8>, text: seq<u8>): (r: seq<u8>)
    requires |buf| == TEXT_SIZE
  {
    Strncpy(buf, text, TEXT_SIZE - 1)[TEXT_SIZE - 1 := 0]
  }

  /** Copying a C string into the text array stores it cut to 31 characters and keeps the array terminated. */
  lemma CopyTextStores(buf: seq<u8>, text: seq<u8>)
    requires |buf| == TEXT_SIZE && NoNul(text)
    ensures |CopyText(buf, text)| == TEXT_SIZE && CopyText(buf, text)[TEXT_SIZE - 1] == 0
    ensures Contents(CopyText(buf, text)) == text[..Min(|text|, TEXT_SIZE - 1)]
  {
    var r := CopyText(buf, text);
    var k := Min(|text|, TEXT_SIZE - 1);
    assert r[k] == 0;
    assert forall i :: 0 <= i < k ==> r[i] == text[i];
    StrlenIs(r, k);
    assert Contents(r) == r[..k];
  }

  /** `AkieGUI_Button_SetText` on the widget's fields: a non-button or a NULL text changes nothing. */
  function WithText(st: WidgetState, text: Option<seq<u8>>): WidgetState
    requires st.kind == ButtonWidget ==> ButtonShaped(st)
  {
    if st.kind != ButtonWidget || text.None? then st
    else st.(priv := ButtonPriv(st.priv.button.(text := CopyText(st.priv.button.text, text.value))), dirty := 1)
  }

  /** `AkieGUI_Button_SetText`. */
  method SetText(btn: Widget?, text: Option<seq<u8>>)
    requires btn != null && btn.kind == ButtonWidget ==> ButtonShaped(btn.Fields())
    modifies btn
    ensures btn != null ==> btn.Fields() == WithText(old(btn.Fields()), text)
  {
    if btn == null || btn.kind != ButtonWidget || text.None? {
      return;
    }
    btn.priv := ButtonPriv(btn.priv.button.(text := CopyText(btn.priv.button.text, text.value)));
    btn.dirty := 1;
  }

  /** `AkieGUI_Button_SetColors` on the widget's fields, given the converted colours: a non-button changes nothing. */
  function WithColors(st: WidgetState, textColor: bv16, bgColor: bv16, pressColor: bv16): WidgetState
    requires st.kind == ButtonWidget ==> ButtonShaped(st)
  {
    if st.kind != ButtonWidget then st
    else st.(priv := ButtonPriv(st.priv.button.(textColor := textColor, bgColor := bgColor, pressColor := pressColor)),
             dirty := 1)
  }

  /** `AkieGUI_Button_SetColors`. */
  method SetColors(btn: Widget?, textColor: bv32, bgColor: bv32, pressColor: bv32)
    requires btn != null && btn.kind == ButtonWidget ==> ButtonShaped(btn.Fields())
    modifies btn
    ensures btn != null ==> btn.Fields() == WithColors(old(btn.Fields()), Stored(textColor), Stored(bgColor), Stored(pressColor))
  {
    if btn == null || btn.kind != ButtonWidget {
      return;
    }
    btn.priv := ButtonPriv(btn.priv.button.(textColor := Stored(textColor), bgColor := Stored(bgColor),
                                            pressColor := Stored(pressColor)));
    btn.dirty := 1;
  }

  /**
   * Setting the text of a button stores the new text cut to 31 characters
   * and marks it dirty; every other field, and any widget that is not a
   * button, is left as it was.
   */
  lemma SetTextStores(st: WidgetState, text: seq<u8>)
    requires st.kind == ButtonWidget ==> ButtonShaped(st)
    requires NoNul(text)
    ensures st.kind != ButtonWidget ==> WithText(st, Some(text)) == st
    ensures st.kind == ButtonWidget ==>
      var st' := WithText(st, Some(text));
      ButtonShaped(st') && st'.dirty == 1 &&
      Caption(st') == text[..Min(|text|, TEXT_SIZE - 1)] &&
      st'.(dirty := st.dirty, priv := ButtonPriv(st'.priv.button.(text := st.priv.button.text))) == st
  {
    if st.kind == ButtonWidget {
      CopyTextStores(st.priv.button.text, text);
    }
  }

  /**
   * The font and colour setters keep a button a button, change only the
   * named record fields and the dirty flag, and leave other widgets alone.
   */
  lemma SettersKeepShape(st: WidgetState, font: Font, textColor: bv16, bgColor: bv16, pressColor: bv16)
    requires st.kind == ButtonWidget ==> ButtonShaped(st)
    ensures st.kind != ButtonWidget ==> WithFont(st, Some(font)) == st && WithColors(st, textColor, bgColor, pressColor) == st
    ensures st.kind == ButtonWidget ==>
      var st' := WithFont(st, Some(font));
      ButtonShaped(st') && st'.priv.button.font == Some(font) && Caption(st') == Caption(st) && st'.dirty == 1 &&
      st'.(dirty := st.dirty, priv := ButtonPriv(st'.priv.button.(font := st.priv.button.font))) == st
    ensures st.kind == ButtonWidget ==>
      var st' := WithColors(st, textColor, bgColor, pressColor);
      ButtonShaped(st') && Caption(st') == Caption(st) && st'.dirty == 1 &&
      st'.priv.button.textColor == textColor && st'.priv.button.bgColor == bgColor &&
      st'.priv.button.pressColor == pressColor && st'.priv.button.font == st.priv.button.font
  {
  }
}
