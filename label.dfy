/**
 * The label widget (Widget/Label/akiegui_label.c): a line of text sized to
 * fit, on a background that the colour 0xFFFF00 makes transparent.
 *
 * A label is a widget whose `priv` is a `Label_Private` record: a 64-byte
 * text array, two native colours (`akiegui_color_t`, 32 bits in the
 * shipped configuration), a font and the transparency flag.
 */
module Label {
  import opened Machine
  import opened CString
  import opened Color
  import opened Draw
  import opened DrawProps
  import opened Widget
  import Button

  const MAX_LABELS: nat := 10
  /** `sizeof(priv->text)`. */
  const LABEL_TEXT_SIZE: nat := 64
  /** The RGB888 background that stands for "transparent". */
  const TRANSPARENT_KEY: bv32 := YELLOW

  /**
   * The private record of a label, as every operation here leaves it: the
   * text array terminated and the font set (Create dereferences it).
   */
  predicate LabelShaped(st: WidgetState)
  {
    st.priv.LabelPriv? && |st.priv.labelData.text| == LABEL_TEXT_SIZE &&
    st.priv.labelData.text[LABEL_TEXT_SIZE - 1] == 0 && st.priv.labelData.font.Some?
  }

  /** The flag `(bg_color == 0xFFFF00)`, compared on the RGB888 argument. */
  function TransparentFlag(bgColor: bv32): (t: u8)
    ensures t == 1 <==> bgColor == TRANSPARENT_KEY
    ensures t == 0 || t == 1
  {
    if bgColor == TRANSPARENT_KEY then 1 else 0
  }

  // ---------------------------------------------------------------------
  // Drawing
  // ---------------------------------------------------------------------

  function Caption(st: WidgetState): (r: seq<u8>)
    requires LabelShaped(st)
    ensures NoNul(r) && |r| < LABEL_TEXT_SIZE
  {
    Contents(st.priv.labelData.text)
  }

  predicate ShowsText(st: WidgetState)
    requires LabelShaped(st)
  {
    st.priv.labelData.text[0] != 0
  }

  function CaptionX(st: WidgetState): u16
    requires LabelShaped(st)
  {
    Button.CentreStart(st.x, st.w, TextWidth(Some(Caption(st)), st.priv.labelData.font))
  }

  function CaptionY(st: WidgetState): u16
    requires LabelShaped(st)
  {
    Button.CentreStart(st.y, st.h, st.priv.labelData.font.value.height)
  }

  /** The text colour over the background, with the label's transparency. */
  function CaptionPen(st: WidgetState): Pen<bv32>
    requires st.priv.LabelPriv?
  {
    Pen(st.priv.labelData.textColor, st.priv.labelData.bgColor, st.priv.labelData.transparent)
  }

  ghost predicate LabelFits(n: int, fw: u16, st: WidgetState)
    requires LabelShaped(st)
  {
    (st.priv.labelData.transparent == 0 ==> RectFits(n, fw, st.x, st.y, st.w, st.h)) &&
    (ShowsText(st) ==> StringFits(n, fw, CaptionX(st), CaptionY(st), Caption(st), st.priv.labelData.font.value))
  }

  /** The framebuffer after `label_draw`. */
  function LabelPicture(s: seq<bv32>, fw: u16, st: WidgetState): (r: seq<bv32>)
    requires LabelShaped(st) && LabelFits(|s|, fw, st)
    ensures |r| == |s|
  {
    var p := st.priv.labelData;
    var back := if p.transparent == 0 then PaintRect(s, fw, st.x, st.y, st.w, st.h, p.bgColor) else s;
    if ShowsText(st) then PaintString(back, fw, CaptionX(st), CaptionY(st), Some(Caption(st)), CaptionPen(st), p.font)
    else back
  }

  /** `label_draw`, the callback of a label. */
  method DrawLabel(lbl: Widget, fb: array<bv32>, fbWidth: u32)
    requires LabelShaped(lbl.Fields()) && LabelFits(fb.Length, Wrap16(fbWidth), lbl.Fields())
    modifies lbl, fb
    ensures fb[..] == LabelPicture(old(fb[..]), Wrap16(fbWidth), old(lbl.Fields()))
    ensures lbl.Fields() == old(lbl.Fields()).(dirty := 0)
  {
    var st := lbl.Fields();
    ghost var s0 := fb[..];
    var priv := st.priv.labelData;
    if priv.transparent == 0 {
      DrawRect(fb, fbWidth, st.x, st.y, st.w, st.h, priv.bgColor);
    }
    ghost var back := if priv.transparent == 0 then PaintRect(s0, Wrap16(fbWidth), st.x, st.y, st.w, st.h, priv.bgColor) else s0;
    assert fb[..] == back;
    if priv.text[0] != 0 && priv.font.Some? {
      var text := Contents(priv.text);
      var tw := TextWidth(Some(text), priv.font);
      var th := priv.font.value.height;
      var sx := Button.CentreStart(st.x, st.w, tw);
      var sy := Button.CentreStart(st.y, st.h, th);
      assert text == Caption(st) && sx == CaptionX(st) && sy == CaptionY(st);
      DrawString(fb, fbWidth, sx, sy, Some(text), Pen(priv.textColor, priv.bgColor, priv.transparent), priv.font);
    }
    assert fb[..] == LabelPicture(s0, Wrap16(fbWidth), st);
    lbl.dirty := 0;
  }

  /**
   * What `label_draw` leaves in a cell that no text pixel writes: the
   * background inside the box when the label is opaque, and otherwise the
   * old value; a transparent label paints no background at all.
   */
  lemma LabelPixel(s: seq<bv32>, fw: u16, st: WidgetState, k: int)
    requires LabelShaped(st) && LabelFits(|s|, fw, st) && 0 <= k < |s|
    requires ShowsText(st) ==>
      !StringWrites(fw, CaptionX(st), CaptionY(st), Caption(st), CaptionPen(st), st.priv.labelData.font.value, k)
    ensures LabelPicture(s, fw, st)[k] ==
            if st.priv.labelData.transparent == 0 && InRect(fw, st.x, st.y, st.w, st.h, k) then st.priv.labelData.bgColor
            else s[k]
  {
    var p := st.priv.labelData;
    var back := if p.transparent == 0 then PaintRect(s, fw, st.x, st.y, st.w, st.h, p.bgColor) else s;
    if p.transparent == 0 {
      PaintRectAt(s, fw, st.x, st.y, st.w, st.h, p.bgColor, k);
    }
    if ShowsText(st) {
      StringUntouched(back, fw, CaptionX(st), CaptionY(st), Caption(st), CaptionPen(st), p.font.value, k);
    }
  }

  // ---------------------------------------------------------------------
  // Creation and setters
  // ---------------------------------------------------------------------

  /** A text argument copied into a zeroed array with `strncpy(.., 63)`; NULL leaves it zeroed. */
  function NewText(text: Option<seq<u8>>): seq<u8>
  {
    if text.Some? then Strncpy(Zeros(LABEL_TEXT_SIZE), text.value, LABEL_TEXT_SIZE - 1) else Zeros(LABEL_TEXT_SIZE)
  }

  /**
   * The widget `AkieGUI_Label_Create` returns: sized by `text_width` of the
   * text as given plus a 2-pixel margin on each side, and by the font
   * height plus the same margins.
   */
  function NewLabel(x: u16, y: u16, text: Option<seq<u8>>, textColor: bv32, bgColor: bv32, font: Font): WidgetState
  {
    ZEROED.(kind := LabelWidget, x := x, y := y,
            w := Wrap16(TextWidth(text, Some(font)) + 4), h := Wrap16(font.height + 4),
            state := Union(STATE_VISIBLE, STATE_ENABLED), dirty := 1, draw := LabelDraw,
            priv := LabelPriv(LabelRecord(NewText(text), Rgb888To32(textColor), Rgb888To32(bgColor), Some(font),
                                          TransparentFlag(bgColor))))
  }

  /**
   * A new label is visible, enabled and dirty, holds its text cut to 63
   * characters, is exactly as wide as that text plus 4 when the text fits
   * (modulo 2^16), keeps the colours' RGB bits, and is transparent exactly
   * when the background asked for is 0xFFFF00.
   */
  lemma NewLabelIs(x: u16, y: u16, text: Option<seq<u8>>, textColor: bv32, bgColor: bv32, font: Font)
    requires text.Some? ==> NoNul(text.value)
    ensures var st := NewLabel(x, y, text, textColor, bgColor, font);
            LabelShaped(st) &&
            HasFlag(st.state, STATE_VISIBLE) && HasFlag(st.state, STATE_ENABLED) && !HasFlag(st.state, STATE_PRESSED) &&
            st.dirty == 1 && st.h == Wrap16(font.height + 4) &&
            Caption(st) == (if text.Some? then text.value[..Min(|text.value|, LABEL_TEXT_SIZE - 1)] else []) &&
            (text.None? || |text.value| < LABEL_TEXT_SIZE ==> st.w == Wrap16(|Caption(st)| * font.width + 4)) &&
            Low24(st.priv.labelData.textColor) == Low24(textColor) &&
            Low24(st.priv.labelData.bgColor) == Low24(bgColor) &&
            (st.priv.labelData.transparent == 1 <==> bgColor == TRANSPARENT_KEY)
  {
    if text.Some? {
      StrncpyStores(Zeros(LABEL_TEXT_SIZE), text.value, LABEL_TEXT_SIZE - 1);
      Wrap16Add(|text.value| * font.width, 4);
    } else {
      StrlenIs(Zeros(LABEL_TEXT_SIZE), 0);
    }
  }

  /** The label pool `g_labels` and its count `g_label_count`. */
  class Labels {
    var count: u8

    constructor ()
      ensures count == 0
    {
      count := 0;
    }

    /**
     * `AkieGUI_Label_Create`: NULL once ten labels exist; otherwise a new
     * label.  The font is dereferenced only after the pool check, so it may
     * be NULL when the pool is full.
     */
    method Create(x: u16, y: u16, text: Option<seq<u8>>, textColor: bv32, bgColor: bv32, font: Option<Font>)
      returns (r: Widget?)
      requires text.Some? ==> NoNul(text.value)
      requires count as int < MAX_LABELS ==> font.Some?
      modifies this
      ensures old(count) as int >= MAX_LABELS ==> r == null && count == old(count)
      ensures old(count) as int < MAX_LABELS ==>
        r != null && fresh(r) && count == old(count) + 1 &&
        r.Fields() == NewLabel(x, y, text, textColor, bgColor, font.value)
    {
      if count as int >= MAX_LABELS {
        return null;
      }
      r := new Widget(NewLabel(x, y, text, textColor, bgColor, font.value));
      count := count + 1;
    }
  }

  /** The text array after `strncpy(priv->text, text, 63)` and `priv->text[63] = 0`. */
  function CopyText(buf: seq<u8>, text: seq<u8>): seq<u8>
    requires |buf| == LABEL_TEXT_SIZE
  {
    Strncpy(buf, text, LABEL_TEXT_SIZE - 1)[LABEL_TEXT_SIZE - 1 := 0]
  }

  /** The copied text reads back as the first 63 characters of the input. */
  lemma CopyTextStores(buf: seq<u8>, text: seq<u8>)
    requires |buf| == LABEL_TEXT_SIZE && NoNul(text)
    ensures |CopyText(buf, text)| == LABEL_TEXT_SIZE && CopyText(buf, text)[LABEL_TEXT_SIZE - 1] == 0
    ensures Contents(CopyText(buf, text)) == text[..Min(|text|, LABEL_TEXT_SIZE - 1)]
  {
    var r := CopyText(buf, text);
    var k := Min(|text|, LABEL_TEXT_SIZE - 1);
    assert r[k] == 0;
    assert forall i :: 0 <= i < k ==> r[i] == text[i];
    StrlenIs(r, k);
    assert Contents(r) == r[..k];
  }

  /**
   * `AkieGUI_Label_SetText` on the widget's fields: the new text, a width
   * of `(uint16_t)strlen(text) * Width + 4` measured on the text as given,
   * and a redraw; a non-label or a NULL text changes nothing.
   */
  function WithText(st: WidgetState, text: Option<seq<u8>>): WidgetState
    requires st.kind == LabelWidget ==> LabelShaped(st)
  {
    if st.kind != LabelWidget || text.None? then st
    else
      var p := st.priv.labelData;
      st.(priv := LabelPriv(p.(text := CopyText(p.text, text.value))),
          w := Wrap16(Wrap16(|text.value|) * p.font.value.width + 4), dirty := 1)
  }

  /** `AkieGUI_Label_SetText`. */
  method SetText(lbl: Widget?, text: Option<seq<u8>>)
    requires lbl != null && lbl.kind == LabelWidget ==> LabelShaped(lbl.Fields())
    modifies lbl
    ensures lbl != null ==> lbl.Fields() == WithText(old(lbl.Fields()), text)
  {
    if lbl == null || lbl.kind != LabelWidget || text.None? {
      return;
    }
    var p := lbl.priv.labelData;
    lbl.priv := LabelPriv(p.(text := CopyText(p.text, text.value)));
    var textLen: u16 := Wrap16(|text.value|);
    lbl.w := Wrap16(textLen * p.font.value.width + 4);
    lbl.dirty := 1;
  }

  /**
   * Setting a label's text stores it cut to 63 characters.  When the text
   * fits, the new width is the stored caption's width plus 4, the rule
   * Create uses; a longer text is measured uncut, so the label is wider
   * than what it shows.
   */
  lemma SetTextStores(st: WidgetState, text: seq<u8>)
    requires st.kind == LabelWidget ==> LabelShaped(st)
    requires NoNul(text)
    ensures st.kind != LabelWidget ==> WithText(st, Some(text)) == st
    ensures st.kind == LabelWidget ==>
      var st' := WithText(st, Some(text));
      var f := st.priv.labelData.font;
      LabelShaped(st') && st'.dirty == 1 && st'.priv.labelData.font == f &&
      Caption(st') == text[..Min(|text|, LABEL_TEXT_SIZE - 1)] &&
      st'.w == Wrap16(TextWidth(Some(text), f) + 4) &&
      (|text| < LABEL_TEXT_SIZE ==> st'.w == Wrap16(TextWidth(Some(Caption(st')), f) + 4)) &&
      (|text| >= LABEL_TEXT_SIZE && f.value.width > 0 && |text| * f.value.width + 4 < TWO16 ==>
         st'.w > TextWidth(Some(Caption(st')), f) + 4)
  {
    if st.kind == LabelWidget {
      var p := st.priv.labelData;
      var st' := WithText(st, Some(text));
      var k := Min(|text|, LABEL_TEXT_SIZE - 1);
      var f := p.font;
      CopyTextStores(p.text, text);
      assert st'.priv.labelData.text == CopyText(p.text, text);
      assert Caption(st') == text[..k];
      MeasuredWidth(|text|, k, f.value.width);
      assert TextWidth(Some(text), f) == Wrap16(|text| * f.value.width);
      assert TextWidth(Some(Caption(st')), f) == Wrap16(k * f.value.width);
    }
  }

  /**
   * The width arithmetic of `AkieGUI_Label_SetText`: truncating the length
   * before the product is the same as truncating the product, and a text of
   * `n` characters cut to `k < n` measures less than the uncut one while
   * nothing wraps.
   */
  lemma MeasuredWidth(n: nat, k: nat, wd: u16)
    ensures Wrap16(Wrap16(n) * wd + 4) == Wrap16(Wrap16(n * wd) + 4)
    ensures k < n && wd > 0 && n * wd + 4 < TWO16 ==> Wrap16(Wrap16(n) * wd + 4) > Wrap16(k * wd) + 4
  {
    Wrap16Mul(n, wd);
    Wrap16Add(Wrap16(n) * wd, 4);
    Wrap16Add(n * wd, 4);
    if k < n && wd > 0 && n * wd + 4 < TWO16 {
      MulMonotonic(k, n, wd);
      assert k * wd < n * wd by {
        assert n * wd - k * wd == (n - k) * wd;
        MulAtLeast(n - k, wd);
      }
      Wrap16Small(k * wd);
      Wrap16Small(n * wd);
      Wrap16Small(n * wd + 4);
    }
  }

  /** `AkieGUI_Label_SetColor` on the widget's fields. */
  function WithColor(st: WidgetState, textColor: bv32): WidgetState
    requires st.kind == LabelWidget ==> LabelShaped(st)
  {
    if st.kind != LabelWidget then st
    else st.(priv := LabelPriv(st.priv.labelData.(textColor := Rgb888To32(textColor))), dirty := 1)
  }

  /** `AkieGUI_Label_SetColor`: a new text colour and a redraw, unless NULL or not a label. */
  method SetColor(lbl: Widget?, textColor: bv32)
    requires lbl != null && lbl.kind == LabelWidget ==> LabelShaped(lbl.Fields())
    modifies lbl
    ensures lbl != null ==> lbl.Fields() == WithColor(old(lbl.Fields()), textColor)
  {
    if lbl == null || lbl.kind != LabelWidget {
      return;
    }
    lbl.priv := LabelPriv(lbl.priv.labelData.(textColor := Rgb888To32(textColor)));
    lbl.dirty := 1;
  }

  /** `AkieGUI_Label_SetBgColor` on the widget's fields. */
  function WithBgColor(st: WidgetState, bgColor: bv32): WidgetState
    requires st.kind == LabelWidget ==> LabelShaped(st)
  {
    if st.kind != LabelWidget then st
    else st.(priv := LabelPriv(st.priv.labelData.(bgColor := Rgb888To32(bgColor), transparent := TransparentFlag(bgColor))),
             dirty := 1)
  }

  /**
   * `AkieGUI_Label_SetBgColor`: a new background and transparency flag and
   * a redraw, unless NULL or not a label.
   */
  method SetBgColor(lbl: Widget?, bgColor: bv32)
    requires lbl != null && lbl.kind == LabelWidget ==> LabelShaped(lbl.Fields())
    modifies lbl
    ensures lbl != null ==> lbl.Fields() == WithBgColor(old(lbl.Fields()), bgColor)
  {
    if lbl == null || lbl.kind != LabelWidget {
      return;
    }
    lbl.priv := LabelPriv(lbl.priv.labelData.(bgColor := Rgb888To32(bgColor), transparent := TransparentFlag(bgColor)));
    lbl.dirty := 1;
  }

  /**
   * The colour setters keep a label a label and its text, and make it
   * transparent exactly when the new background is 0xFFFF00, so that a
   * transparent label paints no background (LabelPixel).
   */
  lemma ColorSettersKeepShape(st: WidgetState, textColor: bv32, bgColor: bv32)
    requires st.kind == LabelWidget ==> LabelShaped(st)
    ensures st.kind != LabelWidget ==> WithColor(st, textColor) == st && WithBgColor(st, bgColor) == st
    ensures st.kind == LabelWidget ==>
      LabelShaped(WithColor(st, textColor)) && Caption(WithColor(st, textColor)) == Caption(st) &&
      Low24(WithColor(st, textColor).priv.labelData.textColor) == Low24(textColor) &&
      LabelShaped(WithBgColor(st, bgColor)) && Caption(WithBgColor(st, bgColor)) == Caption(st) &&
      Low24(WithBgColor(st, bgColor).priv.labelData.bgColor) == Low24(bgColor) &&
      (WithBgColor(st, bgColor).priv.labelData.transparent != 0 <==> bgColor == TRANSPARENT_KEY)
  {
  }
}
