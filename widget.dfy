/**
 * The widget structure (Widget/akiegui_widget.h) and the widget manager
 * (Widget/akiegui_widget.c): a registry of at most 20 widget pointers
 * with hit-testing and redraw of dirty widgets.
 *
 * A widget's `draw` member is a function pointer.  The manager only calls
 * it; the model records each call, with the framebuffer it was given, in
 * the registry's `calls` trace.  What the callbacks do is modelled by
 * Button.DrawButton, LegacyButton.DrawButton and Label.DrawLabel.
 */
module Widget {
  import opened Machine
  import opened Draw
  import Framebuffer

  const MAX_WIDGETS: nat := 20

  /** `AkieGUI_Widget_Type`. */
  datatype Kind = NoWidget | ButtonWidget | LabelWidget

  /** The bits of `state`, a `uint8_t` combined and queried bitwise. */
  const STATE_VISIBLE: bv8 := 1
  const STATE_ENABLED: bv8 := 2
  const STATE_PRESSED: bv8 := 4
  const STATE_FOCUSED: bv8 := 8

  predicate HasFlag(state: bv8, flag: bv8)
  {
    state & flag != 0
  }

  /** `a | b` on state bits: a flag is set in the result iff it is set in either. */
  function Union(a: bv8, b: bv8): (r: bv8)
    ensures forall f: bv8 :: HasFlag(r, f) <==> HasFlag(a, f) || HasFlag(b, f)
  {
    UnionBits(a, b);
    a | b
  }

  lemma UnionBits(a: bv8, b: bv8)
    ensures forall f: bv8 :: HasFlag(a | b, f) <==> HasFlag(a, f) || HasFlag(b, f)
  {
    forall f: bv8 ensures HasFlag(a | b, f) <==> HasFlag(a, f) || HasFlag(b, f) {
      OrMasks(a, b, f);
    }
  }

  lemma OrMasks(a: bv8, b: bv8, f: bv8)
    ensures (a | b) & f != 0 <==> a & f != 0 || b & f != 0
  {
  }

  /** The routine `draw` points to; NoDraw is NULL. */
  datatype Callback = NoDraw | ButtonDraw | LegacyButtonDraw | LabelDraw

  /** `Button_Private` (Widget/Inc/akiegui_button.h), with its 32-byte text array. */
  datatype ButtonRecord = ButtonRecord(text: seq<u8>, textColor: bv16, bgColor: bv16, pressColor: bv16, font: Option<Font>)

  /** `Label_Private`, with its 64-byte text array. */
  datatype LabelRecord = LabelRecord(text: seq<u8>, textColor: bv32, bgColor: bv32, font: Option<Font>, transparent: u8)

  /** What `priv` points to, kept by value: it belongs to the widget's pool slot alone. */
  datatype Private = NoPrivate | ButtonPriv(button: ButtonRecord) | LabelPriv(labelData: LabelRecord)

  /** The fields of a widget as one value. */
  datatype WidgetState = WidgetState(
    kind: Kind, x: u16, y: u16, w: u16, h: u16, state: bv8,
    forgColor: bv16, backColor: bv16, borderColor: bv16, borderWidth: u8,
    dirty: u8, draw: Callback, priv: Private)

  /** A widget after `memset(widget, 0, sizeof(AkieGUI_Widget_T))`. */
  const ZEROED := WidgetState(NoWidget, 0, 0, 0, 0, 0, 0, 0, 0, 0, 0, NoDraw, NoPrivate)

  /** `AkieGUI_Widget_T`. */
  class Widget {
    var kind: Kind
    var x: u16
    var y: u16
    var w: u16
    var h: u16
    var state: bv8
    var forgColor: bv16
    var backColor: bv16
    var borderColor: bv16
    var borderWidth: u8
    var dirty: u8
    var draw: Callback
    var priv: Private

    function Fields(): WidgetState
      reads this
    {
      WidgetState(kind, x, y, w, h, state, forgColor, backColor, borderColor, borderWidth, dirty, draw, priv)
    }

    /** A widget whose fields hold `st`. */
    constructor (st: WidgetState)
      ensures Fields() == st
    {
      kind, x, y, w, h, state := st.kind, st.x, st.y, st.w, st.h, st.state;
      forgColor, backColor, borderColor, borderWidth := st.forgColor, st.backColor, st.borderColor, st.borderWidth;
      dirty, draw, priv := st.dirty, st.draw, st.priv;
    }
  }

  /** `AkieGUI_Widget_MarkDirty`: set `dirty` on a widget; nothing for NULL. */
  method MarkDirty(wd: Widget?)
    modifies wd
    ensures wd != null ==> wd.Fields() == old(wd.Fields()).(dirty := 1)
  {
    if wd != null {
      wd.dirty := 1;
    }
  }

  /** A call of a widget's draw callback with the framebuffer address it was given. */
  datatype Call = Call(target: Widget?, fb: u32)

  /** The manager calls this entry's callback: a visible widget with a callback, dirty when `dirtyOnly`. */
  predicate Drawable(wd: Widget?, dirtyOnly: bool)
    reads wd
  {
    wd != null && HasFlag(wd.state, STATE_VISIBLE) && (dirtyOnly ==> wd.dirty != 0) && wd.draw != NoDraw
  }

  /** The calls a pass over `ws` makes, in index order. */
  function Drawn(ws: seq<Widget?>, fb: u32, dirtyOnly: bool): (r: seq<Call>)
    reads ws
    ensures |r| <= |ws|
  {
    if ws == [] then []
    else
      var last := ws[|ws| - 1];
      Drawn(ws[..|ws| - 1], fb, dirtyOnly) + (if Drawable(last, dirtyOnly) then [Call(last, fb)] else [])
  }

  /** Point (px, py) is inside the widget's box, with the sums taken in int. */
  predicate Contains(wd: Widget, px: u16, py: u16)
    reads wd
  {
    wd.x <= px < wd.x + wd.w && wd.y <= py < wd.y + wd.h
  }

  /** An entry `HitTest` accepts: non-null, visible and containing the point. */
  predicate Hits(wd: Widget?, px: u16, py: u16)
    reads wd
  {
    wd != null && HasFlag(wd.state, STATE_VISIBLE) && Contains(wd, px, py)
  }

  /** The first entry of `ws` that the point hits, or NULL. */
  function FirstHit(ws: seq<Widget?>, px: u16, py: u16): (r: Widget?)
    reads ws
    ensures r != null ==> r in ws && Hits(r, px, py)
  {
    if ws == [] then null
    else if Hits(ws[0], px, py) then ws[0]
    else FirstHit(ws[1..], px, py)
  }

  /** The manager's state `g_widget_list`: a fixed array of pointers and a count. */
  class Registry {
    const slots: array<Widget?>
    var count: u8
    /** The draw callbacks the manager has called, oldest first. */
    var calls: seq<Call>

    ghost predicate Valid()
      reads this
    {
      slots.Length == MAX_WIDGETS && count as int <= MAX_WIDGETS
    }

    /** The registered entries. */
    function Entries(): seq<Widget?>
      reads this, slots
      requires Valid()
    {
      slots[..count]
    }

    /** The static, zero-initialised registry. */
    constructor ()
      ensures Valid() && fresh(slots) && count == 0 && calls == []
      ensures forall i :: 0 <= i < slots.Length ==> slots[i] == null
    {
      slots := new Widget?[MAX_WIDGETS](_ => null);
      count := 0;
      calls := [];
    }

    /** `AkieGUI_Widget_Init`: clear the registry. */
    method Init()
      requires Valid()
      modifies this, slots
      ensures Valid() && count == 0 && calls == old(calls)
      ensures forall i :: 0 <= i < slots.Length ==> slots[i] == null
    {
      forall i | 0 <= i < slots.Length {
        slots[i] := null;
      }
      count := 0;
    }

    /**
     * `AkieGUI_Widget_Add`: append a non-null widget while there is room;
     * NULL and a full registry are ignored.
     */
    method Add(wd: Widget?)
      requires Valid()
      modifies this, slots
      ensures Valid() && calls == old(calls)
      ensures if wd == null || old(count) as int == MAX_WIDGETS
              then count == old(count) && slots[..] == old(slots[..])
              else count == old(count) + 1 && slots[..] == old(slots[..])[old(count) := wd]
    {
      if wd == null {
        return;
      }
      if count as int >= MAX_WIDGETS {
        return;
      }
      slots[count] := wd;
      count := count + 1;
    }

    /** One pass over the entries, calling the callbacks of the drawable ones. */
    method DrawPass(fb: u32, dirtyOnly: bool) returns (drew: bool)
      requires Valid()
      modifies this
      ensures Valid() && count == old(count)
      ensures calls == old(calls) + Drawn(Entries(), fb, dirtyOnly)
      ensures drew <==> Drawn(Entries(), fb, dirtyOnly) != []
    {
      drew := false;
      var made: seq<Call> := [];
      var i: u8 := 0;
      while i < count
        invariant i <= count
        invariant made == Drawn(slots[..i], fb, dirtyOnly)
        invariant drew <==> made != []
      {
        var wd := slots[i];
        assert slots[..i + 1][..i] == slots[..i];
        if Drawable(wd, dirtyOnly) {
          made := made + [Call(wd, fb)];
          drew := true;
        }
        i := i + 1;
      }
      assert slots[..count] == Entries();
      calls := calls + made;
    }

    /**
     * `AkieGUI_Widget_DrawDirtyAll`: call the callback of every visible,
     * dirty entry with the draw framebuffer, then commit the frame iff at
     * least one was drawn.
     */
    method DrawDirtyAll(gui: Framebuffer.Gui)
      requires Valid()
      modifies this, gui
      ensures Valid() && count == old(count)
      ensures calls == old(calls) + Drawn(Entries(), old(gui.drawFb), true)
      ensures gui.State() == if Drawn(Entries(), old(gui.drawFb), true) == [] then old(gui.State())
                             else Framebuffer.SendFrameSpec(old(gui.State()), gui.cfg.teMode, old(gui.drawFb), old(gui.fbSize))
    {
      var fb := gui.GetDrawFB();
      var hasDirty := DrawPass(fb, true);
      ghost var drawn := Drawn(Entries(), fb, true);
      if hasDirty {
        var _ := gui.Commit();
      }
      assert Drawn(Entries(), fb, true) == drawn;
    }

    /**
     * `AkieGUI_Widget_RedrawAll`: call the callback of every visible entry,
     * dirty or not, then always commit the frame.
     */
    method RedrawAll(gui: Framebuffer.Gui)
      requires Valid()
      modifies this, gui
      ensures Valid() && count == old(count)
      ensures calls == old(calls) + Drawn(Entries(), old(gui.drawFb), false)
      ensures gui.State() == Framebuffer.SendFrameSpec(old(gui.State()), gui.cfg.teMode, old(gui.drawFb), old(gui.fbSize))
    {
      var fb := gui.GetDrawFB();
      var _ := DrawPass(fb, false);
      ghost var drawn := Drawn(Entries(), fb, false);
      var _ := gui.Commit();
      assert Drawn(Entries(), fb, false) == drawn;
    }

    /** `AkieGUI_Widget_HitTest`: the first registered entry that is visible and contains the point. */
    method HitTest(px: u16, py: u16) returns (r: Widget?)
      requires Valid()
      ensures r == FirstHit(Entries(), px, py)
    {
      var i: u8 := 0;
      while i < count
        invariant i <= count
        invariant FirstHit(Entries(), px, py) == FirstHit(slots[i..count], px, py)
      {
        var wd := slots[i];
        assert slots[i..count][1..] == slots[i + 1..count];
        if wd == null || !HasFlag(wd.state, STATE_VISIBLE) {
          i := i + 1;
          continue;
        }
        if px >= wd.x && px < wd.x + wd.w && py >= wd.y && py < wd.y + wd.h {
          return wd;
        }
        i := i + 1;
      }
      return null;
    }
  }

  /**
   * A pass calls back exactly the drawable entries, each with the given
   * framebuffer, and nothing else.
   */
  lemma {:induction false} DrawnExactly(ws: seq<Widget?>, fb: u32, dirtyOnly: bool, c: Call)
    ensures c in Drawn(ws, fb, dirtyOnly) <==> c.fb == fb && c.target in ws && Drawable(c.target, dirtyOnly)
  {
    if ws != [] {
      var init := ws[..|ws| - 1];
      DrawnExactly(init, fb, dirtyOnly, c);
      assert ws == init + [ws[|ws| - 1]];
    }
  }

  /** The dirty pass calls back a subset of what the full redraw does, in the same order. */
  lemma {:induction false} DirtyPassWithinRedraw(ws: seq<Widget?>, fb: u32)
    ensures forall c :: c in Drawn(ws, fb, true) ==> c in Drawn(ws, fb, false)
    ensures |Drawn(ws, fb, true)| <= |Drawn(ws, fb, false)|
  {
    if ws != [] {
      DirtyPassWithinRedraw(ws[..|ws| - 1], fb);
    }
  }

  /** With no dirty entry the dirty pass calls nothing, so DrawDirtyAll sends no frame. */
  lemma {:induction false} CleanPassIsEmpty(ws: seq<Widget?>, fb: u32)
    requires forall i :: 0 <= i < |ws| && ws[i] != null ==> ws[i].dirty == 0
    ensures Drawn(ws, fb, true) == []
  {
    if ws != [] {
      CleanPassIsEmpty(ws[..|ws| - 1], fb);
    }
  }

  /**
   * HitTest's answer is NULL exactly when no entry is hit, and otherwise
   * the entry at the lowest index that is hit: widgets added earlier win.
   */
  lemma {:induction false} FirstHitIsFirst(ws: seq<Widget?>, px: u16, py: u16)
    ensures FirstHit(ws, px, py) == null <==> forall i :: 0 <= i < |ws| ==> !Hits(ws[i], px, py)
    ensures FirstHit(ws, px, py) != null ==>
      exists i :: 0 <= i < |ws| && ws[i] == FirstHit(ws, px, py) && Hits(ws[i], px, py) &&
                  forall j :: 0 <= j < i ==> !Hits(ws[j], px, py)
  {
    if ws != [] {
      FirstHitIsFirst(ws[1..], px, py);
      if !Hits(ws[0], px, py) && FirstHit(ws, px, py) != null {
        var i :| 0 <= i < |ws[1..]| && ws[1..][i] == FirstHit(ws, px, py) && Hits(ws[1..][i], px, py) &&
                 forall j :: 0 <= j < i ==> !Hits(ws[1..][j], px, py);
        assert ws[i + 1] == ws[1..][i];
        assert forall j :: 1 <= j < i + 1 ==> ws[j] == ws[1..][j - 1];
      }
      if FirstHit(ws, px, py) == null {
        assert forall i :: 1 <= i < |ws| ==> ws[i] == ws[1..][i - 1];
      }
    }
  }
}
