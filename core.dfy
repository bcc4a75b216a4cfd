/**
 * The framebuffer controller: the g_akiegui descriptor (AkieGUI_t), its
 * static initialiser, AkieGUI_FBInit, and the inline API of the core
 * header (TransmitEnd, SendFrame, SendRegion, GetDrawFB, GetDispFB,
 * SwapBuffer, Commit, CommitRegion).  Line numbers cited for FBInit are
 * those of Core/Src/akiegui_core.c, the others those of
 * Core/Inc/akiegui_core.h.
 *
 * The two screen-driver hooks are modelled by whether they are set; every
 * call the controller makes to a set hook is appended to a trace of send
 * events.  The compile-time configuration (screen size, colour depth, TE
 * mode, double buffering) is a value of its own, fixed when the descriptor
 * is created.
 */
module Framebuffer {
  import opened Machine
  import opened Align
  import opened Memory
  import MemoryProps

  /** The alignment FBInit asks of the allocator for each framebuffer. */
  const FB_ALIGN: u32 := 32

  /** The compile-time configuration of the build. */
  datatype Config = Config(
    width: u32,          // AkieGUI_LCD_WIDTH
    height: u32,         // AkieGUI_LCD_HEIGHT
    bpp: u32,            // AkieGUI_LCD_BPP
    teMode: bool,        // AkieGUI_TE_MODE == AkieGUI_KE_TE_EN
    doubleBuffer: bool)  // AkieGUI_DOUBLE_BUFFER_MODE

  /** The configuration shipped with the library: 320 x 240 at 32 bpp, no TE, one buffer. */
  const SHIPPED: Config := Config(320, 240, 32, false, false)

  /** A call made to one of the screen-driver hooks. */
  datatype Send =
    | Frame(data: u32, len: u32)
    | Region(x: u16, y: u16, w: u16, h: u16, data: u32)

  /** The fields of g_akiegui, with the hooks reduced to "set or NULL", and the sends made so far. */
  datatype GuiState = GuiState(
    tePending: u8,
    frameHook: bool,
    regionHook: bool,
    fb1: u32,
    fb2: u32,
    drawFb: u32,
    dispFb: u32,
    fbWidth: u32,
    fbHeight: u32,
    fbBpp: u32,
    fbSize: u32,
    doubleBuffer: u8,
    screenWidth: u16,
    screenHeight: u16,
    screenBpp: u8,
    userData: u32,
    sends: seq<Send>)

  /** The static initialiser of g_akiegui: every pointer NULL, every number 0. */
  const INITIAL: GuiState :=
    GuiState(0, false, false, NULL, NULL, NULL, NULL, 0, 0, 0, 0, 0, 0, 0, 0, NULL, [])

  // ---------------------------------------------------------------------
  // Specification functions
  // ---------------------------------------------------------------------

  /** Bytes per pixel in FBInit: AkieGUI_LCD_BPP / 8, or 2 (RGB565) when that is 0. */
  function BytesPerPixel(bpp: u32): (r: u32)
    ensures r >= 1 && (bpp >= 8 ==> r == bpp / 8) && (bpp < 8 ==> r == 2)
  {
    if bpp / 8 == 0 then 2 else bpp / 8
  }

  /** The size of one framebuffer: width * height * bytes in uint32_t, rounded up by ALIGN_UP to AkieGUI_ALIGN. */
  function FrameSize(cfg: Config): u32
  {
    AlignUp(Wrap32(cfg.width * cfg.height * BytesPerPixel(cfg.bpp)), ALIGN)
  }

  /** SendFrame(data, len): the TE flag is raised in TE mode, the hook is called when set. */
  function SendFrameSpec(g: GuiState, te: bool, data: u32, len: u32): GuiState
  {
    g.(tePending := if te then 1 else g.tePending,
       sends := if g.frameHook then g.sends + [Frame(data, len)] else g.sends)
  }

  /** SendRegion(x, y, w, h, data), in the same way. */
  function SendRegionSpec(g: GuiState, te: bool, x: u16, y: u16, w: u16, h: u16, data: u32): GuiState
  {
    g.(tePending := if te then 1 else g.tePending,
       sends := if g.regionHook then g.sends + [Region(x, y, w, h, data)] else g.sends)
  }

  /** SwapBuffer: the exchange of draw_fb and disp_fb when double_buffer is set. */
  function SwapSpec(g: GuiState): GuiState
  {
    if g.doubleBuffer != 0 then g.(drawFb := g.dispFb, dispFb := g.drawFb) else g
  }

  /**
   * The clamping of CommitRegion: a coordinate p below limit and an extent
   * n; a rectangle that runs past the limit is cut to limit - p, stored
   * in the uint16_t parameter.
   */
  function Clamp(p: u16, n: u16, limit: u32): (r: u16)
    requires p < limit
    ensures p + r <= limit
    ensures r <= n || p + n > limit
    ensures p + n <= limit ==> r == n
  {
    if p + n > limit then Wrap16(limit - p) else n
  }

  /**
   * The row sends of CommitRegion for rows 0 .. n-1: row i goes to screen
   * row y + i (a uint16_t argument) from address base + i * stride.
   */
  function RowSends(x: u16, y: u16, w: u16, base: u32, stride: u32, n: nat): (r: seq<Send>)
    ensures |r| == n
    decreases n
  {
    if n == 0 then []
    else RowSends(x, y, w, base, stride, n - 1) + [Region(x, Wrap16(y + n - 1), w, 1, Wrap32(base + (n - 1) * stride))]
  }

  /** Row i of the row sends: its screen row and address. */
  lemma {:induction false} RowSendsAt(x: u16, y: u16, w: u16, base: u32, stride: u32, n: nat, i: nat)
    requires i < n
    ensures RowSends(x, y, w, base, stride, n)[i] == Region(x, Wrap16(y + i), w, 1, Wrap32(base + i * stride))
    decreases n
  {
    if i < n - 1 {
      RowSendsAt(x, y, w, base, stride, n - 1, i);
    }
  }

  /** CommitRegion(x, y, w, h) (core header, lines 153-171): the new state and the result. */
  function CommitRegionSpec(g: GuiState, te: bool, x: u16, y: u16, w: u16, h: u16): (GuiState, int)
  {
    if x >= g.fbWidth || y >= g.fbHeight then (g, -1)
    else
      var cw := Clamp(x, w, g.fbWidth);
      var ch := Clamp(y, h, g.fbHeight);
      if cw == 0 || ch == 0 then (g, 0)
      else
        var bytes := g.fbBpp / 8;
        var stride := Wrap32(g.fbWidth * bytes);
        var offset := Wrap32((y * g.fbWidth + x) * bytes);
        var base := Wrap32(g.drawFb + offset);
        (g.(tePending := if te then 1 else g.tePending,
            sends := if g.regionHook then g.sends + RowSends(x, y, cw, base, stride, ch) else g.sends),
         0)
  }

  /** The walks the allocator's loop performs in FBInit: one per allocation it makes. */
  ghost predicate InitWalks(p: PoolState, cfg: Config, walk1: seq<u32>, walk2: seq<u32>)
  {
    var size := FrameSize(cfg);
    (p.inited && size != 0 ==> Stops(p, walk1, Total(size, FB_ALIGN))) &&
    (cfg.doubleBuffer ==>
       var p1 := AllocAlignSpec(p, size, FB_ALIGN, walk1).0;
       p1.inited && size != 0 ==> Stops(p1, walk2, Total(size, FB_ALIGN)))
  }

  /** Lines 78-85 of FBInit: the geometry written on success. */
  function Geometry(g: GuiState, cfg: Config, size: u32): GuiState
  {
    g.(fbWidth := cfg.width, fbHeight := cfg.height, fbBpp := cfg.bpp, fbSize := size,
       doubleBuffer := if cfg.doubleBuffer then 1 else 0,
       screenWidth := Wrap16(cfg.width), screenHeight := Wrap16(cfg.height), screenBpp := Wrap8(cfg.bpp))
  }

  /** AkieGUI_FBInit (lines 50-88): the new descriptor, the new pool and the result. */
  ghost function FBInitSpec(g: GuiState, p: PoolState, cfg: Config, walk1: seq<u32>, walk2: seq<u32>): (GuiState, PoolState, int)
    requires InitWalks(p, cfg, walk1, walk2)
  {
    var (p1, fb1) := AllocAlignSpec(p, FrameSize(cfg), FB_ALIGN, walk1);
    if fb1 == NULL then (g.(fb1 := NULL), p1, -1)
    else
      MemoryProps.AllocKeys(p, FrameSize(cfg), FB_ALIGN, walk1);
      BuffersSpec(g.(fb1 := fb1), p1, cfg, walk2)
  }

  /**
   * Lines 63-87 of FBInit, once fb1 has been allocated from p: the second
   * buffer in double-buffer mode, with the rollback of fb1 when it fails,
   * then the geometry.
   */
  ghost function BuffersSpec(g: GuiState, p: PoolState, cfg: Config, walk2: seq<u32>): (GuiState, PoolState, int)
    requires g.fb1 != NULL && (p.inited ==> Wrap32(g.fb1 - HEADER) in p.headers)
    requires cfg.doubleBuffer && p.inited && FrameSize(cfg) != 0 ==> Stops(p, walk2, Total(FrameSize(cfg), FB_ALIGN))
  {
    if cfg.doubleBuffer then
      var (p2, fb2) := AllocAlignSpec(p, FrameSize(cfg), FB_ALIGN, walk2);
      if fb2 == NULL then
        MemoryProps.AllocKeys(p, FrameSize(cfg), FB_ALIGN, walk2);
        (g.(fb2 := NULL), FreeSpec(p2, g.fb1), -2)
      else
        (Geometry(g.(fb2 := fb2, drawFb := g.fb1, dispFb := fb2), cfg, FrameSize(cfg)), p2, 0)
    else
      (Geometry(g.(fb2 := NULL, drawFb := g.fb1, dispFb := g.fb1), cfg, FrameSize(cfg)), p, 0)
  }

  // ---------------------------------------------------------------------
  // g_akiegui
  // ---------------------------------------------------------------------

  class Gui {
    const cfg: Config

    var tePending: u8
    var frameHook: bool
    var regionHook: bool
    var fb1: u32
    var fb2: u32
    var drawFb: u32
    var dispFb: u32
    var fbWidth: u32
    var fbHeight: u32
    var fbBpp: u32
    var fbSize: u32
    var doubleBuffer: u8
    var screenWidth: u16
    var screenHeight: u16
    var screenBpp: u8
    var userData: u32
    /** The calls made to the hooks so far. */
    var sends: seq<Send>

    function State(): GuiState
      reads this
    {
      GuiState(tePending, frameHook, regionHook, fb1, fb2, drawFb, dispFb, fbWidth, fbHeight,
               fbBpp, fbSize, doubleBuffer, screenWidth, screenHeight, screenBpp, userData, sends)
    }

    /** The statically initialised descriptor of a build with configuration c. */
    constructor(c: Config)
      ensures cfg == c && State() == INITIAL
    {
      cfg := c;
      tePending, frameHook, regionHook := 0, false, false;
      fb1, fb2, drawFb, dispFb := NULL, NULL, NULL, NULL;
      fbWidth, fbHeight, fbBpp, fbSize, doubleBuffer := 0, 0, 0, 0, 0;
      screenWidth, screenHeight, screenBpp, userData := 0, 0, 0, NULL;
      sends := [];
    }

    /** AkieGUI_TransmitEnd (lines 64-70): clears te_pending in TE mode, else does nothing. */
    method TransmitEnd()
      modifies this
      ensures State() == if cfg.teMode then old(State()).(tePending := 0) else old(State())
    {
      if cfg.teMode {
        tePending := 0;
      }
    }

    /** AkieGUI_SendFrame (lines 75-82). */
    method SendFrame(data: u32, len: u32)
      modifies this
      ensures State() == SendFrameSpec(old(State()), cfg.teMode, data, len)
    {
      if cfg.teMode {
        tePending := 1;
      }
      if frameHook {
        sends := sends + [Frame(data, len)];
      }
    }

    /** AkieGUI_SendRegion (lines 87-94). */
    method SendRegion(x: u16, y: u16, w: u16, h: u16, data: u32)
      modifies this
      ensures State() == SendRegionSpec(old(State()), cfg.teMode, x, y, w, h, data)
    {
      if cfg.teMode {
        tePending := 1;
      }
      if regionHook {
        sends := sends + [Region(x, y, w, h, data)];
      }
    }

    /** AkieGUI_GetDrawFB (lines 120-122). */
    method GetDrawFB() returns (r: u32)
      ensures r == drawFb
    {
      r := drawFb;
    }

    /** AkieGUI_GetDispFB (lines 127-129). */
    method GetDispFB() returns (r: u32)
      ensures r == dispFb
    {
      r := dispFb;
    }

    /** AkieGUI_SwapBuffer (lines 134-140). */
    method SwapBuffer()
      modifies this
      ensures State() == SwapSpec(old(State()))
    {
      if doubleBuffer != 0 {
        var tmp := drawFb;
        drawFb := dispFb;
        dispFb := tmp;
      }
    }

    /** AkieGUI_Commit (lines 145-148): one frame send of the draw buffer. */
    method Commit() returns (r: int)
      modifies this
      ensures r == 0
      ensures State() == SendFrameSpec(old(State()), cfg.teMode, old(drawFb), old(fbSize))
    {
      SendFrame(drawFb, fbSize);
      return 0;
    }

    /** AkieGUI_CommitRegion (lines 153-171): clamping, then one region send per row. */
    method CommitRegion(x: u16, y: u16, w: u16, h: u16) returns (r: int)
      modifies this
      ensures (State(), r) == CommitRegionSpec(old(State()), cfg.teMode, x, y, w, h)
    {
      if x >= fbWidth || y >= fbHeight {
        return -1;
      }
      var cw, ch := w, h;
      if x + cw > fbWidth {
        cw := Wrap16(fbWidth - x);
      }
      if y + ch > fbHeight {
        ch := Wrap16(fbHeight - y);
      }
      if cw == 0 || ch == 0 {
        return 0;
      }
      var bytes := fbBpp / 8;
      var stride := Wrap32(fbWidth * bytes);
      var offset := Wrap32((y * fbWidth + x) * bytes);
      SendRows(x, y, cw, ch, Wrap32(drawFb + offset), stride);
      return 0;
    }

    /** The row loop of CommitRegion (lines 165-169): row i of n sent from base + i * stride. */
    method SendRows(x: u16, y: u16, w: u16, n: u16, base: u32, stride: u32)
      modifies this
      ensures State() == old(State()).(tePending := if cfg.teMode && n > 0 then 1 else old(tePending),
                                       sends := if regionHook then old(sends) + RowSends(x, y, w, base, stride, n as nat) else old(sends))
    {
      var i: u16 := 0;
      while i < n
        invariant 0 <= i <= n
        invariant State() == old(State()).(tePending := if cfg.teMode && i > 0 then 1 else old(tePending),
                                           sends := if regionHook then old(sends) + RowSends(x, y, w, base, stride, i as nat) else old(sends))
        decreases n - i
      {
        SumWrap(base, i * stride);
        SendRegion(x, Wrap16(y + i), w, 1, Wrap32(base + Wrap32(i * stride)));
        i := i + 1;
      }
    }

    /** AkieGUI_FBInit (lines 50-88) on the pool allocator p. */
    method FBInit(p: Pool, ghost walk1: seq<u32>, ghost walk2: seq<u32>) returns (r: int)
      requires InitWalks(p.State(), cfg, walk1, walk2)
      modifies this, p
      ensures (State(), p.State(), r) == FBInitSpec(old(State()), old(p.State()), cfg, walk1, walk2)
      ensures p.data == old(p.data)
    {
      var size := ComputeFrameSize();
      ghost var p0 := p.State();
      fb1 := p.AllocAlign(size, FB_ALIGN, walk1);
      if fb1 == NULL {
        return -1;
      }
      MemoryProps.AllocKeys(p0, size, FB_ALIGN, walk1);
      r := Buffers(p, size, walk2);
    }

    /** Lines 52-56 of FBInit: the size of one framebuffer. */
    method ComputeFrameSize() returns (size: u32)
      ensures size == FrameSize(cfg)
    {
      var bytes := cfg.bpp / 8;
      if bytes == 0 {
        bytes := 2;
      }
      size := Wrap32(cfg.width * cfg.height * bytes);
      size := AlignUp(size, ALIGN);
    }

    /** Lines 63-87 of FBInit, after fb1 has been allocated. */
    method Buffers(p: Pool, size: u32, ghost walk2: seq<u32>) returns (r: int)
      requires size == FrameSize(cfg)
      requires fb1 != NULL && (p.inited ==> Wrap32(fb1 - HEADER) in p.headers)
      requires cfg.doubleBuffer && p.inited && size != 0 ==> Stops(p.State(), walk2, Total(size, FB_ALIGN))
      modifies this, p
      ensures (State(), p.State(), r) == BuffersSpec(old(State()), old(p.State()), cfg, walk2)
      ensures p.data == old(p.data)
    {
      if cfg.doubleBuffer {
        ghost var p1 := p.State();
        fb2 := p.AllocAlign(size, FB_ALIGN, walk2);
        if fb2 == NULL {
          MemoryProps.AllocKeys(p1, size, FB_ALIGN, walk2);
          p.Free(fb1);
          return -2;
        }
        drawFb := fb1;
        dispFb := fb2;
      } else {
        fb2 := NULL;
        drawFb := fb1;
        dispFb := fb1;
      }
      SaveGeometry(size);
      return 0;
    }

    /** Lines 78-85 of FBInit: the configuration is saved in the descriptor. */
    method SaveGeometry(size: u32)
      modifies this
      ensures State() == Geometry(old(State()), cfg, size)
    {
      SaveFramebuffer(size);
      SaveScreen();
    }

    /** Lines 78-82: the framebuffer geometry. */
    method SaveFramebuffer(size: u32)
      modifies this
      ensures State() == old(State()).(fbWidth := cfg.width, fbHeight := cfg.height, fbBpp := cfg.bpp,
                                       fbSize := size, doubleBuffer := if cfg.doubleBuffer then 1 else 0)
    {
      fbWidth := cfg.width;
      fbHeight := cfg.height;
      fbBpp := cfg.bpp;
      fbSize := size;
      doubleBuffer := if cfg.doubleBuffer then 1 else 0;
    }

    /** Lines 83-85: the screen information, in its narrower fields. */
    method SaveScreen()
      modifies this
      ensures State() == old(State()).(screenWidth := Wrap16(cfg.width), screenHeight := Wrap16(cfg.height),
                                       screenBpp := Wrap8(cfg.bpp))
    {
      screenWidth := Wrap16(cfg.width);
      screenHeight := Wrap16(cfg.height);
      screenBpp := Wrap8(cfg.bpp);
    }
  }
}
