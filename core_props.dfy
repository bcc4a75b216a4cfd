/** What the framebuffer controller guarantees about buffers, swaps and region commits. */
module FramebufferProps {
  import opened Machine
  import opened Align
  import opened Memory
  import opened MemoryProps
  import opened Framebuffer

  // ---------------------------------------------------------------------
  // SwapBuffer
  // ---------------------------------------------------------------------

  /**
   * SwapBuffer exchanges draw_fb and disp_fb exactly when double_buffer
   * is set and otherwise changes nothing; two swaps are the identity.
   */
  lemma SwapExchanges(g: GuiState)
    ensures var t := SwapSpec(g);
      (g.doubleBuffer != 0 ==> t.drawFb == g.dispFb && t.dispFb == g.drawFb &&
                               t == g.(drawFb := t.drawFb, dispFb := t.dispFb)) &&
      (g.doubleBuffer == 0 ==> t == g) &&
      SwapSpec(t) == g
  {
  }

  // ---------------------------------------------------------------------
  // CommitRegion
  // ---------------------------------------------------------------------

  /** CommitRegion reports -1 exactly when the corner lies outside the framebuffer, and then sends nothing. */
  lemma RegionRejects(g: GuiState, te: bool, x: u16, y: u16, w: u16, h: u16)
    ensures var (t, r) := CommitRegionSpec(g, te, x, y, w, h);
      (r == -1 <==> x >= g.fbWidth || y >= g.fbHeight) &&
      (r == -1 ==> t == g) &&
      (r == 0 || r == -1)
  {
  }

  /** After clamping the rectangle lies inside the framebuffer; an empty one sends nothing. */
  lemma RegionClamped(g: GuiState, te: bool, x: u16, y: u16, w: u16, h: u16)
    requires x < g.fbWidth && y < g.fbHeight
    ensures x + Clamp(x, w, g.fbWidth) <= g.fbWidth && y + Clamp(y, h, g.fbHeight) <= g.fbHeight
    ensures Clamp(x, w, g.fbWidth) == 0 || Clamp(y, h, g.fbHeight) == 0 ==>
      CommitRegionSpec(g, te, x, y, w, h) == (g, 0)
  {
  }

  /**
   * A rectangle that is not cut sends its rows unchanged: the clamp only
   * shortens; and when the framebuffer dimensions fit in uint16_t the
   * clamped extent is exactly what is left of the framebuffer.
   */
  lemma ClampExact(p: u16, n: u16, limit: u32)
    requires p < limit
    ensures p + n <= limit ==> Clamp(p, n, limit) == n
    ensures p + n > limit && limit < TWO16 ==> p + Clamp(p, n, limit) == limit
  {
  }

  /**
   * Otherwise CommitRegion sends exactly one region per clamped row, in
   * order: row i is (x, y + i, w, 1) from the draw buffer at the corner's
   * offset plus i strides, and TE mode raises te_pending.  Nothing else changes.
   */
  lemma RegionRows(g: GuiState, te: bool, x: u16, y: u16, w: u16, h: u16, i: nat)
    requires x < g.fbWidth && y < g.fbHeight
    requires Clamp(x, w, g.fbWidth) != 0 && Clamp(y, h, g.fbHeight) != 0
    requires g.regionHook && i < Clamp(y, h, g.fbHeight)
    ensures var (t, r) := CommitRegionSpec(g, te, x, y, w, h);
      var cw, ch := Clamp(x, w, g.fbWidth), Clamp(y, h, g.fbHeight);
      var bytes := g.fbBpp / 8;
      r == 0 && |t.sends| == |g.sends| + ch && t.sends[..|g.sends|] == g.sends &&
      t.sends[|g.sends| + i] ==
        Region(x, Wrap16(y + i), cw, 1, Wrap32(g.drawFb + (y * g.fbWidth + x) * bytes + i * (g.fbWidth * bytes))) &&
      t.tePending == (if te then 1 else g.tePending) &&
      t == g.(tePending := t.tePending, sends := t.sends)
  {
    var cw, ch := Clamp(x, w, g.fbWidth), Clamp(y, h, g.fbHeight);
    var bytes := g.fbBpp / 8;
    var stride := Wrap32(g.fbWidth * bytes);
    var base := Wrap32(g.drawFb + Wrap32((y * g.fbWidth + x) * bytes));
    var rows := RowSends(x, y, cw, base, stride, ch);
    RowSendsAt(x, y, cw, base, stride, ch, i);
    AppendAt(g.sends, rows, i);
    RowAddress(g.drawFb, (y * g.fbWidth + x) * bytes, i, g.fbWidth * bytes);
  }

  lemma AppendAt(a: seq<Send>, b: seq<Send>, i: nat)
    requires i < |b|
    ensures (a + b)[|a| + i] == b[i] && (a + b)[..|a|] == a && |a + b| == |a| + |b|
  {
  }

  /** The address of row i: the base plus i strides, each product and sum in uint32_t. */
  lemma RowAddress(fb: int, offset: int, i: int, stride: int)
    ensures Wrap32(Wrap32(fb + Wrap32(offset)) + i * Wrap32(stride)) == Wrap32(fb + offset + i * stride)
  {
    SumWrap(fb, offset);
    var base := Wrap32(fb + offset);
    SumWrap(base, i * Wrap32(stride));
    ProductWrap(i, stride);
    SumWrap(base, i * stride);
    assert Wrap32(base + i * stride) == Wrap32(fb + offset + i * stride) by {
      WrapMod(fb + offset);
      var q := (fb + offset) / TWO32;
      assert fb + offset == q * TWO32 + base;
      assert fb + offset + i * stride == q * TWO32 + (base + i * stride);
      WrapShift(base + i * stride, q);
    }
  }

  /**
   * Without uint32_t overflow, row i of a clamped region starts at
   * ((y + i) * fb_width + x) * bpp and its bytes end inside the
   * fb_width * fb_height * bpp bytes of the framebuffer.
   */
  lemma RowInside(fw: nat, fh: nat, bytes: nat, x: nat, y: nat, cw: nat, i: nat)
    requires x + cw <= fw && y + i < fh
    ensures (y * fw + x) * bytes + i * (fw * bytes) == ((y + i) * fw + x) * bytes
    ensures ((y + i) * fw + x) * bytes + cw * bytes <= fw * fh * bytes
  {
    assert (y * fw + x) * bytes + i * (fw * bytes) == ((y + i) * fw + x) * bytes by {
      assert i * (fw * bytes) == (i * fw) * bytes;
      assert (y * fw + x) * bytes + (i * fw) * bytes == (y * fw + x + i * fw) * bytes;
      assert y * fw + x + i * fw == (y + i) * fw + x;
    }
    assert (y + i) * fw + x + cw <= (y + i + 1) * fw;
    MulMonotonic(y + i + 1, fh, fw);
    assert (y + i + 1) * fw <= fh * fw;
    MulMonotonic((y + i) * fw + x + cw, fw * fh, bytes);
    assert ((y + i) * fw + x) * bytes + cw * bytes == ((y + i) * fw + x + cw) * bytes;
  }

  // ---------------------------------------------------------------------
  // FBInit
  // ---------------------------------------------------------------------

  /** Without overflow, the framebuffer size is the pixel bytes rounded up to the next multiple of AkieGUI_ALIGN. */
  lemma FrameSizeBounds(cfg: Config)
    requires cfg.width * cfg.height * BytesPerPixel(cfg.bpp) + ALIGN - 1 < TWO32
    ensures var n := cfg.width * cfg.height * BytesPerPixel(cfg.bpp);
      FrameSize(cfg) % ALIGN == 0 && n <= FrameSize(cfg) < n + ALIGN
  {
    var n := cfg.width * cfg.height * BytesPerPixel(cfg.bpp);
    WrapSmall(n);
    AlignUpMultiple(n, ALIGN);
    AlignUpBounds(n, ALIGN);
  }

  /**
   * FBInit returns -1 exactly when the first allocation fails; it then
   * records fb1 = NULL and changes nothing else of the descriptor.
   */
  lemma FBInitFirstFails(g: GuiState, p: PoolState, cfg: Config, walk1: seq<u32>, walk2: seq<u32>)
    requires InitWalks(p, cfg, walk1, walk2)
    ensures var (t, q, r) := FBInitSpec(g, p, cfg, walk1, walk2);
      var (p1, fb1) := AllocAlignSpec(p, FrameSize(cfg), FB_ALIGN, walk1);
      (r == -1 <==> fb1 == NULL) &&
      (r == -1 ==> t == g.(fb1 := NULL) && q == p1) &&
      (r == -2 ==> cfg.doubleBuffer) &&
      (r == 0 || r == -1 || r == -2) &&
      t.sends == g.sends && t.tePending == g.tePending
  {
  }

  /**
   * On success the buffers are set up as the mode asks: in double-buffer
   * mode draw_fb = fb1 and disp_fb = fb2, two non-NULL buffers; in single
   * mode fb2 = NULL and draw_fb = disp_fb = fb1.  The geometry is written
   * only on this path.
   */
  lemma FBInitSuccess(g: GuiState, p: PoolState, cfg: Config, walk1: seq<u32>, walk2: seq<u32>)
    requires InitWalks(p, cfg, walk1, walk2)
    ensures var (t, q, r) := FBInitSpec(g, p, cfg, walk1, walk2);
      (r == 0 ==>
        t.fb1 != NULL && t.drawFb == t.fb1 &&
        (cfg.doubleBuffer ==> t.fb2 != NULL && t.dispFb == t.fb2) &&
        (!cfg.doubleBuffer ==> t.fb2 == NULL && t.dispFb == t.fb1) &&
        t.fbWidth == cfg.width && t.fbHeight == cfg.height && t.fbBpp == cfg.bpp &&
        t.fbSize == FrameSize(cfg) && t.doubleBuffer == (if cfg.doubleBuffer then 1 else 0)) &&
      (r != 0 ==>
        t.drawFb == g.drawFb && t.dispFb == g.dispFb && t.fbWidth == g.fbWidth &&
        t.fbHeight == g.fbHeight && t.fbSize == g.fbSize && t.doubleBuffer == g.doubleBuffer)
  {
  }

  /** Each framebuffer FBInit keeps is 32-byte aligned. */
  lemma FBInitAligned(g: GuiState, p: PoolState, cfg: Config, walk1: seq<u32>, walk2: seq<u32>)
    requires InitWalks(p, cfg, walk1, walk2)
    ensures var (t, q, r) := FBInitSpec(g, p, cfg, walk1, walk2);
      r == 0 ==> t.fb1 % FB_ALIGN == 0 && t.fb2 % FB_ALIGN == 0
  {
    assert IsPow2(FB_ALIGN);
    var size := FrameSize(cfg);
    AllocResultAligned(p, size, FB_ALIGN, walk1);
    if cfg.doubleBuffer {
      var p1 := AllocAlignSpec(p, size, FB_ALIGN, walk1).0;
      AllocResultAligned(p1, size, FB_ALIGN, walk2);
    }
  }

  /**
   * When the second buffer cannot be found, FBInit frees fb1 again and
   * returns -2; without overflow in the allocator's arithmetic and without
   * overlapping headers, the pool's free_size and block_count are then
   * those from before the call.
   */
  lemma FBInitRollback(g: GuiState, p: PoolState, cfg: Config, walk1: seq<u32>, walk2: seq<u32>)
    requires InitWalks(p, cfg, walk1, walk2)
    requires cfg.doubleBuffer && AlignUp(FrameSize(cfg), FB_ALIGN) + HEADER + ALIGN < TWO32
    requires HeadersApart(walk1, FB_ALIGN)
    requires var (p1, fb1) := AllocAlignSpec(p, FrameSize(cfg), FB_ALIGN, walk1);
      fb1 != NULL && !Fitted(p1, FrameSize(cfg), FB_ALIGN, walk2)
    ensures var (t, q, r) := FBInitSpec(g, p, cfg, walk1, walk2);
      r == -2 && t == g.(fb1 := t.fb1, fb2 := NULL) && t.fb1 != NULL &&
      q.freeSize == p.freeSize && q.blockCount == p.blockCount && Used(q) == Used(p)
  {
    var size := FrameSize(cfg);
    var (p1, fb1) := AllocAlignSpec(p, size, FB_ALIGN, walk1);
    AllocUnchangedIff(p, size, FB_ALIGN, walk1);
    AllocUnchangedIff(p1, size, FB_ALIGN, walk2);
    AllocThenFree(p, size, FB_ALIGN, walk1);
  }
}
