# AkieGUI core, modelled in Dafny

AkieGUI is a small graphics library for microcontrollers. This project
models its core and proves properties of the model:

- **The static pool allocator** (bare-metal build). It is a first-fit
  allocator over a singly linked free list. The list's block headers live
  inside the arena and are marked with the magic values 0xFEEDBEEF
  (allocated) and 0xDEADBEEF (free).
  - `Memory.Pool` models `g_mem` and `g_mem_inited`. It has a method per
    entry point: `AkieGUI_MemInit`, `MemAlloc`, `MemAllocAlign`,
    `MemCalloc`, `MemFree`, `MemGetFree` and `MemGetUsed`.
  - Pointers are 32-bit addresses. Headers are a map from address to
    record, and the payload bytes are a map from address to byte.
  - Every `uint32_t` update wraps modulo 2^32.
  - `AkieGUI_ALIGN_UP` is the bitwise expression of the header, built on
    a bitwise AND over naturals (`Align`).
- **The framebuffer controller** (`Framebuffer.Gui`). It models the
  `g_akiegui` descriptor, its static initialiser, `AkieGUI_FBInit` and the
  inline API of the core header.
  - TransmitEnd, SendFrame, SendRegion, GetDrawFB, GetDispFB, SwapBuffer,
    Commit and CommitRegion are covered.
  - Each call to a screen-driver hook is appended to a trace of send
    events.
- **Colour conversion** (`Color`). Colours are converted between RGB888
  and the native pixel format at 16, 24 and 32 bits per pixel.
- **The software renderer** (`Draw`, `DrawProps`). It covers the
  rectangle, character, string and text-width routines over a framebuffer
  `array`.
  - Each drawing method is proved equal to a function on the array's
    contents that follows the C loops.
  - Lemmas say exactly which cells that function changes, and to what.
- **The widget manager** (`Widget`). It models the widget structure and a
  registry of at most 20 widgets, with dirty-driven redraw and
  first-match hit-testing.
- **The widgets.** There are two button implementations (`Button` and
  `LegacyButton`) and a label (`Label`).
  - All three have static pools of ten.
  - Text is copied with truncation into fixed arrays.
  - Each setter marks the widget dirty.
  - Each widget has a draw callback, proved against a function that
    describes the framebuffer it leaves.

Arithmetic is C arithmetic on the 32-bit target:
- `uint8_t`, `uint16_t` and `uint32_t` are subset types of `int`.
- `Wrap8`, `Wrap16` and `Wrap32` model the conversions.
- `CHalf` models C's truncating division by 2.
- Colours are bit-vectors.

Several allocator properties hold only under "no 32-bit wrap-around"
hypotheses, and the lemmas state them that way. The wrapped cases are
modelled too and have their own lemmas. Examples are `SplitOnlyOnWrap`,
`CarveGapWraps`, `AlignUpOverflow` and `InitOneFreeBlock`.

The model follows the code as written. Proving the natural contracts
brought out these properties of the allocator, each stated as a lemma:

- When MemInit is given a pool smaller than a header, the first block's
  size wraps around (`InitOneFreeBlock`).
- In the already-aligned path of MemAllocAlign, the block's size is
  overwritten with the request before the split test. The split therefore
  runs only when `size + header + ALIGN` wraps (`SplitOnlyOnWrap`).
- In the same path the block is handed out but never unlinked from the
  free list (`AlignedInPlace`).
- Freeing that block pushes it on the head again, which closes the list
  into a cycle (`AlignedAllocThenFreeCycles`).
- The first-fit loop never leaves a cyclic list that holds no fitting
  block (`CycleHangs`).
- The scenario lemmas chain these facts on a fresh pool
  (`FirstAllocation`, `SecondAllocationFails`, `FreedPoolHangs`):
  1. The first request is served in place.
  2. The same request again returns NULL.
  3. After the first block is freed, the same request never returns.
- In the padding path, when the aligned address is less than a header
  past the payload, the original block's size wraps around
  (`CarveGapWraps`). The new header then shares bytes with the block's
  own, and lines 136-137 of Core/Src/akiegui_memory.c overwrite part of it.
- The block stays at the head of the list, free, with that wrapped size.
  So the same request carves it again and returns the same address: one
  block is handed out twice (`GapHandsOutTwice`).

Some behaviours commonly expected of an allocator like this one are not
what the code does. The model follows the code:
- `AkieGUI_MemInit` returns an `int` status but checks nothing. A NULL
  start or a pool smaller than a header is accepted, and 0 is returned.
- `AkieGUI_MemAllocAlign` does not check that the alignment is a power of
  two. Any alignment goes into `AkieGUI_ALIGN_UP` as given.
- An oversized block that is already aligned is not split. The split is
  unreachable except through wrap-around (see above).
- A freed block is not reused by the next allocation of the same size.
  The freed block is too small for the same request, and the loop cycles
  (`FreedPoolHangs`).
- The comment on `AkieGUI_FBInit` (Core/Inc/akiegui_core.h:106-115) lists
  parameters and documents -1 as the only failure. The function takes no
  parameters and also returns -2 when the second buffer cannot be
  allocated (Core/Src/akiegui_core.c:63-68).

The two button source files define the same symbols, so a build uses one
of them. `Button` models Widget/Button/akiegui_button.c at 32 bpp and
`LegacyButton` models Widget/Src/akiegui_button.c at 16 bpp.

In the 32 bpp build a button's colours pass through `uint16_t` fields.
The red and alpha bytes are lost, so pure red is drawn as 0
(`StoredLosesRed`).

## Model

| member | source | states |
|---|---|---|
| Align.AlignUpPow2 | Core/Inc/akiegui_memory.h:34 | for a power-of-two alignment, ALIGN_UP is `x + a - 1` (mod 2^32) rounded down to a multiple of `a` |
| Align.AndHighMask | Core/Inc/akiegui_memory.h:34 | masking a value below 2^n with `~(2^k - 1)` rounds it down to a multiple of 2^k |
| Align.AlignUpMultiple | Core/Inc/akiegui_memory.h:34 | for a power-of-two alignment, ALIGN_UP(x, a) is a multiple of a |
| Align.AlignUpBounds | Core/Inc/akiegui_memory.h:34 | without overflow, x <= ALIGN_UP(x, a) < x + a, so it is the least multiple of a at or above x |
| Align.AlignUpOverflow | Core/Inc/akiegui_memory.h:34 | when x + a - 1 overflows 32 bits, ALIGN_UP(x, a) wraps to 0 |
| Align.AlignUpFixed | Core/Inc/akiegui_memory.h:34 | ALIGN_UP(x, a) == x exactly when x is a multiple of a (both directions) |
| Align.AlignedStays | Core/Inc/akiegui_memory.h:34 | a multiple of a with room for a - 1 more bytes is its own ALIGN_UP |
| Align.AlignUpIdempotent | Core/Inc/akiegui_memory.h:34 | aligning an aligned value changes nothing |
| Align.DefaultAlignIsPow2 | Core/Inc/akiegui_memory.h:31-33 | the default alignment is 16, a power of two |
| Memory.Pool.constructor | Core/Src/akiegui_memory.c:27-30 | the static pool starts uninitialised, with every counter 0, a NULL list and no headers |
| Memory.Pool.Init | Core/Src/akiegui_memory.c:47-61 | returns 0 always; on a fresh pool it installs one free block at start, otherwise it changes nothing; payload bytes untouched |
| Memory.Pool.FindFit | Core/Src/akiegui_memory.c:102-112 | the prev/curr loop stops with curr NULL exactly when no visited block fits; otherwise curr is the first fitting block and prev the block before it, or NULL |
| Memory.Pool.CarveBlock | Core/Src/akiegui_memory.c:122-172 | the new state and result are those of the padding path or the in-place path, chosen by the offset of the aligned address |
| Memory.Pool.SplitBlock | Core/Src/akiegui_memory.c:150-166 | the headers and free-list head become those of the split when its test passes, and the counters are unchanged |
| Memory.Pool.AllocAlign | Core/Src/akiegui_memory.c:94-176 | the new state and result are those of the allocation specification over the walk the loop performs: NULL with no change when uninitialised, for size 0 or with no fit, otherwise the carve |
| Memory.Pool.Alloc | Core/Src/akiegui_memory.c:65-75 | the same as MemAllocAlign with the default alignment |
| Memory.Pool.Calloc | Core/Src/akiegui_memory.c:180-193 | allocates nmemb * size bytes (mod 2^32); on success exactly the bytes p[0..total) are zeroed and the others keep their values |
| Memory.Pool.Clear | Core/Src/akiegui_memory.c:187-190 | the clearing loop zeroes p[0..n) and leaves the allocator state unchanged |
| Memory.Pool.Free | Core/Src/akiegui_memory.c:211-232 | no change for NULL, an uninitialised pool or a bad magic; otherwise the block is marked free, counted back and pushed on the list head |
| Memory.Pool.GetFree | Core/Src/akiegui_memory.c:246-248 | returns free_size and changes nothing |
| Memory.Pool.GetUsed | Core/Src/akiegui_memory.c:261-265 | returns pool_size - free_size (mod 2^32) and changes nothing |
| MemoryProps.InitOnce | Core/Src/akiegui_memory.c:47 | a second MemInit, with any arguments, changes nothing |
| MemoryProps.InitOneFreeBlock | Core/Src/akiegui_memory.c:49-60 | the first MemInit leaves one free block: NULL next, magic 0xDEADBEEF, size `size - 16` (wrapping for a tiny pool); free_size = pool_size = size and block_count = 0 |
| MemoryProps.StopsUnique | Core/Src/akiegui_memory.c:102-112 | the loop's walk is determined by the state: it stops at the first block in list order that fits |
| MemoryProps.StopsOnFiniteList | Core/Src/akiegui_memory.c:106-112 | on a NULL-terminated list the loop always stops, on a prefix of the list |
| MemoryProps.OnCycle | Core/Src/akiegui_memory.c:106-112 | any walk of a list that closes on itself goes round the cycle |
| MemoryProps.CycleHangs | Core/Src/akiegui_memory.c:106-112 | on a cyclic list where no block fits, the loop never stops |
| MemoryProps.AllocIsCarve | Core/Src/akiegui_memory.c:119-172 | once a block is found, the allocation is the carve of that block with the aligned payload address |
| MemoryProps.SplitKeepsSize | Core/Src/akiegui_memory.c:150-166 | the split step leaves the found block's size at the request |
| MemoryProps.AllocAccounting | Core/Src/akiegui_memory.c:139-169 | every successful allocation lowers free_size by ALIGN_UP(size, align) + 16 and raises block_count by 1 (mod 2^32), on either path |
| MemoryProps.CarveAccounting | Core/Src/akiegui_memory.c:139-169 | both carving paths make the same change to the counters |
| MemoryProps.AllocUnchangedIff | Core/Src/akiegui_memory.c:94-117 | MemAllocAlign leaves the state unchanged exactly when it returns early (uninitialised, size 0, no fit), and then returns NULL |
| MemoryProps.CarveResult | Core/Src/akiegui_memory.c:126-172 | the address handed out is the aligned address, on either path |
| MemoryProps.CarveKeys | Core/Src/akiegui_memory.c:126-172 | carving only adds or rewrites headers, and the header just below the result exists |
| MemoryProps.CarveHeader | Core/Src/akiegui_memory.c:128-147 | without overflow in the split test, and with no padding or at least 16 bytes of it (so the new header does not overlap curr's), the header below the result is used, has magic 0xFEEDBEEF and records the aligned size |
| MemoryProps.CarveGapWraps | Core/Src/akiegui_memory.c:136 | when the aligned address is less than a header past the payload, the padding path gives the original block a wrapped size |
| MemoryProps.GapHandsOutTwice | Core/Src/akiegui_memory.c:102-142 | with 1 to 15 bytes of padding on the list head, the head stays listed and free with a wrapped size, so the same request is served again and returns the same address |
| MemoryProps.AllocResult | Core/Src/akiegui_memory.c:120-171 | a successful allocation returns ALIGN_UP(curr + 16, align) for the block curr it found |
| MemoryProps.AllocKeys | Core/Src/akiegui_memory.c:94-176 | no header is ever dropped, and a non-NULL result has its header in the pool, so MemFree may be applied to it |
| MemoryProps.AllocResultAligned | Core/Src/akiegui_memory.c:120-171 | for a power-of-two alignment, every result, NULL included, is a multiple of align |
| MemoryProps.AllocResultHeader | Core/Src/akiegui_memory.c:128-171 | without overflow, and with no padding or at least 16 bytes of it (HeadersApart), the header below a successful result is used, has magic 0xFEEDBEEF and records ALIGN_UP(size, align) |
| MemoryProps.SplitOnlyOnWrap | Core/Src/akiegui_memory.c:145-150 | the split test after `curr->size = size` passes exactly when size + 16 + ALIGN wraps around 2^32 |
| MemoryProps.FreeUnchangedIff | Core/Src/akiegui_memory.c:211-222 | MemFree changes nothing exactly when the pointer is NULL, the pool is uninitialised or the magic is not 0xFEEDBEEF |
| MemoryProps.DoubleFree | Core/Src/akiegui_memory.c:219-226 | freeing the same pointer twice: the second call changes nothing |
| MemoryProps.AllocThenFree | Core/Src/akiegui_memory.c:225-232 | without overflow and with no padding or at least 16 bytes of it (HeadersApart), freeing the result of a successful allocation restores free_size, block_count and the used count |
| MemoryProps.AlignedInPlace | Core/Src/akiegui_memory.c:143-171 | in the already-aligned path, only the found block's used, size and magic change; its link, the list head and the other headers stay, so it stays listed |
| MemoryProps.AlignedAllocThenFreeCycles | Core/Src/akiegui_memory.c:145-232 | allocating in place and then freeing makes the free list a cycle through the block |
| MemoryProps.ZeroedSpec | Core/Src/akiegui_memory.c:187-190 | the clearing loop sets exactly the bytes p[0..n) to zero and keeps every other byte |
| MemoryProps.FirstFitted | Core/Src/akiegui_memory.c:54-58 | on a new pool with room, the first free block alone is a walk that fits the request |
| MemoryProps.FirstAllocation | Core/Src/akiegui_memory.c:143-171 | the first request on such a pool is served in place from the first block, which stays the list head |
| MemoryProps.SecondAllocationFails | Core/Src/akiegui_memory.c:106-117 | the same request a second time returns NULL and changes nothing, for every walk |
| MemoryProps.FreeMakesSelfLoop | Core/Src/akiegui_memory.c:231-232 | freeing that first block makes the list head loop onto itself |
| MemoryProps.SelfLoopHangs | Core/Src/akiegui_memory.c:106-112 | a head that loops onto itself and does not fit never lets the loop stop |
| MemoryProps.FreedPoolHangs | Core/Src/akiegui_memory.c:106-112 | after that free, the same request never returns |
| Framebuffer.BytesPerPixel | Core/Src/akiegui_core.c:52-53 | bytes per pixel is bpp / 8, or 2 when that is 0; never 0 |
| Framebuffer.Clamp | Core/Inc/akiegui_core.h:156-157 | the clamped extent keeps the rectangle inside the limit and is unchanged when the rectangle already fits |
| Framebuffer.RowSendsAt | Core/Inc/akiegui_core.h:165-169 | row i of the row sends is (x, y + i, w, 1) from base + i * stride (mod 2^16 and 2^32) |
| Framebuffer.Gui.constructor | Core/Src/akiegui_core.c:29-48 | the descriptor starts with NULL pointers, zero geometry, te_pending 0 and no sends |
| Framebuffer.Gui.TransmitEnd | Core/Inc/akiegui_core.h:64-70 | in TE mode only te_pending changes, to 0; otherwise nothing changes |
| Framebuffer.Gui.SendFrame | Core/Inc/akiegui_core.h:75-82 | te_pending is raised in TE mode and one frame send is recorded exactly when the hook is set |
| Framebuffer.Gui.SendRegion | Core/Inc/akiegui_core.h:87-94 | te_pending is raised in TE mode and one region send is recorded exactly when the hook is set |
| Framebuffer.Gui.GetDrawFB | Core/Inc/akiegui_core.h:120-122 | returns draw_fb and changes nothing |
| Framebuffer.Gui.GetDispFB | Core/Inc/akiegui_core.h:127-129 | returns disp_fb and changes nothing |
| Framebuffer.Gui.SwapBuffer | Core/Inc/akiegui_core.h:134-140 | the new state is draw_fb and disp_fb exchanged when double_buffer is set, else the old state |
| Framebuffer.Gui.Commit | Core/Inc/akiegui_core.h:145-148 | returns 0 after exactly one frame send of (draw_fb, fb_size) |
| Framebuffer.Gui.CommitRegion | Core/Inc/akiegui_core.h:153-171 | the new state and result are -1 outside the framebuffer, 0 with no send for an empty clamped area, else one send per clamped row |
| Framebuffer.Gui.SendRows | Core/Inc/akiegui_core.h:165-169 | the row loop appends exactly the n row sends, in order, when the hook is set |
| Framebuffer.Gui.FBInit | Core/Src/akiegui_core.c:50-88 | the new descriptor, pool and result are those of the FBInit specification over the allocator |
| Framebuffer.Gui.ComputeFrameSize | Core/Src/akiegui_core.c:52-56 | the buffer size is ALIGN_UP(width * height * bytes per pixel, 16) in uint32_t |
| Framebuffer.Gui.Buffers | Core/Src/akiegui_core.c:63-87 | the second buffer's allocation with rollback, the buffer assignment and the geometry follow the specification |
| Framebuffer.Gui.SaveGeometry | Core/Src/akiegui_core.c:78-85 | the configuration is written into the geometry fields, narrowed to the field widths |
| Framebuffer.Gui.SaveFramebuffer | Core/Src/akiegui_core.c:78-82 | the framebuffer width, height, bpp, size and mode are written, and nothing else |
| Framebuffer.Gui.SaveScreen | Core/Src/akiegui_core.c:83-85 | the screen fields receive the configuration cut to 16 and 8 bits, and nothing else changes |
| FramebufferProps.SwapExchanges | Core/Inc/akiegui_core.h:134-140 | SwapBuffer exchanges the two pointers exactly when double_buffer is set, otherwise changes nothing; two swaps are the identity |
| FramebufferProps.RegionRejects | Core/Inc/akiegui_core.h:155 | CommitRegion returns -1 exactly when the corner is outside the framebuffer, and it then sends nothing |
| FramebufferProps.RegionClamped | Core/Inc/akiegui_core.h:155-158 | after clamping x + w <= fb_width and y + h <= fb_height; an empty area returns 0 with no send |
| FramebufferProps.ClampExact | Core/Inc/akiegui_core.h:156-157 | a rectangle that fits keeps its extent; one that overflows is cut to end exactly at the edge |
| FramebufferProps.RegionRows | Core/Inc/akiegui_core.h:160-169 | exactly h sends, in order; send i is (x, y + i, w, 1) at draw_fb + (y * fb_width + x) * Bpp + i * fb_width * Bpp |
| FramebufferProps.RowAddress | Core/Inc/akiegui_core.h:160-168 | the uint32_t address computed stepwise equals offset plus i strides, modulo 2^32 |
| FramebufferProps.RowInside | Core/Inc/akiegui_core.h:160-168 | without overflow, row i starts at ((y + i) * fb_width + x) * Bpp and ends inside the fb_width * fb_height * Bpp bytes |
| FramebufferProps.FrameSizeBounds | Core/Src/akiegui_core.c:52-56 | without overflow, the buffer size is the pixel bytes rounded up to the next multiple of 16 |
| FramebufferProps.FBInitFirstFails | Core/Src/akiegui_core.c:59-60 | FBInit returns -1 exactly when the first allocation fails, and it then records only fb1 = NULL |
| FramebufferProps.FBInitSuccess | Core/Src/akiegui_core.c:63-87 | on success returns 0: double mode has draw_fb = fb1 and disp_fb = fb2, both non-NULL; single mode has fb2 = NULL and draw_fb = disp_fb = fb1; geometry is written only here |
| FramebufferProps.FBInitAligned | Core/Src/akiegui_core.c:59-75 | on success fb1 and fb2 are both 32-byte aligned (fb2 is NULL in single mode) |
| FramebufferProps.FBInitRollback | Core/Src/akiegui_core.c:63-68 | when the second allocation fails, FBInit frees fb1 and returns -2; without overflow, and when fb1's header does not overlap the block it was carved from, the pool's counters are those from before the call |
| CString.Strlen | Widget/Src/akiegui_button.c:94 | strlen is the index of the first NUL, or the whole array when there is none |
| CString.Contents | Widget/Button/akiegui_button.c:56-62 | the string a char array holds is its prefix before the first NUL, with no NUL in it |
| CString.Strncpy | Widget/Button/akiegui_button.c:97 | strncpy writes the source's first n bytes, NUL-padded once it ends, and keeps the rest of the destination |
| CString.Zeros | Widget/Button/akiegui_button.c:95 | memset leaves n zero bytes |
| CString.StrncpyStores | Widget/Button/akiegui_button.c:94-97 | copying a C string into an array whose byte n is NUL stores the string cut to n characters |
| Color.Rgb888To565 | Common/Inc/akiegui_color.h:22-27 | the 16 bpp native pixel holds input bits 23..19, 15..10 and 7..3 as RRRRRGGGGGGBBBBB |
| Color.Rgb565To888 | Common/Inc/akiegui_color.h:30-40 | the RGB888 value is at most 0xFFFFFF and each byte is the widened 565 field |
| Color.WidenReplicates | Common/Inc/akiegui_color.h:35-37 | widening keeps a field in the high bits and repeats its top bits below it |
| Color.RoundTrip565 | Common/Inc/akiegui_color.h:22-40 | at 16 bpp every native colour survives the trip through RGB888 |
| Color.RoundTrip888 | Common/Inc/akiegui_color.h:22-40 | converting RGB888 to 565 and back keeps each channel's top 5, 6 and 5 bits |
| Color.Rgb888To24 | Common/Inc/akiegui_color.h:47-49 | the 24 bpp native colour is the input's low 24 bits |
| Color.Native24To888 | Common/Inc/akiegui_color.h:51-53 | the 24 bpp RGB888 value is the native colour's low 24 bits |
| Color.Masks24 | Common/Inc/akiegui_color.h:47-53 | at 24 bpp both conversions are idempotent, converting back after converting gives the native value again, and both are the identity on 24-bit values |
| Color.Rgb888To32 | Common/Inc/akiegui_color.h:59-61 | the 32 bpp native colour has alpha byte 0xFF and the input's low 24 bits |
| Color.Native32To888 | Common/Inc/akiegui_color.h:63-65 | the 32 bpp RGB888 value drops the alpha byte |
| Color.RoundTrip32 | Common/Inc/akiegui_color.h:59-65 | at 32 bpp RGB888 comes back as its low 24 bits; a native colour comes back exactly when its alpha is 0xFF |
| Color.Native32In16Bits | Widget/Inc/akiegui_button.h:22-24 | a 32 bpp native colour kept in a uint16_t field has lost its alpha and red bytes |
| Machine.CHalf | Widget/Button/akiegui_button.c:59-60 | C's `/ 2` on int truncates toward zero, for negative operands too |
| Draw.DrawRect | Common/Src/akiegui_draw.c:25-50 | the framebuffer becomes the row-by-row painting of the w by h cells `base + col` |
| DrawProps.PaintRowAt | Common/Src/akiegui_draw.c:45-47 | the column loop sets exactly the cells of its row and keeps every other cell |
| DrawProps.PaintRectAt | Common/Src/akiegui_draw.c:31-48 | draw_rect sets exactly the cells (y + row) * fb_width + x + col (uint32_t) to the colour and leaves every other cell as it was |
| DrawProps.PaintRectEmpty | Common/Src/akiegui_draw.c:43-48 | with w == 0 or h == 0 draw_rect changes nothing |
| DrawProps.RectCellPlain | Common/Src/akiegui_draw.c:44-46 | without uint32_t overflow, the cell written is (y + row) * fb_width + x + col |
| Draw.DrawChar | Common/Src/akiegui_draw.c:63-119 | the framebuffer becomes the glyph painting defined by the three loops, or stays unchanged when nothing is drawn |
| Draw.DrawGlyphRow | Common/Src/akiegui_draw.c:101-116 | the byte loop of one glyph row paints that row |
| Draw.DrawGlyphByte | Common/Src/akiegui_draw.c:105-115 | the bit loop paints one glyph byte and stops at the first column past the width |
| Draw.ByteTailIdle | Common/Src/akiegui_draw.c:107 | once a column reaches the font width, no later bit of the byte paints anything, matching the `break` |
| DrawProps.CharNoOp | Common/Src/akiegui_draw.c:72 | draw_char changes nothing for a NULL font or table, or for a character outside 32..126 |
| DrawProps.CharUntouched | Common/Src/akiegui_draw.c:99-117 | draw_char changes no cell that no glyph pixel writes: nothing outside its box, nothing under a clear bit when transparent |
| DrawProps.OnlyHit | Common/Src/akiegui_draw.c:105-109 | on a glyph within bounds, pixel (row, col) is the only one the loops send to its index |
| DrawProps.CharPixel | Common/Src/akiegui_draw.c:99-117 | pixel (x + col, y + row) takes the colour iff bit 7 - col % 8 of glyph byte col / 8 of that row is set; otherwise the background unless transparent; otherwise it is unchanged |
| Draw.PaintString | Common/Src/akiegui_draw.c:141 | a NULL string or font leaves the framebuffer unchanged |
| Draw.DrawString | Common/Src/akiegui_draw.c:132-149 | the framebuffer becomes character i drawn at x + i * Width (mod 2^16), in order, for each character before the NUL |
| DrawProps.EmptyString | Common/Src/akiegui_draw.c:144 | drawing the empty string changes nothing |
| DrawProps.StringStep | Common/Src/akiegui_draw.c:144-148 | drawing a string is drawing its first character at x and then the rest from x + Width |
| DrawProps.StringUntouched | Common/Src/akiegui_draw.c:141-148 | draw_string changes no cell that no pixel of its characters writes |
| Draw.TextWidth | Common/Src/akiegui_draw.c:152-155 | text_width is 0 for NULL arguments |
| Draw.PenEndsAtTextWidth | Common/Src/akiegui_draw.c:143-155 | draw_string ends its pen text_width to the right of where it started (mod 2^16) |
| Widget.Union | Widget/Button/akiegui_button.c:110 | a state bit is set in `a \| b` exactly when it is set in a or in b |
| Widget.Widget.constructor | Widget/akiegui_widget.h:31-58 | a widget object holds exactly the given fields |
| Widget.MarkDirty | Widget/akiegui_widget.c:43-45 | sets dirty to 1 on a non-NULL widget and changes nothing else; does nothing for NULL |
| Widget.FirstHit | Widget/akiegui_widget.c:88-98 | a non-NULL answer is a registered entry that is visible and contains the point |
| Widget.Registry.constructor | Widget/akiegui_widget.c:17-20 | the zero-initialised registry has an empty list of 20 NULL slots |
| Widget.Registry.Init | Widget/akiegui_widget.c:25-27 | every slot becomes NULL and the count 0 |
| Widget.Registry.Add | Widget/akiegui_widget.c:33-37 | NULL or a full registry changes nothing; otherwise the widget lands at index count and the count rises by one; earlier slots are unchanged and the count never exceeds 20 |
| Widget.Registry.DrawPass | Widget/akiegui_widget.c:54-60 | the loop calls back exactly the drawable entries in index order, and it reports whether it called any |
| Widget.Registry.DrawDirtyAll | Widget/akiegui_widget.c:50-65 | it calls back the visible, dirty entries with a callback, in order, with the draw buffer, and it commits exactly when it called at least one |
| Widget.Registry.RedrawAll | Widget/akiegui_widget.c:70-81 | it calls back every visible entry with a callback, dirty or not, and then always commits |
| Widget.Registry.HitTest | Widget/akiegui_widget.c:88-98 | returns the first registered entry hit, and changes nothing |
| Widget.DrawnExactly | Widget/akiegui_widget.c:54-60 | a call is made exactly for a drawable entry and the given framebuffer (both directions) |
| Widget.DirtyPassWithinRedraw | Widget/akiegui_widget.c:50-81 | the dirty pass calls back a subset of the calls of the full redraw |
| Widget.CleanPassIsEmpty | Widget/akiegui_widget.c:54-64 | with no dirty entry the dirty pass calls nothing, so no frame is sent |
| Widget.FirstHitIsFirst | Widget/akiegui_widget.c:88-98 | HitTest answers NULL exactly when no entry is hit; otherwise it answers the hit entry of lowest index |
| Button.BorderAt | Widget/Button/akiegui_button.c:46-53 | the four border strips set exactly their cells to the border colour |
| Button.FaceAt | Widget/Button/akiegui_button.c:43-53 | after the face is painted, a cell holds the border colour on the border, the background elsewhere in the box, and its old value outside |
| Button.DrawBorder | Widget/Button/akiegui_button.c:46-53 | the four draw_rect calls paint the top, bottom, left and right strips |
| Button.DrawFace | Widget/Button/akiegui_button.c:43-53 | the background rectangle is painted, then the border when border_width > 0 |
| Button.Caption | Widget/Button/akiegui_button.c:56-62 | the caption drawn is NUL-free and shorter than the 32-byte array |
| Button.CentredInSpan | Widget/Button/akiegui_button.c:59-60 | a caption no wider than the button starts and ends inside it, with equal margins or the right one a pixel wider |
| Button.OverhangsLeft | Widget/Button/akiegui_button.c:59-60 | a caption wider than the button starts half the overhang (rounded down) left of the button, modulo 2^16 |
| Button.ButtonPixel | Widget/Button/akiegui_button.c:33-67 | outside the caption's pixels: the border colour on the border, the press colour in the box while PRESSED else the background, old value outside |
| Button.NoCaption | Widget/Button/akiegui_button.c:56 | with empty text or no font only the face is painted |
| Button.DrawButton | Widget/Button/akiegui_button.c:33-67 | the framebuffer becomes the face plus the centred caption; dirty becomes 0 and nothing else of the widget changes |
| Button.StoredLosesRed | Widget/Button/akiegui_button.c:100-102 | a stored colour keeps only the green and blue bytes; pure red is drawn as 0 |
| Button.NewButtonIs | Widget/Button/akiegui_button.c:94-115 | a new button is visible, enabled, not pressed and dirty; it has border width 1 and the default font, and holds its text cut to 31 characters (empty for NULL) |
| Button.Buttons.constructor | Widget/Button/akiegui_button.c:21-26 | the pool count starts at 0 |
| Button.Buttons.Create | Widget/Button/akiegui_button.c:81-119 | returns NULL with no change once 10 buttons exist; otherwise a new button with the described fields, and the count rises by one |
| Button.SetFont | Widget/Button/akiegui_button.c:126-132 | no-op for NULL, a non-button or a NULL font; otherwise the font is set and dirty becomes 1 |
| Button.CopyTextStores | Widget/Button/akiegui_button.c:143-144 | the copied text reads back as the first 31 characters and the array stays terminated |
| Button.SetText | Widget/Button/akiegui_button.c:139-146 | no-op for NULL, a non-button or NULL text; otherwise the text is copied and dirty becomes 1 |
| Button.SetColors | Widget/Button/akiegui_button.c:155-168 | no-op for NULL or a non-button; otherwise the three converted colours are stored and dirty becomes 1 |
| Button.SetTextStores | Widget/Button/akiegui_button.c:139-146 | setting the text stores it cut to 31 characters and marks the button dirty; every other field stays |
| Button.SettersKeepShape | Widget/Button/akiegui_button.c:126-168 | the font and colour setters change only their fields and dirty, keep the caption, and leave other widgets alone |
| LegacyButton.LegacyCharPixel | Widget/Src/akiegui_button.c:47-69 | this file's draw_char writes the text colour on a set bit and the background on every clear bit |
| LegacyButton.DrawCaption | Widget/Src/akiegui_button.c:92-104 | the caption loop draws character i at start_x + i * Width (uint16_t) for every i below the text's length |
| LegacyButton.DrawButton | Widget/Src/akiegui_button.c:72-107 | the 16 bpp framebuffer becomes the face plus the opaque caption; dirty becomes 0 |
| LegacyButton.LegacyPixel | Widget/Src/akiegui_button.c:72-107 | outside the caption's pixels: the border colour on the border, the press or background colour in the box, old value outside |
| LegacyButton.StoredKeepsTopBits | Widget/Src/akiegui_button.c:27-32 | stored RGB565 colours keep each channel's top 5, 6 and 5 bits, and black is stored as 0 |
| LegacyButton.LegacyButtons.constructor | Widget/Src/akiegui_button.c:19-24 | the pool count starts at 0 |
| LegacyButton.LegacyButtons.Create | Widget/Src/akiegui_button.c:110-148 | returns NULL at 10 buttons; otherwise a new button with RGB565 colours, border colour 0 and this file's draw routine; the count rises by one |
| LegacyButton.SetColors | Widget/Src/akiegui_button.c:151-164 | no-op for NULL or a non-button; otherwise the three RGB565 colours are stored and dirty becomes 1 |
| Label.TransparentFlag | Widget/Label/akiegui_label.c:100 | the flag is 1 exactly when the RGB888 background is 0xFFFF00, and otherwise 0 |
| Label.Caption | Widget/Label/akiegui_label.c:51-57 | the label's text is NUL-free and shorter than the 64-byte array |
| Label.DrawLabel | Widget/Label/akiegui_label.c:42-63 | the framebuffer becomes the background (when opaque) plus the centred text; dirty becomes 0 |
| Label.LabelPixel | Widget/Label/akiegui_label.c:42-63 | outside the text's pixels: the background in the box when opaque; otherwise, and when transparent, the old value |
| Label.NewLabelIs | Widget/Label/akiegui_label.c:86-110 | a new label is visible, enabled and dirty and holds its text cut to 63 characters; w = text_width + 4 for a text that fits, h = Height + 4; transparent iff the background is 0xFFFF00 |
| Label.Labels.constructor | Widget/Label/akiegui_label.c:30-35 | the pool count starts at 0 |
| Label.Labels.Create | Widget/Label/akiegui_label.c:74-114 | returns NULL with no change at 10 labels; otherwise a new label with the described fields, and the count rises by one |
| Label.CopyTextStores | Widget/Label/akiegui_label.c:125-126 | the copied text reads back as the first 63 characters and the array stays terminated |
| Label.SetText | Widget/Label/akiegui_label.c:121-133 | no-op for NULL, a non-label or NULL text; otherwise the text is copied, w = strlen(input) * Width + 4 (uint16_t) and dirty becomes 1 |
| Label.SetTextStores | Widget/Label/akiegui_label.c:121-133 | the stored text is cut to 63 characters; w matches the stored text's width only when the input fits, and a longer input makes the label wider than its text |
| Label.MeasuredWidth | Widget/Label/akiegui_label.c:129-130 | cutting the length to uint16_t before the product gives the same width as cutting the product |
| Label.SetColor | Widget/Label/akiegui_label.c:140-146 | no-op for NULL or a non-label; otherwise the converted text colour is stored and dirty becomes 1 |
| Label.SetBgColor | Widget/Label/akiegui_label.c:153-160 | no-op for NULL or a non-label; otherwise the converted background and its transparency flag are stored and dirty becomes 1 |
| Label.ColorSettersKeepShape | Widget/Label/akiegui_label.c:140-160 | the colour setters keep the text and the RGB bits asked for; the label becomes transparent exactly for 0xFFFF00 |

## Left out

- The FreeRTOS branches of the allocator are not modelled. They wrap `pvPortMalloc`, `vPortFree` and `xPortGetFreeHeapSize`, which are not part of this model; the shipped configuration selects the static pool.
- Critical sections and interrupt masking (Core/Inc/akiegui_memory.h and Core/Inc/akiegui_port.h) are not modelled: every public call is one atomic step.
- `AkieGUI_WaitTE` is not modelled. It busy-waits on a volatile flag that an interrupt clears, so it has no meaning without concurrency; the model keeps only the `te_pending` field.
- The screen-driver hooks are modelled only by whether they are set. Each call is a recorded send event, and what the driver does is outside the library.
- Widget draw callbacks are recorded, not run, when the manager calls them (`Widget.Registry.calls`). Their effect is modelled separately by `Button.DrawButton`, `LegacyButton.DrawButton` and `Label.DrawLabel`. So the model does not capture a widget registered twice being drawn twice with its dirty flag cleared by the first call.
- Font bitmap tables (`ASCII_8x16` and the others) are a parameter. A font is a record with an abstract byte sequence.
- Pointer casts and struct layout are not modelled. A pointer is a 32-bit address, and `sizeof(AkieGUI_Mem_Block_T)` is the constant 16 of the 32-bit target.
- Block headers are records in a map keyed by address, so headers that overlap in memory are not modelled. That happens when the padding path has 1 to 15 bytes of padding. `MemoryProps.CarveGapWraps` and `MemoryProps.GapHandsOutTwice` describe that case from the found block's side. The lemmas about the new header assume `HeadersApart`, which excludes it.
- `Memory.Pool.Free` requires the header below a non-NULL pointer to exist in the map. In C, freeing a pointer the allocator never produced reads arbitrary memory (undefined behaviour).
- The free-list walk that MemAllocAlign's loop performs is a ghost parameter that must stop (at a fitting block or at NULL). A call whose loop never ends has no such walk, and `MemoryProps.CycleHangs` shows when that happens.
- Drawing routines require every index they write and every font byte they read to be in bounds. Out-of-bounds writes are undefined behaviour in C.
- `draw_char` requires a font height below 256 when it draws anything, because its `uint8_t` row counter would otherwise never reach the height.
- Configuration: the new button and the label are modelled at the shipped 32 bpp (`uint32_t` cells), and the old button at its fixed 16 bpp. `Draw` is generic over the cell type. The framebuffer controller takes the configuration as a value.
- The static widget pools are modelled as fresh allocation: each successful Create returns a widget no one else holds. The pool's storage and the slot index are not modelled.
- A widget's `priv` pointer is modelled as the record it points to. The font pointer becomes an optional font value.
- The unused widget fields `font`, `on_click` and `user_data` are not modelled, because no core operation reads or writes them.
- Widget/Inc/akiegui_button.h declares a 5-argument `AkieGUI_Button_Create` that no source defines, so it is not modelled.
- `Label.Labels.Create` requires a non-NULL font when the pool has room. The code dereferences it there unconditionally.
- C strings are sequences without NUL bytes, and a NULL string is `None`.
- Characters are `uint8_t`. `char` values above 127, which are negative when `char` is signed, produce the same early return either way.
- MemoryProps.AllocResultHeader: states the header only when ALIGN_UP(size, align) + 16 + ALIGN fits in 32 bits and the padding is 0 or at least 16 bytes (`HeadersApart`). On the wrapping path the split may rewrite headers that overlap in memory, which the map model does not represent. With 1 to 15 bytes of padding the new header overlaps the found block's, and lines 136-137 overwrite its magic (1-4 bytes of padding) or its size (5-8); the map model keeps both headers intact, so nothing is claimed there.
- MemoryProps.CarveHeader: states the header only when sz + 16 + ALIGN fits in 32 bits and the padding is 0 or at least 16 bytes, for the same two reasons.
- MemoryProps.AllocThenFree: proved only without 32-bit wrap-around in the allocation and with the padding 0 or at least 16 bytes (`HeadersApart`). Otherwise the C's overlapping writes can spoil the magic, so MemFree ignores the pointer, or spoil the size, so MemFree adds back the wrong amount.
- MemoryProps.AlignedInPlace: proved only without wrap-around. With wrap-around the unreachable split can run.
- MemoryProps.AlignedAllocThenFreeCycles: proved only without wrap-around, for the same reason.
- MemoryProps.FirstFitted, MemoryProps.FirstAllocation, MemoryProps.SecondAllocationFails, MemoryProps.FreeMakesSelfLoop and MemoryProps.FreedPoolHangs: proved for pools whose first payload is already aligned and where nothing wraps (the `Roomy` hypothesis).
- FramebufferProps.FBInitRollback: counters are restored only without wrap-around in the allocator's arithmetic and when fb1's padding is 0 or at least 16 bytes (`HeadersApart`), for the reason given for MemoryProps.AllocThenFree.
- FramebufferProps.FrameSizeBounds: only without 32-bit overflow of width * height * bytes.
- FramebufferProps.RowInside: only without 32-bit overflow of the row address.
- DrawProps.CharPixel: stated for glyphs whose rows fit in the framebuffer width, are narrower than 256 columns and do not overflow an index. Elsewhere `DrawProps.CharUntouched` still bounds what changes.
