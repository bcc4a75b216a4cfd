/** What the pool allocator guarantees, and where it does not hold what its design suggests. */
module MemoryProps {
  import opened Machine
  import opened Align
  import opened Memory

  // ---------------------------------------------------------------------
  // MemInit
  // ---------------------------------------------------------------------

  /** A second MemInit changes nothing, whatever its arguments. */
  lemma InitOnce(s: PoolState, start: u32, size: u32, start2: u32, size2: u32)
    ensures InitSpec(InitSpec(s, start, size), start2, size2) == InitSpec(s, start, size)
  {
  }

  /**
   * The first MemInit leaves a single free block at start, terminated by
   * NULL.  free_size counts the whole pool while the block counts the pool
   * less its header, and a pool smaller than a header gives a block size
   * that has wrapped around.
   */
  lemma InitOneFreeBlock(s: PoolState, start: u32, size: u32)
    requires !s.inited && start != NULL
    ensures var t := InitSpec(s, start, size);
      t.inited && Chain(t, [start]) && After(t, [start]) == NULL &&
      t.headers[start].used == 0 && t.headers[start].magic == MAGIC_FREE &&
      t.freeSize == size && t.poolSize == size && t.blockCount == 0 && Used(t) == 0 &&
      (size >= HEADER ==> t.headers[start].size + HEADER == t.freeSize) &&
      (size < HEADER ==> t.headers[start].size >= TWO32 - HEADER)
  {
    if size < HEADER {
      WrapNegOnce(size - HEADER);
    }
  }

  // ---------------------------------------------------------------------
  // The free-list walk
  // ---------------------------------------------------------------------

  lemma {:induction false} CommonPrefix(s: PoolState, w1: seq<u32>, w2: seq<u32>, n: nat)
    requires Chain(s, w1) && Chain(s, w2) && n <= |w1| && n <= |w2|
    ensures forall j :: 0 <= j < n ==> w1[j] == w2[j]
    ensures n == |w1| < |w2| ==> w2[n] == After(s, w1)
    ensures n == |w2| < |w1| ==> w1[n] == After(s, w2)
  {
    if n > 0 {
      CommonPrefix(s, w1, w2, n - 1);
      if n > 1 {
        assert w1[n - 1] == s.headers[w1[n - 2]].next;
      }
    }
  }

  /** The loop's walk is determined by the state: the block it stops at is the first that fits. */
  lemma StopsUnique(s: PoolState, w1: seq<u32>, w2: seq<u32>, total: u32)
    requires Stops(s, w1, total) && Stops(s, w2, total)
    ensures w1 == w2
  {
    CommonPrefix(s, w1, w2, Min(|w1|, |w2|));
  }

  /** On a NULL-terminated free list the loop always stops, on a prefix of the list. */
  lemma StopsOnFiniteList(s: PoolState, list: seq<u32>, total: u32) returns (walk: seq<u32>)
    requires Chain(s, list) && After(s, list) == NULL
    ensures Stops(s, walk, total) && walk <= list
  {
    var i := 0;
    while i < |list| && !Fits(s.headers[list[i]], total)
      invariant 0 <= i <= |list|
      invariant forall j :: 0 <= j < i ==> !Fits(s.headers[list[j]], total)
    {
      i := i + 1;
    }
    if i < |list| {
      walk := list[..i + 1];
    } else {
      walk := list;
    }
  }

  lemma ModStep(n: nat, m: nat)
    requires n >= 1 && m >= 1
    ensures (n - 1) % m + 1 < m ==> n % m == (n - 1) % m + 1
    ensures (n - 1) % m + 1 == m ==> n % m == 0
  {
    var q, k := (n - 1) / m, (n - 1) % m;
    assert n - 1 == q * m + k;
    if k + 1 < m {
      DivMod(n, m, q, k + 1);
    } else {
      DivMod(n, m, q + 1, 0);
    }
  }

  /** Every walk over a free list that closes on itself goes round the cycle. */
  lemma {:induction false} OnCycle(s: PoolState, cyc: seq<u32>, w: seq<u32>)
    requires Chain(s, cyc) && |cyc| > 0 && After(s, cyc) == s.freeList && Chain(s, w)
    ensures forall j :: 0 <= j < |w| ==> w[j] == cyc[j % |cyc|]
    ensures After(s, w) == cyc[|w| % |cyc|]
    decreases |w|
  {
    if |w| > 0 {
      var w' := w[..|w| - 1];
      assert Chain(s, w');
      OnCycle(s, cyc, w');
      var k := (|w| - 1) % |cyc|;
      assert w[|w| - 1] == cyc[k];
      ModStep(|w|, |cyc|);
    }
  }

  /**
   * When the free list closes on itself and no block on the cycle fits, the
   * loop of MemAllocAlign never stops: no walk satisfies Stops.
   */
  lemma CycleHangs(s: PoolState, cyc: seq<u32>, total: u32)
    requires Chain(s, cyc) && |cyc| > 0 && After(s, cyc) == s.freeList
    requires forall j :: 0 <= j < |cyc| ==> !Fits(s.headers[cyc[j]], total)
    ensures forall w :: !Stops(s, w, total)
  {
    forall w | Chain(s, w)
      ensures !Stops(s, w, total)
    {
      OnCycle(s, cyc, w);
      if |w| > 0 {
        assert w[|w| - 1] == cyc[(|w| - 1) % |cyc|];
      }
    }
  }

  // ---------------------------------------------------------------------
  // MemAllocAlign
  // ---------------------------------------------------------------------

  /** The walk stopped on a fitting block, so the allocation goes ahead. */
  ghost predicate Fitted(s: PoolState, size: u32, align: u32, walk: seq<u32>)
  {
    s.inited && size != 0 && Stops(s, walk, Total(size, align)) && Found(s, walk, Total(size, align))
  }

  /** Lines 120-121: how far the aligned payload address lies past curr's own payload. */
  function PadOffset(curr: u32, align: u32): u32
  {
    Wrap32(AlignUp(Wrap32(curr + HEADER), align) - Wrap32(curr + HEADER))
  }

  /**
   * The header that the padding path writes just below the aligned address
   * does not overlap the header of the block found: there is no padding, or
   * at least a header's worth.  With 1 to 15 bytes of padding the two
   * headers share bytes, and lines 136-137 overwrite part of the new one
   * (its magic or its size), which the header map does not represent.
   */
  ghost predicate HeadersApart(walk: seq<u32>, align: u32)
  {
    |walk| > 0 ==> PadOffset(walk[|walk| - 1], align) == 0 || PadOffset(walk[|walk| - 1], align) >= HEADER
  }

  /** Once the walk has found a block, MemAllocAlign is the carving of lines 119-172. */
  lemma AllocIsCarve(s: PoolState, size: u32, align: u32, walk: seq<u32>)
    requires Fitted(s, size, align, walk)
    ensures var curr := walk[|walk| - 1];
      AllocAlignSpec(s, size, align, walk) ==
      Carve(s, curr, if |walk| == 1 then NULL else walk[|walk| - 2], AlignUp(size, align),
            AlignUp(Wrap32(curr + HEADER), align))
  {
  }

  /** The split step never changes the size it was given for curr. */
  lemma SplitKeepsSize(s: PoolState, m1: map<u32, Header>, curr: u32, prev: u32, sz: u32)
    requires curr in m1 && (prev != NULL ==> prev in m1) && m1[curr].size == sz
    ensures curr in Split(s, m1, curr, prev, sz).0 && Split(s, m1, curr, prev, sz).0[curr].size == sz
  {
  }

  /**
   * Every successful allocation takes ALIGN_UP(size, align) + header bytes
   * off free_size and adds one block, on either path.
   */
  lemma AllocAccounting(s: PoolState, size: u32, align: u32, walk: seq<u32>)
    requires Fitted(s, size, align, walk)
    ensures var t := AllocAlignSpec(s, size, align, walk).0;
      t.inited && t.poolStart == s.poolStart && t.poolSize == s.poolSize &&
      t.freeSize == Wrap32(s.freeSize - (AlignUp(size, align) + HEADER)) &&
      t.blockCount == Wrap32(s.blockCount + 1)
  {
    var curr := walk[|walk| - 1];
    AllocIsCarve(s, size, align, walk);
    CarveAccounting(s, curr, if |walk| == 1 then NULL else walk[|walk| - 2], AlignUp(size, align),
                    AlignUp(Wrap32(curr + HEADER), align));
  }

  lemma CarveAccounting(s: PoolState, curr: u32, prev: u32, sz: u32, aligned: u32)
    requires curr in s.headers && (prev != NULL ==> prev in s.headers)
    ensures var t := Carve(s, curr, prev, sz, aligned).0;
      t.inited == s.inited && t.poolStart == s.poolStart && t.poolSize == s.poolSize &&
      t.freeSize == Wrap32(s.freeSize - (sz + HEADER)) &&
      t.blockCount == Wrap32(s.blockCount + 1)
  {
    var m1 := s.headers[curr := s.headers[curr].(used := 1, size := sz, magic := MAGIC_USED)];
    SplitKeepsSize(s, m1, curr, prev, sz);
  }

  lemma WrapSucc(b: u32)
    ensures Wrap32(b + 1) != b
  {
    if b + 1 < TWO32 {
      WrapSmall(b + 1);
    } else {
      WrapOnce(b + 1);
    }
  }

  /**
   * MemAllocAlign leaves the state as it was exactly when it returns early:
   * pool not initialised, size 0, or no block on the walk fits.  In those
   * cases it returns NULL.
   */
  lemma AllocUnchangedIff(s: PoolState, size: u32, align: u32, walk: seq<u32>)
    requires s.inited && size != 0 ==> Stops(s, walk, Total(size, align))
    ensures AllocAlignSpec(s, size, align, walk).0 == s <==> !Fitted(s, size, align, walk)
    ensures !Fitted(s, size, align, walk) ==> AllocAlignSpec(s, size, align, walk).1 == NULL
  {
    if Fitted(s, size, align, walk) {
      AllocAccounting(s, size, align, walk);
      WrapSucc(s.blockCount);
    }
  }

  /** The address handed out is the aligned address computed from curr, on either path. */
  lemma CarveResult(s: PoolState, curr: u32, prev: u32, sz: u32, aligned: u32)
    requires curr in s.headers && (prev != NULL ==> prev in s.headers)
    ensures Carve(s, curr, prev, sz, aligned).1 == aligned
  {
    WrapCancel(aligned, HEADER);
    WrapDiffZero(aligned, Wrap32(curr + HEADER));
  }

  /** Carving only adds or rewrites headers, and the header below the result exists. */
  lemma CarveKeys(s: PoolState, curr: u32, prev: u32, sz: u32, aligned: u32)
    requires curr in s.headers && (prev != NULL ==> prev in s.headers)
    ensures var (t, r) := Carve(s, curr, prev, sz, aligned);
      s.headers.Keys <= t.headers.Keys && Wrap32(r - HEADER) in t.headers
  {
    WrapCancel(Wrap32(aligned - HEADER), -(HEADER as int));
    WrapCancel(curr, -(HEADER as int));
  }

  /**
   * Without overflow in the split test, and when the new header does not
   * overlap curr's, the header below the result is allocated and records sz.
   */
  lemma CarveHeader(s: PoolState, curr: u32, prev: u32, sz: u32, aligned: u32)
    requires curr in s.headers && (prev != NULL ==> prev in s.headers)
    requires sz + HEADER + ALIGN < TWO32
    requires Wrap32(aligned - Wrap32(curr + HEADER)) == 0 || Wrap32(aligned - Wrap32(curr + HEADER)) >= HEADER
    ensures var (t, r) := Carve(s, curr, prev, sz, aligned);
      Wrap32(r - HEADER) in t.headers &&
      t.headers[Wrap32(r - HEADER)] == t.headers[Wrap32(r - HEADER)].(used := 1, magic := MAGIC_USED, size := sz)
  {
    var dataPtr := Wrap32(curr + HEADER);
    WrapDiffZero(aligned, dataPtr);
    WrapCancel(aligned, HEADER);
    if Wrap32(aligned - dataPtr) > 0 {
      var nb := Wrap32(aligned - HEADER);
      WrapCancel(nb, -(HEADER as int));
      assert nb != curr;
    } else {
      WrapSmall(sz + HEADER + ALIGN);
      WrapCancel(curr, -(HEADER as int));
    }
  }

  /**
   * When the aligned address lies less than a header past curr's payload,
   * the padding path shrinks curr to a size that has wrapped around: the
   * gap less a header, modulo 2^32.  (The new header then also overlaps
   * curr's own.)
   */
  lemma CarveGapWraps(s: PoolState, curr: u32, prev: u32, sz: u32, aligned: u32)
    requires curr in s.headers && (prev != NULL ==> prev in s.headers)
    requires curr + HEADER < aligned < curr + 2 * HEADER
    ensures var t := Carve(s, curr, prev, sz, aligned).0;
      curr in t.headers && t.headers[curr].used == 0 &&
      t.headers[curr].size == TWO32 + (aligned - curr - HEADER) - HEADER
  {
    WrapSmall(curr + HEADER);
    WrapSmall(aligned - (curr + HEADER));
    WrapNegOnce(aligned - curr - 2 * HEADER);
  }

  /**
   * With less than a header of padding, the block found keeps its place at
   * the head of the free list, free and with a size wrapped to nearly
   * 2^32: the same request then carves it again and returns the very same
   * address, so one block is handed out twice.
   */
  lemma GapHandsOutTwice(s: PoolState, size: u32, align: u32, curr: u32)
    requires Fitted(s, size, align, [curr])
    requires curr + HEADER < AlignUp(Wrap32(curr + HEADER), align) < curr + 2 * HEADER
    requires Total(size, align) < TWO32 - HEADER
    ensures var (t, r) := AllocAlignSpec(s, size, align, [curr]);
      r != NULL && Fitted(t, size, align, [curr]) && AllocAlignSpec(t, size, align, [curr]).1 == r
  {
    var aligned := AlignUp(Wrap32(curr + HEADER), align);
    AllocIsCarve(s, size, align, [curr]);
    CarveGapWraps(s, curr, NULL, AlignUp(size, align), aligned);
    AllocResult(s, size, align, [curr]);
    WrapSmall(curr + HEADER);
    WrapSmall(aligned - (curr + HEADER));
    var t := AllocAlignSpec(s, size, align, [curr]).0;
    assert t.freeList == s.freeList && t.inited;
    AllocResult(t, size, align, [curr]);
  }

  /** A successful allocation returns ALIGN_UP(curr + header, align) for the block curr it stopped at. */
  lemma AllocResult(s: PoolState, size: u32, align: u32, walk: seq<u32>)
    requires Fitted(s, size, align, walk)
    ensures AllocAlignSpec(s, size, align, walk).1 == AlignUp(Wrap32(walk[|walk| - 1] + HEADER), align)
  {
    var curr := walk[|walk| - 1];
    AllocIsCarve(s, size, align, walk);
    CarveResult(s, curr, if |walk| == 1 then NULL else walk[|walk| - 2], AlignUp(size, align),
                AlignUp(Wrap32(curr + HEADER), align));
  }

  /**
   * MemAllocAlign never drops a header, and a non-NULL result always has
   * its header in the pool, so MemFree may be called on it.
   */
  lemma AllocKeys(s: PoolState, size: u32, align: u32, walk: seq<u32>)
    requires s.inited && size != 0 ==> Stops(s, walk, Total(size, align))
    ensures var (t, r) := AllocAlignSpec(s, size, align, walk);
      s.headers.Keys <= t.headers.Keys && t.inited == s.inited &&
      (r != NULL ==> Wrap32(r - HEADER) in t.headers)
  {
    if Fitted(s, size, align, walk) {
      var curr := walk[|walk| - 1];
      AllocIsCarve(s, size, align, walk);
      CarveKeys(s, curr, if |walk| == 1 then NULL else walk[|walk| - 2], AlignUp(size, align),
                AlignUp(Wrap32(curr + HEADER), align));
    }
  }

  /** For a power-of-two align, the address returned is a multiple of align. */
  lemma AllocResultAligned(s: PoolState, size: u32, align: u32, walk: seq<u32>)
    requires s.inited && size != 0 ==> Stops(s, walk, Total(size, align))
    requires IsPow2(align)
    ensures AllocAlignSpec(s, size, align, walk).1 % align == 0
  {
    if Fitted(s, size, align, walk) {
      AllocResult(s, size, align, walk);
      AlignUpMultiple(Wrap32(walk[|walk| - 1] + HEADER), align);
    } else {
      AllocUnchangedIff(s, size, align, walk);
    }
  }

  /**
   * When ALIGN_UP(size, align) + header + AkieGUI_ALIGN does not overflow
   * and the padding does not make the new header overlap the block's own,
   * the header just below the result is marked allocated and records
   * ALIGN_UP(size, align).
   */
  lemma AllocResultHeader(s: PoolState, size: u32, align: u32, walk: seq<u32>)
    requires Fitted(s, size, align, walk)
    requires AlignUp(size, align) + HEADER + ALIGN < TWO32
    requires HeadersApart(walk, align)
    ensures var (t, r) := AllocAlignSpec(s, size, align, walk);
      Wrap32(r - HEADER) in t.headers &&
      t.headers[Wrap32(r - HEADER)].used == 1 &&
      t.headers[Wrap32(r - HEADER)].magic == MAGIC_USED &&
      t.headers[Wrap32(r - HEADER)].size == AlignUp(size, align)
  {
    var curr := walk[|walk| - 1];
    AllocIsCarve(s, size, align, walk);
    CarveHeader(s, curr, if |walk| == 1 then NULL else walk[|walk| - 2], AlignUp(size, align),
                AlignUp(Wrap32(curr + HEADER), align));
  }

  /** The split of lines 150-166 is taken only when size + header + AkieGUI_ALIGN wraps around. */
  lemma SplitOnlyOnWrap(sz: u32)
    ensures sz > Wrap32(sz + HEADER + ALIGN) <==> sz + HEADER + ALIGN >= TWO32
  {
    if sz + HEADER + ALIGN < TWO32 {
      WrapSmall(sz + HEADER + ALIGN);
    } else {
      WrapOnce(sz + HEADER + ALIGN);
    }
  }

  // ---------------------------------------------------------------------
  // MemFree
  // ---------------------------------------------------------------------

  /**
   * MemFree changes nothing exactly when the pointer is NULL, the pool is
   * not initialised, or the header below the pointer is not marked
   * allocated.
   */
  lemma FreeUnchangedIff(s: PoolState, ptr: u32)
    requires ptr != NULL && s.inited ==> Wrap32(ptr - HEADER) in s.headers
    ensures FreeSpec(s, ptr) == s <==>
      (ptr == NULL || !s.inited || s.headers[Wrap32(ptr - HEADER)].magic != MAGIC_USED)
  {
  }

  /** Freeing the same pointer twice: the second call does nothing. */
  lemma DoubleFree(s: PoolState, ptr: u32)
    requires ptr != NULL && s.inited ==> Wrap32(ptr - HEADER) in s.headers
    ensures FreeSpec(FreeSpec(s, ptr), ptr) == FreeSpec(s, ptr)
  {
  }

  /**
   * Freeing what was just allocated gives back free_size, block_count and
   * the used count, when nothing wraps and the headers do not overlap.
   */
  lemma AllocThenFree(s: PoolState, size: u32, align: u32, walk: seq<u32>)
    requires Fitted(s, size, align, walk)
    requires AlignUp(size, align) + HEADER + ALIGN < TWO32
    requires HeadersApart(walk, align)
    requires AllocAlignSpec(s, size, align, walk).1 != NULL
    ensures var (t, r) := AllocAlignSpec(s, size, align, walk);
      Wrap32(r - HEADER) in t.headers &&
      var u := FreeSpec(t, r);
      u.freeSize == s.freeSize && u.blockCount == s.blockCount && Used(u) == Used(s)
  {
    AllocResultHeader(s, size, align, walk);
    AllocAccounting(s, size, align, walk);
    WrapCancel(s.freeSize, AlignUp(size, align) + HEADER);
    WrapCancel(s.blockCount, -1);
  }

  /**
   * In the already-aligned path without overflow only the header of the
   * block found changes (used, size, magic): its link, the free-list head
   * and every other header stay as they were, so the block stays listed.
   */
  lemma AlignedInPlace(s: PoolState, size: u32, align: u32, walk: seq<u32>)
    requires Fitted(s, size, align, walk) && IsPow2(align)
    requires AlignUp(size, align) + HEADER + ALIGN < TWO32
    requires Wrap32(walk[|walk| - 1] + HEADER) % align == 0
    ensures var c := walk[|walk| - 1];
      var (t, r) := AllocAlignSpec(s, size, align, walk);
      r == Wrap32(c + HEADER) && t.freeList == s.freeList &&
      t.headers == s.headers[c := s.headers[c].(used := 1, size := AlignUp(size, align), magic := MAGIC_USED)]
  {
    var c := walk[|walk| - 1];
    var dataPtr := Wrap32(c + HEADER);
    AlignUpFixed(dataPtr, align);
    WrapDiffZero(dataPtr, dataPtr);
    WrapSmall(AlignUp(size, align) + HEADER + ALIGN);
    AllocIsCarve(s, size, align, walk);
  }

  /**
   * In the already-aligned path the block is handed out but stays on the
   * free list; freeing it pushes it on the head again, so the free list
   * becomes a cycle through it (a loop onto itself when it was the head).
   */
  lemma AlignedAllocThenFreeCycles(s: PoolState, size: u32, align: u32, walk: seq<u32>)
    requires Fitted(s, size, align, walk) && IsPow2(align)
    requires AlignUp(size, align) + HEADER + ALIGN < TWO32
    requires Wrap32(walk[|walk| - 1] + HEADER) % align == 0
    requires AllocAlignSpec(s, size, align, walk).1 != NULL
    ensures var (t, r) := AllocAlignSpec(s, size, align, walk);
      Wrap32(r - HEADER) in t.headers &&
      var u := FreeSpec(t, r);
      var c := walk[|walk| - 1];
      var cyc := [c] + walk[..|walk| - 1];
      u.freeList == c && Chain(u, cyc) && After(u, cyc) == c
  {
    var c := walk[|walk| - 1];
    AlignUpFixed(Wrap32(c + HEADER), align);
    WrapDiffZero(Wrap32(c + HEADER), Wrap32(c + HEADER));
    assert PadOffset(c, align) == 0;
    AllocResultHeader(s, size, align, walk);
    AlignedInPlace(s, size, align, walk);
    WrapCancel(c, -(HEADER as int));
    var t := AllocAlignSpec(s, size, align, walk).0;
    var u := FreeSpec(t, Wrap32(c + HEADER));
    assert u.headers == t.headers[c := t.headers[c].(used := 0, magic := MAGIC_FREE, next := s.freeList)];
    assert forall j :: 0 <= j < |walk| - 1 ==> walk[j] != c;
    var cyc := [c] + walk[..|walk| - 1];
    forall j | 0 < j < |cyc|
      ensures cyc[j] == u.headers[cyc[j - 1]].next
    {
      if j >= 2 {
        assert cyc[j] == walk[j - 1] && cyc[j - 1] == walk[j - 2];
      }
    }
  }

  // ---------------------------------------------------------------------
  // MemCalloc
  // ---------------------------------------------------------------------

  /** The clearing loop sets exactly the bytes p[0..n) to zero and keeps the rest. */
  lemma {:induction false} ZeroedSpec(d: map<u32, u8>, p: u32, n: nat)
    ensures forall k :: k in Zeroed(d, p, n) <==> k in d || Covers(p, n, k)
    ensures forall k :: Covers(p, n, k) ==> Zeroed(d, p, n)[k] == 0
    ensures forall k :: k in d && !Covers(p, n, k) ==> Zeroed(d, p, n)[k] == d[k]
    decreases n
  {
    if n > 0 {
      ZeroedSpec(d, p, n - 1);
      forall k
        ensures Covers(p, n, k) <==> Covers(p, n - 1, k) || k == Addr(p, n - 1)
      {
        if Covers(p, n, k) {
          var i :| 0 <= i < n && k == Addr(p, i);
          if i < n - 1 {
            assert Covers(p, n - 1, k);
          }
        }
        if k == Addr(p, n - 1) {
          assert Covers(p, n, k);
        }
        if Covers(p, n - 1, k) {
          var i :| 0 <= i < n - 1 && k == Addr(p, i);
          assert Covers(p, n, k);
        }
      }
    }
  }

  // ---------------------------------------------------------------------
  // A fresh pool, as the framebuffer setup uses it
  // ---------------------------------------------------------------------

  /**
   * A pool and a request for the scenarios below: the pool starts at a
   * non-NULL address whose first payload is already aligned, nothing
   * wraps around 2^32, and the first block is large enough for the request.
   */
  ghost predicate Roomy(start: u32, n: u32, size: u32, align: u32)
  {
    start != NULL && IsPow2(align) && size != 0 &&
    AlignUp(size, align) + HEADER + ALIGN < TWO32 && AlignUp(size, align) + HEADER + align < TWO32 &&
    start + HEADER < TWO32 && (start + HEADER) % align == 0 &&
    HEADER <= n && n - HEADER >= Total(size, align)
  }

  /** On a new pool the first free block alone is a walk that fits the request. */
  lemma FirstFitted(s0: PoolState, start: u32, n: u32, size: u32, align: u32)
    requires !s0.inited && Roomy(start, n, size, align)
    ensures var s1 := InitSpec(s0, start, n);
      Fitted(s1, size, align, [start]) && s1.headers[start] == Header(NULL, n - HEADER, MAGIC_FREE, 0)
  {
    var s1 := InitSpec(s0, start, n);
    InitOneFreeBlock(s0, start, n);
    assert Stops(s1, [start], Total(size, align));
  }

  /**
   * The first request on such a pool is served in place from the first
   * block: the block is marked used and shrunk to the request, but it
   * stays the head of the free list.
   */
  lemma FirstAllocation(s0: PoolState, start: u32, n: u32, size: u32, align: u32)
    requires !s0.inited && Roomy(start, n, size, align)
    ensures var s1 := InitSpec(s0, start, n);
      Stops(s1, [start], Total(size, align)) &&
      var (s2, r1) := AllocAlignSpec(s1, size, align, [start]);
      r1 == start + HEADER && s2.inited && s2.freeList == start &&
      start in s2.headers && s2.headers[start] == Header(NULL, AlignUp(size, align), MAGIC_USED, 1)
  {
    FirstFitted(s0, start, n, size, align);
    var s1 := InitSpec(s0, start, n);
    WrapSmall(start + HEADER);
    AlignedInPlace(s1, size, align, [start]);
  }

  /**
   * The same request a second time then finds no free block and returns
   * NULL, whatever walk one picks, although almost the whole pool is unused.
   */
  lemma SecondAllocationFails(s0: PoolState, start: u32, n: u32, size: u32, align: u32)
    requires !s0.inited && Roomy(start, n, size, align)
    ensures var s1 := InitSpec(s0, start, n);
      Stops(s1, [start], Total(size, align)) &&
      var s2 := AllocAlignSpec(s1, size, align, [start]).0;
      Stops(s2, [start], Total(size, align)) &&
      forall w :: Stops(s2, w, Total(size, align)) ==> AllocAlignSpec(s2, size, align, w) == (s2, NULL)
  {
    FirstAllocation(s0, start, n, size, align);
    var s1 := InitSpec(s0, start, n);
    var s2 := AllocAlignSpec(s1, size, align, [start]).0;
    var total := Total(size, align);
    assert Stops(s2, [start], total);
    forall w | Stops(s2, w, total)
      ensures AllocAlignSpec(s2, size, align, w) == (s2, NULL)
    {
      StopsUnique(s2, w, [start], total);
    }
  }

  /** Freeing that first block makes the free list a loop onto itself. */
  lemma FreeMakesSelfLoop(s0: PoolState, start: u32, n: u32, size: u32, align: u32)
    requires !s0.inited && Roomy(start, n, size, align)
    ensures var s1 := InitSpec(s0, start, n);
      var (s2, r1) := AllocAlignSpec(s1, size, align, [start]);
      Wrap32(r1 - HEADER) in s2.headers &&
      var s3 := FreeSpec(s2, r1);
      s3.freeList == start && start in s3.headers &&
      s3.headers[start] == Header(start, AlignUp(size, align), MAGIC_FREE, 0)
  {
    FirstAllocation(s0, start, n, size, align);
    WrapCancel(start, -(HEADER as int));
    WrapSmall(start + HEADER);
  }

  /** A free list whose head loops onto itself and does not fit never lets the first-fit walk stop. */
  lemma SelfLoopHangs(s: PoolState, total: u32)
    requires s.freeList != NULL && s.freeList in s.headers
    requires s.headers[s.freeList].next == s.freeList && !Fits(s.headers[s.freeList], total)
    ensures forall w :: !Stops(s, w, total)
  {
    CycleHangs(s, [s.freeList], total);
  }

  /** After that free, the same request never returns. */
  lemma FreedPoolHangs(s0: PoolState, start: u32, n: u32, size: u32, align: u32)
    requires !s0.inited && Roomy(start, n, size, align)
    ensures var s1 := InitSpec(s0, start, n);
      var (s2, r1) := AllocAlignSpec(s1, size, align, [start]);
      Wrap32(r1 - HEADER) in s2.headers &&
      forall w :: !Stops(FreeSpec(s2, r1), w, Total(size, align))
  {
    FreeMakesSelfLoop(s0, start, n, size, align);
    var s1 := InitSpec(s0, start, n);
    var (s2, r1) := AllocAlignSpec(s1, size, align, [start]);
    WrapSmall(AlignUp(size, align) + HEADER + align);
    SelfLoopHangs(FreeSpec(s2, r1), Total(size, align));
  }
}
