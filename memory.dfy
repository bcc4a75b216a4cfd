/**
 * The bare-metal static pool allocator (Core/Src/akiegui_memory.c, whose
 * line numbers the comments below cite): AkieGUI_MemInit, MemAlloc,
 * MemAllocAlign, MemCalloc, MemFree, MemGetFree and MemGetUsed over g_mem
 * and g_mem_inited.
 *
 * Pointers are 32-bit addresses.  The block headers that live inside the
 * arena are a map from address to header record; the payload bytes that
 * MemCalloc clears are a second map from address to byte.  Every field is
 * a uint32_t (or uint8_t) and every update wraps as it does in C.
 */
module Memory {
  import opened Machine
  import opened Align

  /** sizeof(AkieGUI_Mem_Block_T) on the 32-bit target: next, size, magic, used, padding. */
  const HEADER: u32 := 16
  /** Magic of an allocated block. */
  const MAGIC_USED: u32 := 0xFEED_BEEF
  /** Magic of a free block. */
  const MAGIC_FREE: u32 := 0xDEAD_BEEF

  /** AkieGUI_Mem_Block_T. */
  datatype Header = Header(next: u32, size: u32, magic: u32, used: u8)

  /** g_mem (AkieGUI_Mem_T), g_mem_inited and the block headers found in memory. */
  datatype PoolState = PoolState(
    inited: bool,
    poolStart: u32,
    poolSize: u32,
    freeSize: u32,
    blockCount: u32,
    freeList: u32,
    headers: map<u32, Header>)

  /** The value MemGetUsed reports. */
  function Used(s: PoolState): u32
  {
    Wrap32(s.poolSize - s.freeSize)
  }

  /** The fit test of the free-list walk. */
  predicate Fits(h: Header, total: u32)
  {
    h.used == 0 && h.size >= total
  }

  /** total_size = ALIGN_UP(size, align) + sizeof(header) + align, in uint32_t. */
  function Total(size: u32, align: u32): u32
  {
    Wrap32(AlignUp(size, align) + HEADER + align)
  }

  // ---------------------------------------------------------------------
  // The free-list walk
  // ---------------------------------------------------------------------

  /** walk is the sequence of non-null headers reached by following next from free_list. */
  ghost predicate Chain(s: PoolState, walk: seq<u32>)
  {
    (forall j :: 0 <= j < |walk| ==> walk[j] != NULL && walk[j] in s.headers) &&
    (|walk| > 0 ==> walk[0] == s.freeList) &&
    (forall j :: 0 < j < |walk| ==> walk[j] == s.headers[walk[j - 1]].next)
  }

  /** The pointer read after visiting every block of walk. */
  ghost function After(s: PoolState, walk: seq<u32>): u32
    requires Chain(s, walk)
  {
    if |walk| == 0 then s.freeList else s.headers[walk[|walk| - 1]].next
  }

  /** The walk ends on a block that passes the fit test. */
  ghost predicate Found(s: PoolState, walk: seq<u32>, total: u32)
    requires Chain(s, walk)
  {
    |walk| > 0 && Fits(s.headers[walk[|walk| - 1]], total)
  }

  /**
   * walk is exactly what the loop of MemAllocAlign visits before it
   * stops: no block before the last one fits, and the walk either ends on
   * a fitting block or runs into NULL.  On a cyclic list without a fitting
   * block no such walk exists: the C loop does not terminate.
   */
  ghost predicate Stops(s: PoolState, walk: seq<u32>, total: u32)
  {
    Chain(s, walk) &&
    (forall j :: 0 <= j < |walk| - 1 ==> !Fits(s.headers[walk[j]], total)) &&
    (Found(s, walk, total) || After(s, walk) == NULL)
  }

  // ---------------------------------------------------------------------
  // Specification functions, one per state-changing operation
  // ---------------------------------------------------------------------

  /** MemInit(start, size) (lines 47-61). */
  ghost function InitSpec(s: PoolState, start: u32, size: u32): PoolState
  {
    if s.inited then s
    else PoolState(true, start, size, size, 0, start,
                   s.headers[start := Header(NULL, Wrap32(size - HEADER), MAGIC_FREE, 0)])
  }

  /**
   * Lines 122-172: carving the block curr found by the walk, prev being the
   * block visited before it (NULL when curr is the list head) and aligned
   * the aligned payload address computed at lines 120-121.
   */
  ghost function Carve(s: PoolState, curr: u32, prev: u32, sz: u32, aligned: u32): (PoolState, u32)
    requires curr in s.headers && (prev != NULL ==> prev in s.headers)
  {
    var dataPtr := Wrap32(curr + HEADER);
    var offset := Wrap32(aligned - dataPtr);
    if offset > 0 then
      // a new header just below the aligned address; curr keeps the gap
      var nb := Wrap32(aligned - HEADER);
      var m1 := s.headers[nb := Header(NULL, sz, MAGIC_USED, 1)];
      var m2 := m1[curr := m1[curr].(size := Wrap32(aligned - curr - 2 * HEADER), used := 0)];
      (s.(freeSize := Wrap32(s.freeSize - (sz + HEADER)),
          blockCount := Wrap32(s.blockCount + 1),
          headers := m2),
       Wrap32(nb + HEADER))
    else
      // curr itself is handed out and stays on the free list
      var m1 := s.headers[curr := s.headers[curr].(used := 1, size := sz, magic := MAGIC_USED)];
      var split := Split(s, m1, curr, prev, sz);
      var m := split.0;
      (s.(freeSize := Wrap32(s.freeSize - (m[curr].size + HEADER)),
          blockCount := Wrap32(s.blockCount + 1),
          freeList := split.1,
          headers := m),
       Wrap32(curr + HEADER))
  }

  /** Lines 150-166: the split test and, when it passes, the split; returns the headers and free_list. */
  ghost function Split(s: PoolState, m1: map<u32, Header>, curr: u32, prev: u32, sz: u32): (map<u32, Header>, u32)
    requires curr in m1 && (prev != NULL ==> prev in m1)
  {
    if m1[curr].size > Wrap32(sz + HEADER + ALIGN) then
      var nbk := Wrap32(curr + HEADER + sz);
      var c := m1[curr];
      var m2 := m1[nbk := Header(c.next, Wrap32(c.size - sz - HEADER), MAGIC_FREE, 0)];
      var m3 := if prev != NULL then m2[prev := m2[prev].(next := nbk)] else m2;
      var m4 := m3[curr := m3[curr].(next := NULL)];
      (m4[curr := m4[curr].(size := sz)], if prev != NULL then s.freeList else nbk)
    else
      (m1, s.freeList)
  }

  /** MemAllocAlign(size, align) (lines 94-176), given the walk its loop performs. */
  ghost function AllocAlignSpec(s: PoolState, size: u32, align: u32, walk: seq<u32>): (PoolState, u32)
    requires s.inited && size != 0 ==> Stops(s, walk, Total(size, align))
  {
    if !s.inited || size == 0 then (s, NULL)
    else if !Found(s, walk, Total(size, align)) then (s, NULL)
    else
      var curr := walk[|walk| - 1];
      Carve(s, curr, if |walk| == 1 then NULL else walk[|walk| - 2],
            AlignUp(size, align), AlignUp(Wrap32(curr + HEADER), align))
  }

  /** MemFree(ptr) (lines 211-232). */
  ghost function FreeSpec(s: PoolState, ptr: u32): PoolState
    requires ptr != NULL && s.inited ==> Wrap32(ptr - HEADER) in s.headers
  {
    if ptr == NULL || !s.inited then s
    else
      var b := Wrap32(ptr - HEADER);
      var h := s.headers[b];
      if h.magic != MAGIC_USED then s
      else s.(freeSize := Wrap32(s.freeSize + (h.size + HEADER)),
              blockCount := Wrap32(s.blockCount - 1),
              freeList := b,
              headers := s.headers[b := h.(used := 0, magic := MAGIC_FREE, next := s.freeList)])
  }

  /** The address of p[i] for a uint8_t pointer p. */
  function Addr(p: u32, i: int): u32
  {
    Wrap32(p + i)
  }

  /** Memory after the loop of MemCalloc has cleared p[0..n). */
  ghost function Zeroed(d: map<u32, u8>, p: u32, n: nat): map<u32, u8>
    decreases n
  {
    if n == 0 then d else Zeroed(d, p, n - 1)[Addr(p, n - 1) := 0]
  }

  /** Address k is one of p[0..n). */
  ghost predicate Covers(p: u32, n: nat, k: u32)
  {
    exists i :: 0 <= i < n && k == Addr(p, i)
  }

  // ---------------------------------------------------------------------
  // The allocator object
  // ---------------------------------------------------------------------

  class Pool {
    var inited: bool
    var poolStart: u32
    var poolSize: u32
    var freeSize: u32
    var blockCount: u32
    var freeList: u32
    var headers: map<u32, Header>
    var data: map<u32, u8>

    function State(): PoolState
      reads this
    {
      PoolState(inited, poolStart, poolSize, freeSize, blockCount, freeList, headers)
    }

    /** The zero-initialised statics g_mem and g_mem_inited. */
    constructor()
      ensures State() == PoolState(false, NULL, 0, 0, 0, NULL, map[]) && data == map[]
    {
      inited := false;
      poolStart, poolSize, freeSize, blockCount, freeList := NULL, 0, 0, 0, NULL;
      headers, data := map[], map[];
    }

    /** AkieGUI_MemInit. */
    method Init(start: u32, size: u32) returns (r: int)
      modifies this
      ensures r == 0
      ensures State() == InitSpec(old(State()), start, size) && data == old(data)
    {
      if inited {
        return 0;
      }
      poolStart := start;
      poolSize := size;
      freeSize := size;
      blockCount := 0;
      freeList := start;
      headers := headers[start := Header(NULL, Wrap32(size - HEADER), MAGIC_FREE, 0)];
      inited := true;
      return 0;
    }

    /** AkieGUI_MemAllocAlign; walk is the prefix of the free list its loop visits. */
    method AllocAlign(size: u32, align: u32, ghost walk: seq<u32>) returns (r: u32)
      requires inited && size != 0 ==> Stops(State(), walk, Total(size, align))
      modifies this
      ensures (State(), r) == AllocAlignSpec(old(State()), size, align, walk)
      ensures data == old(data)
    {
      if !inited || size == 0 {
        return NULL;
      }
      var sz := AlignUp(size, align);
      var total := Wrap32(sz + HEADER + align);
      var prev, curr := FindFit(total, walk);
      if curr == NULL {
        return NULL;
      }
      var dataPtr := Wrap32(curr + HEADER);
      var aligned := AlignUp(dataPtr, align);
      r := CarveBlock(curr, prev, sz, aligned);
    }

    /** The prev/curr walk of MemAllocAlign (lines 102-112). */
    method FindFit(total: u32, ghost walk: seq<u32>) returns (prev: u32, curr: u32)
      requires Stops(State(), walk, total)
      ensures curr == NULL <==> !Found(State(), walk, total)
      ensures curr != NULL ==> curr == walk[|walk| - 1] && prev == (if |walk| == 1 then NULL else walk[|walk| - 2])
    {
      prev := NULL;
      curr := freeList;
      ghost var i := 0;
      while curr != NULL
        invariant 0 <= i <= |walk|
        invariant curr == (if i == 0 then freeList else headers[walk[i - 1]].next)
        invariant prev == (if i == 0 then NULL else walk[i - 1])
        invariant forall j :: 0 <= j < i ==> !Fits(headers[walk[j]], total)
        invariant i < |walk| ==> curr == walk[i]
        invariant i == |walk| ==> curr == After(State(), walk)
        decreases |walk| - i
      {
        var h := headers[curr];
        if h.used == 0 && h.size >= total {
          break;
        }
        prev := curr;
        curr := h.next;
        i := i + 1;
      }
    }

    /** Lines 122-172: carving the block that the walk stopped at. */
    method CarveBlock(curr: u32, prev: u32, sz: u32, aligned: u32) returns (r: u32)
      requires curr in headers && (prev != NULL ==> prev in headers)
      modifies this
      ensures (State(), r) == Carve(old(State()), curr, prev, sz, aligned)
      ensures data == old(data)
    {
      var dataPtr := Wrap32(curr + HEADER);
      var offset := Wrap32(aligned - dataPtr);
      if offset > 0 {
        var newBlock := Wrap32(aligned - HEADER);
        headers := headers[newBlock := Header(NULL, sz, MAGIC_USED, 1)];
        headers := headers[curr := headers[curr].(size := Wrap32(aligned - curr - 2 * HEADER), used := 0)];
        freeSize := Wrap32(freeSize - (sz + HEADER));
        blockCount := Wrap32(blockCount + 1);
        r := Wrap32(newBlock + HEADER);
      } else {
        headers := headers[curr := headers[curr].(used := 1, size := sz, magic := MAGIC_USED)];
        SplitBlock(curr, prev, sz);
        freeSize := Wrap32(freeSize - (headers[curr].size + HEADER));
        blockCount := Wrap32(blockCount + 1);
        r := Wrap32(curr + HEADER);
      }
    }

    /** Lines 150-166: split the tail off curr when the test lets it through. */
    method SplitBlock(curr: u32, prev: u32, sz: u32)
      requires curr in headers && (prev != NULL ==> prev in headers)
      modifies this
      ensures (headers, freeList) == Split(old(State()), old(headers), curr, prev, sz)
      ensures inited == old(inited) && poolStart == old(poolStart) && poolSize == old(poolSize)
      ensures freeSize == old(freeSize) && blockCount == old(blockCount) && data == old(data)
    {
      if headers[curr].size > Wrap32(sz + HEADER + ALIGN) {
        var nextBlock := Wrap32(curr + HEADER + sz);
        var c := headers[curr];
        headers := headers[nextBlock := Header(c.next, Wrap32(c.size - sz - HEADER), MAGIC_FREE, 0)];
        if prev != NULL {
          headers := headers[prev := headers[prev].(next := nextBlock)];
        } else {
          freeList := nextBlock;
        }
        headers := headers[curr := headers[curr].(next := NULL)];
        headers := headers[curr := headers[curr].(size := sz)];
      }
    }

    /** AkieGUI_MemAlloc: MemAllocAlign with the default alignment. */
    method Alloc(size: u32, ghost walk: seq<u32>) returns (r: u32)
      requires inited && size != 0 ==> Stops(State(), walk, Total(size, ALIGN))
      modifies this
      ensures (State(), r) == AllocAlignSpec(old(State()), size, ALIGN, walk)
      ensures data == old(data)
    {
      r := AllocAlign(size, ALIGN, walk);
    }

    /** AkieGUI_MemCalloc: nmemb * size bytes (in uint32_t), cleared. */
    method Calloc(nmemb: u32, size: u32, ghost walk: seq<u32>) returns (r: u32)
      requires inited && Wrap32(nmemb * size) != 0 ==> Stops(State(), walk, Total(Wrap32(nmemb * size), ALIGN))
      modifies this
      ensures (State(), r) == AllocAlignSpec(old(State()), Wrap32(nmemb * size), ALIGN, walk)
      ensures data == if r == NULL then old(data) else Zeroed(old(data), r, Wrap32(nmemb * size))
    {
      var total := Wrap32(nmemb * size);
      r := Alloc(total, walk);
      if r != NULL {
        Clear(r, total);
      }
    }

    /** The clearing loop of MemCalloc: p[i] = 0 for every i < n. */
    method Clear(p: u32, n: u32)
      modifies this
      ensures State() == old(State()) && data == Zeroed(old(data), p, n)
    {
      for i := 0 to n
        invariant State() == old(State()) && data == Zeroed(old(data), p, i)
      {
        data := data[Addr(p, i) := 0];
      }
    }

    /** AkieGUI_MemFree. */
    method Free(ptr: u32)
      requires ptr != NULL && inited ==> Wrap32(ptr - HEADER) in headers
      modifies this
      ensures State() == FreeSpec(old(State()), ptr) && data == old(data)
    {
      if ptr == NULL || !inited {
        return;
      }
      var block := Wrap32(ptr - HEADER);
      if headers[block].magic != MAGIC_USED {
        return;
      }
      var h := headers[block];
      headers := headers[block := h.(used := 0, magic := MAGIC_FREE)];
      freeSize := Wrap32(freeSize + (h.size + HEADER));
      blockCount := Wrap32(blockCount - 1);
      headers := headers[block := headers[block].(next := freeList)];
      freeList := block;
    }

    /** AkieGUI_MemGetFree. */
    method GetFree() returns (r: u32)
      ensures r == freeSize
    {
      r := freeSize;
    }

    /** AkieGUI_MemGetUsed. */
    method GetUsed() returns (r: u32)
      ensures r == Used(State())
    {
      r := Wrap32(poolSize - freeSize);
    }
  }
}
