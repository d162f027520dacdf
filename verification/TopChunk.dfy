/** The chunk at the end of the heap: cutting requests from `top`, and growing it when the
    system extends the segment. */
module TopChunk {
  import opened Words
  import opened WordBits
  import opened TreeBins
  import opened MallocState
  import opened Boundaries
  import opened Invariant
  import opened Freeing
  import opened Taking

  /** The page size, to which the system's memory is rounded. */
  const GRANULARITY := 0x1000

  /** `granularity_align`, which wraps. */
  function GranularityAlign(s: int): int {
    var t := (s + (GRANULARITY - 1)) % WORD_LIMIT;
    t - t % GRANULARITY
  }

  // ---- writes above the last chunk ----

  /** Changes from the head of `top` up. */
  ghost predicate OnlyAbove(mem: Memory, mem': Memory, top: int) {
    forall a {:trigger Peek(mem', a)} :: Peek(mem', a) != Peek(mem, a) ==> a >= Head(top)
  }

  lemma AboveTags(mem: Memory, mem': Memory, chunks: Chunks, base: int, top: int)
    requires HeapOk(mem, chunks, base, top) && OnlyAbove(mem, mem', top)
    ensures HeapOk(mem', chunks, base, top)
  {
    hide Tiles, Flags, OnlyAbove;
    forall p | p in chunks
      ensures TagsAt(mem', chunks, p)
    {
      BoundaryAligned(chunks, base, top, p);
      assert TagsAt(mem, chunks, p);
      Below(mem, mem', top, Head(p));
      Below(mem, mem', top, PrevFoot(p));
      Below(mem, mem', top, PrevFoot(p + chunks[p].size));
      assert chunks[p].size >= MIN_CHUNK_SIZE by { ChunkAtLeast(chunks, base, top, p); }
    }
  }

  lemma ChunkAtLeast(chunks: Chunks, base: int, top: int, p: int)
    requires Tiles(chunks, base, top) && p in chunks
    ensures chunks[p].size >= MIN_CHUNK_SIZE
  {
    assert ChunkFits(chunks, base, top, p);
  }

  lemma Below(mem: Memory, mem': Memory, top: int, a: int)
    requires OnlyAbove(mem, mem', top)
    ensures a < Head(top) ==> Peek(mem', a) == Peek(mem, a)
  {
  }

  lemma AboveUntouched(mem: Memory, mem': Memory, chunks: Chunks, base: int, top: int)
    requires Tiles(chunks, base, top) && OnlyAbove(mem, mem', top)
    ensures Untouched(mem, mem', Live(chunks))
  {
    hide Tiles, OnlyAbove;
    var live := Live(chunks);
    forall x, a | x in live && PayloadWord(x, live[x], a)
      ensures Peek(mem', a) == Peek(mem, a)
    {
      BoundaryAligned(chunks, base, top, x);
      Below(mem, mem', top, a);
    }
  }

  lemma AboveBins(m: State, mem: Memory, chunks: Chunks, base: int, top: int)
    requires BinsOk(mem, m.smallmap, m.treemap, m.sizes, m.small, m.tree) && OnlyAbove(mem, m.mem, top)
    requires Tiles(chunks, base, top) && BinnedFree(chunks, m.sizes) && base >= GM_END
    ensures BinsOk(m.mem, m.smallmap, m.treemap, m.sizes, m.small, m.tree)
  {
    hide BinsOk, Tiles, OnlyAbove, LinkWord;
    forall a | Peek(m.mem, a) != Peek(mem, a)
      ensures !LinkWord(m.sizes, a) && !IsHead(m.sizes, a)
    {
      Below(mem, m.mem, top, a);
      FencepostNoLink(chunks, m.sizes, base, top, a);
      if IsHead(m.sizes, a) {
        var x :| x in m.sizes && a == Head(x);
        ChunkBelowTop(chunks, base, top, x);
      }
    }
    BinsKept(mem, m.mem, m.smallmap, m.treemap, m.sizes, m.small, m.tree);
  }

  // ---- one more chunk at the end ----

  lemma TopIsNoChunk(chunks: Chunks, base: int, top: int)
    requires Tiles(chunks, base, top)
    ensures top !in chunks
  {
    forall p | p in chunks
      ensures p < top
    {
      assert ChunkFits(chunks, base, top, p);
    }
  }

  lemma ExtendFits(chunks: Chunks, base: int, top: int, nb: nat, p: int)
    requires Tiles(chunks, base, top) && nb % 16 == 0 && nb >= MIN_CHUNK_SIZE && top !in chunks
    requires p in chunks || p == top
    ensures ChunkFits(chunks[top := Chunk(nb, true, true)], base, top + nb, p)
    ensures p != top ==> End(chunks, p) <= top
  {
    if p != top {
      assert ChunkFits(chunks, base, top, p);
    }
  }

  lemma ExtendTiles(chunks: Chunks, base: int, top: int, nb: nat)
    requires Tiles(chunks, base, top) && nb % 16 == 0 && nb >= MIN_CHUNK_SIZE
    ensures Tiles(chunks[top := Chunk(nb, true, true)], base, top + nb) && top !in chunks
  {
    var c' := chunks[top := Chunk(nb, true, true)];
    TopIsNoChunk(chunks, base, top);
    SumOf16(top, nb);
    hide ChunkFits;
    forall p | p in c'
      ensures ChunkFits(c', base, top + nb, p)
    {
      ExtendFits(chunks, base, top, nb, p);
    }
    forall p, q | p in c' && q in c'
      ensures Apart2(c', p, q)
    {
      ExtendFits(chunks, base, top, nb, p);
      ExtendFits(chunks, base, top, nb, q);
      assert p != top && q != top ==> Apart2(chunks, p, q);
    }
  }

  lemma ExtendFlags(chunks: Chunks, base: int, top: int, nb: nat)
    requires Tiles(chunks, base, top) && Flags(chunks, base, top) && nb > 0
    ensures Flags(chunks[top := Chunk(nb, true, true)], base, top + nb)
  {
    var c' := chunks[top := Chunk(nb, true, true)];
    forall p | p in c'
      ensures FlagsAt(c', top + nb, p)
    {
      if p != top {
        assert FlagsAt(chunks, top, p) && ChunkFits(chunks, base, top, p);
      } else if top + nb in chunks {
        assert ChunkFits(chunks, base, top, top + nb);
      }
    }
  }

  lemma ExtendTags(mem: Memory, chunks: Chunks, base: int, top: int, nb: nat)
    requires Tiles(chunks, base, top) && Tags(mem, chunks) && Peek(mem, Head(top)) == HeadWord(nb, true, true)
    ensures Tags(mem, chunks[top := Chunk(nb, true, true)])
  {
    var c' := chunks[top := Chunk(nb, true, true)];
    TopIsNoChunk(chunks, base, top);
    forall p | p in c'
      ensures TagsAt(mem, c', p)
    {
      assert p != top ==> TagsAt(mem, chunks, p);
    }
  }

  lemma ExtendHeap(mem: Memory, chunks: Chunks, base: int, top: int, nb: nat)
    requires HeapOk(mem, chunks, base, top) && nb % 16 == 0 && nb >= MIN_CHUNK_SIZE
    requires Peek(mem, Head(top)) == HeadWord(nb, true, true)
    ensures HeapOk(mem, chunks[top := Chunk(nb, true, true)], base, top + nb) && top !in chunks
  {
    hide Tiles, Flags, Tags;
    ExtendTiles(chunks, base, top, nb);
    ExtendFlags(chunks, base, top, nb);
    ExtendTags(mem, chunks, base, top, nb);
  }

  // ---- splitting top ----

  lemma CutWords(mem: Memory, base: int, size: int, top: int, topsize: int, nb: nat)
    requires TopOk(mem, base, size, top, topsize) && MIN_CHUNK_SIZE <= nb < topsize && nb % 16 == 0
    ensures var mem' := mem[Head(top + nb) := HeadWord(topsize - nb, false, true)]
          [Head(top) := HeadWord(nb, true, true)];
            && OnlyAbove(mem, mem', top) && TopOk(mem', base, size, top + nb, topsize - nb)
            && Peek(mem', Head(top)) == HeadWord(nb, true, true)
  {
  }

  lemma TopMapped(m: State, nb: int)
    requires Valid(m) && 0 <= nb < m.topsize && nb % 16 == 0
    ensures m.Mapped(Head(m.top + nb)) && m.Mapped(Head(m.top)) && m.top > 0 && m.top % 16 == 0
  {
    hide State.Bins, Flags, Tags, Placed;
    SumOf16(m.top, nb);
    AlignedMapped(m, m.top + nb);
    AlignedMapped(m, m.top);
  }

  /** What is left to say once the words of the cut are written. */
  lemma CutDone(m: State, s: Snapshot, nb: nat)
    requires Sound(s) && BinsOk(s.mem, m.smallmap, m.treemap, m.sizes, m.small, m.tree)
    requires m.mem == s.mem[Head(s.top + nb) := HeadWord(s.topsize - nb, false, true)]
          [Head(s.top) := HeadWord(nb, true, true)]
    requires MIN_CHUNK_SIZE <= nb < s.topsize && nb % 16 == 0
    requires m.top == s.top + nb && m.topsize == s.topsize - nb && m.chunks == s.chunks[s.top := Chunk(nb, true, true)]
    requires m.sizes == s.sizes && m.dv == s.dv && m.dvsize == s.dvsize && m.segBase == s.base && m.segSize == s.size
    requires Within(m.sizes, m.segBase, m.segBase + m.segSize) && m.footprint == m.segSize <= m.maxFootprint
    ensures Allocated(m, s, s.top, nb)
  {
    hide Tiles, Flags, Tags, BinsOk, Within, OnlyAbove, Untouched;
    PlacedFree(s.chunks, s.sizes, s.dv, s.dvsize);
    CutWords(s.mem, s.base, s.size, s.top, s.topsize, nb);
    AboveTags(s.mem, m.mem, s.chunks, s.base, s.top);
    AboveUntouched(s.mem, m.mem, s.chunks, s.base, s.top);
    AboveBins(m, s.mem, s.chunks, s.base, s.top);
    ExtendHeap(m.mem, s.chunks, s.base, s.top, nb);
    ExtendLive(s.chunks, s.top, nb);
    TopPositive(s);
  }

  lemma ExtendLive(chunks: Chunks, top: int, nb: nat)
    requires top !in chunks
    ensures Live(chunks[top := Chunk(nb, true, true)]) == Live(chunks)[top := nb]
  {
  }

  /** Serving `nb` bytes from the start of `top`. */
  method SplitTop(m: State, nb: nat) returns (mem: int)
    requires Valid(m) && MIN_CHUNK_SIZE <= nb < m.topsize && nb % 16 == 0
    modifies m`mem, m`top, m`topsize, m`chunks
    ensures mem == old(m.top) + 16 && mem > 16 && Allocated(m, old(Snap(m)), old(m.top), nb)
    ensures m.top == old(m.top) + nb && m.topsize == old(m.topsize) - nb
  {
    hide *;
    ghost var s := Snap(m);
    CutStart(m, nb);
    m.topsize := m.topsize - nb;
    var rsize := m.topsize;
    var p := m.top;
    m.top := p + nb;
    var r := m.top;
    m.Put(Head(r), HeadWord(rsize, false, true));
    SetSizeAndPinuseOfInuseChunk(m, p, nb);
    m.chunks := m.chunks[p := Chunk(nb, true, true)];
    CutDone(m, s, nb);
    mem := p + 16;
  }

  lemma CutStart(m: State, nb: nat)
    requires Valid(m) && MIN_CHUNK_SIZE <= nb < m.topsize && nb % 16 == 0
    ensures var s := Snap(m);
            && Sound(s) && BinsOk(s.mem, m.smallmap, m.treemap, m.sizes, m.small, m.tree)
            && s.mem == m.mem && m.chunks == s.chunks && s.top == m.top && s.topsize == m.topsize
            && m.sizes == s.sizes && m.dv == s.dv && m.dvsize == s.dvsize && m.segBase == s.base && m.segSize == s.size
            && Within(m.sizes, m.segBase, m.segBase + m.segSize) && m.footprint == m.segSize <= m.maxFootprint
            && m.Mapped(Head(m.top + nb)) && m.Mapped(Head(m.top)) && m.top > 0
  {
    hide Tiles, Flags, Tags, BinsOk;
    ValidSound(m);
    TopMapped(m, nb);
    TopMapped(m, 0);
  }

  // ---- growing ----

  /** `init_top` on a chunk whose payload is aligned. */
  method InitTop(m: State, p: int, psize: int)
    requires p % 16 == 0 && m.Mapped(Head(p)) && m.Mapped(Head(p + psize))
    modifies m`mem, m`top, m`topsize
    ensures m.top == p && m.topsize == psize
    ensures m.mem == old(m.mem)[Head(p) := HeadWord(psize, false, true)][Head(p + psize) := TOP_FOOT_SIZE]
  {
    m.top := p;
    m.topsize := psize;
    m.Put(Head(p), HeadWord(psize, false, true));
    m.Put(Head(p + psize), TOP_FOOT_SIZE);
  }

  /** The segment and `top` have grown by `tsize`; nothing else has changed for the caller. */
  ghost predicate Grown(m: State, s: Snapshot, tsize: int)
    reads m
  {
    && Valid(m) && m.chunks == s.chunks && m.sizes == s.sizes && m.dv == s.dv && m.dvsize == s.dvsize
    && m.top == s.top && m.topsize == s.topsize + tsize && m.segBase == s.base && m.segSize == s.size + tsize
    && Untouched(s.mem, m.mem, Live(s.chunks))
  }

  lemma GrownWords(mem: Memory, base: int, size: int, top: int, topsize: int, tsize: nat)
    requires TopOk(mem, base, size, top, topsize) && tsize % 16 == 0 && tsize > 0
    ensures var mem' := mem[Head(top) := HeadWord(topsize + tsize, false, true)]
          [Head(top + (topsize + tsize)) := TOP_FOOT_SIZE];
            OnlyAbove(mem, mem', top) && TopOk(mem', base, size + tsize, top, topsize + tsize)
  {
  }

  lemma GrowDone(m: State, s: Snapshot, tsize: nat)
    requires Sound(s) && BinsOk(s.mem, m.smallmap, m.treemap, m.sizes, m.small, m.tree) && tsize % 16 == 0 && tsize > 0
    requires m.mem == s.mem[Head(s.top) := HeadWord(s.topsize + tsize, false, true)]
                           [Head(s.top + (s.topsize + tsize)) := TOP_FOOT_SIZE]
    requires m.top == s.top && m.topsize == s.topsize + tsize && m.chunks == s.chunks
    requires m.sizes == s.sizes && m.dv == s.dv && m.dvsize == s.dvsize && m.segBase == s.base
    requires m.segSize == s.size + tsize
    requires Within(m.sizes, s.base, s.base + s.size) && m.segBase + m.segSize < WORD_LIMIT
    requires m.footprint == m.segSize <= m.maxFootprint
    ensures Grown(m, s, tsize)
  {
    hide Tiles, Flags, Tags, BinsOk, OnlyAbove, Untouched;
    PlacedFree(s.chunks, s.sizes, s.dv, s.dvsize);
    GrownWords(s.mem, s.base, s.size, s.top, s.topsize, tsize);
    AboveTags(s.mem, m.mem, s.chunks, s.base, s.top);
    AboveUntouched(s.mem, m.mem, s.chunks, s.base, s.top);
    AboveBins(m, s.mem, s.chunks, s.base, s.top);
  }

  /** The append path of `sys_alloc`: the system extends the segment in place by `tsize`. */
  method Append(m: State, tsize: nat)
    requires Valid(m) && tsize > 0 && tsize % 16 == 0 && m.segBase + m.segSize + tsize < WORD_LIMIT
    modifies m`mem, m`top, m`topsize, m`segSize, m`footprint, m`maxFootprint
    ensures Grown(m, old(Snap(m)), tsize)
    ensures m.maxFootprint == if m.footprint > old(m.maxFootprint) then m.footprint else old(m.maxFootprint)
  {
    hide *;
    ghost var s := Snap(m);
    GrowStart(m, tsize);
    m.footprint := m.footprint + tsize;
    if m.footprint > m.maxFootprint {
      m.maxFootprint := m.footprint;
    }
    m.segSize := m.segSize + tsize;
    GrownMapped(m, s, tsize);
    InitTop(m, m.top, m.topsize + tsize);
    GrowDone(m, s, tsize);
  }

  lemma GrowStart(m: State, tsize: nat)
    requires Valid(m)
    ensures var s := Snap(m);
            && Sound(s) && BinsOk(s.mem, m.smallmap, m.treemap, m.sizes, m.small, m.tree)
            && s.mem == m.mem && m.chunks == s.chunks && s.top == m.top && s.topsize == m.topsize
            && m.sizes == s.sizes && m.dv == s.dv && m.dvsize == s.dvsize && m.segBase == s.base && m.segSize == s.size
            && Within(m.sizes, s.base, s.base + s.size) && m.footprint == m.segSize <= m.maxFootprint
  {
    hide Tiles, Flags, Tags, BinsOk;
    ValidSound(m);
  }

  lemma TopEnds(s: Snapshot)
    requires Sound(s)
    ensures s.top % 16 == 0 && s.topsize % 16 == 0 && s.topsize > 0 && s.base <= s.top
    ensures s.top + s.topsize + 16 <= s.base + s.size
  {
    hide Flags, Tags, Placed;
  }

  lemma GrownMapped(m: State, s: Snapshot, tsize: nat)
    requires Sound(s) && m.segBase == s.base && m.segSize == s.size + tsize && tsize % 16 == 0
    ensures m.Mapped(Head(s.top)) && m.Mapped(Head(s.top + (s.topsize + tsize))) && s.top % 16 == 0
  {
    TopEnds(s);
    hide *;
    SumOf16(s.topsize, tsize);
    SumOf16(s.top, s.topsize + tsize);
    AlignedMapped(m, s.top);
    AlignedMapped(m, s.top + (s.topsize + tsize));
  }

  /** The size of the request to the system for a request of `nb` bytes that top cannot serve. */
  function SystemRequest(nb: int, topsize: int): int {
    GranularityAlign((Minus(nb, topsize) + SYS_ALLOC_PADDING) % WORD_LIMIT)
  }

  /** `nb` bytes are taken from the start of `top`, after the segment has grown if need be. */
  ghost function TakeTop(sh: Shelf, nb: nat): Shelf {
    if nb < sh.topsize then sh.(top := sh.top + nb, topsize := sh.topsize - nb)
    else
      var g := SystemRequest(nb, sh.topsize);
      var size := sh.size + g;
      sh.(top := sh.top + nb, topsize := sh.topsize + g - nb, size := size,
          peak := if size > sh.peak then size else sh.peak)
  }

  const HALF_MAX_SIZE_T := MAX_SIZE_T / 2

  /** The guards of `sys_alloc`, and that the extended segment ends within the address space. */
  predicate Extends(end: int, nb: int, topsize: int) {
    && nb < GranularityAlign((nb + SYS_ALLOC_PADDING) % WORD_LIMIT)
    && SystemRequest(nb, topsize) < HALF_MAX_SIZE_T && end + SystemRequest(nb, topsize) < WORD_LIMIT
  }

  lemma PageFloor(t: nat)
    ensures var g := t - t % GRANULARITY; g % 16 == 0 && t - GRANULARITY < g <= t && g >= 0
  {
    var q := t / GRANULARITY;
    assert t == GRANULARITY * q + t % GRANULARITY;
    QuotientIs(GRANULARITY * q, 16, 256 * q, 0);
  }

  lemma WrapAround(x: nat)
    requires x < 2 * WORD_LIMIT
    ensures x % WORD_LIMIT == if x < WORD_LIMIT then x else x - WORD_LIMIT
  {
    if x < WORD_LIMIT {
      QuotientIs(x, WORD_LIMIT, 0, x);
    } else {
      QuotientIs(x, WORD_LIMIT, 1, x - WORD_LIMIT);
    }
  }

  /** Rounding up to whole pages, unless that wraps. */
  lemma PagesUp(x: nat)
    requires x < WORD_LIMIT
    ensures var g := GranularityAlign(x);
            g % 16 == 0 && g >= 0 && if x + GRANULARITY <= WORD_LIMIT then x <= g < x + GRANULARITY else g < GRANULARITY
  {
    WrapAround(x + (GRANULARITY - 1));
    PageFloor((x + (GRANULARITY - 1)) % WORD_LIMIT);
  }

  /** When the guards let a request through, none of its sums has wrapped. */
  lemma ExtensionFits(end: int, nb: nat, topsize: nat)
    requires Extends(end, nb, topsize) && topsize <= nb < WORD_LIMIT
    ensures nb + SYS_ALLOC_PADDING + GRANULARITY <= WORD_LIMIT
    ensures var ssize := SystemRequest(nb, topsize);
            ssize >= nb - topsize + SYS_ALLOC_PADDING && ssize % 16 == 0 && end + ssize < WORD_LIMIT
  {
    hide GranularityAlign;
    WrapAround(nb + SYS_ALLOC_PADDING);
    PagesUp((nb + SYS_ALLOC_PADDING) % WORD_LIMIT);
    WrapAround(nb - topsize + SYS_ALLOC_PADDING);
    PagesUp((nb - topsize + SYS_ALLOC_PADDING) % WORD_LIMIT);
  }

  lemma PageMultiple(x: nat)
    requires x + GRANULARITY <= WORD_LIMIT
    ensures GranularityAlign(x) % GRANULARITY == 0
  {
    var t := x + (GRANULARITY - 1);
    WrapAround(t);
    var q := t / GRANULARITY;
    assert t == GRANULARITY * q + t % GRANULARITY;
    QuotientIs(GRANULARITY * q, GRANULARITY, q, 0);
  }

  /** In one stretch of a page there is one multiple of its size. */
  lemma OnePage(x: int, g: int, h: int)
    requires g % GRANULARITY == 0 && h % GRANULARITY == 0
    requires x <= g < x + GRANULARITY && x <= h < x + GRANULARITY
    ensures g == h
  {
    var i, j := g / GRANULARITY, h / GRANULARITY;
    assert g == GRANULARITY * i && h == GRANULARITY * j;
  }

  /** The system is asked for the whole pages `g` that are needed, and exactly when the request
      is not within two pages of the end of the words, these are less than half of all, and the
      segment stays below the end of the address space. */
  lemma AskedFor(end: nat, nb: nat, topsize: nat, g: int)
    requires topsize <= nb < 0x1_0000_0000_0000_0000 && g % 4096 == 0
    requires nb - topsize + 96 <= g < nb - topsize + 96 + 4096
    ensures Extends(end, nb, topsize) <==>
            nb + 96 + 4096 <= 0x1_0000_0000_0000_0000 && g < 0x7FFF_FFFF_FFFF_FFFF
            && end + g < 0x1_0000_0000_0000_0000
    ensures nb + 96 + 4096 <= 0x1_0000_0000_0000_0000 ==> SystemRequest(nb, topsize) == g
  {
    if Extends(end, nb, topsize) {
      ExtensionFits(end, nb, topsize);
    }
    if nb + SYS_ALLOC_PADDING + GRANULARITY <= WORD_LIMIT {
      WrapAround(nb + SYS_ALLOC_PADDING);
      PagesUp(nb + SYS_ALLOC_PADDING);
      WrapAround(nb - topsize + SYS_ALLOC_PADDING);
      PagesUp(nb - topsize + SYS_ALLOC_PADDING);
      PageMultiple(nb - topsize + SYS_ALLOC_PADDING);
      OnePage(nb - topsize + 96, g, SystemRequest(nb, topsize));
    }
  }

  /** `sys_alloc`, when the segment can only be extended in place or not at all: `grows` is
      what the system answers. */
  method SysAlloc(m: State, nb: nat, grows: bool) returns (mem: int)
    requires Valid(m) && m.topsize <= nb < WORD_LIMIT
    requires nb == MAX_SIZE_T || (nb % 16 == 0 && nb >= MIN_CHUNK_SIZE)
    modifies m
    ensures old(m.trace) <= m.trace && (old(m.Chronicled()) ==> m.Chronicled())
    ensures mem == 0 <==> !grows || !Extends(old(m.segBase) + old(m.segSize), nb, old(m.topsize))
    ensures mem == 0 ==> unchanged(m)
    ensures mem != 0 ==> mem == old(m.top) + 16 && Allocated(m, old(Snap(m)), old(m.top), nb)
    ensures mem != 0 ==> ShelfOf(Snap(m)) == TakeTop(old(ShelfOf(Snap(m))), nb)
  {
    hide *;
    mem := 0;
    ShelfIs(m);
    TopTaken(Shelf(m.dv, m.dvsize, m.top, m.topsize, m.trace, m.segSize, m.maxFootprint), nb);
    GuardsAre(m.segBase + m.segSize, nb, m.topsize);
    var asize := GranularityAlign((nb + SYS_ALLOC_PADDING) % WORD_LIMIT);
    if nb < asize {
      var ssize := SystemRequest(nb, m.topsize);
      if ssize < HALF_MAX_SIZE_T && m.segBase + m.segSize + ssize < WORD_LIMIT && grows {
        ghost var s := Snap(m);
        RequestFits(m, nb);
        Append(m, ssize);
        GrownServes(m, s, nb, ssize);
        ghost var s1 := Snap(m);
        if nb < m.topsize {
          mem := SplitTop(m, nb);
          GrownThenCut(m, s, s1, nb, ssize);
          ShelfIs(m);
        }
      }
    }
  }

  lemma TopTaken(sh: Shelf, nb: nat)
    ensures nb < sh.topsize ==>
              TakeTop(sh, nb) == Shelf(sh.dv, sh.dvsize, sh.top + nb, sh.topsize - nb, sh.trace, sh.size, sh.peak)
    ensures var g := SystemRequest(nb, sh.topsize);
            nb >= sh.topsize ==>
              TakeTop(sh, nb) == Shelf(sh.dv, sh.dvsize, sh.top + nb, sh.topsize + g - nb, sh.trace, sh.size + g,
                                       if sh.size + g > sh.peak then sh.size + g else sh.peak)
  {
  }

  lemma GuardsAre(end: int, nb: int, topsize: int)
    ensures Extends(end, nb, topsize) <==>
            nb < GranularityAlign((nb + SYS_ALLOC_PADDING) % WORD_LIMIT)
            && SystemRequest(nb, topsize) < HALF_MAX_SIZE_T && end + SystemRequest(nb, topsize) < WORD_LIMIT
  {
  }

  lemma RequestFits(m: State, nb: nat)
    requires Valid(m) && m.topsize <= nb < WORD_LIMIT && Extends(m.segBase + m.segSize, nb, m.topsize)
    requires nb == MAX_SIZE_T || (nb % 16 == 0 && nb >= MIN_CHUNK_SIZE)
    ensures var ssize := SystemRequest(nb, m.topsize);
            && ssize > 0 && ssize % 16 == 0 && m.segBase + m.segSize + ssize < WORD_LIMIT
            && nb < m.topsize + ssize && nb % 16 == 0 && nb >= MIN_CHUNK_SIZE
            && Snap(m).topsize == m.topsize && Snap(m).top == m.top && Snap(m).size == m.segSize
  {
    hide State.Bins, HeapOk, Placed, Extends, SystemRequest;
    ExtensionFits(m.segBase + m.segSize, nb, m.topsize);
  }

  lemma GrownServes(m: State, s: Snapshot, nb: nat, ssize: int)
    requires Grown(m, s, ssize) && nb < s.topsize + ssize
    ensures Valid(m) && nb < m.topsize && m.top == s.top && m.topsize == s.topsize + ssize
    ensures m.segSize == m.footprint == s.size + ssize
    ensures var s1 := Snap(m);
            && s1.top == m.top && s1.chunks == s.chunks && s1.base == s.base && s1.size == s.size + ssize
            && Untouched(s.mem, s1.mem, Live(s.chunks))
  {
    hide State.Bins, HeapOk, Placed, TopOk, Untouched;
  }

  lemma GrownThenCut(m: State, s: Snapshot, s1: Snapshot, nb: nat, ssize: int)
    requires Allocated(m, s1, s1.top, nb) && s1.top == s.top && s1.chunks == s.chunks && s1.base == s.base
    requires s1.size == s.size + ssize && ssize > 0 && Untouched(s.mem, s1.mem, Live(s.chunks))
    ensures Allocated(m, s, s.top, nb)
  {
    hide Valid;
  }
}
