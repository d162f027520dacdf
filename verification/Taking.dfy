/** Taking a free chunk into use, whole or split: the steps shared by all paths of `dlmalloc`
    that do not come from top. */
module Taking {
  import opened Words
  import opened TreeBins
  import opened BinHistory
  import opened MallocState
  import opened Boundaries
  import opened Invariant
  import opened SmallChunks
  import opened Freeing

  /** All free chunks, binned or designated victim. */
  ghost function AllFree(chunks: Chunks): Sizes {
    map x | x in chunks && !chunks[x].cinuse :: chunks[x].size
  }

  /** A new live chunk `p` of at least `nb` bytes, wasting less than a chunk; nothing else
      has changed for the caller. */
  ghost predicate Allocated(m: State, s: Snapshot, p: int, nb: int)
    reads m
  {
    && Valid(m) && p !in Live(s.chunks) && p in Live(m.chunks) && m.chunks[p].pinuse
    && Live(m.chunks) == Live(s.chunks)[p := Live(m.chunks)[p]]
    && nb <= Live(m.chunks)[p] < nb + MIN_CHUNK_SIZE && p > 0 && p % 16 == 0
    && Untouched(s.mem, m.mem, Live(s.chunks))
    && m.segBase == s.base && m.segSize >= s.size
  }

  lemma AllFreeBinned(s: Snapshot)
    requires Sound(s)
    ensures BinnedFree(s.chunks, AllFree(s.chunks))
    ensures forall x :: x in s.sizes ==> x in AllFree(s.chunks) && AllFree(s.chunks)[x] == s.sizes[x]
  {
  }

  // ---- the two ways of using chunk [v, hi) ----

  ghost function Whole(v: int, hi: int): Chunks
    requires v <= hi
  {
    map[v := Chunk(hi - v, true, true)]
  }

  ghost function Halves(v: int, nb: nat, hi: int): Chunks
    requires v + nb <= hi
  {
    map[v := Chunk(nb, true, true), v + nb := Chunk(hi - v - nb, false, true)]
  }

  /** A free chunk of the heap, and the chunk in use after it. */
  ghost predicate Usable(s: Snapshot, v: int, hi: int) {
    && Sound(s) && v in s.chunks && !s.chunks[v].cinuse && s.chunks[v].pinuse && hi == End(s.chunks, v)
    && v < hi && hi in s.chunks && s.chunks[hi].cinuse && !s.chunks[hi].pinuse
    && v % 16 == 0 && hi % 16 == 0 && v + MIN_CHUNK_SIZE <= hi
    && IsRegion(s.chunks, s.base, s.top, v, hi)
    && (forall x :: x in s.chunks && v <= x < hi ==> x == v)
  }

  lemma FreeIsUsable(s: Snapshot, v: int)
    requires Sound(s) && v in s.chunks && !s.chunks[v].cinuse
    ensures Usable(s, v, End(s.chunks, v))
  {
    var hi := End(s.chunks, v);
    assert ChunkFits(s.chunks, s.base, s.top, v) && FlagsAt(s.chunks, s.top, v);
    BoundaryAligned(s.chunks, s.base, s.top, hi);
    forall x | x in s.chunks && v <= x < hi
      ensures x == v
    {
      assert Apart2(s.chunks, x, v);
      assert ChunkFits(s.chunks, s.base, s.top, x);
    }
  }

  lemma WholeHeap(mem: Memory, s: Snapshot, v: int, hi: int)
    requires Usable(s, v, hi) && OnlyRegion(s.mem, mem, AllFree(s.chunks), v, hi)
    requires Peek(mem, Head(v)) == HeadWord(hi - v, true, true)
    requires Peek(mem, Head(hi)) == HeadWord(s.chunks[hi].size, true, true)
    ensures HeapOk(mem, Retile(s.chunks, v, hi, Whole(v, hi), true), s.base, s.top)
    ensures InRegion(Whole(v, hi), v, hi)
  {
    hide Tiles, Flags, Tags, OnlyRegion, Retile;
    AllFreeBinned(s);
    WholeTiles(v, hi);
    RetileHeap(s.mem, mem, s.chunks, AllFree(s.chunks), s.base, s.top, v, hi, Whole(v, hi), true);
  }

  lemma WholeTiles(v: int, hi: int)
    requires v % 16 == 0 && hi % 16 == 0 && v + MIN_CHUNK_SIZE <= hi
    ensures Tiles(Whole(v, hi), v, hi) && InRegion(Whole(v, hi), v, hi)
  {
  }

  lemma HalvesTiles(v: int, nb: nat, hi: int)
    requires v % 16 == 0 && hi % 16 == 0 && nb % 16 == 0 && nb >= MIN_CHUNK_SIZE && v + nb + MIN_CHUNK_SIZE <= hi
    ensures Tiles(Halves(v, nb, hi), v, hi) && InRegion(Halves(v, nb, hi), v, hi)
  {
    var news := Halves(v, nb, hi);
    forall p | p in news
      ensures ChunkFits(news, v, hi, p)
    {
    }
    forall p, q | p in news && q in news
      ensures Apart2(news, p, q)
    {
    }
  }

  lemma HalvesHeap(mem: Memory, s: Snapshot, v: int, nb: nat, hi: int)
    requires Usable(s, v, hi) && nb % 16 == 0 && nb >= MIN_CHUNK_SIZE && v + nb + MIN_CHUNK_SIZE <= hi
    requires OnlyRegion(s.mem, mem, AllFree(s.chunks), v, hi)
    requires Peek(mem, Head(v)) == HeadWord(nb, true, true)
    requires Peek(mem, Head(v + nb)) == HeadWord(hi - v - nb, false, true) && Peek(mem, PrevFoot(hi)) == hi - v - nb
    requires Peek(mem, Head(hi)) == HeadWord(s.chunks[hi].size, true, false)
    ensures HeapOk(mem, Retile(s.chunks, v, hi, Halves(v, nb, hi), false), s.base, s.top)
    ensures InRegion(Halves(v, nb, hi), v, hi)
  {
    hide Tiles, Flags, Tags, OnlyRegion, Retile;
    AllFreeBinned(s);
    HalvesTiles(v, nb, hi);
    HalvesFlags(v, nb, hi);
    HalvesTags(mem, s, v, nb, hi);
    RetileHeap(s.mem, mem, s.chunks, AllFree(s.chunks), s.base, s.top, v, hi, Halves(v, nb, hi), false);
  }

  lemma HalvesFlags(v: int, nb: nat, hi: int)
    requires nb >= MIN_CHUNK_SIZE && v + nb + MIN_CHUNK_SIZE <= hi
    ensures FlagsWithin(Halves(v, nb, hi), v, hi, true, false)
    ensures forall p {:trigger p in Halves(v, nb, hi)} :: p in Halves(v, nb, hi) ==> Halves(v, nb, hi)[p].pinuse
  {
    var news := Halves(v, nb, hi);
    forall p | p in news
      ensures NewFlagsAt(news, hi, false, p)
    {
    }
  }

  lemma HalvesTags(mem: Memory, s: Snapshot, v: int, nb: nat, hi: int)
    requires hi in s.chunks && nb >= MIN_CHUNK_SIZE && v + nb + MIN_CHUNK_SIZE <= hi && s.chunks[hi].cinuse
    requires Peek(mem, Head(v)) == HeadWord(nb, true, true)
    requires Peek(mem, Head(v + nb)) == HeadWord(hi - v - nb, false, true) && Peek(mem, PrevFoot(hi)) == hi - v - nb
    requires Peek(mem, Head(hi)) == HeadWord(s.chunks[hi].size, true, false)
    ensures NewTags(mem, s.chunks, v, hi, Halves(v, nb, hi), false)
  {
    var news := Halves(v, nb, hi);
    forall p | p in news
      ensures NewTagsAt(mem, news, p)
    {
    }
  }

  lemma WholeLive(s: Snapshot, v: int, hi: int)
    requires Usable(s, v, hi)
    ensures InRegion(Whole(v, hi), v, hi)
    ensures Live(Retile(s.chunks, v, hi, Whole(v, hi), true)) == Live(s.chunks)[v := hi - v]
  {
    hide Retile;
    WholeTiles(v, hi);
    LiveRetile(s.chunks, v, hi, Whole(v, hi), true);
  }

  lemma HalvesLive(s: Snapshot, v: int, nb: nat, hi: int)
    requires Usable(s, v, hi) && nb % 16 == 0 && nb >= MIN_CHUNK_SIZE && v + nb + MIN_CHUNK_SIZE <= hi
    ensures InRegion(Halves(v, nb, hi), v, hi)
    ensures Live(Retile(s.chunks, v, hi, Halves(v, nb, hi), false)) == Live(s.chunks)[v := nb]
  {
    hide Retile;
    HalvesTiles(v, nb, hi);
    LiveRetile(s.chunks, v, hi, Halves(v, nb, hi), false);
  }

  lemma UsablePayloads(m: State, s: Snapshot, v: int, hi: int)
    requires Usable(s, v, hi) && OnlyRegion(s.mem, m.mem, AllFree(s.chunks), v, hi)
    ensures Untouched(s.mem, m.mem, Live(s.chunks))
  {
    hide Tiles, Flags, Tags, OnlyRegion, Untouched;
    AllFreeBinned(s);
    RegionUntouched(s.mem, m.mem, s.chunks, AllFree(s.chunks), s.base, s.top, v, hi, Live(s.chunks));
  }

  lemma UsableTop(m: State, s: Snapshot, v: int, hi: int)
    requires Usable(s, v, hi) && OnlyRegion(s.mem, m.mem, AllFree(s.chunks), v, hi)
    ensures TopOk(m.mem, s.base, s.size, s.top, s.topsize)
  {
    hide Flags, Tags, OnlyRegion;
    AllFreeBinned(s);
    ChunkBelowTop(s.chunks, s.base, s.top, hi);
    TopKept(s.mem, m.mem, s.chunks, AllFree(s.chunks), s.base, s.size, s.top, s.topsize, v, hi);
  }

  /** Fields other than the bins and the designated victim are as they were. */
  ghost predicate SameSegment(m: State, s: Snapshot)
    reads m`segBase, m`segSize, m`top, m`topsize, m`footprint, m`maxFootprint
  {
    && m.segBase == s.base && m.segSize == s.size && m.top == s.top && m.topsize == s.topsize
    && m.footprint == m.segSize <= m.maxFootprint
  }

  lemma WholeAllocated(m: State, s: Snapshot, v: int, hi: int, nb: int)
    requires Usable(s, v, hi) && OnlyRegion(s.mem, m.mem, AllFree(s.chunks), v, hi)
    requires Peek(m.mem, Head(v)) == HeadWord(hi - v, true, true)
    requires Peek(m.mem, Head(hi)) == HeadWord(s.chunks[hi].size, true, true)
    requires m.chunks == Retile(s.chunks, v, hi, Whole(v, hi), true)
    requires m.Bins() && Placed(m.chunks, m.sizes, m.dv, m.dvsize) && SameSegment(m, s)
    requires nb <= hi - v < nb + MIN_CHUNK_SIZE
    ensures Allocated(m, s, v, nb)
  {
    hide Tiles, Flags, Tags, OnlyRegion, Retile, BinsOk, Within, Placed, Untouched, HeapOk;
    WholeHeap(m.mem, s, v, hi);
    WholeLive(s, v, hi);
    RetileAt(s.chunks, v, hi, Whole(v, hi), true, v);
    UsablePayloads(m, s, v, hi);
    UsableTop(m, s, v, hi);
    GmBelow(s, v);
  }

  lemma HalvesAllocated(m: State, s: Snapshot, v: int, nb: nat, hi: int)
    requires Usable(s, v, hi) && nb % 16 == 0 && nb >= MIN_CHUNK_SIZE && v + nb + MIN_CHUNK_SIZE <= hi
    requires OnlyRegion(s.mem, m.mem, AllFree(s.chunks), v, hi)
    requires Peek(m.mem, Head(v)) == HeadWord(nb, true, true)
    requires Peek(m.mem, Head(v + nb)) == HeadWord(hi - v - nb, false, true) && Peek(m.mem, PrevFoot(hi)) == hi - v - nb
    requires Peek(m.mem, Head(hi)) == HeadWord(s.chunks[hi].size, true, false)
    requires m.chunks == Retile(s.chunks, v, hi, Halves(v, nb, hi), false)
    requires m.Bins() && Placed(m.chunks, m.sizes, m.dv, m.dvsize) && SameSegment(m, s)
    ensures Allocated(m, s, v, nb)
  {
    hide Tiles, Flags, Tags, OnlyRegion, Retile, BinsOk, Within, Placed, Untouched, HeapOk;
    HalvesHeap(m.mem, s, v, nb, hi);
    HalvesLive(s, v, nb, hi);
    RetileAt(s.chunks, v, hi, Halves(v, nb, hi), false, v);
    UsablePayloads(m, s, v, hi);
    UsableTop(m, s, v, hi);
    GmBelow(s, v);
  }

  // ---- where the free chunks are afterwards ----

  lemma WholePlaced(m: State, s: Snapshot, v: int, hi: int)
    requires Usable(s, v, hi) && m.sizes == s.sizes - {v}
    requires if v == s.dv then m.dv == 0 && m.dvsize == 0 else m.dv == s.dv && m.dvsize == s.dvsize
    ensures Placed(Retile(s.chunks, v, hi, Whole(v, hi), true), m.sizes, m.dv, m.dvsize)
  {
    hide Retile, Tiles, Flags, Tags;
    WholeTiles(v, hi);
    var c' := Retile(s.chunks, v, hi, Whole(v, hi), true);
    forall x
      ensures x in c' <==> x in s.chunks
      ensures x in c' ==> (!c'[x].cinuse <==> x != v && !s.chunks[x].cinuse)
      ensures x in c' && x != v ==> c'[x].size == s.chunks[x].size
    {
      RetileAt(s.chunks, v, hi, Whole(v, hi), true, x);
    }
    DvIsChunk(s);
    ZeroIsNoChunk(s);
  }

  lemma ZeroIsNoChunk(s: Snapshot)
    requires Sound(s)
    ensures 0 !in s.chunks
  {
    if 0 in s.chunks {
      GmBelow(s, 0);
    }
  }

  /** The remainder and all free chunks but the one split are the designated victim or in a
      bin. */
  ghost predicate SplitPlaced(sizes: Sizes, dv: int, dvsize: int, s: Snapshot, v: int, nb: nat, hi: int) {
    && v + nb <= hi
    && (forall x :: x in sizes <==> x != dv && (x == v + nb || (x in AllFree(s.chunks) && x != v)))
    && (forall x :: x in sizes ==> sizes[x] == if x == v + nb then hi - v - nb else AllFree(s.chunks)[x])
    && (dvsize == 0 ==> dv == 0)
    && (dvsize != 0 ==> if dv == v + nb then dvsize == hi - v - nb
                        else dv in AllFree(s.chunks) && dv != v && AllFree(s.chunks)[dv] == dvsize)
  }

  lemma HalvesPlaced(sizes: Sizes, dv: int, dvsize: int, s: Snapshot, v: int, nb: nat, hi: int)
    requires Usable(s, v, hi) && nb % 16 == 0 && nb >= MIN_CHUNK_SIZE && v + nb + MIN_CHUNK_SIZE <= hi
    requires SplitPlaced(sizes, dv, dvsize, s, v, nb, hi)
    ensures Placed(Retile(s.chunks, v, hi, Halves(v, nb, hi), false), sizes, dv, dvsize)
  {
    hide Retile, Tiles, Flags, Tags;
    HalvesTiles(v, nb, hi);
    var c' := Retile(s.chunks, v, hi, Halves(v, nb, hi), false);
    forall x
      ensures x in c' <==> x == v + nb || x in s.chunks
      ensures x in c' ==> (!c'[x].cinuse <==> x == v + nb || (x != v && x in AllFree(s.chunks)))
      ensures x in c' ==> c'[x].size == if x == v then nb else if x == v + nb then hi - v - nb else s.chunks[x].size
    {
      RetileAt(s.chunks, v, hi, Halves(v, nb, hi), false, x);
    }
  }

  // ---- writing ----

  /** `set_inuse_and_pinuse(M, p, s)`. */
  method SetInuseAndPinuse(m: State, p: int, size: int)
    requires m.Mapped(Head(p)) && m.Mapped(Head(p + size)) && size > 0
    modifies m`mem
    ensures m.mem == old(m.mem)[Head(p) := HeadWord(size, true, true)]
          [Head(p + size) := SetPInUse(Peek(old(m.mem), Head(p + size)))]
  {
    m.Put(Head(p), HeadWord(size, true, true));
    m.Put(Head(p + size), SetPInUse(m.At(Head(p + size))));
  }

  /** `set_size_and_pinuse_of_inuse_chunk(M, p, s)`. */
  method SetSizeAndPinuseOfInuseChunk(m: State, p: int, size: int)
    requires m.Mapped(Head(p))
    modifies m`mem
    ensures m.mem == old(m.mem)[Head(p) := HeadWord(size, true, true)]
  {
    m.Put(Head(p), HeadWord(size, true, true));
  }

  /** Only the tags of a split chunk differ. */
  ghost predicate OnlySplit(mem: Memory, mem': Memory, v: int, r: int, hi: int) {
    forall a {:trigger Peek(mem', a)} :: Peek(mem', a) != Peek(mem, a) ==>
      a == Head(v) || a == Head(r) || a == PrevFoot(hi) || a == Head(hi)
  }

  lemma SplitCases(mem: Memory, mem': Memory, v: int, r: int, hi: int, a: int)
    requires OnlySplit(mem, mem', v, r, hi) && Peek(mem', a) != Peek(mem, a)
    ensures a == Head(v) || a == Head(r) || a == PrevFoot(hi) || a == Head(hi)
  {
  }

  /** Sizes of free chunks of `s` other than `v`, and possibly the remainder `r`. */
  ghost predicate Others(s: Snapshot, sizes: Sizes, v: int, r: int, hi: int) {
    forall y :: y in sizes ==>
      (y == r && r < hi && sizes[y] == hi - r)
      || (y != v && y in s.chunks && !s.chunks[y].cinuse && sizes[y] == s.chunks[y].size)
  }

  /** The tags of the region are no links of the other free chunks, nor of the remainder. */
  lemma SplitNoLink(s: Snapshot, sizes: Sizes, v: int, r: int, hi: int)
    requires Usable(s, v, hi) && Others(s, sizes, v, r, hi) && v <= r <= hi && r % 16 == 0
    requires r == v ==> r !in sizes
    ensures !LinkWord(sizes, Head(v)) && !LinkWord(sizes, Head(r)) && !LinkWord(sizes, PrevFoot(hi))
    ensures !LinkWord(sizes, Head(hi))
  {
    hide Flags, Tags, Placed, Tiles;
    assert s.base >= GM_END && s.base <= v by { ChunkBelowTop(s.chunks, s.base, s.top, v); }
    forall y | y in sizes
      ensures y == r || y + sizes[y] <= v || hi <= y
    {
      if y != r {
        OutsideRegion(s.chunks, s.base, s.top, v, hi, y);
      }
    }
  }

  lemma SplitAreTags(s: Snapshot, mem: Memory, mem': Memory, sizes: Sizes, v: int, r: int, hi: int)
    requires Usable(s, v, hi) && Others(s, sizes, v, r, hi) && r !in sizes && v <= r < hi && r % 16 == 0
    requires OnlySplit(mem, mem', v, r, hi)
    ensures OnlyTags(mem, mem', sizes)
  {
    hide Flags, Tags, Placed, Tiles, OnlySplit;
    SplitNoLink(s, sizes, v, r, hi);
    forall a | Peek(mem', a) != Peek(mem, a)
      ensures !LinkWord(sizes, a) && !IsHead(sizes, a)
    {
      SplitCases(mem, mem', v, r, hi, a);
      if IsHead(sizes, a) {
        var x :| x in sizes && a == Head(x);
        BoundaryAligned(s.chunks, s.base, s.top, x);
      }
    }
  }

  lemma LinkWordMore(sizes: Sizes, big: Sizes, a: int)
    requires LinkWord(sizes, a) && forall y :: y in sizes ==> y in big && big[y] == sizes[y]
    ensures LinkWord(big, a)
  {
    if !(SMALLBINS <= a < GM_END) {
      var y :| y in sizes && y + 16 <= a < y + sizes[y];
      assert y in big && y + 16 <= a < y + big[y];
    }
  }

  lemma SplitInRegion(mem0: Memory, mem1: Memory, mem2: Memory, s: Snapshot, v: int, r: int, hi: int)
    requires Sound(s) && OnlyLinks(mem0, mem1, s.sizes) && OnlySplit(mem1, mem2, v, r, hi) && v <= r && r + 8 <= hi
    ensures OnlyRegion(mem0, mem2, AllFree(s.chunks), v, hi)
  {
    hide Sound, AllFree, OnlySplit, OnlyLinks, RegionWord;
    AllFreeBinned(s);
    forall a | Peek(mem2, a) != Peek(mem0, a)
      ensures RegionWord(AllFree(s.chunks), v, hi, a)
    {
      SplitWordInRegion(mem0, mem1, mem2, s.sizes, AllFree(s.chunks), v, r, hi, a);
    }
  }

  lemma SplitWordInRegion(mem0: Memory, mem1: Memory, mem2: Memory, sizes: Sizes, big: Sizes, v: int, r: int,
                          hi: int, a: int)
    requires OnlyLinks(mem0, mem1, sizes) && OnlySplit(mem1, mem2, v, r, hi) && v <= r && r + 8 <= hi
    requires forall y :: y in sizes ==> y in big && big[y] == sizes[y]
    requires Peek(mem2, a) != Peek(mem0, a)
    ensures RegionWord(big, v, hi, a)
  {
    hide OnlySplit, LinkWord;
    if Peek(mem2, a) != Peek(mem1, a) {
      SplitCases(mem1, mem2, v, r, hi, a);
    } else {
      assert Peek(mem1, a) != Peek(mem0, a);
      LinkWordMore(sizes, big, a);
    }
  }

  lemma BinInRegion(mem0: Memory, mem1: Memory, mem2: Memory, s: Snapshot, sizes: Sizes, v: int, r: int, hi: int)
    requires OnlyRegion(mem0, mem1, AllFree(s.chunks), v, hi) && OnlyLinks(mem1, mem2, sizes)
    requires Others(s, sizes, v, r, hi) && v <= r
    ensures OnlyRegion(mem0, mem2, AllFree(s.chunks), v, hi)
  {
    hide RegionWord, AllFree, Others, LinkWord;
    forall a | Peek(mem2, a) != Peek(mem0, a)
      ensures RegionWord(AllFree(s.chunks), v, hi, a)
    {
      assert Peek(mem1, a) != Peek(mem0, a) ==> RegionWord(AllFree(s.chunks), v, hi, a);
      if Peek(mem2, a) != Peek(mem1, a) {
        BinWordInRegion(s, sizes, v, r, hi, a);
      }
    }
  }

  lemma BinWordInRegion(s: Snapshot, sizes: Sizes, v: int, r: int, hi: int, a: int)
    requires LinkWord(sizes, a) && Others(s, sizes, v, r, hi) && v <= r
    ensures RegionWord(AllFree(s.chunks), v, hi, a)
  {
    if !(SMALLBINS <= a < GM_END) {
      var y :| y in sizes && y + 16 <= a < y + sizes[y];
      if y in s.chunks && !s.chunks[y].cinuse && sizes[y] == s.chunks[y].size {
        assert y in AllFree(s.chunks) && AllFree(s.chunks)[y] == sizes[y];
        assert LinkWord(AllFree(s.chunks), a);
      }
    }
  }

  lemma TagsSpared(s: Snapshot, mem1: Memory, mem2: Memory, sizes: Sizes, v: int, r: int, hi: int)
    requires Usable(s, v, hi) && Others(s, sizes, v, r, hi) && v <= r <= hi && r % 16 == 0 && (r == v ==> r !in sizes)
    requires OnlyLinks(mem1, mem2, sizes)
    ensures Peek(mem2, Head(v)) == Peek(mem1, Head(v)) && Peek(mem2, Head(r)) == Peek(mem1, Head(r))
    ensures Peek(mem2, PrevFoot(hi)) == Peek(mem1, PrevFoot(hi)) && Peek(mem2, Head(hi)) == Peek(mem1, Head(hi))
  {
    hide Usable;
    SplitNoLink(s, sizes, v, r, hi);
  }

  // ---- where the rest goes ----

  ghost function OldVictim(dv: int, dvsize: int): seq<BinOp> {
    if dvsize > 0 then [Insert(dv, dvsize)] else []
  }

  /** `nb` bytes are taken from the designated victim, which keeps the rest if that is a chunk. */
  ghost function TakeVictim(sh: Shelf, nb: nat): Shelf {
    if sh.dvsize - nb >= MIN_CHUNK_SIZE then sh.(dv := sh.dv + nb, dvsize := sh.dvsize - nb)
    else sh.(dv := 0, dvsize := 0)
  }

  /** `nb` bytes are taken from the binned chunk `p` of `size` bytes. Of a small request the rest
      becomes the designated victim, and the old one is binned; of a large one it is binned. */
  ghost function TakeBinned(sh: Shelf, p: int, size: nat, nb: nat): Shelf {
    var r, trace := Room(nb, size), sh.trace + [Remove(p)];
    if r < MIN_CHUNK_SIZE then sh.(trace := trace)
    else if IsSmall(nb) then sh.(dv := p + nb, dvsize := r, trace := trace + OldVictim(sh.dv, sh.dvsize))
    else sh.(trace := trace + [Insert(p + nb, r)])
  }

  lemma WholeTaken(sh: Shelf, p: int, size: nat, nb: nat)
    requires nb <= size < nb + MIN_CHUNK_SIZE
    ensures TakeBinned(sh, p, size, nb)
         == Shelf(sh.dv, sh.dvsize, sh.top, sh.topsize, sh.trace + [Remove(p)], sh.size, sh.peak)
  {
  }

  lemma SmallTaken(sh: Shelf, p: int, size: nat, nb: nat)
    requires size - nb >= MIN_CHUNK_SIZE && IsSmall(nb)
    ensures TakeBinned(sh, p, size, nb)
         == Shelf(p + nb, size - nb, sh.top, sh.topsize, sh.trace + [Remove(p)] + OldVictim(sh.dv, sh.dvsize),
                  sh.size, sh.peak)
  {
  }

  lemma LargeTaken(sh: Shelf, p: int, size: nat, nb: nat)
    requires size - nb >= MIN_CHUNK_SIZE && !IsSmall(nb)
    ensures TakeBinned(sh, p, size, nb)
         == Shelf(sh.dv, sh.dvsize, sh.top, sh.topsize, sh.trace + [Remove(p)] + [Insert(p + nb, size - nb)],
                  sh.size, sh.peak)
  {
  }

  // ---- using a chunk whole ----

  /** `set_inuse_and_pinuse(M, v, size)` on a free chunk that is in no bin any more. */
  method TakeWhole(m: State, v: int, size: int, ghost s: Snapshot, ghost nb: int, ghost gone: set<int>)
    requires Opened(m, s, gone) && Usable(s, v, v + size) && m.sizes == s.sizes - {v}
    requires nb <= size < nb + MIN_CHUNK_SIZE
    modifies m`mem, m`chunks, m`dv, m`dvsize
    ensures Allocated(m, s, v, nb)
    ensures m.dv == (if v == old(m.dv) then 0 else old(m.dv)) && m.dvsize == if v == old(m.dv) then 0 else old(m.dvsize)
  {
    hide *;
    ghost var mem1, hi := m.mem, v + size;
    OpenedWriting(m, s, gone);
    OpenedFields(m, s, gone);
    TakeReads(m, s, v, hi, gone);
    SetInuseAndPinuse(m, v, size);
    WholeWritten(m, s, v, hi, gone, mem1);
    if v == m.dv {
      m.dvsize := 0;
      m.dv := 0;
    }
    m.chunks := Retile(s.chunks, v, hi, Whole(v, hi), true);
    BinsFromParts(m);
    WholePlaced(m, s, v, hi);
    WholeAllocated(m, s, v, hi, nb);
  }

  lemma TakeReads(m: State, s: Snapshot, v: int, hi: int, gone: set<int>)
    requires Opened(m, s, gone) && Usable(s, v, hi)
    ensures m.Mapped(Head(v)) && m.Mapped(Head(hi)) && m.Mapped(PrevFoot(hi)) && hi - v > 0 && v > 0
    ensures hi in s.chunks && SetPInUse(Peek(m.mem, Head(hi))) == HeadWord(s.chunks[hi].size, true, true)
    ensures Peek(m.mem, Head(hi)) == HeadWord(s.chunks[hi].size, true, false)
    ensures m.OkAddress(v)
  {
    hide BinsOk, Within, OnlyLinks, Flags, Tags, Tiles, Placed;
    BoundaryRead(s, m, gone, v);
    HeadRead(s, m, gone, hi);
    BoundaryRead(s, m, gone, hi);
    GmBelow(s, v);
  }

  lemma WholeWritten(m: State, s: Snapshot, v: int, hi: int, gone: set<int>, mem1: Memory)
    requires Writing(m, s, gone, mem1) && Usable(s, v, hi) && m.sizes == s.sizes - {v}
    requires m.mem == mem1[Head(v) := HeadWord(hi - v, true, true)]
          [Head(v + (hi - v)) := HeadWord(s.chunks[hi].size, true, true)]
    ensures BinsOk(m.mem, m.smallmap, m.treemap, m.sizes, m.small, m.tree)
    ensures OnlyRegion(s.mem, m.mem, AllFree(s.chunks), v, hi)
    ensures Peek(m.mem, Head(v)) == HeadWord(hi - v, true, true)
    ensures Peek(m.mem, Head(hi)) == HeadWord(s.chunks[hi].size, true, true)
    ensures Within(m.sizes, m.segBase, m.segBase + m.segSize) && SameSegment(m, s)
  {
    hide BinsOk, Within, OnlyLinks, Flags, Tags, Tiles, OnlyTags, OnlyRegion;
    assert OnlySplit(mem1, m.mem, v, v, hi);
    FewerOthers(s, m.sizes, v, v, hi);
    SplitAreTags(s, mem1, m.mem, m.sizes, v, v, hi);
    BinsKept(mem1, m.mem, m.smallmap, m.treemap, m.sizes, m.small, m.tree);
    SplitInRegion(s.mem, mem1, m.mem, s, v, v, hi);
  }

  lemma FewerOthers(s: Snapshot, sizes: Sizes, v: int, r: int, hi: int)
    requires Sound(s) && sizes == s.sizes - {v}
    ensures Others(s, sizes, v, r, hi)
  {
  }

  // ---- splitting a chunk ----

  /** The tags of a split: `nb` bytes in use at `v`, a free remainder of `rsize` after them. */
  method SplitTags(m: State, v: int, nb: nat, rsize: nat, ghost s: Snapshot, ghost hi: int, ghost gone: set<int>)
    requires Opened(m, s, gone) && Usable(s, v, hi) && m.sizes == s.sizes - {v} && hi == v + nb + rsize
    requires nb % 16 == 0 && nb >= MIN_CHUNK_SIZE && rsize >= MIN_CHUNK_SIZE
    modifies m`mem
    ensures Split(m, s, v, nb, hi)
  {
    hide *;
    ghost var mem1 := m.mem;
    OpenedWriting(m, s, gone);
    TakeReads(m, s, v, hi, gone);
    SplitReads(m, s, v, nb, hi, gone);
    SetSizeAndPinuseOfInuseChunk(m, v, nb);
    SetSizeAndPinuseOfFreeChunk(m, v + nb, rsize);
    SplitWritten(m, s, v, nb, rsize, hi, gone, mem1);
  }

  /** The state once chunk `v` has been split and the remainder awaits a place. */
  ghost predicate Split(m: State, s: Snapshot, v: int, nb: nat, hi: int)
    reads m`mem, m`smallmap, m`treemap, m`sizes, m`small, m`tree, m`segBase, m`segSize, m`top, m`topsize, m`chunks,
          m`footprint, m`maxFootprint
  {
    && Usable(s, v, hi) && nb % 16 == 0 && nb >= MIN_CHUNK_SIZE && v + nb + MIN_CHUNK_SIZE <= hi
    && m.Bins() && m.sizes == s.sizes - {v} && SameSegment(m, s) && m.chunks == s.chunks
    && SplitWords(m.mem, s, v, nb, hi)
  }

  ghost predicate SplitWords(mem: Memory, s: Snapshot, v: int, nb: nat, hi: int)
  {
    && hi in s.chunks && OnlyRegion(s.mem, mem, AllFree(s.chunks), v, hi)
    && Peek(mem, Head(v)) == HeadWord(nb, true, true)
    && Peek(mem, Head(v + nb)) == HeadWord(hi - v - nb, false, true) && Peek(mem, PrevFoot(hi)) == hi - v - nb
    && Peek(mem, Head(hi)) == HeadWord(s.chunks[hi].size, true, false)
  }

  lemma SplitReads(m: State, s: Snapshot, v: int, nb: nat, hi: int, gone: set<int>)
    requires Opened(m, s, gone) && Usable(s, v, hi) && nb % 16 == 0 && nb >= MIN_CHUNK_SIZE
    requires v + nb + MIN_CHUNK_SIZE <= hi
    ensures m.Mapped(Head(v + nb)) && m.Mapped(PrevFoot((v + nb) + (hi - v - nb)))
  {
    hide BinsOk, Within, OnlyLinks, Flags, Tags, Tiles, Placed, State.Mapped;
    ChunkBelowTop(s.chunks, s.base, s.top, v);
    ChunkBelowTop(s.chunks, s.base, s.top, hi);
    AlignedMapped(m, v + nb);
    AlignedMapped(m, hi);
  }

  lemma SplitWritten(m: State, s: Snapshot, v: int, nb: nat, rsize: nat, hi: int, gone: set<int>, mem1: Memory)
    requires Writing(m, s, gone, mem1) && Usable(s, v, hi) && m.sizes == s.sizes - {v} && hi == v + nb + rsize
    requires nb % 16 == 0 && nb >= MIN_CHUNK_SIZE && rsize >= MIN_CHUNK_SIZE
    requires Peek(mem1, Head(hi)) == HeadWord(s.chunks[hi].size, true, false)
    requires m.mem == mem1[Head(v) := HeadWord(nb, true, true)]
                          [Head(v + nb) := HeadWord(rsize, false, true)][PrevFoot(v + nb + rsize) := rsize]
    ensures Split(m, s, v, nb, hi)
  {
    hide BinsOk, Within, OnlyLinks, Flags, Tags, Tiles, OnlyTags, OnlyRegion;
    assert OnlySplit(mem1, m.mem, v, v + nb, hi);
    FewerOthers(s, m.sizes, v, v + nb, hi);
    NoChunkInside(s, v, v + nb, hi);
    SplitAreTags(s, mem1, m.mem, m.sizes, v, v + nb, hi);
    BinsKept(mem1, m.mem, m.smallmap, m.treemap, m.sizes, m.small, m.tree);
    SplitInRegion(s.mem, mem1, m.mem, s, v, v + nb, hi);
    BinsFromParts(m);
  }

  lemma NoChunkInside(s: Snapshot, v: int, r: int, hi: int)
    requires Usable(s, v, hi) && v < r < hi
    ensures r !in s.sizes && r !in AllFree(s.chunks) && r !in s.chunks
  {
  }

  /** Any way of placing the remainder completes the allocation. */
  lemma SplitDone(m: State, s: Snapshot, v: int, nb: nat, hi: int)
    requires Usable(s, v, hi) && nb % 16 == 0 && nb >= MIN_CHUNK_SIZE && v + nb + MIN_CHUNK_SIZE <= hi
    requires m.Bins() && SameSegment(m, s) && SplitWords(m.mem, s, v, nb, hi)
    requires m.chunks == Retile(s.chunks, v, hi, Halves(v, nb, hi), false)
    requires SplitPlaced(m.sizes, m.dv, m.dvsize, s, v, nb, hi)
    ensures Allocated(m, s, v, nb)
  {
    hide BinsOk, Within, Tiles, Flags, Tags, OnlyRegion, Retile, Usable, Allocated;
    HalvesPlaced(m.sizes, m.dv, m.dvsize, s, v, nb, hi);
    HalvesAllocated(m, s, v, nb, hi);
  }

  /** After binning other chunks, the words of the split are as they were. */
  lemma SplitSpared(m: State, s: Snapshot, v: int, nb: nat, hi: int, mem2: Memory)
    requires Usable(s, v, hi) && nb % 16 == 0 && v + nb <= hi && nb > 0
    requires SplitWords(mem2, s, v, nb, hi) && OnlyLinks(mem2, m.mem, m.sizes) && Others(s, m.sizes, v, v + nb, hi)
    ensures SplitWords(m.mem, s, v, nb, hi)
  {
    hide OnlyRegion, OnlyLinks, Usable, AllFree, Others, LinkWord, Peek, HeadWord;
    AlignedUsable(s, v, hi);
    TagsSpared(s, mem2, m.mem, m.sizes, v, v + nb, hi);
    BinInRegion(s.mem, mem2, m.mem, s, m.sizes, v, v + nb, hi);
  }

  lemma AlignedUsable(s: Snapshot, v: int, hi: int)
    requires Usable(s, v, hi)
    ensures v % 16 == 0 && hi % 16 == 0 && v < hi
  {
  }

  // ---- the remainder ----

  lemma RemainderBinnable(m: State, s: Snapshot, v: int, nb: nat, hi: int)
    requires Split(m, s, v, nb, hi)
    ensures Binnable(m.mem, m.sizes, m.segBase, m.segBase + m.segSize, v + nb, hi - v - nb)
  {
    hide *;
    SplitFields(m, s, v, nb, hi);
    RemainderFits(m.mem, m.sizes, s, v, nb, hi);
    SegmentSame(m, s);
  }

  lemma SegmentSame(m: State, s: Snapshot)
    requires SameSegment(m, s)
    ensures m.segBase == s.base && m.segSize == s.size
  {
  }

  lemma SplitOnly(mem: Memory, s: Snapshot, v: int, nb: nat, hi: int)
    requires SplitWords(mem, s, v, nb, hi)
    ensures OnlyRegion(s.mem, mem, AllFree(s.chunks), v, hi)
    ensures Peek(mem, Head(v + nb)) == HeadWord(hi - v - nb, false, true)
  {
    hide OnlyRegion;
  }

  lemma RemainderFits(mem: Memory, sizes: Sizes, s: Snapshot, v: int, nb: nat, hi: int)
    requires Usable(s, v, hi) && nb % 16 == 0 && nb >= MIN_CHUNK_SIZE && v + nb + MIN_CHUNK_SIZE <= hi
    requires SplitWords(mem, s, v, nb, hi) && sizes == s.sizes - {v}
    ensures Binnable(mem, sizes, s.base, s.base + s.size, v + nb, hi - v - nb)
  {
    hide Usable, SplitWords, ChunkSize, Peek, Binnable;
    AlignedUsable(s, v, hi);
    RemainderHead(mem, s, v, nb, hi);
    NoChunkInside(s, v, v + nb, hi);
    RemainderBelowEnd(s, v, hi);
    OtherApart(s, sizes, v, v + nb, hi);
    NowBinnable(mem, sizes, s.base, s.base + s.size, v + nb, hi);
  }

  lemma NowBinnable(mem: Memory, sizes: Sizes, lo: int, end: int, x: int, hi: int)
    requires x !in sizes && lo <= x && hi < end && x % 16 == 0 && hi % 16 == 0 && x + MIN_CHUNK_SIZE <= hi
    requires ChunkSize(Peek(mem, Head(x))) == hi - x
    requires forall y :: y in sizes ==> hi <= y || y + sizes[y] <= x
    ensures Binnable(mem, sizes, lo, end, x, hi - x)
  {
    hide ChunkSize, Peek;
  }

  lemma RemainderHead(mem: Memory, s: Snapshot, v: int, nb: nat, hi: int)
    requires SplitWords(mem, s, v, nb, hi) && nb % 16 == 0 && v % 16 == 0 && hi % 16 == 0
    ensures ChunkSize(Peek(mem, Head(v + nb))) == hi - (v + nb)
  {
    hide *;
    SplitOnly(mem, s, v, nb, hi);
    SumOf16(hi, v);
    SumOf16(hi - v, nb);
    Of16Of8(hi - v - nb);
    HeadFields(hi - v - nb, false, true);
  }

  lemma RemainderBelowEnd(s: Snapshot, v: int, hi: int)
    requires Usable(s, v, hi)
    ensures s.base <= v && hi < s.base + s.size
  {
    hide Flags, Tags, Tiles, Placed;
    ChunkBelowTop(s.chunks, s.base, s.top, v);
    ChunkBelowTop(s.chunks, s.base, s.top, hi);
  }

  lemma OtherApart(s: Snapshot, sizes: Sizes, v: int, r: int, hi: int)
    requires Usable(s, v, hi) && v < r < hi && sizes == s.sizes - {v}
    ensures forall y :: y in sizes ==> hi <= y || y + sizes[y] <= r
  {
    hide Flags, Tags, Tiles;
    forall y | y in sizes
      ensures hi <= y || y + sizes[y] <= r
    {
      OutsideRegion(s.chunks, s.base, s.top, v, hi, y);
    }
  }

  lemma SplitFields(m: State, s: Snapshot, v: int, nb: nat, hi: int)
    requires Split(m, s, v, nb, hi)
    ensures Usable(s, v, hi) && nb % 16 == 0 && nb >= MIN_CHUNK_SIZE && v + nb + MIN_CHUNK_SIZE <= hi
    ensures m.Bins() && m.sizes == s.sizes - {v} && SameSegment(m, s) && m.chunks == s.chunks
    ensures SplitWords(m.mem, s, v, nb, hi)
    ensures Sound(s)
  {
    hide BinsOk, Within, Usable, SplitWords;
    UsableSound(s, v, hi);
  }

  lemma UsableSound(s: Snapshot, v: int, hi: int)
    requires Usable(s, v, hi)
    ensures Sound(s)
  {
  }

  /** The remainder of a binned chunk goes back into a bin. */
  method BinRemainder(m: State, r: int, rsize: nat, ghost s: Snapshot, ghost v: int, ghost nb: nat, ghost hi: int)
    requires Split(m, s, v, nb, hi) && r == v + nb && rsize == hi - r && v in s.sizes && m.dv == s.dv
    requires m.dvsize == s.dvsize
    modifies m`mem, m`smallmap, m`treemap, m`sizes, m`small, m`tree, m`trace, m`chunks
    ensures m.trace == old(m.trace) + [Insert(r, rsize)] && (old(m.Chronicled()) ==> m.Chronicled())
    ensures Allocated(m, s, v, nb)
  {
    hide *;
    ghost var mem2 := m.mem;
    SplitFields(m, s, v, nb, hi);
    RemainderBinnable(m, s, v, nb, hi);
    InsertChunk(m, r, rsize);
    m.chunks := Retile(s.chunks, v, hi, Halves(v, nb, hi), false);
    RemainderInBin(m, s, v, nb, hi, mem2);
  }

  lemma RemainderInBin(m: State, s: Snapshot, v: int, nb: nat, hi: int, mem2: Memory)
    requires Usable(s, v, hi) && nb % 16 == 0 && nb >= MIN_CHUNK_SIZE && v + nb + MIN_CHUNK_SIZE <= hi && v in s.sizes
    requires m.Bins() && SameSegment(m, s) && m.dv == s.dv && m.dvsize == s.dvsize
    requires m.sizes == (s.sizes - {v})[v + nb := hi - (v + nb)] && OnlyLinks(mem2, m.mem, m.sizes)
    requires SplitWords(mem2, s, v, nb, hi)
    requires m.chunks == Retile(s.chunks, v, hi, Halves(v, nb, hi), false)
    ensures Allocated(m, s, v, nb)
  {
    hide BinsOk, Within, Tiles, Flags, Tags, OnlyRegion, Retile, Allocated, SplitWords, OnlyLinks;
    NoChunkInside(s, v, v + nb, hi);
    DvIsChunk(s);
    SplitSpared(m, s, v, nb, hi, mem2);
    SplitDone(m, s, v, nb, hi);
  }

  /** `replace_dv`: the remainder becomes the designated victim, and the old one is binned. */
  method ReplaceDv(m: State, r: int, rsize: nat, ghost s: Snapshot, ghost v: int, ghost nb: nat, ghost hi: int)
    requires Split(m, s, v, nb, hi) && r == v + nb && rsize == hi - r && v in s.sizes && m.dv == s.dv
    requires m.dvsize == s.dvsize
    requires IsSmall(s.dvsize)
    modifies m`mem, m`smallmap, m`sizes, m`small, m`trace, m`dv, m`dvsize, m`chunks
    ensures m.trace == old(m.trace) + OldVictim(old(m.dv), old(m.dvsize)) && (old(m.Chronicled()) ==> m.Chronicled())
    ensures Allocated(m, s, v, nb) && m.dv == r && m.dvsize == rsize
  {
    hide *;
    ghost var mem2 := m.mem;
    SplitFields(m, s, v, nb, hi);
    var dvs := m.dvsize;
    assert IsSmall(dvs);
    VictimOp(m.dv, dvs);
    if dvs != 0 {
      var dv := m.dv;
      OldVictimBinnable(m, s, v, nb, hi);
      InsertSmallChunk(m, dv, dvs);
    }
    m.dvsize := rsize;
    m.dv := r;
    m.chunks := Retile(s.chunks, v, hi, Halves(v, nb, hi), false);
    RemainderIsVictim(m, s, v, nb, hi, mem2);
  }

  lemma VictimOp(dv: int, dvsize: int)
    ensures OldVictim(dv, dvsize) == if dvsize > 0 then [Insert(dv, dvsize)] else []
  {
  }

  lemma OldVictimBinnable(m: State, s: Snapshot, v: int, nb: nat, hi: int)
    requires Split(m, s, v, nb, hi) && s.dvsize != 0 && v in s.sizes
    ensures s.dvsize > 0
    ensures Binnable(m.mem, m.sizes, m.segBase, m.segBase + m.segSize, s.dv, s.dvsize)
  {
    hide BinsOk, Flags, Tags, OnlyRegion;
    var d := s.dv;
    assert ChunkFits(s.chunks, s.base, s.top, d);
    OutsideRegion(s.chunks, s.base, s.top, v, hi, d);
    VictimHead(m, s, v, nb, hi);
    forall y | y in m.sizes
      ensures d + s.dvsize <= y || y + m.sizes[y] <= d
    {
      assert Apart2(s.chunks, d, y);
    }
  }

  lemma VictimHead(m: State, s: Snapshot, v: int, nb: nat, hi: int)
    requires Split(m, s, v, nb, hi) && s.dvsize != 0 && s.dv != v
    ensures ChunkSize(Peek(m.mem, Head(s.dv))) == s.dvsize
  {
    hide *;
    SplitFields(m, s, v, nb, hi);
    SplitOnly(m.mem, s, v, nb, hi);
    VictimSizes(s);
    VictimWord(s, m.mem, v, hi);
    HeadFields(s.dvsize, false, s.chunks[s.dv].pinuse);
  }

  lemma VictimSizes(s: Snapshot)
    requires Sound(s) && s.dvsize != 0
    ensures s.dv in s.chunks && !s.chunks[s.dv].cinuse && s.dvsize % 16 == 0
    ensures Peek(s.mem, Head(s.dv)) == HeadWord(s.dvsize, false, s.chunks[s.dv].pinuse)
  {
    hide Flags;
    assert TagsAt(s.mem, s.chunks, s.dv) && ChunkFits(s.chunks, s.base, s.top, s.dv);
  }

  lemma VictimWord(s: Snapshot, mem: Memory, v: int, hi: int)
    requires Usable(s, v, hi) && OnlyRegion(s.mem, mem, AllFree(s.chunks), v, hi)
    requires s.dv in s.chunks && !s.chunks[s.dv].cinuse && s.dv != v
    ensures Peek(mem, Head(s.dv)) == Peek(s.mem, Head(s.dv))
  {
    hide Flags, Tags, OnlyRegion, Placed;
    AllFreeBinned(s);
    OutsideWords(s.mem, mem, s.chunks, AllFree(s.chunks), s.base, s.top, v, hi, s.dv);
  }

  lemma RemainderIsVictim(m: State, s: Snapshot, v: int, nb: nat, hi: int, mem2: Memory)
    requires Usable(s, v, hi) && nb % 16 == 0 && nb >= MIN_CHUNK_SIZE && v + nb + MIN_CHUNK_SIZE <= hi && v in s.sizes
    requires m.Bins() && SameSegment(m, s) && m.dv == v + nb && m.dvsize == hi - (v + nb)
    requires s.dvsize == 0 ==> m.sizes == s.sizes - {v} && m.mem == mem2
    requires s.dvsize != 0 ==>
               s.dvsize > 0 && m.sizes == (s.sizes - {v})[s.dv := s.dvsize] && OnlyLinks(mem2, m.mem, m.sizes)
    requires SplitWords(mem2, s, v, nb, hi)
    requires m.chunks == Retile(s.chunks, v, hi, Halves(v, nb, hi), false)
    ensures Allocated(m, s, v, nb)
  {
    hide BinsOk, Within, Tiles, Flags, Tags, OnlyRegion, Retile, Allocated, SplitWords, OnlyLinks;
    NoChunkInside(s, v, v + nb, hi);
    DvIsChunk(s);
    if s.dvsize != 0 {
      SplitSpared(m, s, v, nb, hi, mem2);
    }
    SplitDone(m, s, v, nb, hi);
  }

  // ---- the designated victim ----

  /** Serving `nb` bytes from the designated victim: the last part of `dlmalloc` but one. */
  method UseVictim(m: State, nb: nat) returns (mem: int)
    requires Valid(m) && nb <= m.dvsize && nb % 16 == 0 && nb >= MIN_CHUNK_SIZE
    modifies m`mem, m`dv, m`dvsize, m`chunks
    ensures mem == old(m.dv) + 16 && Allocated(m, old(Snap(m)), old(m.dv), nb)
    ensures ShelfOf(Snap(m)) == TakeVictim(old(ShelfOf(Snap(m))), nb)
  {
    hide *;
    ghost var s := Snap(m);
    VictimStart(m, nb);
    ShelfIs(m);
    VictimTaken(ShelfOf(s), nb);
    var rsize := m.dvsize - nb;
    var p := m.dv;
    if rsize >= MIN_CHUNK_SIZE {
      var r := p + nb;
      SplitTags2(m, p, nb, rsize, s);
      SplitFields(m, s, p, nb, r + rsize);
      m.dv := r;
      m.dvsize := rsize;
      m.chunks := Retile(s.chunks, p, r + rsize, Halves(p, nb, r + rsize), false);
      VictimSplit(m, s, p, nb, r + rsize);
    } else {
      var dvs := m.dvsize;
      TakeWhole(m, p, dvs, s, nb, {});
    }
    ShelfIs(m);
    mem := p + 16;
  }

  lemma VictimTaken(sh: Shelf, nb: nat)
    ensures sh.dvsize - nb >= MIN_CHUNK_SIZE ==>
              TakeVictim(sh, nb)
              == Shelf(sh.dv + nb, sh.dvsize - nb, sh.top, sh.topsize, sh.trace, sh.size, sh.peak)
    ensures sh.dvsize - nb < MIN_CHUNK_SIZE ==>
              TakeVictim(sh, nb) == Shelf(0, 0, sh.top, sh.topsize, sh.trace, sh.size, sh.peak)
  {
  }

  lemma VictimStart(m: State, nb: nat)
    requires Valid(m) && nb <= m.dvsize && nb >= MIN_CHUNK_SIZE
    ensures var s := Snap(m);
            && Opened(m, s, {}) && Usable(s, m.dv, m.dv + m.dvsize) && m.sizes == s.sizes - {m.dv}
            && s.dv == m.dv && s.dvsize == m.dvsize && s.chunks == m.chunks && m.dv !in s.sizes
  {
    hide Tiles, Flags, Tags, BinsOk, Within;
    var s := Snap(m);
    ValidSound(m);
    assert m.sizes == s.sizes - {} == s.sizes - {m.dv};
    FreeIsUsable(s, m.dv);
  }

  /** The tags of a split of the designated victim. */
  method SplitTags2(m: State, v: int, nb: nat, rsize: nat, ghost s: Snapshot)
    requires Opened(m, s, {}) && Usable(s, v, v + nb + rsize) && m.sizes == s.sizes - {v}
    requires nb % 16 == 0 && nb >= MIN_CHUNK_SIZE && rsize >= MIN_CHUNK_SIZE
    modifies m`mem
    ensures Split(m, s, v, nb, v + nb + rsize)
  {
    hide *;
    ghost var mem1, hi := m.mem, v + nb + rsize;
    OpenedWriting(m, s, {});
    TakeReads(m, s, v, hi, {});
    SplitReads(m, s, v, nb, hi, {});
    SetSizeAndPinuseOfFreeChunk(m, v + nb, rsize);
    SetSizeAndPinuseOfInuseChunk(m, v, nb);
    SwapWrites(mem1, v, nb, rsize);
    SplitWritten(m, s, v, nb, rsize, hi, {}, mem1);
  }

  /** The source writes the remainder first here, the chunk in use first elsewhere. */
  lemma SwapWrites(mem: Memory, v: int, nb: nat, rsize: nat)
    requires nb >= MIN_CHUNK_SIZE && rsize >= MIN_CHUNK_SIZE
    ensures mem[Head(v + nb) := HeadWord(rsize, false, true)][PrevFoot(v + nb + rsize) := rsize]
          [Head(v) := HeadWord(nb, true, true)]
         == mem[Head(v) := HeadWord(nb, true, true)][Head(v + nb) := HeadWord(rsize, false, true)]
               [PrevFoot(v + nb + rsize) := rsize]
  {
  }

  lemma VictimSplit(m: State, s: Snapshot, v: int, nb: nat, hi: int)
    requires Usable(s, v, hi) && nb % 16 == 0 && nb >= MIN_CHUNK_SIZE && v + nb + MIN_CHUNK_SIZE <= hi && v == s.dv
    requires m.Bins() && SameSegment(m, s) && SplitWords(m.mem, s, v, nb, hi)
    requires m.sizes == s.sizes - {v} && m.dv == v + nb && m.dvsize == hi - v - nb
    requires m.chunks == Retile(s.chunks, v, hi, Halves(v, nb, hi), false)
    ensures Allocated(m, s, v, nb)
  {
    hide BinsOk, Within, Tiles, Flags, Tags, OnlyRegion, Retile, Allocated, SplitWords;
    NoChunkInside(s, v, v + nb, hi);
    SplitDone(m, s, v, nb, hi);
  }
}
