/** `dlfree` and `dispose_chunk`: giving a chunk back, merged with whatever free space lies
    before and after it. */
module Freeing {
  import opened Words
  import opened TreeBins
  import opened SmallBins
  import opened BinHistory
  import opened MallocState
  import opened Boundaries
  import opened Invariant
  import opened SmallChunks

  /** The heap as it was when a call began. */
  datatype Snapshot = Snapshot(mem: Memory, chunks: Chunks, sizes: Sizes, dv: int, dvsize: int,
                               base: int, size: int, top: int, topsize: int,
                               small: Smalls, tree: Tree, trace: seq<BinOp>, maxFootprint: int)

  ghost function Snap(m: State): Snapshot
    reads m
  {
    Snapshot(m.mem, m.chunks, m.sizes, m.dv, m.dvsize, m.segBase, m.segSize, m.top, m.topsize,
             m.small, m.tree, m.trace, m.maxFootprint)
  }

  ghost predicate Sound(s: Snapshot) {
    && HeapOk(s.mem, s.chunks, s.base, s.top) && Placed(s.chunks, s.sizes, s.dv, s.dvsize)
    && TopOk(s.mem, s.base, s.size, s.top, s.topsize)
    && s.base + s.size < WORD_LIMIT
  }

  lemma ValidSound(m: State)
    requires Valid(m)
    ensures Sound(Snap(m)) && BinnedFree(m.chunks, m.sizes)
  {
    hide Tiles, Flags, Tags, BinsOk;
  }

  /** Bins have given up the chunks in `gone`; nothing else has happened since `s`. */
  ghost predicate Opened(m: State, s: Snapshot, gone: set<int>)
    reads m
  {
    && Sound(s) && m.Bins() && m.sizes == s.sizes - gone && OnlyLinks(s.mem, m.mem, s.sizes)
    && m.chunks == s.chunks && m.dv == s.dv && m.dvsize == s.dvsize && m.segBase == s.base && m.segSize == s.size
    && m.top == s.top && m.topsize == s.topsize && m.footprint == m.segSize <= m.maxFootprint
  }

  // ---- where freed space goes ----

  /** The free space of a heap: the designated victim, `top`, what has been put into the bins
      and taken out of them, the size of the segment, and the largest it has been. */
  datatype Shelf = Shelf(dv: int, dvsize: int, top: int, topsize: int, trace: seq<BinOp>, size: int, peak: int)

  function ShelfOf(s: Snapshot): Shelf {
    Shelf(s.dv, s.dvsize, s.top, s.topsize, s.trace, s.size, s.maxFootprint)
  }

  function Room(q: int, n: int): nat {
    if q <= n then n - q else 0
  }

  /** The space from `q` to the boundary `n` is given back: it joins `top`, the designated
      victim or a free chunk after it, and unless it is then `top` or the victim it is put into
      a bin. */
  function Give(sh: Shelf, chunks: Chunks, q: int, n: int): Shelf {
    var size := Room(q, n);
    if n == sh.top then
      var taken := q == sh.dv;
      sh.(dv := if taken then 0 else sh.dv, dvsize := if taken then 0 else sh.dvsize, top := q,
          topsize := sh.topsize + size)
    else if n == sh.dv then
      sh.(dv := q, dvsize := sh.dvsize + size)
    else if n in chunks && !chunks[n].cinuse then
      var total := size + chunks[n].size;
      if q == sh.dv then sh.(dvsize := total, trace := sh.trace + [Remove(n)])
      else sh.(trace := sh.trace + [Remove(n)] + [Insert(q, total)])
    else if q == sh.dv then
      sh.(dvsize := size)
    else
      sh.(trace := sh.trace + [Insert(q, size)])
  }

  /** After chunk `p` has been freed: a free chunk before it has joined it first. */
  function AfterFree(s: Snapshot, p: int): Shelf
    requires p in s.chunks
  {
    var n := End(s.chunks, p);
    if s.chunks[p].pinuse then Give(ShelfOf(s), s.chunks, p, n)
    else
      var q := p - Peek(s.mem, PrevFoot(p));
      var trace := if q == s.dv then s.trace else s.trace + [Remove(q)];
      Give(ShelfOf(s).(trace := trace), s.chunks, q, n)
  }

  lemma ShelfIs(m: State)
    ensures ShelfOf(Snap(m)) == Shelf(m.dv, m.dvsize, m.top, m.topsize, m.trace, m.segSize, m.maxFootprint)
  {
  }

  /** The cases of `Give`, for a space of `size` bytes. */
  lemma GiveToTop(sh: Shelf, chunks: Chunks, q: int, n: int, size: nat)
    requires size == n - q && n == sh.top
    ensures Give(sh, chunks, q, n)
         == Shelf(if q == sh.dv then 0 else sh.dv, if q == sh.dv then 0 else sh.dvsize, q, sh.topsize + size, sh.trace,
                  sh.size, sh.peak)
  {
  }

  lemma GiveToVictim(sh: Shelf, chunks: Chunks, q: int, n: int, size: nat)
    requires size == n - q && n != sh.top && n == sh.dv
    ensures Give(sh, chunks, q, n) == Shelf(q, sh.dvsize + size, sh.top, sh.topsize, sh.trace, sh.size, sh.peak)
  {
  }

  lemma GiveToFree(sh: Shelf, chunks: Chunks, q: int, n: int, size: nat)
    requires size == n - q && n != sh.top && n != sh.dv && n in chunks && !chunks[n].cinuse
    ensures var total := size + chunks[n].size;
            Give(sh, chunks, q, n) ==
            if q == sh.dv then Shelf(sh.dv, total, sh.top, sh.topsize, sh.trace + [Remove(n)], sh.size, sh.peak)
            else Shelf(sh.dv, sh.dvsize, sh.top, sh.topsize, sh.trace + [Remove(n)] + [Insert(q, total)], sh.size,
                       sh.peak)
  {
  }

  lemma GiveAlone(sh: Shelf, chunks: Chunks, q: int, n: int, size: nat)
    requires size == n - q && n != sh.top && n != sh.dv && n in chunks && chunks[n].cinuse
    ensures Give(sh, chunks, q, n) ==
            if q == sh.dv then Shelf(sh.dv, size, sh.top, sh.topsize, sh.trace, sh.size, sh.peak)
            else Shelf(sh.dv, sh.dvsize, sh.top, sh.topsize, sh.trace + [Insert(q, size)], sh.size, sh.peak)
  {
  }

  // ---- reading the neighbourhood of a chunk ----

  /** Head and foot words at boundaries are mapped. */
  lemma BoundaryMapped(s: Snapshot, m: State, p: int)
    requires Sound(s) && m.segBase == s.base && m.segSize == s.size && (p in s.chunks || p == s.top)
    ensures m.Mapped(PrevFoot(p)) && m.Mapped(Head(p)) && m.OkAddress(p)
  {
    hide Tiles, Flags, Tags, Placed, State.Mapped;
    BoundaryAligned(s.chunks, s.base, s.top, p);
    AlignedMapped(m, p);
  }

  lemma AlignedMapped(m: State, p: int)
    requires p % 16 == 0 && m.segBase <= p && p + 16 <= m.segBase + m.segSize
    ensures m.Mapped(PrevFoot(p)) && m.Mapped(Head(p))
  {
    Of16Of8(p);
  }

  /** Heads and feet at boundaries read as they did before the bins were changed. */
  lemma BoundaryRead(s: Snapshot, m: State, gone: set<int>, p: int)
    requires Opened(m, s, gone) && (p in s.chunks || p == s.top)
    ensures m.Mapped(PrevFoot(p)) && m.Mapped(Head(p)) && m.OkAddress(p)
    ensures Peek(m.mem, PrevFoot(p)) == Peek(s.mem, PrevFoot(p))
    ensures Peek(m.mem, Head(p)) == Peek(s.mem, Head(p))
    ensures p in s.chunks ==> TagsAt(s.mem, s.chunks, p)
  {
    hide BinsOk, Tiles;
    BoundaryMapped(s, m, p);
    PlacedFree(s.chunks, s.sizes, s.dv, s.dvsize);
    BoundaryNoLink(s.chunks, s.sizes, s.base, s.top, p, 0);
    BoundaryNoLink(s.chunks, s.sizes, s.base, s.top, p, 8);
    assert !LinkWord(s.sizes, PrevFoot(p)) && !LinkWord(s.sizes, Head(p));
  }

  /** The flags and size a chunk's head word shows. */
  lemma HeadRead(s: Snapshot, m: State, gone: set<int>, p: int)
    requires Opened(m, s, gone) && p in s.chunks
    ensures m.Mapped(Head(p))
    ensures var h, c := Peek(m.mem, Head(p)), s.chunks[p];
            && h == HeadWord(c.size, c.cinuse, c.pinuse)
            && ChunkSize(h) == c.size && CInUse(h) == c.cinuse && PInUse(h) == c.pinuse
            && (IsInUse(h) <==> c.cinuse || !c.pinuse) && ClearPInUse(h) == HeadWord(c.size, c.cinuse, false)
            && SetPInUse(h) == HeadWord(c.size, c.cinuse, true)
  {
    hide BinsOk;
    BoundaryRead(s, m, gone, p);
    assert ChunkFits(s.chunks, s.base, s.top, p);
    HeadFields(s.chunks[p].size, s.chunks[p].cinuse, s.chunks[p].pinuse);
  }

  lemma TopRead(s: Snapshot, m: State, gone: set<int>)
    requires Opened(m, s, gone)
    ensures m.Mapped(Head(s.top))
    ensures var h := Peek(m.mem, Head(s.top));
            h == HeadWord(s.topsize, false, true) && ChunkSize(h) == s.topsize && !CInUse(h) && PInUse(h)
  {
    hide BinsOk;
    BoundaryRead(s, m, gone, s.top);
    HeadFields(s.topsize, false, true);
  }

  /** The free chunk before one whose `pinuse` bit is clear. */
  lemma BackNeighbour(s: Snapshot, p: int)
    requires Sound(s) && p in s.chunks && !s.chunks[p].pinuse
    ensures var z := Peek(s.mem, PrevFoot(p));
            var q := p - z;
            && q in s.chunks && q < p && !s.chunks[q].cinuse && s.chunks[q].pinuse && s.chunks[q].size == z
            && (q != s.dv ==> q in s.sizes && s.sizes[q] == z)
  {
    assert TagsAt(s.mem, s.chunks, p);
    var q := p - Peek(s.mem, PrevFoot(p));
    assert ChunkFits(s.chunks, s.base, s.top, q) && FlagsAt(s.chunks, s.top, q);
  }

  /** The chunk after `p`: top, or a chunk whose flags agree with `p`'s. */
  lemma NextNeighbour(s: Snapshot, p: int)
    requires Sound(s) && p in s.chunks
    ensures var n := End(s.chunks, p);
            && p < n <= s.top && p % 16 == 0 && n % 16 == 0
            && (n != s.top ==> n in s.chunks)
            && (n in s.chunks ==> n != s.top && s.chunks[n].pinuse == s.chunks[p].cinuse && End(s.chunks, n) <= s.top)
            && (n in s.chunks && !s.chunks[n].cinuse ==>
                  n != s.dv ==> n in s.sizes && s.sizes[n] == s.chunks[n].size)
            && (n in s.chunks && !s.chunks[n].cinuse ==>
                  var z := End(s.chunks, n);
                  z in s.chunks && s.chunks[z].cinuse && !s.chunks[z].pinuse)
            && (n == s.top || !s.chunks[p].cinuse ==> n == s.top ==> s.chunks[p].cinuse)
  {
    var n := End(s.chunks, p);
    assert ChunkFits(s.chunks, s.base, s.top, p) && FlagsAt(s.chunks, s.top, p);
    if n in s.chunks {
      assert ChunkFits(s.chunks, s.base, s.top, n) && FlagsAt(s.chunks, s.top, n);
    }
  }

  // ---- taking one more chunk out of the bins ----

  lemma LinksTrans(m0: Memory, m1: Memory, m2: Memory, sizes: Sizes, fewer: Sizes)
    requires OnlyLinks(m0, m1, sizes) && OnlyLinks(m1, m2, fewer)
    requires forall x :: x in fewer ==> x in sizes && fewer[x] == sizes[x]
    ensures OnlyLinks(m0, m2, sizes)
  {
    forall a | Peek(m2, a) != Peek(m0, a)
      ensures LinkWord(sizes, a)
    {
      assert Peek(m2, a) != Peek(m1, a) ==> LinkWord(fewer, a);
      assert Peek(m1, a) != Peek(m0, a) ==> LinkWord(sizes, a);
    }
  }

  method TakeFromBin(m: State, q: int, size: nat, ghost s: Snapshot, ghost gone: set<int>)
    requires Opened(m, s, gone) && q in s.sizes && q !in gone && s.sizes[q] == size
    modifies m`mem, m`smallmap, m`treemap, m`sizes, m`small, m`tree, m`trace
    ensures m.trace == old(m.trace) + [Remove(q)] && (old(m.Chronicled()) ==> m.Chronicled())
    ensures Opened(m, s, gone + {q})
  {
    hide Sound, OnlyLinks, BinsOk, Within;
    ghost var mem1, sizes1 := m.mem, m.sizes;
    UnlinkChunk(m, q, size);
    LinksTrans(s.mem, mem1, m.mem, s.sizes, sizes1);
    assert m.sizes == s.sizes - (gone + {q});
  }

  // ---- one free region in place of several chunks ----

  ghost function FreeChunk(lo: int, hi: int): Chunks
    requires lo <= hi
  {
    map[lo := Chunk(hi - lo, false, true)]
  }

  /** What has been given back: chunk `p`, and nothing else has changed for the caller. */
  ghost predicate Freed(m: State, s: Snapshot, p: int)
    reads m
  {
    && Valid(m) && Live(m.chunks) == Live(s.chunks) - {p}
    && Untouched(s.mem, m.mem, Live(s.chunks) - {p})
    && m.segBase == s.base && m.segSize == s.size
  }

  /** Region `[lo, hi)` consists of `p`, in use, and free neighbours, and can become one
      free chunk: what is before it is in use and so is the chunk at `hi`. */
  ghost predicate Freeable(s: Snapshot, p: int, lo: int, hi: int) {
    && IsRegion(s.chunks, s.base, s.top, lo, hi)
    && p in s.chunks && s.chunks[p].cinuse && lo <= p < hi
    && s.chunks[lo].pinuse
    && (forall x :: x in s.chunks && lo <= x < hi && x != p ==> !s.chunks[x].cinuse)
  }

  lemma FreeTiles(lo: int, hi: int)
    requires lo % 16 == 0 && hi % 16 == 0 && lo + MIN_CHUNK_SIZE <= hi
    ensures Tiles(FreeChunk(lo, hi), lo, hi) && InRegion(FreeChunk(lo, hi), lo, hi)
  {
  }

  lemma RegionSize(s: Snapshot, lo: int, hi: int)
    requires IsRegion(s.chunks, s.base, s.top, lo, hi)
    ensures lo % 16 == 0 && hi % 16 == 0 && lo + MIN_CHUNK_SIZE <= hi
  {
    BoundaryAligned(s.chunks, s.base, s.top, lo);
    BoundaryAligned(s.chunks, s.base, s.top, hi);
    OutsideRegion(s.chunks, s.base, s.top, lo, hi, lo);
  }

  /** The words after a region has been made one free chunk. */
  ghost predicate FreeTags(m: State, s: Snapshot, lo: int, hi: int)
    requires hi in s.chunks
    reads m
  {
    && OnlyRegion(s.mem, m.mem, s.sizes, lo, hi)
    && Peek(m.mem, Head(lo)) == HeadWord(hi - lo, false, true)
    && Peek(m.mem, PrevFoot(hi)) == hi - lo
    && Peek(m.mem, Head(hi)) == HeadWord(s.chunks[hi].size, true, false)
  }

  lemma FreedHeap(m: State, s: Snapshot, p: int, lo: int, hi: int)
    requires Sound(s) && Freeable(s, p, lo, hi) && hi in s.chunks && s.chunks[hi].cinuse && FreeTags(m, s, lo, hi)
    ensures HeapOk(m.mem, Retile(s.chunks, lo, hi, FreeChunk(lo, hi), false), s.base, s.top)
    ensures InRegion(FreeChunk(lo, hi), lo, hi)
  {
    hide Tiles, Flags, Tags, OnlyRegion, Retile;
    PlacedFree(s.chunks, s.sizes, s.dv, s.dvsize);
    RegionSize(s, lo, hi);
    FreeTiles(lo, hi);
    RetileHeap(s.mem, m.mem, s.chunks, s.sizes, s.base, s.top, lo, hi, FreeChunk(lo, hi), false);
  }

  lemma FreedLive(s: Snapshot, p: int, lo: int, hi: int)
    requires Sound(s) && Freeable(s, p, lo, hi)
    ensures InRegion(FreeChunk(lo, hi), lo, hi)
    ensures Live(Retile(s.chunks, lo, hi, FreeChunk(lo, hi), false)) == Live(s.chunks) - {p}
  {
    hide Retile;
    RegionSize(s, lo, hi);
    FreeTiles(lo, hi);
    LiveRetile(s.chunks, lo, hi, FreeChunk(lo, hi), false);
  }

  lemma FreedPayloads(m: State, s: Snapshot, p: int, lo: int, hi: int)
    requires Sound(s) && Freeable(s, p, lo, hi) && OnlyRegion(s.mem, m.mem, s.sizes, lo, hi)
    ensures Untouched(s.mem, m.mem, Live(s.chunks) - {p})
  {
    hide Tiles, Flags, Tags, OnlyRegion, Untouched;
    PlacedFree(s.chunks, s.sizes, s.dv, s.dvsize);
    RegionUntouched(s.mem, m.mem, s.chunks, s.sizes, s.base, s.top, lo, hi, Live(s.chunks) - {p});
  }

  /** The free region at `lo` has been made the designated victim or put in a bin. */
  ghost predicate FreePlaced(m: State, s: Snapshot, lo: int, hi: int)
    reads m
  {
    || (m.dv == lo && m.dvsize == hi - lo && forall x :: x in m.sizes <==> x in s.sizes && !(lo <= x < hi))
    || (m.dv == s.dv && m.dvsize == s.dvsize && !(lo <= s.dv < hi) && lo in m.sizes && m.sizes[lo] == hi - lo
        && forall x :: x in m.sizes <==> (x in s.sizes && !(lo <= x < hi)) || x == lo)
  }

  lemma FreedPlaced(m: State, s: Snapshot, p: int, lo: int, hi: int)
    requires Sound(s) && Freeable(s, p, lo, hi) && hi in s.chunks && s.chunks[hi].cinuse
    requires FreePlaced(m, s, lo, hi) && (m.dv == lo ==> s.dvsize == 0 || lo <= s.dv < hi)
    requires forall x :: x in m.sizes && x != lo ==> x in s.sizes && m.sizes[x] == s.sizes[x]
    ensures Placed(Retile(s.chunks, lo, hi, FreeChunk(lo, hi), false), m.sizes, m.dv, m.dvsize)
  {
    hide Retile, Tiles, Flags, Tags;
    RegionSize(s, lo, hi);
    FreeTiles(lo, hi);
    var c' := Retile(s.chunks, lo, hi, FreeChunk(lo, hi), false);
    forall x
      ensures x in c' <==> x == lo || (x in s.chunks && !(lo <= x < hi))
      ensures x in c' ==> (!c'[x].cinuse <==> x == lo || !s.chunks[x].cinuse)
      ensures x in c' ==> c'[x].size == if x == lo then hi - lo else s.chunks[x].size
    {
      RetileAt(s.chunks, lo, hi, FreeChunk(lo, hi), false, x);
    }
    DvIsChunk(s);
  }

  lemma DvIsChunk(s: Snapshot)
    requires Sound(s)
    ensures s.dv in s.chunks <==> s.dvsize != 0
  {
    if s.dv in s.chunks {
      ChunkBelowTop(s.chunks, s.base, s.top, s.dv);
    }
  }

  lemma RegionFreed(m: State, s: Snapshot, p: int, lo: int, hi: int)
    requires Sound(s) && Freeable(s, p, lo, hi) && hi in s.chunks && s.chunks[hi].cinuse && FreeTags(m, s, lo, hi)
    requires FreePlaced(m, s, lo, hi) && (m.dv == lo ==> s.dvsize == 0 || lo <= s.dv < hi)
    requires forall x :: x in m.sizes && x != lo ==> x in s.sizes && m.sizes[x] == s.sizes[x]
    requires m.chunks == Retile(s.chunks, lo, hi, FreeChunk(lo, hi), false)
    requires m.Bins() && m.segBase == s.base && m.segSize == s.size && m.top == s.top && m.topsize == s.topsize
    requires m.footprint == m.segSize <= m.maxFootprint
    ensures Freed(m, s, p)
  {
    hide Retile, Tiles, Flags, Tags, Untouched, BinsOk, HeapOk, Placed, Within, OnlyRegion, FreePlaced;
    FreedHeap(m, s, p, lo, hi);
    FreedLive(s, p, lo, hi);
    FreedPayloads(m, s, p, lo, hi);
    FreedPlaced(m, s, p, lo, hi);
    FreedTop(m, s, p, lo, hi);
  }

  lemma FreedTop(m: State, s: Snapshot, p: int, lo: int, hi: int)
    requires Sound(s) && Freeable(s, p, lo, hi) && hi in s.chunks && OnlyRegion(s.mem, m.mem, s.sizes, lo, hi)
    ensures TopOk(m.mem, s.base, s.size, s.top, s.topsize)
  {
    hide Flags, Tags, OnlyRegion;
    PlacedFree(s.chunks, s.sizes, s.dv, s.dvsize);
    ChunkBelowTop(s.chunks, s.base, s.top, hi);
    TopKept(s.mem, m.mem, s.chunks, s.sizes, s.base, s.size, s.top, s.topsize, lo, hi);
  }

  // ---- writing the tags ----

  /** `set_size_and_pinuse_of_free_chunk(p, s)`. */
  method SetSizeAndPinuseOfFreeChunk(m: State, p: int, size: int)
    requires m.Mapped(Head(p)) && m.Mapped(PrevFoot(p + size))
    modifies m`mem
    ensures m.mem == old(m.mem)[Head(p) := HeadWord(size, false, true)][PrevFoot(p + size) := size]
  {
    m.Put(Head(p), HeadWord(size, false, true));
    m.Put(PrevFoot(p + size), size);
  }

  /** `set_free_with_pinuse(p, s, n)`. */
  method SetFreeWithPinuse(m: State, p: int, size: int, n: int)
    requires m.Mapped(Head(p)) && m.Mapped(PrevFoot(p + size)) && m.Mapped(Head(n))
    modifies m`mem
    ensures m.mem == old(m.mem)[Head(n) := ClearPInUse(Peek(old(m.mem), Head(n)))]
                     [Head(p) := HeadWord(size, false, true)][PrevFoot(p + size) := size]
  {
    m.Put(Head(n), ClearPInUse(m.At(Head(n))));
    SetSizeAndPinuseOfFreeChunk(m, p, size);
  }

  /** Only the tags around the region `[lo, hi)` differ. */
  ghost predicate OnlyEdges(mem: Memory, mem': Memory, lo: int, hi: int) {
    forall a {:trigger Peek(mem', a)} :: Peek(mem', a) != Peek(mem, a) ==>
          a == Head(lo) || a == PrevFoot(hi) || a == Head(hi)
  }

  lemma EdgesAreTags(s: Snapshot, mem: Memory, mem': Memory, sizes: Sizes, lo: int, hi: int)
    requires Sound(s) && lo in s.chunks && (hi in s.chunks || hi == s.top) && lo !in sizes && hi !in sizes
    requires forall x :: x in sizes ==> x in s.sizes && sizes[x] == s.sizes[x]
    requires OnlyEdges(mem, mem', lo, hi)
    ensures OnlyTags(mem, mem', sizes)
  {
    hide Tiles, Flags, Tags, OnlyEdges;
    PlacedFree(s.chunks, s.sizes, s.dv, s.dvsize);
    FewerFree(s, sizes);
    BoundaryNoLink(s.chunks, sizes, s.base, s.top, lo, 8);
    BoundaryNoLink(s.chunks, sizes, s.base, s.top, hi, 0);
    BoundaryNoLink(s.chunks, sizes, s.base, s.top, hi, 8);
    BoundaryAligned(s.chunks, s.base, s.top, hi);
    forall a | Peek(mem', a) != Peek(mem, a)
      ensures !LinkWord(sizes, a) && !IsHead(sizes, a)
    {
      EdgeCases(mem, mem', lo, hi, a);
      if IsHead(sizes, a) {
        var x :| x in sizes && a == Head(x);
        BoundaryAligned(s.chunks, s.base, s.top, x);
      }
    }
  }

  lemma EdgeCases(mem: Memory, mem': Memory, lo: int, hi: int, a: int)
    requires OnlyEdges(mem, mem', lo, hi) && Peek(mem', a) != Peek(mem, a)
    ensures a == Head(lo) || a == PrevFoot(hi) || a == Head(hi)
  {
  }

  lemma FewerFree(s: Snapshot, sizes: Sizes)
    requires Sound(s) && forall x :: x in sizes ==> x in s.sizes && sizes[x] == s.sizes[x]
    ensures BinnedFree(s.chunks, sizes)
  {
  }

  /** Link changes before and tag changes at the edges stay within the region's words. */
  lemma EdgesInRegion(mem0: Memory, mem1: Memory, mem2: Memory, sizes: Sizes, lo: int, hi: int)
    requires OnlyLinks(mem0, mem1, sizes) && OnlyEdges(mem1, mem2, lo, hi) && lo + 8 <= hi
    ensures OnlyRegion(mem0, mem2, sizes, lo, hi)
  {
    forall a | Peek(mem2, a) != Peek(mem0, a)
      ensures RegionWord(sizes, lo, hi, a)
    {
      assert Peek(mem1, a) != Peek(mem0, a) ==> LinkWord(sizes, a);
      if Peek(mem2, a) != Peek(mem1, a) {
        EdgeCases(mem1, mem2, lo, hi, a);
      }
    }
  }

  /** Inserting the region's chunk only adds words of the region. */
  lemma InsertInRegion(mem0: Memory, mem1: Memory, mem2: Memory, sizes: Sizes, sizes1: Sizes, lo: int, hi: int)
    requires OnlyRegion(mem0, mem1, sizes, lo, hi) && OnlyLinks(mem1, mem2, sizes1)
    requires forall x :: x in sizes1 && x != lo ==> x in sizes && sizes1[x] == sizes[x]
    requires lo in sizes1 ==> sizes1[lo] == hi - lo
    ensures OnlyRegion(mem0, mem2, sizes, lo, hi)
  {
    forall a | Peek(mem2, a) != Peek(mem0, a)
      ensures RegionWord(sizes, lo, hi, a)
    {
      assert Peek(mem1, a) != Peek(mem0, a) ==> RegionWord(sizes, lo, hi, a);
      assert Peek(mem2, a) != Peek(mem1, a) ==> LinkWord(sizes1, a);
    }
  }

  /** The heap after `lo` has been given its tags and awaits a place: every chunk of the
      region has left the bins. */
  ghost predicate Tagged(m: State, s: Snapshot, lo: int, hi: int, gone: set<int>)
    requires hi in s.chunks
    reads m
  {
    && Sound(s) && m.Bins() && m.sizes == s.sizes - gone
    && (forall x :: x in s.sizes && lo <= x < hi ==> x in gone) && (forall x :: x in gone ==> lo <= x < hi)
    && FreeTags(m, s, lo, hi)
    && m.segBase == s.base && m.segSize == s.size && m.top == s.top && m.topsize == s.topsize
    && m.footprint == m.segSize <= m.maxFootprint && m.chunks == s.chunks
  }

  /** The state around a memory that is being rewritten: `mem1` is the memory as the bins
      left it, and all other fields are as they were then. */
  ghost predicate Writing(m: State, s: Snapshot, gone: set<int>, mem1: Memory)
    reads m`smallmap, m`treemap, m`sizes, m`small, m`tree, m`segBase, m`segSize, m`top, m`topsize, m`chunks,
          m`footprint, m`maxFootprint
  {
    && Sound(s) && BinsOk(mem1, m.smallmap, m.treemap, m.sizes, m.small, m.tree)
    && Within(m.sizes, m.segBase, m.segBase + m.segSize)
    && m.sizes == s.sizes - gone && OnlyLinks(s.mem, mem1, s.sizes)
    && m.segBase == s.base && m.segSize == s.size && m.top == s.top && m.topsize == s.topsize
    && m.footprint == m.segSize <= m.maxFootprint && m.chunks == s.chunks
  }

  lemma OpenedWriting(m: State, s: Snapshot, gone: set<int>)
    requires Opened(m, s, gone)
    ensures Writing(m, s, gone, m.mem)
  {
    hide Sound, BinsOk, Within, OnlyLinks;
  }

  lemma NowTagged(m: State, s: Snapshot, p: int, lo: int, hi: int, gone: set<int>, mem1: Memory)
    requires Writing(m, s, gone, mem1) && OnlyEdges(mem1, m.mem, lo, hi)
    requires Freeable(s, p, lo, hi) && hi in s.chunks && s.chunks[hi].cinuse
    requires (forall x :: x in s.sizes && lo <= x < hi ==> x in gone) && (forall x :: x in gone ==> lo <= x < hi)
    requires Peek(m.mem, Head(lo)) == HeadWord(hi - lo, false, true) && Peek(m.mem, PrevFoot(hi)) == hi - lo
    requires Peek(m.mem, Head(hi)) == HeadWord(s.chunks[hi].size, true, false)
    ensures Tagged(m, s, lo, hi, gone)
  {
    hide Tiles, Flags, Tags, OnlyEdges, OnlyLinks, OnlyRegion, BinsOk, Within;
    RegionSize(s, lo, hi);
    EdgesInRegion(s.mem, mem1, m.mem, s.sizes, lo, hi);
    UsedNotBinned(s, hi);
    EdgesAreTags(s, mem1, m.mem, m.sizes, lo, hi);
    BinsKept(mem1, m.mem, m.smallmap, m.treemap, m.sizes, m.small, m.tree);
    BinsFromParts(m);
  }

  lemma UsedNotBinned(s: Snapshot, p: int)
    requires Sound(s) && p in s.chunks && s.chunks[p].cinuse
    ensures p !in s.sizes && p != s.dv
  {
    DvIsChunk(s);
  }

  lemma RegionBinnable(m: State, s: Snapshot, p: int, lo: int, hi: int, gone: set<int>)
    requires hi in s.chunks && Freeable(s, p, lo, hi) && Tagged(m, s, lo, hi, gone)
    ensures Binnable(m.mem, m.sizes, m.segBase, m.segBase + m.segSize, lo, hi - lo)
  {
    hide Flags, Tags, OnlyRegion, BinsOk;
    RegionSize(s, lo, hi);
    BoundaryAligned(s.chunks, s.base, s.top, lo);
    BoundaryAligned(s.chunks, s.base, s.top, hi);
    SumOf16(hi, lo);
    Of16Of8(hi - lo);
    HeadFields(hi - lo, false, true);
    hide HeadWord, ChunkSize;
    forall y | y in m.sizes
      ensures hi <= y || y + m.sizes[y] <= lo
    {
      OutsideRegion(s.chunks, s.base, s.top, lo, hi, y);
    }
  }

  /** Inserting the region's chunk spares the tags at its edges. */
  lemma EdgesSpared(m: State, s: Snapshot, p: int, lo: int, hi: int, mem2: Memory)
    requires Sound(s) && hi in s.chunks && Freeable(s, p, lo, hi)
    requires OnlyLinks(mem2, m.mem, m.sizes)
    requires forall x :: x in m.sizes && x != lo ==> x in s.sizes && m.sizes[x] == s.sizes[x]
    requires lo in m.sizes ==> m.sizes[lo] == hi - lo
    requires forall x :: x in s.sizes && lo <= x < hi && x != lo ==> x !in m.sizes
    ensures Peek(m.mem, Head(lo)) == Peek(mem2, Head(lo)) && Peek(m.mem, PrevFoot(hi)) == Peek(mem2, PrevFoot(hi))
    ensures Peek(m.mem, Head(hi)) == Peek(mem2, Head(hi))
  {
    hide Tiles, Flags, Tags;
    PlacedFree(s.chunks, s.sizes, s.dv, s.dvsize);
    BoundaryNoLink(s.chunks, s.sizes, s.base, s.top, lo, 8);
    BoundaryNoLink(s.chunks, s.sizes, s.base, s.top, hi, 0);
    BoundaryNoLink(s.chunks, s.sizes, s.base, s.top, hi, 8);
    RegionSize(s, lo, hi);
    assert !LinkWord(m.sizes, Head(lo)) && !LinkWord(m.sizes, PrevFoot(hi)) && !LinkWord(m.sizes, Head(hi));
  }

  lemma RegionInBin(m: State, s: Snapshot, p: int, lo: int, hi: int, gone: set<int>, mem2: Memory, sizes2: Sizes)
    requires hi in s.chunks && s.chunks[hi].cinuse && Freeable(s, p, lo, hi)
    requires Sound(s) && m.Bins() && sizes2 == s.sizes - gone && m.sizes == sizes2[lo := hi - lo]
    requires (forall x :: x in s.sizes && lo <= x < hi ==> x in gone) && (forall x :: x in gone ==> lo <= x < hi)
    requires OnlyRegion(s.mem, mem2, s.sizes, lo, hi) && OnlyLinks(mem2, m.mem, m.sizes)
    requires Peek(mem2, Head(lo)) == HeadWord(hi - lo, false, true) && Peek(mem2, PrevFoot(hi)) == hi - lo
    requires Peek(mem2, Head(hi)) == HeadWord(s.chunks[hi].size, true, false)
    requires m.segBase == s.base && m.segSize == s.size && m.top == s.top && m.topsize == s.topsize
    requires m.footprint == m.segSize <= m.maxFootprint && m.dv == s.dv && m.dvsize == s.dvsize && !(lo <= s.dv < hi)
    requires m.chunks == Retile(s.chunks, lo, hi, FreeChunk(lo, hi), false)
    ensures Freed(m, s, p)
  {
    hide Tiles, Flags, Tags, OnlyLinks, OnlyRegion, BinsOk, Within, Freed, Retile, Sound;
    InsertInRegion(s.mem, mem2, m.mem, s.sizes, m.sizes, lo, hi);
    EdgesSpared(m, s, p, lo, hi, mem2);
    RegionFreed(m, s, p, lo, hi);
  }

  lemma TaggedParts(m: State, s: Snapshot, lo: int, hi: int, gone: set<int>)
    requires hi in s.chunks && Tagged(m, s, lo, hi, gone)
    ensures Sound(s) && m.Bins() && m.sizes == s.sizes - gone
    ensures (forall x :: x in s.sizes && lo <= x < hi ==> x in gone) && (forall x :: x in gone ==> lo <= x < hi)
    ensures OnlyRegion(s.mem, m.mem, s.sizes, lo, hi)
    ensures Peek(m.mem, Head(lo)) == HeadWord(hi - lo, false, true) && Peek(m.mem, PrevFoot(hi)) == hi - lo
    ensures Peek(m.mem, Head(hi)) == HeadWord(s.chunks[hi].size, true, false)
    ensures m.segBase == s.base && m.segSize == s.size && m.top == s.top && m.topsize == s.topsize
    ensures m.footprint == m.segSize <= m.maxFootprint && m.chunks == s.chunks
  {
    hide Sound, BinsOk, OnlyRegion;
  }

  /** The region's chunk goes into a bin. */
  method BinRegion(m: State, lo: int, size: nat, ghost s: Snapshot, ghost p: int, ghost hi: int, ghost gone: set<int>)
    requires hi in s.chunks && s.chunks[hi].cinuse && Freeable(s, p, lo, hi) && Tagged(m, s, lo, hi, gone)
    requires size == hi - lo
    requires !(lo <= s.dv < hi) && m.dv == s.dv && m.dvsize == s.dvsize
    modifies m`mem, m`smallmap, m`treemap, m`sizes, m`small, m`tree, m`trace, m`chunks
    ensures m.trace == old(m.trace) + [Insert(lo, size)] && (old(m.Chronicled()) ==> m.Chronicled())
    ensures Freed(m, s, p)
  {
    hide *;
    ghost var mem2, sizes2 := m.mem, m.sizes;
    TaggedParts(m, s, lo, hi, gone);
    RegionBinnable(m, s, p, lo, hi, gone);
    InsertChunk(m, lo, size);
    m.chunks := Retile(s.chunks, lo, hi, FreeChunk(lo, hi), false);
    RegionInBin(m, s, p, lo, hi, gone, mem2, sizes2);
  }

  /** The region's chunk becomes the designated victim. */
  lemma VictimRegion(m: State, s: Snapshot, p: int, lo: int, hi: int, gone: set<int>)
    requires hi in s.chunks && s.chunks[hi].cinuse && Freeable(s, p, lo, hi)
    requires s.dvsize != 0 && lo <= s.dv < hi
    requires m.chunks == Retile(s.chunks, lo, hi, FreeChunk(lo, hi), false)
    requires m.dv == lo && m.dvsize == hi - lo
    requires Sound(s) && m.Bins() && m.sizes == s.sizes - gone && FreeTags(m, s, lo, hi)
    requires (forall x :: x in s.sizes && lo <= x < hi ==> x in gone) && (forall x :: x in gone ==> lo <= x < hi)
    requires m.segBase == s.base && m.segSize == s.size && m.top == s.top && m.topsize == s.topsize
    requires m.footprint == m.segSize <= m.maxFootprint
    ensures Freed(m, s, p)
  {
    hide Tiles, Flags, Tags, OnlyLinks, OnlyRegion, BinsOk, Within, Freed, Retile, Sound;
    RegionFreed(m, s, p, lo, hi);
  }

  // ---- the region up to top ----

  lemma TruncateHeap(mem: Memory, s: Snapshot, lo: int)
    requires Sound(s) && IsRegion(s.chunks, s.base, s.top, lo, s.top) && s.chunks[lo].pinuse
    requires OnlyRegion(s.mem, mem, s.sizes, lo, s.top)
    ensures HeapOk(mem, Truncate(s.chunks, lo), s.base, lo)
  {
    hide Tiles, Flags, Tags, OnlyRegion, Truncate;
    PlacedFree(s.chunks, s.sizes, s.dv, s.dvsize);
    TruncateTiles(s.chunks, s.base, s.top, lo);
    TruncateFlags(s.chunks, s.base, s.top, lo);
    TruncateTags(s.mem, mem, s.chunks, s.sizes, s.base, s.top, lo);
  }

  lemma AbsorbedTop(mem: Memory, s: Snapshot, lo: int, topsize: int)
    requires Sound(s) && IsRegion(s.chunks, s.base, s.top, lo, s.top) && topsize == s.topsize + (s.top - lo)
    requires OnlyRegion(s.mem, mem, s.sizes, lo, s.top) && Peek(mem, Head(lo)) == HeadWord(topsize, false, true)
    ensures TopOk(mem, s.base, s.size, lo, topsize)
  {
    hide Flags, Tags;
    PlacedFree(s.chunks, s.sizes, s.dv, s.dvsize);
    BoundaryAligned(s.chunks, s.base, s.top, lo);
    FencepostNoLink(s.chunks, s.sizes, s.base, s.top, Head(s.top + s.topsize));
    assert !RegionWord(s.sizes, lo, s.top, Head(s.top + s.topsize));
  }

  lemma AbsorbedPlaced(m: State, s: Snapshot, p: int, lo: int)
    requires Sound(s) && Freeable(s, p, lo, s.top)
    requires forall x :: x in m.sizes <==> x in s.sizes && x < lo
    requires forall x :: x in m.sizes ==> m.sizes[x] == s.sizes[x]
    requires if s.dvsize != 0 && lo <= s.dv then m.dv == 0 && m.dvsize == 0 else m.dv == s.dv && m.dvsize == s.dvsize
    ensures Placed(Truncate(s.chunks, lo), m.sizes, m.dv, m.dvsize)
  {
    DvIsChunk(s);
    forall x | x in s.chunks
      ensures s.base <= x < s.top
    {
      ChunkBelowTop(s.chunks, s.base, s.top, x);
    }
  }

  lemma AbsorbedLive(s: Snapshot, p: int, lo: int)
    requires Sound(s) && Freeable(s, p, lo, s.top)
    ensures Live(Truncate(s.chunks, lo)) == Live(s.chunks) - {p}
  {
    forall x | x in s.chunks
      ensures x < s.top
    {
      ChunkBelowTop(s.chunks, s.base, s.top, x);
    }
  }

  lemma RegionAbsorbed(m: State, s: Snapshot, p: int, lo: int, gone: set<int>)
    requires Sound(s) && Freeable(s, p, lo, s.top) && m.Bins() && m.sizes == s.sizes - gone
    requires (forall x :: x in s.sizes && lo <= x < s.top ==> x in gone) && (forall x :: x in gone ==> lo <= x < s.top)
    requires OnlyRegion(s.mem, m.mem, s.sizes, lo, s.top) && Peek(m.mem, Head(lo)) == HeadWord(m.topsize, false, true)
    requires m.chunks == Truncate(s.chunks, lo) && m.top == lo && m.topsize == s.topsize + (s.top - lo)
    requires if s.dvsize != 0 && lo <= s.dv then m.dv == 0 && m.dvsize == 0 else m.dv == s.dv && m.dvsize == s.dvsize
    requires m.segBase == s.base && m.segSize == s.size && m.footprint == m.segSize <= m.maxFootprint
    ensures Freed(m, s, p)
  {
    hide Tiles, Flags, Tags, OnlyRegion, BinsOk, Within, Truncate, Placed, HeapOk;
    BinnedBelowTop(s);
    TruncateHeap(m.mem, s, lo);
    AbsorbedTop(m.mem, s, lo, m.topsize);
    AbsorbedPlaced(m, s, p, lo);
    AbsorbedLive(s, p, lo);
    FreedPayloads(m, s, p, lo, s.top);
  }

  lemma BinnedBelowTop(s: Snapshot)
    requires Sound(s)
    ensures forall x :: x in s.sizes ==> s.base <= x < s.top
  {
    forall x | x in s.sizes
      ensures s.base <= x < s.top
    {
      ChunkBelowTop(s.chunks, s.base, s.top, x);
    }
  }

  // ---- consolidation ----

  /** Chunk `p`, in use, with the free chunk before it if there is one: a space that starts
      at `q`. `gone` is what of it up to `hi` was in bins: `hi` is the end of `p`, or of the
      free chunk after it. */
  ghost predicate Space(s: Snapshot, p: int, q: int, hi: int, gone: set<int>) {
    && Sound(s) && p in s.chunks && s.chunks[p].cinuse
    && q in s.chunks && s.chunks[q].pinuse && (q == p || (!s.chunks[q].cinuse && End(s.chunks, q) == p))
    && var n := End(s.chunks, p);
       var back := if q == p || q == s.dv then {} else {q};
       (hi == n && gone == back)
       || (n in s.chunks && !s.chunks[n].cinuse && hi == End(s.chunks, n)
           && gone == back + (if n == s.dv then {} else {n}))
  }

  lemma SpaceEnds(s: Snapshot, p: int, q: int, hi: int, gone: set<int>)
    requires Space(s, p, q, hi, gone)
    ensures IsRegion(s.chunks, s.base, s.top, q, hi) && q <= p < hi && End(s.chunks, p) <= hi
    ensures q < p ==> End(s.chunks, q) == p
    ensures hi != End(s.chunks, p) || End(s.chunks, p) in gone ==> End(s.chunks, p) < hi
  {
    hide Flags, Tags, Placed;
    assert ChunkFits(s.chunks, s.base, s.top, p) && ChunkFits(s.chunks, s.base, s.top, q);
    if End(s.chunks, p) in s.chunks {
      assert ChunkFits(s.chunks, s.base, s.top, End(s.chunks, p));
    }
  }

  lemma SpaceFreeable(s: Snapshot, p: int, q: int, hi: int, gone: set<int>)
    requires Space(s, p, q, hi, gone)
    ensures Freeable(s, p, q, hi) && (hi == s.top || hi in s.chunks)
    ensures forall x :: x in s.chunks && q <= x < hi ==> x == q || x == p || x == End(s.chunks, p)
  {
    hide Flags, Tags, Placed;
    var n := End(s.chunks, p);
    SpaceEnds(s, p, q, hi, gone);
    forall x | x in s.chunks && q <= x < hi
      ensures x == q || x == p || x == n
    {
      assert Apart2(s.chunks, x, q) && Apart2(s.chunks, x, p);
      OutsideRegion(s.chunks, s.base, s.top, q, hi, x);
      if n in s.chunks {
        assert Apart2(s.chunks, x, n);
      }
    }
  }

  /** `gone` is exactly what the region holds of the bins. */
  lemma SpaceGone(s: Snapshot, p: int, q: int, hi: int, gone: set<int>)
    requires Space(s, p, q, hi, gone)
    ensures (forall x :: x in s.sizes && q <= x < hi ==> x in gone) && (forall x :: x in gone ==> q <= x < hi)
    ensures s.dvsize != 0 && q <= s.dv < hi <==> s.dv == q || (s.dv == End(s.chunks, p) && hi != s.dv)
  {
    hide Flags, Tags, Tiles;
    SpaceFreeable(s, p, q, hi, gone);
    SpaceEnds(s, p, q, hi, gone);
    UsedNotBinned(s, p);
    DvIsChunk(s);
  }

  /** The words at the ends of the space are mapped and can be read. */
  lemma SpaceReads(m: State, s: Snapshot, p: int, q: int, hi: int, gone: set<int>, gone': set<int>)
    requires Space(s, p, q, hi, gone) && Opened(m, s, gone')
    ensures m.Mapped(Head(q)) && m.Mapped(PrevFoot(hi)) && m.Mapped(Head(hi)) && m.OkAddress(hi) && q < hi
    ensures PrevFoot(q + (hi - q)) == PrevFoot(hi)
    ensures hi in s.chunks ==>
              Peek(m.mem, Head(hi)) == HeadWord(s.chunks[hi].size, s.chunks[hi].cinuse, s.chunks[hi].pinuse)
    ensures hi in s.chunks ==>
              ClearPInUse(Peek(m.mem, Head(hi))) == HeadWord(s.chunks[hi].size, s.chunks[hi].cinuse, false)
  {
    hide BinsOk, Within, OnlyLinks, Flags, Tags, Tiles, Placed;
    SpaceFreeable(s, p, q, hi, gone);
    BoundaryRead(s, m, gone', q);
    BoundaryRead(s, m, gone', hi);
    if hi in s.chunks {
      HeadRead(s, m, gone', hi);
    }
  }

  /** `set_free_with_pinuse` on a space followed by a chunk in use. */
  method TagAlone(m: State, q: int, size: nat, next: int, ghost s: Snapshot, ghost p: int, ghost gone: set<int>)
    requires Opened(m, s, gone) && Space(s, p, q, next, gone) && size == next - q
    requires next in s.chunks && s.chunks[next].cinuse
    modifies m`mem
    ensures Tagged(m, s, q, next, gone) && Freeable(s, p, q, next)
  {
    hide *;
    ghost var mem1 := m.mem;
    OpenedWriting(m, s, gone);
    SpaceReads(m, s, p, q, next, gone, gone);
    SetFreeWithPinuse(m, q, size, next);
    SpaceTagged(m, s, p, q, next, gone, mem1);
  }

  /** `set_size_and_pinuse_of_free_chunk` on a space that ends where a free chunk ended. */
  method TagJoined(m: State, q: int, size: nat, ghost s: Snapshot, ghost p: int, ghost hi: int, ghost gone: set<int>)
    requires Opened(m, s, gone) && Space(s, p, q, hi, gone) && size == hi - q
    requires hi in s.chunks && s.chunks[hi].cinuse && !s.chunks[hi].pinuse
    modifies m`mem
    ensures Tagged(m, s, q, hi, gone) && Freeable(s, p, q, hi)
  {
    hide *;
    ghost var mem1 := m.mem;
    OpenedWriting(m, s, gone);
    SpaceReads(m, s, p, q, hi, gone, gone);
    SetSizeAndPinuseOfFreeChunk(m, q, size);
    SpaceTagged(m, s, p, q, hi, gone, mem1);
  }

  lemma SpaceTagged(m: State, s: Snapshot, p: int, q: int, hi: int, gone: set<int>, mem1: Memory)
    requires Writing(m, s, gone, mem1) && Space(s, p, q, hi, gone)
    requires hi in s.chunks && s.chunks[hi].cinuse
    requires var cleared := HeadWord(s.chunks[hi].size, true, false);
             || m.mem == mem1[Head(hi) := cleared][Head(q) := HeadWord(hi - q, false, true)]
                   [PrevFoot(q + (hi - q)) := hi - q]
             || (Peek(mem1, Head(hi)) == cleared
                 && m.mem == mem1[Head(q) := HeadWord(hi - q, false, true)][PrevFoot(q + (hi - q)) := hi - q])
    ensures Tagged(m, s, q, hi, gone) && Freeable(s, p, q, hi)
  {
    hide BinsOk, Within, OnlyLinks, Flags, Tags, Tiles, Tagged, Space, Freeable, Writing, Sound;
    SpaceFreeable(s, p, q, hi, gone);
    SpaceSize(s, p, q, hi, gone);
    SpaceGone(s, p, q, hi, gone);
    NowTagged(m, s, p, q, hi, gone, mem1);
  }

  lemma SpaceSize(s: Snapshot, p: int, q: int, hi: int, gone: set<int>)
    requires Space(s, p, q, hi, gone)
    ensures q % 16 == 0 && hi % 16 == 0 && q + MIN_CHUNK_SIZE <= hi
  {
    hide Flags, Tags, Tiles, Placed;
    SpaceEnds(s, p, q, hi, gone);
    RegionSize(s, q, hi);
  }

  // ---- the cases of consolidating forward ----

  /** The chunk after is in use. */
  method FreeAlone(m: State, q: int, size: nat, next: int, ghost s: Snapshot, ghost p: int, ghost gone: set<int>)
    requires Opened(m, s, gone) && Space(s, p, q, next, gone) && size == next - q && q != s.dv
    requires next in s.chunks && s.chunks[next].cinuse && next == End(s.chunks, p)
    modifies m`mem, m`smallmap, m`treemap, m`sizes, m`small, m`tree, m`trace, m`chunks
    ensures m.trace == old(m.trace) + [Insert(q, size)] && (old(m.Chronicled()) ==> m.Chronicled())
    ensures Freed(m, s, p)
  {
    hide *;
    SpaceGone(s, p, q, next, gone);
    NextIsNotVictim(s, p, q, next, gone);
    OpenedFields(m, s, gone);
    TagAlone(m, q, size, next, s, p, gone);
    BinRegion(m, q, size, s, p, next, gone);
  }

  lemma NextIsNotVictim(s: Snapshot, p: int, q: int, next: int, gone: set<int>)
    requires Space(s, p, q, next, gone) && q != s.dv && (next in s.chunks ==> s.chunks[next].cinuse)
    requires End(s.chunks, p) == s.dv ==> next == s.dv
    ensures !(q <= s.dv < next)
  {
    hide Flags, Tags, Tiles, Placed;
    SpaceGone(s, p, q, next, gone);
    DvIsChunk(s);
    SpaceFreeable(s, p, q, next, gone);
    GmBelow(s, q);
  }

  lemma GmBelow(s: Snapshot, q: int)
    requires Sound(s) && q in s.chunks
    ensures q > 0 && (s.dvsize == 0 ==> s.dv == 0)
  {
    ChunkBelowTop(s.chunks, s.base, s.top, q);
  }

  lemma OpenedFields(m: State, s: Snapshot, gone: set<int>)
    requires Opened(m, s, gone)
    ensures Sound(s) && m.dv == s.dv && m.dvsize == s.dvsize && m.top == s.top && m.topsize == s.topsize
    ensures m.segBase == s.base && m.segSize == s.size && m.chunks == s.chunks
  {
    hide Sound, BinsOk, OnlyLinks, Within;
  }

  /** The space before is the designated victim and the chunk after is in use. */
  method GrowVictim(m: State, q: int, size: nat, next: int, ghost s: Snapshot, ghost p: int)
    requires Opened(m, s, {}) && Space(s, p, q, next, {}) && size == next - q && q == s.dv
    requires next in s.chunks && s.chunks[next].cinuse
    modifies m`mem, m`dvsize, m`chunks
    ensures Freed(m, s, p) && m.dvsize == size
  {
    hide *;
    SpaceGone(s, p, q, next, {});
    OpenedFields(m, s, {});
    TagAlone(m, q, size, next, s, p, {});
    TaggedParts(m, s, q, next, {});
    m.dvsize := size;
    m.chunks := Retile(s.chunks, q, next, FreeChunk(q, next), false);
    VictimTagged(m, s, p, q, next, {});
  }

  lemma VictimTagged(m: State, s: Snapshot, p: int, lo: int, hi: int, gone: set<int>)
    requires hi in s.chunks && s.chunks[hi].cinuse && Freeable(s, p, lo, hi)
    requires s.dvsize != 0 && lo <= s.dv < hi && m.dv == lo && m.dvsize == hi - lo
    requires m.chunks == Retile(s.chunks, lo, hi, FreeChunk(lo, hi), false)
    requires Sound(s) && m.Bins() && m.sizes == s.sizes - gone
    requires (forall x :: x in s.sizes && lo <= x < hi ==> x in gone) && (forall x :: x in gone ==> lo <= x < hi)
    requires OnlyRegion(s.mem, m.mem, s.sizes, lo, hi)
    requires Peek(m.mem, Head(lo)) == HeadWord(hi - lo, false, true) && Peek(m.mem, PrevFoot(hi)) == hi - lo
    requires Peek(m.mem, Head(hi)) == HeadWord(s.chunks[hi].size, true, false)
    requires m.segBase == s.base && m.segSize == s.size && m.top == s.top && m.topsize == s.topsize
    requires m.footprint == m.segSize <= m.maxFootprint
    ensures Freed(m, s, p)
  {
    hide Tiles, Flags, Tags, OnlyLinks, OnlyRegion, BinsOk, Within, Freed, Retile, Sound;
    VictimRegion(m, s, p, lo, hi, gone);
  }

  /** The chunk after is the designated victim, which grows downwards. */
  method JoinVictim(m: State, q: int, size: nat, next: int, ghost s: Snapshot, ghost p: int, ghost gone: set<int>)
    requires Opened(m, s, gone) && Space(s, p, q, next, gone) && size == next - q && next == s.dv && next in s.chunks
    requires !s.chunks[next].cinuse && q != s.dv
    modifies m`mem, m`dv, m`dvsize, m`chunks
    ensures Freed(m, s, p) && m.dv == q && m.dvsize == old(m.dvsize) + size
  {
    hide *;
    ghost var hi := End(s.chunks, next);
    VictimSpace(s, p, q, next, gone);
    SpaceGone(s, p, q, hi, gone);
    OpenedFields(m, s, gone);
    var dsize := m.dvsize + size;
    TagJoined(m, q, dsize, s, p, hi, gone);
    TaggedParts(m, s, q, hi, gone);
    m.dvsize := dsize;
    m.dv := q;
    m.chunks := Retile(s.chunks, q, hi, FreeChunk(q, hi), false);
    VictimTagged(m, s, p, q, hi, gone);
  }

  lemma VictimSpace(s: Snapshot, p: int, q: int, next: int, gone: set<int>)
    requires Space(s, p, q, next, gone) && next == s.dv && next in s.chunks && !s.chunks[next].cinuse && q != s.dv
    ensures var hi := End(s.chunks, next);
            && Space(s, p, q, hi, gone) && hi in s.chunks && s.chunks[hi].cinuse && !s.chunks[hi].pinuse
            && hi - q == s.dvsize + (next - q) && s.dvsize != 0 && s.dv == End(s.chunks, p) && hi != s.dv
  {
    hide Flags, Tags, Tiles;
    SpaceEnds(s, p, q, next, gone);
    FreeThenUsed(s, next);
    DvIsChunk(s);
    FreeNotTwice(s, p, next, gone, q);
  }

  /** A free chunk is followed by one in use whose `pinuse` bit is clear. */
  lemma FreeThenUsed(s: Snapshot, n: int)
    requires Sound(s) && n in s.chunks && !s.chunks[n].cinuse
    ensures var hi := End(s.chunks, n);
            n < hi && hi in s.chunks && s.chunks[hi].cinuse && !s.chunks[hi].pinuse
  {
    assert FlagsAt(s.chunks, s.top, n) && ChunkFits(s.chunks, s.base, s.top, n);
  }

  lemma FreeNotTwice(s: Snapshot, p: int, next: int, gone: set<int>, q: int)
    requires Space(s, p, q, next, gone) && next in s.chunks && !s.chunks[next].cinuse
    ensures next == End(s.chunks, p)
  {
    var n := End(s.chunks, p);
    if n in s.chunks && !s.chunks[n].cinuse {
      FreeThenUsed(s, n);
    }
  }

  /** The chunk after is free and binned: both are joined, and the result is binned unless
      it starts at the designated victim. */
  method JoinBinned(m: State, q: int, size: nat, next: int, ghost s: Snapshot, ghost p: int, ghost gone: set<int>)
    requires Opened(m, s, gone) && Space(s, p, q, next, gone) && size == next - q && next != s.dv && next in s.chunks
    requires !s.chunks[next].cinuse
    modifies m`mem, m`smallmap, m`treemap, m`sizes, m`small, m`tree, m`trace, m`dvsize, m`chunks
    ensures old(m.Chronicled()) ==> m.Chronicled()
    ensures Freed(m, s, p)
    ensures var total := size + s.chunks[next].size;
            if q == m.dv then m.dvsize == total && m.trace == old(m.trace) + [Remove(next)]
            else m.dvsize == old(m.dvsize) && m.trace == old(m.trace) + [Remove(next)] + [Insert(q, total)]
  {
    hide *;
    ghost var hi, all := End(s.chunks, next), gone + {next};
    BinnedSpace(m, s, p, q, next, gone);
    OpenedFields(m, s, gone);
    var nsize := ChunkSize(m.At(Head(next)));
    var total := size + nsize;
    TakeFromBin(m, next, nsize, s, gone);
    OpenedFields(m, s, all);
    TagJoined(m, q, total, s, p, hi, all);
    TaggedParts(m, s, q, hi, all);
    if q == m.dv {
      m.dvsize := total;
      m.chunks := Retile(s.chunks, q, hi, FreeChunk(q, hi), false);
      VictimTagged(m, s, p, q, hi, all);
    } else {
      BinRegion(m, q, total, s, p, hi, all);
    }
  }

  lemma BinnedSpace(m: State, s: Snapshot, p: int, q: int, next: int, gone: set<int>)
    requires Opened(m, s, gone) && Space(s, p, q, next, gone) && next != s.dv && next in s.chunks
    requires !s.chunks[next].cinuse
    ensures var hi := End(s.chunks, next);
            && Space(s, p, q, hi, gone + {next}) && hi in s.chunks && s.chunks[hi].cinuse && !s.chunks[hi].pinuse
            && hi == next + s.chunks[next].size
            && next in s.sizes && next !in gone && s.sizes[next] == s.chunks[next].size
            && m.Mapped(Head(next)) && ChunkSize(m.At(Head(next))) == s.chunks[next].size
            && (q == s.dv ==> s.dvsize != 0 && q <= s.dv < hi)
            && (q != s.dv ==> !(q <= s.dv < hi))
  {
    hide Flags, Tags, Tiles, BinsOk, Within, OnlyLinks;
    SpaceEnds(s, p, q, next, gone);
    FreeThenUsed(s, next);
    FreeNotTwice(s, p, next, gone, q);
    HeadRead(s, m, gone, next);
    SpaceGone(s, p, q, End(s.chunks, next), gone + {next});
    GmBelow(s, q);
  }

  /** The chunk after is top, which takes everything. */
  method JoinTop(m: State, q: int, size: nat, ghost s: Snapshot, ghost p: int, ghost gone: set<int>)
    requires Opened(m, s, gone) && Space(s, p, q, s.top, gone) && size == s.top - q
    modifies m`mem, m`top, m`topsize, m`dv, m`dvsize, m`chunks
    ensures Freed(m, s, p) && m.top == q && m.topsize == old(m.topsize) + size
    ensures m.dv == (if q == old(m.dv) then 0 else old(m.dv)) && m.dvsize == if q == old(m.dv) then 0 else old(m.dvsize)
  {
    hide *;
    ghost var mem1 := m.mem;
    OpenedFields(m, s, gone);
    OpenedWriting(m, s, gone);
    SpaceReads(m, s, p, q, s.top, gone, gone);
    var tsize := m.topsize + size;
    TopWritten(m, s, p, q, gone, tsize);
    m.topsize := tsize;
    m.top := q;
    m.Put(Head(q), HeadWord(tsize, false, true));
    if q == m.dv {
      m.dv := 0;
      m.dvsize := 0;
    }
    m.chunks := Truncate(s.chunks, q);
    BinsFromParts(m);
    RegionAbsorbed(m, s, p, q, gone);
  }

  lemma TopWritten(m: State, s: Snapshot, p: int, q: int, gone: set<int>, tsize: int)
    requires Opened(m, s, gone) && Space(s, p, q, s.top, gone)
    ensures var mem' := m.mem[Head(q) := HeadWord(tsize, false, true)];
            && Freeable(s, p, q, s.top)
            && (forall x :: x in s.sizes && q <= x < s.top ==> x in gone) && (forall x :: x in gone ==> q <= x < s.top)
            && OnlyRegion(s.mem, mem', s.sizes, q, s.top) && Peek(mem', Head(q)) == HeadWord(tsize, false, true)
            && BinsOk(mem', m.smallmap, m.treemap, m.sizes, m.small, m.tree)
            && Within(m.sizes, m.segBase, m.segBase + m.segSize) && m.sizes == s.sizes - gone
            && (s.dvsize != 0 && q <= s.dv <==> q == s.dv)
            && m.footprint == m.segSize <= m.maxFootprint
  {
    hide Flags, Tags, Tiles, BinsOk, Within, OnlyLinks, OnlyTags, OnlyEdges, OnlyRegion;
    var mem' := m.mem[Head(q) := HeadWord(tsize, false, true)];
    SpaceFreeable(s, p, q, s.top, gone);
    SpaceSize(s, p, q, s.top, gone);
    SpaceGone(s, p, q, s.top, gone);
    EdgeWrite(m.mem, q, s.top, HeadWord(tsize, false, true));
    EdgesInRegion(s.mem, m.mem, mem', s.sizes, q, s.top);
    TopNotChunk(s);
    EdgesAreTags(s, m.mem, mem', m.sizes, q, s.top);
    BinsKept(m.mem, mem', m.smallmap, m.treemap, m.sizes, m.small, m.tree);
    DvBelowTop(s);
    LastNotFree(s, p, q, gone);
  }

  lemma EdgeWrite(mem: Memory, lo: int, hi: int, v: int)
    ensures OnlyEdges(mem, mem[Head(lo) := v], lo, hi)
  {
  }

  lemma TopNotChunk(s: Snapshot)
    requires Sound(s)
    ensures s.top !in s.sizes
  {
    BinnedBelowTop(s);
  }

  lemma DvBelowTop(s: Snapshot)
    requires Sound(s)
    ensures s.dvsize != 0 ==> s.dv < s.top
    ensures s.dvsize == 0 ==> s.dv == 0
  {
    if s.dvsize != 0 {
      ChunkBelowTop(s.chunks, s.base, s.top, s.dv);
    }
  }

  lemma LastNotFree(s: Snapshot, p: int, q: int, gone: set<int>)
    requires Space(s, p, q, s.top, gone)
    ensures End(s.chunks, p) == s.top && s.dv != s.top && q > 0
  {
    var n := End(s.chunks, p);
    if n in s.chunks && !s.chunks[n].cinuse {
      FreeThenUsed(s, n);
      ChunkBelowTop(s.chunks, s.base, s.top, End(s.chunks, n));
    }
    ChunkBelowTop(s.chunks, s.base, s.top, q);
    DvBelowTop(s);
    TopPositive(s);
  }

  lemma TopPositive(s: Snapshot)
    requires Sound(s)
    ensures s.top > 0
  {
  }

  // ---- dispose_chunk and dlfree ----

  lemma Start(m: State, p: int)
    requires Valid(m) && p in m.chunks && m.chunks[p].cinuse
    ensures var s := Snap(m);
            && Opened(m, s, {}) && Sound(s)
            && s.chunks == m.chunks && s.mem == m.mem && s.top == m.top && s.dv == m.dv
            && m.Mapped(Head(p)) && m.OkAddress(p)
            && PInUse(m.At(Head(p))) == m.chunks[p].pinuse && ChunkSize(m.At(Head(p))) == m.chunks[p].size
            && IsInUse(m.At(Head(p))) && s.dvsize == m.dvsize && s.topsize == m.topsize && s.trace == m.trace
            && s.size == m.segSize && s.maxFootprint == m.maxFootprint
            && (m.chunks[p].pinuse ==> Space(s, p, p, End(m.chunks, p), {}))
  {
    hide Tiles, Flags, Tags, BinsOk, Within;
    var s := Snap(m);
    ValidSound(m);
    assert m.sizes == s.sizes - {};
    HeadRead(s, m, {}, p);
    BoundaryRead(s, m, {}, p);
  }

  /** Consolidating backward: unless the designated victim could simply grow, the space now
      starts at the free chunk before `p`, taken out of its bin. */
  method MergeBackward(m: State, p: int, psize: nat, next: int)
    returns (q: int, size: nat, done: bool, ghost gone: set<int>)
    requires Valid(m) && p in m.chunks && m.chunks[p].cinuse && m.chunks[p].size == psize && next == p + psize
    requires !m.chunks[p].pinuse
    modifies m`mem, m`smallmap, m`treemap, m`sizes, m`small, m`tree, m`trace, m`dvsize, m`chunks
    ensures old(m.trace) <= m.trace && (old(m.Chronicled()) ==> m.Chronicled())
    ensures m.dv == old(m.dv) && m.top == old(m.top) && m.topsize == old(m.topsize)
    ensures q == p - Peek(old(m.mem), PrevFoot(p))
    ensures m.trace == if q == m.dv then old(m.trace) else old(m.trace) + [Remove(q)]
    ensures done ==> Freed(m, old(Snap(m)), p) && q == m.dv && m.dvsize == next - q && next in old(m.chunks)
                     && old(m.chunks)[next].cinuse
    ensures !done ==> m.dvsize == old(m.dvsize)
    ensures !done ==> Opened(m, old(Snap(m)), gone) && Space(old(Snap(m)), p, q, next, gone) && size == next - q
    ensures !done && q == old(m.dv) ==> !(next in old(m.chunks) && old(m.chunks)[next].cinuse)
  {
    hide *;
    ghost var s := Snap(m);
    Start(m, p);
    BackReads(m, s, p);
    NextReads(m, s, p, {});
    var prevsize := m.At(PrevFoot(p));
    var prev := p - prevsize;
    q, size, done, gone := prev, psize + prevsize, false, {};
    OpenedFields(m, s, {});
    assert m.At(PrevFoot(p)) == Peek(m.mem, PrevFoot(p)) by { AtIs(m, PrevFoot(p)); }
    if m.OkAddress(prev) {
      if q != m.dv {
        gone := {q};
        TakeFromBin(m, q, prevsize, s, {});
        assert {} + {q} == {q};
      } else if PInUse(m.At(Head(next))) && CInUse(m.At(Head(next))) {
        GrowVictim(m, q, size, next, s, p);
        done := true;
      }
    } else {
      assert false;
    }
  }

  lemma AtIs(m: State, a: int)
    requires m.Mapped(a)
    ensures m.At(a) == Peek(m.mem, a)
  {
  }

  lemma BackReads(m: State, s: Snapshot, p: int)
    requires Opened(m, s, {}) && p in s.chunks && s.chunks[p].cinuse && !s.chunks[p].pinuse
    ensures m.Mapped(PrevFoot(p))
    ensures var z := m.At(PrevFoot(p));
            var q := p - z;
            && z >= 0 && m.OkAddress(q)
            && (q == s.dv ==> Space(s, p, q, End(s.chunks, p), {}))
            && (q != s.dv ==> Space(s, p, q, End(s.chunks, p), {q}) && q in s.sizes && s.sizes[q] == z)
  {
    hide Flags, Tags, Tiles, BinsOk, Within, OnlyLinks;
    BoundaryRead(s, m, {}, p);
    BackNeighbour(s, p);
    BoundaryRead(s, m, {}, p - Peek(s.mem, PrevFoot(p)));
  }

  /** What the head word after `p` tells, be it of a chunk or of top. */
  lemma NextReads(m: State, s: Snapshot, p: int, gone: set<int>)
    requires Opened(m, s, gone) && p in s.chunks && s.chunks[p].cinuse
    ensures var n := p + s.chunks[p].size;
            && n == End(s.chunks, p) && p < n && m.Mapped(Head(n)) && m.OkAddress(n) && PInUse(m.At(Head(n)))
            && (CInUse(m.At(Head(n))) <==> n in s.chunks && s.chunks[n].cinuse)
            && (n == s.top || n in s.chunks) && (n == s.top ==> n !in s.chunks && n != s.dv)
  {
    hide Flags, Tags, Tiles, BinsOk, Within, OnlyLinks;
    NextNeighbour(s, p);
    var n := End(s.chunks, p);
    BoundaryRead(s, m, gone, n);
    if n in s.chunks {
      HeadRead(s, m, gone, n);
    } else {
      TopRead(s, m, gone);
      DvBelowTop(s);
      TopPositive(s);
    }
  }

  /** Consolidating forward, and placing the result. */
  method MergeForward(m: State, q: int, size: nat, next: int, ghost s: Snapshot, ghost p: int, ghost gone: set<int>)
    requires Opened(m, s, gone) && Space(s, p, q, next, gone) && size == next - q && next == End(s.chunks, p)
    requires q == s.dv ==> !(next in s.chunks && s.chunks[next].cinuse)
    modifies m`mem, m`smallmap, m`treemap, m`sizes, m`small, m`tree, m`trace, m`dv, m`dvsize, m`top, m`topsize, m`chunks
    ensures old(m.Chronicled()) ==> m.Chronicled()
    ensures Freed(m, s, p) && ShelfOf(Snap(m)) == Give(old(ShelfOf(Snap(m))), s.chunks, q, next)
  {
    hide *;
    SpaceOwner(s, p, q, next, gone);
    NextReads(m, s, p, gone);
    OpenedFields(m, s, gone);
    ShelfIs(m);
    ghost var sh := Shelf(m.dv, m.dvsize, m.top, m.topsize, m.trace, m.segSize, m.maxFootprint);
    if !CInUse(m.At(Head(next))) {
      if next == m.top {
        JoinTop(m, q, size, s, p, gone);
        GiveToTop(sh, s.chunks, q, next, size);
      } else if next == m.dv {
        JoinVictim(m, q, size, next, s, p, gone);
        GiveToVictim(sh, s.chunks, q, next, size);
      } else {
        JoinBinned(m, q, size, next, s, p, gone);
        GiveToFree(sh, s.chunks, q, next, size);
      }
    } else {
      UsedIsNotVictim(s, next);
      FreeAlone(m, q, size, next, s, p, gone);
      GiveAlone(sh, s.chunks, q, next, size);
    }
    ShelfIs(m);
  }

  lemma SpaceOwner(s: Snapshot, p: int, q: int, next: int, gone: set<int>)
    requires Space(s, p, q, next, gone) && next == End(s.chunks, p)
    ensures p in s.chunks && s.chunks[p].cinuse && p + s.chunks[p].size == next
    ensures q == s.dv ==> next != s.dv
  {
    hide Flags, Tags, Tiles;
    SpaceEnds(s, p, q, next, gone);
  }

  /** Gives chunk `p`, marked in use, back to the heap. */
  method DisposeChunk(m: State, p: int, psize: nat)
    requires Valid(m) && p in m.chunks && m.chunks[p].cinuse && m.chunks[p].size == psize
    modifies m
    ensures old(m.trace) <= m.trace && (old(m.Chronicled()) ==> m.Chronicled())
    ensures Freed(m, old(Snap(m)), p) && ShelfOf(Snap(m)) == AfterFree(old(Snap(m)), p)
  {
    hide *;
    ghost var s := Snap(m);
    Start(m, p);
    NextReads(m, s, p, {});
    var next := p + psize;
    var q, size, done := p, psize, false;
    ghost var gone := {};
    if !PInUse(m.At(Head(p))) {
      q, size, done, gone := MergeBackward(m, p, psize, next);
    } else {
      UsedIsNotVictim(s, p);
    }
    ShelfIs(m);
    if !done {
      if m.OkAddress(next) {
        MergeForward(m, q, size, next, s, p, gone);
      } else {
        assert false;
      }
    }
    FreedShelf(m, s, p, q, next, done);
    ShelfIs(m);
  }

  /** Freeing ends where `AfterFree` says. */
  lemma FreedShelf(m: State, s: Snapshot, p: int, q: int, next: int, done: bool)
    requires p in s.chunks && next == End(s.chunks, p) && Sound(s) && s.chunks[p].cinuse
    requires q == if s.chunks[p].pinuse then p else p - Peek(s.mem, PrevFoot(p))
    requires !done ==>
               var trace := if s.chunks[p].pinuse || q == s.dv then s.trace else s.trace + [Remove(q)];
               ShelfOf(Snap(m))
               == Give(Shelf(s.dv, s.dvsize, s.top, s.topsize, trace, s.size, s.maxFootprint), s.chunks, q, next)
    requires done ==> q == s.dv && next in s.chunks && s.chunks[next].cinuse
    requires done ==> ShelfOf(Snap(m)) == Shelf(s.dv, next - q, s.top, s.topsize, s.trace, s.size, s.maxFootprint)
    ensures ShelfOf(Snap(m)) == AfterFree(s, p) && s.trace <= ShelfOf(Snap(m)).trace
  {
    hide Give;
    UsedIsNotVictim(s, p);
    if !s.chunks[p].pinuse {
      BackNeighbour(s, p);
    }
    if done {
      NextNeighbour(s, p);
      UsedIsNotVictim(s, next);
      GiveAlone(ShelfOf(s), s.chunks, q, next, next - q);
    } else {
      var trace := if s.chunks[p].pinuse || q == s.dv then s.trace else s.trace + [Remove(q)];
      GiveExtends(Shelf(s.dv, s.dvsize, s.top, s.topsize, trace, s.size, s.maxFootprint), s.chunks, q, next);
    }
  }

  lemma GiveExtends(sh: Shelf, chunks: Chunks, q: int, n: int)
    ensures sh.trace <= Give(sh, chunks, q, n).trace
  {
  }

  lemma UsedIsNotVictim(s: Snapshot, p: int)
    requires Sound(s) && p in s.chunks && s.chunks[p].cinuse
    ensures p != s.dv
  {
    UsedNotBinned(s, p);
  }

  /** Frees the payload at `mem`, which must be live. */
  method DlFree(m: State, mem: int)
    requires Valid(m) && (mem != 0 ==> mem - 16 in Live(m.chunks))
    modifies m
    ensures old(m.trace) <= m.trace && (old(m.Chronicled()) ==> m.Chronicled())
    ensures mem == 0 ==> Valid(m) && Snap(m) == old(Snap(m))
    ensures mem != 0 ==> Freed(m, old(Snap(m)), mem - 16) && mem - 16 in old(m.chunks)
    ensures mem != 0 ==> ShelfOf(Snap(m)) == AfterFree(old(Snap(m)), mem - 16)
  {
    hide *;
    if mem != 0 {
      var p := mem - 16;
      ghost var s := Snap(m);
      LiveChunk(m, p);
      Start(m, p);
      NextReads(m, s, p, {});
      if m.OkAddress(p) && IsInUse(m.At(Head(p))) {
        var psize := ChunkSize(m.At(Head(p)));
        var next := p + psize;
        var q, size, done := p, psize, false;
        ghost var gone := {};
        if !PInUse(m.At(Head(p))) {
          q, size, done, gone := MergeBackward(m, p, psize, next);
        } else {
          UsedIsNotVictim(s, p);
        }
        ShelfIs(m);
        if !done {
          SpaceBounds(s, p, q, next, gone);
          NextReads(m, s, p, gone);
          if q < next && PInUse(m.At(Head(next))) {
            MergeForward(m, q, size, next, s, p, gone);
          } else {
            assert false;
          }
        }
        FreedShelf(m, s, p, q, next, done);
        ShelfIs(m);
      } else {
        assert false;
      }
    }
  }

  lemma SpaceBounds(s: Snapshot, p: int, q: int, next: int, gone: set<int>)
    requires Space(s, p, q, next, gone)
    ensures q < next && p in s.chunks && s.chunks[p].cinuse
  {
    hide Flags, Tags, Tiles, Placed;
    SpaceEnds(s, p, q, next, gone);
  }

  lemma LiveChunk(m: State, p: int)
    requires p in Live(m.chunks)
    ensures p in m.chunks && m.chunks[p].cinuse && m.chunks[p].size == Live(m.chunks)[p]
  {
  }
}
