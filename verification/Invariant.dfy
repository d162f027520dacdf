/** The whole invariant of a heap between calls, and what a caller sees of it: the live
    chunks and their payload words. */
module Invariant {
  import opened Words
  import opened TreeBins
  import BinMaps
  import SmallBins
  import TreeChains
  import opened MallocState
  import opened Boundaries

  ghost predicate HeapOk(mem: Memory, chunks: Chunks, base: int, top: int) {
    base >= GM_END && Tiles(chunks, base, top) && Flags(chunks, base, top) && Tags(mem, chunks)
  }

  /** `top` runs up to the space kept at the end of the segment; its head has only PINUSE. */
  ghost predicate TopOk(mem: Memory, base: int, size: int, top: int, topsize: int) {
    && topsize > 0 && topsize % 16 == 0 && top % 16 == 0
    && top + topsize + TOP_FOOT_SIZE == base + size
    && Peek(mem, Head(top)) == HeadWord(topsize, false, true)
    && Peek(mem, Head(top + topsize)) == TOP_FOOT_SIZE
  }

  /** Every free chunk is the designated victim or in a bin, and not both. */
  ghost predicate Placed(chunks: Chunks, sizes: Sizes, dv: int, dvsize: int) {
    && (dvsize == 0 ==> dv == 0)
    && (dvsize != 0 ==> dv in chunks && !chunks[dv].cinuse && chunks[dv].size == dvsize)
    && (forall x :: x in sizes <==> x in chunks && !chunks[x].cinuse && x != dv)
    && (forall x :: x in sizes ==> sizes[x] == chunks[x].size)
  }

  ghost predicate Valid(m: State)
    reads m
  {
    && m.Bins()
    && HeapOk(m.mem, m.chunks, m.segBase, m.top)
    && Placed(m.chunks, m.sizes, m.dv, m.dvsize)
    && TopOk(m.mem, m.segBase, m.segSize, m.top, m.topsize)
    && m.footprint == m.segSize <= m.maxFootprint
  }

  // ---- the caller's view ----

  /** The chunks in use and their sizes. */
  ghost function Live(chunks: Chunks): map<int, nat> {
    map x | x in chunks && chunks[x].cinuse :: chunks[x].size
  }

  /** A payload word of a live chunk at `x`: from its `fd` word up to and including the word
      that would be the next chunk's `prev_foot`. */
  predicate PayloadWord(x: int, size: int, a: int) {
    Fd(x) <= a < Head(x + size)
  }

  /** No payload word of a chunk in `live` has changed. */
  ghost predicate Untouched(mem: Memory, mem': Memory, live: map<int, nat>) {
    forall x, a {:trigger PayloadWord(x, live[x], a)} ::
      x in live && PayloadWord(x, live[x], a) ==> Peek(mem', a) == Peek(mem, a)
  }

  /** Payloads of chunks in use contain no head, foot or link of the heap's other parts. */
  lemma PayloadApart(chunks: Chunks, sizes: Sizes, base: int, top: int, lo: int, hi: int, x: int, a: int)
    requires IsRegion(chunks, base, top, lo, hi) && BinnedFree(chunks, sizes) && base >= GM_END
    requires x in chunks && chunks[x].cinuse && (x < lo || x >= hi) && PayloadWord(x, chunks[x].size, a)
    ensures !RegionWord(sizes, lo, hi, a)
  {
    OutsideRegion(chunks, base, top, lo, hi, x);
    forall y | y in sizes
      ensures !(y + 16 <= a < y + sizes[y])
    {
      assert Apart2(chunks, x, y);
      OutsideRegion(chunks, base, top, lo, hi, y);
    }
  }

  /** Chunks in use outside a changed region keep their payloads. */
  lemma RegionUntouched(mem: Memory, mem': Memory, chunks: Chunks, sizes: Sizes, base: int, top: int, lo: int,
                        hi: int, live: map<int, nat>)
    requires IsRegion(chunks, base, top, lo, hi) && BinnedFree(chunks, sizes) && base >= GM_END
    requires OnlyRegion(mem, mem', sizes, lo, hi)
    requires forall x :: x in live ==>
               x in chunks && chunks[x].cinuse && live[x] == chunks[x].size && (x < lo || x >= hi)
    ensures Untouched(mem, mem', live)
  {
    forall x, a | x in live && PayloadWord(x, live[x], a)
      ensures Peek(mem', a) == Peek(mem, a)
    {
      PayloadApart(chunks, sizes, base, top, lo, hi, x, a);
    }
  }

  lemma PlacedFree(chunks: Chunks, sizes: Sizes, dv: int, dvsize: int)
    requires Placed(chunks, sizes, dv, dvsize)
    ensures BinnedFree(chunks, sizes)
  {
  }

  // ---- regions ----

  lemma LiveRetile(chunks: Chunks, lo: int, hi: int, news: Chunks, used: bool)
    requires InRegion(news, lo, hi)
    ensures Live(Retile(chunks, lo, hi, news, used)) ==
            (map x | x in Live(chunks) && !(lo <= x < hi) :: chunks[x].size) + Live(news)
  {
    var c' := Retile(chunks, lo, hi, news, used);
    forall x
      ensures x in Live(c') <==> (x in Live(chunks) && !(lo <= x < hi)) || x in Live(news)
      ensures x in Live(c') ==> Live(c')[x] == if x in news then news[x].size else chunks[x].size
    {
      RetileAt(chunks, lo, hi, news, used, x);
    }
  }

  /** The invariant after the chunks of region `[lo, hi)` have been replaced. */
  lemma RetileHeap(mem: Memory, mem': Memory, chunks: Chunks, sizes: Sizes, base: int, top: int,
                   lo: int, hi: int, news: Chunks, used: bool)
    requires HeapOk(mem, chunks, base, top) && IsRegion(chunks, base, top, lo, hi) && BinnedFree(chunks, sizes)
    requires Tiles(news, lo, hi) && FlagsWithin(news, lo, hi, chunks[lo].pinuse, used)
    requires !used ==> hi in chunks && chunks[hi].cinuse
    requires !chunks[lo].pinuse ==> news[lo].cinuse
    requires NewTags(mem', chunks, lo, hi, news, used) && OnlyRegion(mem, mem', sizes, lo, hi)
    requires forall p {:trigger p in news} :: p in news && p != lo ==> news[p].pinuse
    ensures HeapOk(mem', Retile(chunks, lo, hi, news, used), base, top) && InRegion(news, lo, hi)
  {
    hide Retile, OnlyRegion, Tiles, Flags, Tags, FlagsWithin, NewTags;
    if !used {
      ChunkBelowTop(chunks, base, top, hi);
    }
    RetileTiles(chunks, base, top, lo, hi, news, used);
    assert lo in news by { FirstNew(news, lo, hi); }
    RetileFlags(chunks, base, top, lo, hi, news, used);
    RetileTags(mem, mem', chunks, sizes, base, top, lo, hi, news, used);
  }

  lemma ChunkBelowTop(chunks: Chunks, base: int, top: int, p: int)
    requires Tiles(chunks, base, top) && p in chunks
    ensures base <= p < top
  {
    assert ChunkFits(chunks, base, top, p);
  }

  lemma FirstNew(news: Chunks, lo: int, hi: int)
    requires Tiles(news, lo, hi) && lo < hi
    ensures lo in news
  {
  }

  /** The words of `top` survive changes to regions below it. */
  lemma TopKept(mem: Memory, mem': Memory, chunks: Chunks, sizes: Sizes, base: int, size: int, top: int,
                topsize: int, lo: int, hi: int)
    requires IsRegion(chunks, base, top, lo, hi) && BinnedFree(chunks, sizes) && base >= GM_END
    requires OnlyRegion(mem, mem', sizes, lo, hi)
    requires TopOk(mem, base, size, top, topsize)
    requires hi == top ==> Peek(mem', Head(top)) == Peek(mem, Head(top))
    ensures TopOk(mem', base, size, top, topsize)
  {
    BoundaryAligned(chunks, base, top, hi);
    OutsideWords(mem, mem', chunks, sizes, base, top, lo, hi, top);
    FencepostNoLink(chunks, sizes, base, top, Head(top + topsize));
    assert Peek(mem', Head(top + topsize)) != Peek(mem, Head(top + topsize)) ==>
             RegionWord(sizes, lo, hi, Head(top + topsize));
  }

  lemma FencepostNoLink(chunks: Chunks, sizes: Sizes, base: int, top: int, a: int)
    requires Tiles(chunks, base, top) && BinnedFree(chunks, sizes) && base >= GM_END && a >= top
    ensures !LinkWord(sizes, a)
  {
    forall y | y in sizes
      ensures y + sizes[y] <= a
    {
      assert ChunkFits(chunks, base, top, y);
    }
  }

  // ---- writes the bins do not see ----

  /** Words that are neither links nor heads of binned chunks. */
  ghost predicate OnlyTags(mem: Memory, mem': Memory, sizes: Sizes) {
    forall a {:trigger Peek(mem', a)} :: Peek(mem', a) != Peek(mem, a) ==> !LinkWord(sizes, a) && !IsHead(sizes, a)
  }

  ghost predicate IsHead(sizes: Sizes, a: int) {
    exists x :: x in sizes && a == Head(x)
  }

  lemma BinsKept(mem: Memory, mem': Memory, smallmap: BinMaps.BinMap, treemap: BinMaps.BinMap, sizes: Sizes,
                 small: SmallBins.Smalls, tree: Tree)
    requires BinsOk(mem, smallmap, treemap, sizes, small, tree) && OnlyTags(mem, mem', sizes)
    ensures BinsOk(mem', smallmap, treemap, sizes, small, tree)
  {
    hide TreeLinks, SmallBins.SmallLinks, Shape, SmallBins.SmallShape, OnlyTags;
    TreesUnseen(mem, mem', treemap, sizes, tree);
    SmallsUnseen(mem, mem', smallmap, sizes, small);
    forall x | x in sizes
      ensures ChunkSize(Peek(mem', Head(x))) == sizes[x]
    {
      HeadUnseen(mem, mem', sizes, x);
      assert ChunkSize(Peek(mem, Head(x))) == sizes[x];
    }
  }

  lemma HeadUnseen(mem: Memory, mem': Memory, sizes: Sizes, x: int)
    requires OnlyTags(mem, mem', sizes) && x in sizes
    ensures Peek(mem', Head(x)) == Peek(mem, Head(x))
  {
    assert IsHead(sizes, Head(x));
  }

  lemma LinkUnseen(mem: Memory, mem': Memory, sizes: Sizes, x: int, o: int)
    requires OnlyTags(mem, mem', sizes) && x in sizes && 16 <= o < sizes[x]
    ensures Peek(mem', x + o) == Peek(mem, x + o)
  {
    assert LinkWord(sizes, x + o);
  }

  lemma TreesUnseen(mem: Memory, mem': Memory, treemap: BinMaps.BinMap, sizes: Sizes, tree: Tree)
    requires Spaced(sizes) && Shape(tree, sizes) && HoldsLarge(tree, sizes) && TreeLinks(mem, treemap, tree)
    requires OnlyTags(mem, mem', sizes)
    ensures TreeLinks(mem', treemap, tree)
  {
    hide TreeLinks, Shape, OnlyTags;
    forall y | InTree(tree, y)
      ensures SameLinks(mem, mem', y)
    {
      LinkUnseen(mem, mem', sizes, y, 16);
      LinkUnseen(mem, mem', sizes, y, 24);
      LinkUnseen(mem, mem', sizes, y, 32);
      LinkUnseen(mem, mem', sizes, y, 40);
      LinkUnseen(mem, mem', sizes, y, 48);
      LinkUnseen(mem, mem', sizes, y, 56);
    }
    forall i | 0 <= i < 32
      ensures Peek(mem', TreeBinAt(i)) == Peek(mem, TreeBinAt(i))
    {
      OwnUnseen(mem, mem', sizes, TreeBinAt(i));
    }
    TreeChains.TreeFrame(mem, mem', treemap, tree, sizes);
  }

  lemma OwnUnseen(mem: Memory, mem': Memory, sizes: Sizes, a: int)
    requires OnlyTags(mem, mem', sizes) && SMALLBINS <= a < GM_END
    ensures Peek(mem', a) == Peek(mem, a)
  {
    assert LinkWord(sizes, a);
  }

  lemma SmallsUnseen(mem: Memory, mem': Memory, smallmap: BinMaps.BinMap, sizes: Sizes, small: SmallBins.Smalls)
    requires Spaced(sizes) && SmallBins.HoldsSmall(small, sizes) && SmallBins.SmallLinks(mem, smallmap, small)
    requires OnlyTags(mem, mem', sizes)
    ensures SmallBins.SmallLinks(mem', smallmap, small)
  {
    hide SmallBins.SmallLinks, OnlyTags;
    forall y | SmallBins.InSmall(small, y)
      ensures SmallBins.SameRingWords(mem, mem', y)
    {
      LinkUnseen(mem, mem', sizes, y, 16);
      LinkUnseen(mem, mem', sizes, y, 24);
    }
    forall i | 0 <= i < 32
      ensures SmallBins.SameRingWords(mem, mem', SmallBins.SmallBinAt(i))
    {
      OwnUnseen(mem, mem', sizes, Fd(SmallBins.SmallBinAt(i)));
      OwnUnseen(mem, mem', sizes, Bk(SmallBins.SmallBinAt(i)));
    }
    SmallBins.SmallFrame(mem, mem', smallmap, small);
  }
}
