/** The boundary-tag heap: chunks tile the segment from its base to `top`, every head word
    holds its chunk's size and two in-use bits, a free chunk's size is repeated in the word
    after it, and no two free chunks touch. Every change the allocator makes replaces the
    chunks of one region `[lo, hi)` between two boundaries by other chunks. */
module Boundaries {
  import opened Words
  import opened TreeBins
  import opened MallocState

  function End(chunks: Chunks, p: int): int
    requires p in chunks
  {
    p + chunks[p].size
  }

  ghost predicate ChunkFits(chunks: Chunks, lo: int, hi: int, p: int)
    requires p in chunks
  {
    && lo <= p && p % 16 == 0 && chunks[p].size >= MIN_CHUNK_SIZE && chunks[p].size % 16 == 0
    && End(chunks, p) <= hi && (End(chunks, p) == hi || End(chunks, p) in chunks)
  }

  /** The chunks cover `[lo, hi)` without gap or overlap. */
  ghost predicate Tiles(chunks: Chunks, lo: int, hi: int) {
    && lo % 16 == 0 && hi % 16 == 0 && lo <= hi && (lo < hi ==> lo in chunks)
    && (forall p {:trigger ChunkFits(chunks, lo, hi, p)} :: p in chunks ==> ChunkFits(chunks, lo, hi, p))
    && (forall p, q {:trigger Apart2(chunks, p, q)} :: p in chunks && q in chunks ==> Apart2(chunks, p, q))
  }

  ghost predicate Apart2(chunks: Chunks, p: int, q: int)
    requires p in chunks && q in chunks
  {
    p == q || End(chunks, p) <= q || End(chunks, q) <= p
  }

  /** The in-use bits of one chunk agree with its neighbours'. */
  ghost predicate FlagsAt(chunks: Chunks, top: int, p: int)
    requires p in chunks
  {
    var c, n := chunks[p], End(chunks, p);
    && (n == top ==> c.cinuse)
    && (n in chunks ==> chunks[n].pinuse == c.cinuse)
    && (!c.cinuse ==> c.pinuse && n in chunks && chunks[n].cinuse)
  }

  ghost predicate Flags(chunks: Chunks, base: int, top: int) {
    && (base in chunks ==> chunks[base].pinuse)
    && (forall p {:trigger FlagsAt(chunks, top, p)} :: p in chunks ==> FlagsAt(chunks, top, p))
  }

  /** The words of one chunk. */
  ghost predicate TagsAt(mem: Memory, chunks: Chunks, p: int)
    requires p in chunks
  {
    var c := chunks[p];
    && Peek(mem, Head(p)) == HeadWord(c.size, c.cinuse, c.pinuse)
    && (!c.cinuse ==> Peek(mem, PrevFoot(p + c.size)) == c.size)
    && (!c.pinuse ==> var z := Peek(mem, PrevFoot(p));
                      p - z in chunks && chunks[p - z].size == z && !chunks[p - z].cinuse)
  }

  ghost predicate Tags(mem: Memory, chunks: Chunks) {
    forall p {:trigger TagsAt(mem, chunks, p)} :: p in chunks ==> TagsAt(mem, chunks, p)
  }

  // ---- replacing a region ----

  /** `news` in place of the chunks in `[lo, hi)`; `used` is the in-use bit of the last. */
  ghost function Retile(chunks: Chunks, lo: int, hi: int, news: Chunks, used: bool): Chunks {
    (map x | x in chunks && !(lo <= x < hi) :: if x == hi then chunks[x].(pinuse := used) else chunks[x]) + news
  }

  /** `lo` and `hi` are chunk boundaries. */
  ghost predicate IsRegion(chunks: Chunks, base: int, top: int, lo: int, hi: int) {
    && Tiles(chunks, base, top) && base <= lo < hi <= top
    && lo in chunks && (hi == top || hi in chunks)
  }

  ghost predicate InRegion(news: Chunks, lo: int, hi: int) {
    forall x :: x in news ==> lo <= x < hi
  }

  lemma RetileAt(chunks: Chunks, lo: int, hi: int, news: Chunks, used: bool, x: int)
    requires InRegion(news, lo, hi)
    ensures var c' := Retile(chunks, lo, hi, news, used);
            && (x in c' <==> x in news || (x in chunks && !(lo <= x < hi)))
            && (x in news ==> c'[x] == news[x])
            && (x in chunks && !(lo <= x < hi) ==> c'[x] == if x == hi then chunks[x].(pinuse := used) else chunks[x])
  {
  }

  lemma RetileTiles(chunks: Chunks, base: int, top: int, lo: int, hi: int, news: Chunks, used: bool)
    requires IsRegion(chunks, base, top, lo, hi) && Tiles(news, lo, hi)
    ensures Tiles(Retile(chunks, lo, hi, news, used), base, top)
    ensures InRegion(news, lo, hi)
  {
    hide Retile;
    var c' := Retile(chunks, lo, hi, news, used);
    forall x | x in news
      ensures lo <= x < hi
    {
      assert ChunkFits(news, lo, hi, x);
    }
    forall p | p in c'
      ensures ChunkFits(c', base, top, p)
    {
      RetileFits(chunks, base, top, lo, hi, news, used, p);
    }
    forall p, q | p in c' && q in c'
      ensures Apart2(c', p, q)
    {
      RetileApart(chunks, base, top, lo, hi, news, used, p, q);
    }
    RetileAt(chunks, lo, hi, news, used, base);
  }

  /** A chunk outside the region ends at or before it, or starts at or after its end. */
  lemma OutsideRegion(chunks: Chunks, base: int, top: int, lo: int, hi: int, p: int)
    requires IsRegion(chunks, base, top, lo, hi) && p in chunks
    ensures p < lo ==> End(chunks, p) <= lo
    ensures lo <= p < hi ==> End(chunks, p) <= hi
    ensures base <= p && chunks[p].size >= MIN_CHUNK_SIZE && End(chunks, p) <= top
    ensures End(chunks, p) == top || End(chunks, p) in chunks
  {
    assert ChunkFits(chunks, base, top, p) && Apart2(chunks, p, lo);
    if hi in chunks {
      assert Apart2(chunks, p, hi);
    }
  }

  lemma RetileFits(chunks: Chunks, base: int, top: int, lo: int, hi: int, news: Chunks, used: bool, p: int)
    requires IsRegion(chunks, base, top, lo, hi) && Tiles(news, lo, hi) && InRegion(news, lo, hi)
    requires p in Retile(chunks, lo, hi, news, used)
    ensures ChunkFits(Retile(chunks, lo, hi, news, used), base, top, p)
  {
    hide Retile;
    RetileAt(chunks, lo, hi, news, used, p);
    assert lo in news;
    if p in news {
      assert ChunkFits(news, lo, hi, p);
      RetileAt(chunks, lo, hi, news, used, p + news[p].size);
    } else {
      assert ChunkFits(chunks, base, top, p);
      OutsideRegion(chunks, base, top, lo, hi, p);
      RetileAt(chunks, lo, hi, news, used, End(chunks, p));
    }
  }

  lemma RetileApart(chunks: Chunks, base: int, top: int, lo: int, hi: int, news: Chunks, used: bool, p: int, q: int)
    requires IsRegion(chunks, base, top, lo, hi) && Tiles(news, lo, hi) && InRegion(news, lo, hi)
    requires p in Retile(chunks, lo, hi, news, used) && q in Retile(chunks, lo, hi, news, used)
    ensures Apart2(Retile(chunks, lo, hi, news, used), p, q)
  {
    hide Retile;
    RetileAt(chunks, lo, hi, news, used, p);
    RetileAt(chunks, lo, hi, news, used, q);
    if p in news && q in news {
      assert Apart2(news, p, q);
    } else if p in news {
      assert ChunkFits(news, lo, hi, p);
      OutsideRegion(chunks, base, top, lo, hi, q);
    } else if q in news {
      assert ChunkFits(news, lo, hi, q);
      OutsideRegion(chunks, base, top, lo, hi, p);
    } else {
      assert Apart2(chunks, p, q);
    }
  }

  // ---- flags ----

  /** In-use bits of `news`, given the bit before the region. */
  ghost predicate FlagsWithin(news: Chunks, lo: int, hi: int, before: bool, used: bool) {
    && lo in news && news[lo].pinuse == before
    && forall p {:trigger NewFlagsAt(news, hi, used, p)} :: p in news ==> NewFlagsAt(news, hi, used, p)
  }

  ghost predicate NewFlagsAt(news: Chunks, hi: int, used: bool, p: int)
    requires p in news
  {
    var c, n := news[p], End(news, p);
    && (n == hi ==> c.cinuse == used)
    && (n in news ==> news[n].pinuse == c.cinuse)
    && (!c.cinuse ==> c.pinuse && (n == hi || (n in news && news[n].cinuse)))
  }

  lemma RetileFlags(chunks: Chunks, base: int, top: int, lo: int, hi: int, news: Chunks, used: bool)
    requires IsRegion(chunks, base, top, lo, hi) && Tiles(news, lo, hi) && Flags(chunks, base, top)
    requires FlagsWithin(news, lo, hi, chunks[lo].pinuse, used)
    requires !used ==> hi in chunks && chunks[hi].cinuse
    requires lo in news && !chunks[lo].pinuse ==> news[lo].cinuse
    ensures Flags(Retile(chunks, lo, hi, news, used), base, top)
  {
    hide Retile, Tiles;
    var c' := Retile(chunks, lo, hi, news, used);
    RetileTiles(chunks, base, top, lo, hi, news, used);
    forall p | p in c'
      ensures FlagsAt(c', top, p)
    {
      RetileFlagsAt(chunks, base, top, lo, hi, news, used, p);
    }
    RetileAt(chunks, lo, hi, news, used, base);
  }

  lemma RetileFlagsAt(chunks: Chunks, base: int, top: int, lo: int, hi: int, news: Chunks, used: bool, p: int)
    requires IsRegion(chunks, base, top, lo, hi) && Tiles(news, lo, hi) && InRegion(news, lo, hi)
    requires Flags(chunks, base, top)
    requires FlagsWithin(news, lo, hi, chunks[lo].pinuse, used)
    requires !used ==> hi in chunks && chunks[hi].cinuse
    requires !chunks[lo].pinuse ==> news[lo].cinuse
    requires p in Retile(chunks, lo, hi, news, used)
    ensures FlagsAt(Retile(chunks, lo, hi, news, used), top, p)
  {
    hide Retile;
    RetileAt(chunks, lo, hi, news, used, p);
    if p in news {
      assert ChunkFits(news, lo, hi, p) && NewFlagsAt(news, hi, used, p);
      if hi in chunks {
        OutsideRegion(chunks, base, top, lo, hi, hi);
      }
      RetileAt(chunks, lo, hi, news, used, End(news, p));
    } else {
      OutsideRegion(chunks, base, top, lo, hi, p);
      assert FlagsAt(chunks, top, p);
      RetileAt(chunks, lo, hi, news, used, End(chunks, p));
    }
  }

  // ---- tags ----

  /** The words a change of region `[lo, hi)` may write: from the first head of the region to
      the head after it, and the links of chunks that were binned before. */
  ghost predicate RegionWord(sizes: Sizes, lo: int, hi: int, a: int) {
    Head(lo) <= a <= Head(hi) || LinkWord(sizes, a)
  }

  ghost predicate OnlyRegion(mem: Memory, mem': Memory, sizes: Sizes, lo: int, hi: int) {
    forall a {:trigger Peek(mem', a)} :: Peek(mem', a) != Peek(mem, a) ==> RegionWord(sizes, lo, hi, a)
  }

  /** Binned chunks are free chunks of the heap. */
  ghost predicate BinnedFree(chunks: Chunks, sizes: Sizes) {
    forall x :: x in sizes ==> x in chunks && !chunks[x].cinuse && sizes[x] == chunks[x].size
  }

  /** Heads and feet at chunk boundaries are no link words. */
  lemma BoundaryNoLink(chunks: Chunks, sizes: Sizes, base: int, top: int, p: int, o: int)
    requires Tiles(chunks, base, top) && BinnedFree(chunks, sizes) && base >= GM_END
    requires (p in chunks || p == top) && 0 <= o <= 8
    ensures !LinkWord(sizes, p + o)
  {
    forall y | y in sizes
      ensures !(y + 16 <= p + o < y + sizes[y])
    {
      assert ChunkFits(chunks, base, top, y);
      if p in chunks {
        assert ChunkFits(chunks, base, top, p) && Apart2(chunks, y, p);
      }
    }
    if p in chunks {
      assert ChunkFits(chunks, base, top, p);
    } else {
      assert base <= top;
    }
  }

  lemma BoundaryAligned(chunks: Chunks, base: int, top: int, p: int)
    requires Tiles(chunks, base, top) && (p in chunks || p == top)
    ensures p % 16 == 0 && base <= p <= top && (p in chunks ==> p + chunks[p].size <= top)
  {
    if p in chunks {
      assert ChunkFits(chunks, base, top, p);
    }
  }

  /** Outside the region, heads and feet are as before. */
  lemma OutsideWords(mem: Memory, mem': Memory, chunks: Chunks, sizes: Sizes, base: int, top: int, lo: int, hi: int,
                     p: int)
    requires IsRegion(chunks, base, top, lo, hi) && BinnedFree(chunks, sizes) && base >= GM_END
    requires OnlyRegion(mem, mem', sizes, lo, hi)
    requires p in chunks || p == top
    ensures p <= lo || p > hi ==> Peek(mem', PrevFoot(p)) == Peek(mem, PrevFoot(p))
    ensures p < lo || p > hi ==> Peek(mem', Head(p)) == Peek(mem, Head(p))
  {
    BoundaryNoLink(chunks, sizes, base, top, p, 0);
    BoundaryNoLink(chunks, sizes, base, top, p, 8);
    BoundaryAligned(chunks, base, top, p);
    BoundaryAligned(chunks, base, top, hi);
    assert Peek(mem', PrevFoot(p)) != Peek(mem, PrevFoot(p)) ==> RegionWord(sizes, lo, hi, PrevFoot(p));
    assert Peek(mem', Head(p)) != Peek(mem, Head(p)) ==> RegionWord(sizes, lo, hi, Head(p));
  }

  /** The words of the new chunks and of the head after them. */
  ghost predicate NewTags(mem': Memory, chunks: Chunks, lo: int, hi: int, news: Chunks, used: bool) {
    && (forall p {:trigger NewTagsAt(mem', news, p)} :: p in news ==> NewTagsAt(mem', news, p))
    && (hi in chunks ==> Peek(mem', Head(hi)) == HeadWord(chunks[hi].size, chunks[hi].cinuse, used))
    && (!used ==> var z := Peek(mem', PrevFoot(hi)); hi - z in news && news[hi - z].size == z && !news[hi - z].cinuse)
  }

  ghost predicate NewTagsAt(mem': Memory, news: Chunks, p: int)
    requires p in news
  {
    var c := news[p];
    && Peek(mem', Head(p)) == HeadWord(c.size, c.cinuse, c.pinuse)
    && (!c.cinuse ==> Peek(mem', PrevFoot(p + c.size)) == c.size)
  }

  lemma RetileTags(mem: Memory, mem': Memory, chunks: Chunks, sizes: Sizes, base: int, top: int,
                   lo: int, hi: int, news: Chunks, used: bool)
    requires IsRegion(chunks, base, top, lo, hi) && BinnedFree(chunks, sizes) && base >= GM_END
    requires Tiles(news, lo, hi) && Flags(chunks, base, top) && Tags(mem, chunks)
    requires FlagsWithin(news, lo, hi, chunks[lo].pinuse, used) && NewTags(mem', chunks, lo, hi, news, used)
    requires OnlyRegion(mem, mem', sizes, lo, hi)
    requires hi == top ==> used
    requires forall p {:trigger p in news} :: p in news && p != lo ==> news[p].pinuse
    ensures Tags(mem', Retile(chunks, lo, hi, news, used))
  {
    hide Retile, OnlyRegion;
    var c' := Retile(chunks, lo, hi, news, used);
    RetileTiles(chunks, base, top, lo, hi, news, used);
    forall p | p in c'
      ensures TagsAt(mem', c', p)
    {
      RetileAt(chunks, lo, hi, news, used, p);
      if p in news {
        RetileTagsNew(mem, mem', chunks, sizes, base, top, lo, hi, news, used, p);
      } else {
        RetileTagsOld(mem, mem', chunks, sizes, base, top, lo, hi, news, used, p);
      }
    }
  }

  lemma RetileTagsNew(mem: Memory, mem': Memory, chunks: Chunks, sizes: Sizes, base: int, top: int,
                      lo: int, hi: int, news: Chunks, used: bool, p: int)
    requires IsRegion(chunks, base, top, lo, hi) && BinnedFree(chunks, sizes) && base >= GM_END
    requires InRegion(news, lo, hi) && Flags(chunks, base, top) && Tags(mem, chunks) && p in news
    requires FlagsWithin(news, lo, hi, chunks[lo].pinuse, used) && NewTags(mem', chunks, lo, hi, news, used)
    requires OnlyRegion(mem, mem', sizes, lo, hi) && (p != lo ==> news[p].pinuse)
    ensures p in Retile(chunks, lo, hi, news, used)
    ensures TagsAt(mem', Retile(chunks, lo, hi, news, used), p)
  {
    hide Retile, OnlyRegion;
    RetileAt(chunks, lo, hi, news, used, p);
    assert NewTagsAt(mem', news, p);
    if !news[p].pinuse {
      OutsideWords(mem, mem', chunks, sizes, base, top, lo, hi, lo);
      assert TagsAt(mem, chunks, lo);
      var q := lo - Peek(mem, PrevFoot(lo));
      OutsideRegion(chunks, base, top, lo, hi, q);
      RetileAt(chunks, lo, hi, news, used, q);
    }
  }

  lemma RetileTagsOld(mem: Memory, mem': Memory, chunks: Chunks, sizes: Sizes, base: int, top: int,
                      lo: int, hi: int, news: Chunks, used: bool, p: int)
    requires IsRegion(chunks, base, top, lo, hi) && BinnedFree(chunks, sizes) && base >= GM_END
    requires InRegion(news, lo, hi) && Flags(chunks, base, top) && Tags(mem, chunks)
    requires NewTags(mem', chunks, lo, hi, news, used) && OnlyRegion(mem, mem', sizes, lo, hi)
    requires p in chunks && !(lo <= p < hi) && (hi == top ==> used)
    ensures p in Retile(chunks, lo, hi, news, used)
    ensures TagsAt(mem', Retile(chunks, lo, hi, news, used), p)
  {
    hide Retile, OnlyRegion;
    RetileAt(chunks, lo, hi, news, used, p);
    assert TagsAt(mem, chunks, p) && FlagsAt(chunks, top, p);
    OutsideRegion(chunks, base, top, lo, hi, p);
    OutsideWords(mem, mem', chunks, sizes, base, top, lo, hi, p);
    OutsideWords(mem, mem', chunks, sizes, base, top, lo, hi, End(chunks, p));
    if p == hi {
      if !used {
        RetileAt(chunks, lo, hi, news, used, hi - Peek(mem', PrevFoot(hi)));
      }
    } else if !chunks[p].pinuse {
      var q := p - Peek(mem, PrevFoot(p));
      OutsideRegion(chunks, base, top, lo, hi, q);
      RetileAt(chunks, lo, hi, news, used, q);
    }
  }

  // ---- giving the end of the heap to top ----

  ghost function Truncate(chunks: Chunks, lo: int): Chunks {
    map x | x in chunks && x < lo :: chunks[x]
  }

  lemma TruncateTiles(chunks: Chunks, base: int, top: int, lo: int)
    requires IsRegion(chunks, base, top, lo, top)
    ensures Tiles(Truncate(chunks, lo), base, lo)
  {
    var c' := Truncate(chunks, lo);
    BoundaryAligned(chunks, base, top, lo);
    forall p | p in c'
      ensures ChunkFits(c', base, lo, p)
    {
      assert ChunkFits(chunks, base, top, p);
      OutsideRegion(chunks, base, top, lo, top, p);
    }
    forall p, q | p in c' && q in c'
      ensures Apart2(c', p, q)
    {
      assert Apart2(chunks, p, q);
    }
  }

  lemma TruncateFlags(chunks: Chunks, base: int, top: int, lo: int)
    requires IsRegion(chunks, base, top, lo, top) && Flags(chunks, base, top) && chunks[lo].pinuse
    ensures Flags(Truncate(chunks, lo), base, lo)
  {
    var c' := Truncate(chunks, lo);
    forall p | p in c'
      ensures FlagsAt(c', lo, p)
    {
      assert FlagsAt(chunks, top, p);
      OutsideRegion(chunks, base, top, lo, top, p);
    }
  }

  lemma TruncateTags(mem: Memory, mem': Memory, chunks: Chunks, sizes: Sizes, base: int, top: int, lo: int)
    requires IsRegion(chunks, base, top, lo, top) && BinnedFree(chunks, sizes) && base >= GM_END
    requires Flags(chunks, base, top) && Tags(mem, chunks) && OnlyRegion(mem, mem', sizes, lo, top) && chunks[lo].pinuse
    ensures Tags(mem', Truncate(chunks, lo))
  {
    var c' := Truncate(chunks, lo);
    forall p | p in c'
      ensures TagsAt(mem', c', p)
    {
      TruncateTagsAt(mem, mem', chunks, sizes, base, top, lo, p);
    }
  }

  lemma TruncateTagsAt(mem: Memory, mem': Memory, chunks: Chunks, sizes: Sizes, base: int, top: int, lo: int, p: int)
    requires IsRegion(chunks, base, top, lo, top) && BinnedFree(chunks, sizes) && base >= GM_END
    requires Flags(chunks, base, top) && Tags(mem, chunks) && OnlyRegion(mem, mem', sizes, lo, top) && chunks[lo].pinuse
    requires p in Truncate(chunks, lo)
    ensures TagsAt(mem', Truncate(chunks, lo), p)
  {
    hide OnlyRegion;
    assert TagsAt(mem, chunks, p) && FlagsAt(chunks, top, p);
    OutsideRegion(chunks, base, top, lo, top, p);
    OutsideWords(mem, mem', chunks, sizes, base, top, lo, top, p);
    OutsideWords(mem, mem', chunks, sizes, base, top, lo, top, End(chunks, p));
    if !chunks[p].pinuse {
      var q := p - Peek(mem, PrevFoot(p));
      OutsideRegion(chunks, base, top, lo, top, q);
    }
  }
}
