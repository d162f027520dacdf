/** Changing the size of a chunk in use: the steps shared by `try_realloc_chunk` and
    `internal_memalign`. */
module Resizing {
  import opened Words
  import opened TreeBins
  import opened MallocState
  import opened Boundaries
  import opened Invariant
  import opened SmallChunks
  import opened Freeing
  import opened Taking

  /** Region `[p, hi)`: chunk `p`, in use, and at most free space after it. */
  ghost predicate Block(s: Snapshot, p: int, hi: int) {
    && Sound(s) && IsRegion(s.chunks, s.base, s.top, p, hi) && s.chunks[p].cinuse
    && End(s.chunks, p) <= hi && p % 16 == 0 && hi % 16 == 0
    && forall x :: x in s.chunks && p < x < hi ==> !s.chunks[x].cinuse
  }

  /** None of the chunks in `sizes` lies in `[p, hi)`. */
  ghost predicate Elsewhere(s: Snapshot, sizes: Sizes, p: int, hi: int) {
    forall y :: y in sizes ==> y in s.sizes && sizes[y] == s.sizes[y] && !(p <= y < hi)
  }

  // ---- the new chunks ----

  ghost function One(p: int, hi: int, pinuse: bool): Chunks
    requires p <= hi
  {
    map[p := Chunk(hi - p, true, pinuse)]
  }

  ghost function Two(p: int, nb: nat, hi: int, pinuse: bool, used: bool): Chunks
    requires p + nb <= hi
  {
    map[p := Chunk(nb, true, pinuse), p + nb := Chunk(hi - p - nb, used, true)]
  }

  lemma OneTiles(p: int, hi: int, pinuse: bool)
    requires p % 16 == 0 && hi % 16 == 0 && p + MIN_CHUNK_SIZE <= hi
    ensures Tiles(One(p, hi, pinuse), p, hi) && InRegion(One(p, hi, pinuse), p, hi)
    ensures FlagsWithin(One(p, hi, pinuse), p, hi, pinuse, true)
  {
  }

  lemma TwoTiles(p: int, nb: nat, hi: int, pinuse: bool, used: bool)
    requires p % 16 == 0 && hi % 16 == 0 && nb % 16 == 0 && nb >= MIN_CHUNK_SIZE && p + nb + MIN_CHUNK_SIZE <= hi
    ensures Tiles(Two(p, nb, hi, pinuse, used), p, hi) && InRegion(Two(p, nb, hi, pinuse, used), p, hi)
  {
    var news := Two(p, nb, hi, pinuse, used);
    forall x | x in news
      ensures ChunkFits(news, p, hi, x)
    {
    }
    forall x, y | x in news && y in news
      ensures Apart2(news, x, y)
    {
    }
  }

  lemma TwoFlags(p: int, nb: nat, hi: int, pinuse: bool, used: bool)
    requires nb >= MIN_CHUNK_SIZE && p + nb + MIN_CHUNK_SIZE <= hi
    ensures FlagsWithin(Two(p, nb, hi, pinuse, used), p, hi, pinuse, used)
    ensures forall x {:trigger x in Two(p, nb, hi, pinuse, used)} ::
              x in Two(p, nb, hi, pinuse, used) && x != p ==> Two(p, nb, hi, pinuse, used)[x].pinuse
  {
    var news := Two(p, nb, hi, pinuse, used);
    forall x | x in news
      ensures NewFlagsAt(news, hi, used, x)
    {
    }
  }

  lemma OneHeap(mem: Memory, s: Snapshot, p: int, hi: int)
    requires Block(s, p, hi) && OnlyRegion(s.mem, mem, s.sizes, p, hi)
    requires Peek(mem, Head(p)) == HeadWord(hi - p, true, s.chunks[p].pinuse)
    requires hi in s.chunks ==> Peek(mem, Head(hi)) == HeadWord(s.chunks[hi].size, s.chunks[hi].cinuse, true)
    requires p + MIN_CHUNK_SIZE <= hi
    ensures HeapOk(mem, Retile(s.chunks, p, hi, One(p, hi, s.chunks[p].pinuse), true), s.base, s.top)
    ensures InRegion(One(p, hi, s.chunks[p].pinuse), p, hi)
  {
    hide Tiles, Flags, Tags, OnlyRegion, Retile, Placed, FlagsWithin;
    var news := One(p, hi, s.chunks[p].pinuse);
    PlacedFree(s.chunks, s.sizes, s.dv, s.dvsize);
    OneTiles(p, hi, s.chunks[p].pinuse);
    assert NewTags(mem, s.chunks, p, hi, news, true);
    RetileHeap(s.mem, mem, s.chunks, s.sizes, s.base, s.top, p, hi, news, true);
  }

  lemma TwoTags(mem: Memory, s: Snapshot, p: int, nb: nat, hi: int, used: bool)
    requires p in s.chunks && nb >= MIN_CHUNK_SIZE && p + nb + MIN_CHUNK_SIZE <= hi
    requires Peek(mem, Head(p)) == HeadWord(nb, true, s.chunks[p].pinuse)
    requires Peek(mem, Head(p + nb)) == HeadWord(hi - p - nb, used, true)
    requires hi in s.chunks ==> Peek(mem, Head(hi)) == HeadWord(s.chunks[hi].size, s.chunks[hi].cinuse, used)
    requires !used ==> Peek(mem, PrevFoot(hi)) == hi - p - nb
    ensures NewTags(mem, s.chunks, p, hi, Two(p, nb, hi, s.chunks[p].pinuse, used), used)
  {
    var news := Two(p, nb, hi, s.chunks[p].pinuse, used);
    forall x | x in news
      ensures NewTagsAt(mem, news, x)
    {
    }
  }

  lemma TwoHeap(mem: Memory, s: Snapshot, p: int, nb: nat, hi: int, used: bool)
    requires Block(s, p, hi) && OnlyRegion(s.mem, mem, s.sizes, p, hi)
    requires nb % 16 == 0 && nb >= MIN_CHUNK_SIZE && p + nb + MIN_CHUNK_SIZE <= hi
    requires Peek(mem, Head(p)) == HeadWord(nb, true, s.chunks[p].pinuse)
    requires Peek(mem, Head(p + nb)) == HeadWord(hi - p - nb, used, true)
    requires hi in s.chunks ==> Peek(mem, Head(hi)) == HeadWord(s.chunks[hi].size, s.chunks[hi].cinuse, used)
    requires !used ==> Peek(mem, PrevFoot(hi)) == hi - p - nb && hi in s.chunks && s.chunks[hi].cinuse
    ensures HeapOk(mem, Retile(s.chunks, p, hi, Two(p, nb, hi, s.chunks[p].pinuse, used), used), s.base, s.top)
    ensures InRegion(Two(p, nb, hi, s.chunks[p].pinuse, used), p, hi)
  {
    hide Tiles, Flags, Tags, OnlyRegion, Retile, Placed, FlagsWithin, NewTags;
    var news := Two(p, nb, hi, s.chunks[p].pinuse, used);
    PlacedFree(s.chunks, s.sizes, s.dv, s.dvsize);
    TwoTiles(p, nb, hi, s.chunks[p].pinuse, used);
    TwoFlags(p, nb, hi, s.chunks[p].pinuse, used);
    TwoTags(mem, s, p, nb, hi, used);
    RetileHeap(s.mem, mem, s.chunks, s.sizes, s.base, s.top, p, hi, news, used);
  }

  // ---- what the caller sees ----

  lemma OneLive(s: Snapshot, p: int, hi: int)
    requires Block(s, p, hi) && p + MIN_CHUNK_SIZE <= hi
    ensures InRegion(One(p, hi, s.chunks[p].pinuse), p, hi)
    ensures Live(Retile(s.chunks, p, hi, One(p, hi, s.chunks[p].pinuse), true)) == Live(s.chunks)[p := hi - p]
  {
    hide Retile, Sound, Tiles, Live;
    OneTiles(p, hi, s.chunks[p].pinuse);
    LiveRetile(s.chunks, p, hi, One(p, hi, s.chunks[p].pinuse), true);
    LiveOne(p, hi, s.chunks[p].pinuse);
    LiveAt(s.chunks);
  }

  lemma LiveOne(p: int, hi: int, pinuse: bool)
    requires p <= hi
    ensures Live(One(p, hi, pinuse)) == map[p := hi - p]
  {
  }

  lemma TwoLive(s: Snapshot, p: int, nb: nat, hi: int, used: bool)
    requires Block(s, p, hi) && nb % 16 == 0 && nb >= MIN_CHUNK_SIZE && p + nb + MIN_CHUNK_SIZE <= hi
    ensures InRegion(Two(p, nb, hi, s.chunks[p].pinuse, used), p, hi)
    ensures Live(Retile(s.chunks, p, hi, Two(p, nb, hi, s.chunks[p].pinuse, used), used)) ==
            if used then Live(s.chunks)[p := nb][p + nb := hi - p - nb] else Live(s.chunks)[p := nb]
  {
    hide Retile, Sound, Tiles, Live;
    var news := Two(p, nb, hi, s.chunks[p].pinuse, used);
    TwoTiles(p, nb, hi, s.chunks[p].pinuse, used);
    LiveRetile(s.chunks, p, hi, news, used);
    LiveTwo(p, nb, hi, s.chunks[p].pinuse, used);
    LiveAt(s.chunks);
  }

  lemma LiveAt(chunks: Chunks)
    ensures forall x :: x in Live(chunks) <==> x in chunks && chunks[x].cinuse
    ensures forall x :: x in Live(chunks) ==> Live(chunks)[x] == chunks[x].size
  {
  }

  lemma LiveTwo(p: int, nb: nat, hi: int, pinuse: bool, used: bool)
    requires nb >= MIN_CHUNK_SIZE && p + nb <= hi
    ensures Live(Two(p, nb, hi, pinuse, used)) == if used then map[p := nb, p + nb := hi - p - nb] else map[p := nb]
  {
  }

  /** The words of payload `p` that stay when its size becomes `n`. */
  ghost predicate PayloadKept(mem: Memory, mem': Memory, p: int, n: int) {
    forall a {:trigger Peek(mem', a)} :: PayloadWord(p, n, a) ==> Peek(mem', a) == Peek(mem, a)
  }

  lemma BlockPayload(s: Snapshot, mem1: Memory, mem2: Memory, p: int, r: int, hi: int, n: int)
    requires Block(s, p, hi) && OnlyLinks(s.mem, mem1, s.sizes) && OnlySplit(mem1, mem2, p, r, hi)
    requires n <= s.chunks[p].size && (p + n <= r || r == p) && p + n + 8 <= hi
    ensures PayloadKept(s.mem, mem2, p, n)
  {
    hide Flags, Tags, OnlySplit, Placed, OnlyLinks;
    PlacedFree(s.chunks, s.sizes, s.dv, s.dvsize);
    forall a | PayloadWord(p, n, a)
      ensures Peek(mem2, a) == Peek(s.mem, a)
    {
      PayloadNoLink(s, p, a);
      if Peek(mem2, a) != Peek(mem1, a) {
        SplitCases(mem1, mem2, p, r, hi, a);
      }
      assert Peek(mem1, a) != Peek(s.mem, a) ==> LinkWord(s.sizes, a) by { LinkOnly(s.mem, mem1, s.sizes, a); }
    }
  }

  lemma LinkOnly(mem: Memory, mem': Memory, sizes: Sizes, a: int)
    requires OnlyLinks(mem, mem', sizes)
    ensures Peek(mem', a) != Peek(mem, a) ==> LinkWord(sizes, a)
  {
  }

  lemma PayloadNoLink(s: Snapshot, p: int, a: int)
    requires Sound(s) && p in s.chunks && s.chunks[p].cinuse && PayloadWord(p, s.chunks[p].size, a)
    ensures !LinkWord(s.sizes, a)
  {
    hide Flags, Tags;
    ChunkBelowTop(s.chunks, s.base, s.top, p);
    forall y | y in s.sizes
      ensures !(y + 16 <= a < y + s.sizes[y])
    {
      assert Apart2(s.chunks, p, y);
      assert ChunkFits(s.chunks, s.base, s.top, y) && ChunkFits(s.chunks, s.base, s.top, p);
    }
  }

  /** All payloads but that of `p`, and the part of `p`'s that stays, are untouched. */
  lemma BlockUntouched(s: Snapshot, mem: Memory, p: int, hi: int, n: nat)
    requires Block(s, p, hi) && OnlyRegion(s.mem, mem, s.sizes, p, hi) && PayloadKept(s.mem, mem, p, n)
    ensures Untouched(s.mem, mem, Live(s.chunks)[p := n])
  {
    hide Flags, Tags, OnlyRegion, Placed;
    PlacedFree(s.chunks, s.sizes, s.dv, s.dvsize);
    var live := Live(s.chunks) - {p};
    RegionUntouched(s.mem, mem, s.chunks, s.sizes, s.base, s.top, p, hi, live) by {
      forall x | x in live
        ensures x < p || x >= hi
      {
      }
    }
    UntouchedMore(s.mem, mem, Live(s.chunks), p, n);
  }

  lemma UntouchedMore(mem: Memory, mem': Memory, live: map<int, nat>, p: int, n: nat)
    requires Untouched(mem, mem', live - {p}) && PayloadKept(mem, mem', p, n)
    ensures Untouched(mem, mem', live[p := n])
  {
    var more := live[p := n];
    forall x, a | x in more && PayloadWord(x, more[x], a)
      ensures Peek(mem', a) == Peek(mem, a)
    {
      if x != p {
        assert x in live - {p} && PayloadWord(x, (live - {p})[x], a);
      }
    }
  }

  /** Chunk `p` now has `n` bytes; what both sizes share of its payload is as it was, and
      nothing else has changed for the caller. */
  ghost predicate Resized(m: State, s: Snapshot, p: int, n: nat)
    reads m
  {
    && Valid(m) && p in Live(s.chunks) && Live(m.chunks) == Live(s.chunks)[p := n]
    && Untouched(s.mem, m.mem, Live(s.chunks)[p := if n < Live(s.chunks)[p] then n else Live(s.chunks)[p]])
    && m.segBase == s.base && m.segSize == s.size
  }

  // ---- the bins ----

  /** Exactly the binned chunks outside `[p, hi)` are still binned. */
  ghost predicate Remains(s: Snapshot, sizes: Sizes, p: int, hi: int) {
    && (forall y :: y in sizes <==> y in s.sizes && !(p <= y < hi))
    && (forall y :: y in sizes ==> sizes[y] == s.sizes[y])
  }

  lemma RemainsElsewhere(s: Snapshot, sizes: Sizes, p: int, hi: int)
    requires Remains(s, sizes, p, hi)
    ensures Elsewhere(s, sizes, p, hi)
  {
  }

  /** The tags of the region are no links of the chunks outside it. */
  lemma BlockNoLink(s: Snapshot, sizes: Sizes, p: int, hi: int, a: int)
    requires Block(s, p, hi) && Elsewhere(s, sizes, p, hi) && Head(p) <= a <= Head(hi)
    ensures !LinkWord(sizes, a)
  {
    hide Flags, Tags;
    ChunkBelowTop(s.chunks, s.base, s.top, p);
    forall y | y in sizes
      ensures y + sizes[y] <= p || hi <= y
    {
      OutsideRegion(s.chunks, s.base, s.top, p, hi, y);
    }
  }

  lemma BlockTags(s: Snapshot, mem1: Memory, mem2: Memory, sizes: Sizes, p: int, r: int, hi: int)
    requires Block(s, p, hi) && Elsewhere(s, sizes, p, hi) && p <= r < hi && r % 16 == 0
    requires OnlySplit(mem1, mem2, p, r, hi) && (hi in sizes ==> Peek(mem2, Head(hi)) == Peek(mem1, Head(hi)))
    ensures OnlyTags(mem1, mem2, sizes)
  {
    hide Flags, Tags, Placed, OnlySplit, LinkWord;
    forall a | Peek(mem2, a) != Peek(mem1, a)
      ensures !LinkWord(sizes, a) && !IsHead(sizes, a)
    {
      SplitCases(mem1, mem2, p, r, hi, a);
      BlockNoLink(s, sizes, p, hi, a);
      forall x | x in sizes
        ensures a != Head(x)
      {
        SizesAligned(s, sizes, p, hi, x);
      }
    }
  }

  lemma SizesAligned(s: Snapshot, sizes: Sizes, p: int, hi: int, x: int)
    requires Sound(s) && Elsewhere(s, sizes, p, hi) && x in sizes
    ensures x % 16 == 0
  {
    hide Flags, Tags;
    BoundaryAligned(s.chunks, s.base, s.top, x);
  }

  lemma BlockInRegion(s: Snapshot, mem1: Memory, mem2: Memory, p: int, r: int, hi: int)
    requires OnlyLinks(s.mem, mem1, s.sizes) && OnlySplit(mem1, mem2, p, r, hi) && p <= r && r + 8 <= hi
    ensures OnlyRegion(s.mem, mem2, s.sizes, p, hi)
  {
    hide OnlySplit, OnlyLinks, RegionWord;
    forall a | Peek(mem2, a) != Peek(s.mem, a)
      ensures RegionWord(s.sizes, p, hi, a)
    {
      SplitWordInRegion(s.mem, mem1, mem2, s.sizes, s.sizes, p, r, hi, a);
    }
  }

  // ---- where the free chunks are ----

  lemma OnePlaced(s: Snapshot, sizes: Sizes, dv: int, dvsize: int, p: int, hi: int)
    requires Block(s, p, hi) && p + MIN_CHUNK_SIZE <= hi && Remains(s, sizes, p, hi)
    requires if s.dvsize != 0 && p <= s.dv < hi then dv == 0 && dvsize == 0 else dv == s.dv && dvsize == s.dvsize
    ensures Placed(Retile(s.chunks, p, hi, One(p, hi, s.chunks[p].pinuse), true), sizes, dv, dvsize)
  {
    hide Retile, HeapOk, TopOk, Tiles;
    var news := One(p, hi, s.chunks[p].pinuse);
    OneTiles(p, hi, s.chunks[p].pinuse);
    RetileAll(s.chunks, p, hi, news, true);
    ZeroIsNoChunk(s);
    UsedIsNotVictim(s, p);
  }

  /** Outside the region all chunks keep size and in-use bit. */
  lemma RetileAll(chunks: Chunks, lo: int, hi: int, news: Chunks, used: bool)
    requires InRegion(news, lo, hi)
    ensures var c' := Retile(chunks, lo, hi, news, used);
            && (forall x :: x in c' <==> x in news || (x in chunks && !(lo <= x < hi)))
            && (forall x :: x in news ==> c'[x] == news[x])
            && (forall x :: x in chunks && !(lo <= x < hi) ==>
                 c'[x].size == chunks[x].size && c'[x].cinuse == chunks[x].cinuse)
  {
  }

  lemma TwoPlaced(s: Snapshot, sizes: Sizes, p: int, nb: nat, hi: int)
    requires Block(s, p, hi) && Remains(s, sizes, p, hi) && !(s.dvsize != 0 && p <= s.dv < hi)
    requires nb % 16 == 0 && nb >= MIN_CHUNK_SIZE && p + nb + MIN_CHUNK_SIZE <= hi
    ensures Placed(Retile(s.chunks, p, hi, Two(p, nb, hi, s.chunks[p].pinuse, true), true), sizes, s.dv, s.dvsize)
  {
    hide Retile, HeapOk, TopOk, Tiles;
    var news := Two(p, nb, hi, s.chunks[p].pinuse, true);
    TwoTiles(p, nb, hi, s.chunks[p].pinuse, true);
    RetileAll(s.chunks, p, hi, news, true);
    ZeroIsNoChunk(s);
  }

  lemma TwoVictim(s: Snapshot, sizes: Sizes, p: int, nb: nat, hi: int)
    requires Block(s, p, hi) && Remains(s, sizes, p, hi) && s.dvsize != 0 && p <= s.dv < hi
    requires nb % 16 == 0 && nb >= MIN_CHUNK_SIZE && p + nb + MIN_CHUNK_SIZE <= hi
    ensures Placed(Retile(s.chunks, p, hi, Two(p, nb, hi, s.chunks[p].pinuse, false), false), sizes, p + nb,
          hi - p - nb)
  {
    hide Retile, HeapOk, TopOk, Tiles;
    var news := Two(p, nb, hi, s.chunks[p].pinuse, false);
    TwoTiles(p, nb, hi, s.chunks[p].pinuse, false);
    RetileAll(s.chunks, p, hi, news, false);
  }

  lemma BlockTop(mem: Memory, s: Snapshot, p: int, hi: int)
    requires Block(s, p, hi) && OnlyRegion(s.mem, mem, s.sizes, p, hi)
    requires hi == s.top ==> Peek(mem, Head(hi)) == Peek(s.mem, Head(hi))
    ensures TopOk(mem, s.base, s.size, s.top, s.topsize)
  {
    hide Flags, Tags, OnlyRegion, Placed;
    PlacedFree(s.chunks, s.sizes, s.dv, s.dvsize);
    TopKept(s.mem, mem, s.chunks, s.sizes, s.base, s.size, s.top, s.topsize, p, hi);
  }

  // ---- splitting a chunk in use ----

  /** Chunk `p` has been cut into two chunks in use. */
  ghost predicate CutInUse(m: State, s: Snapshot, p: int, nb: nat, rsize: nat)
    reads m
  {
    && Valid(m) && p in Live(s.chunks) && Live(m.chunks) == Live(s.chunks)[p := nb][p + nb := rsize]
    && p + nb in m.chunks && m.chunks[p + nb].cinuse && m.chunks[p + nb].size == rsize
    && p in m.chunks && m.chunks[p].cinuse && m.chunks[p].size == nb && p != p + nb && p + nb !in Live(s.chunks)
    && Untouched(s.mem, m.mem, Live(s.chunks)[p := if nb < Live(s.chunks)[p] then nb else Live(s.chunks)[p]])
    && m.segBase == s.base && m.segSize == s.size
    && p in s.chunks && m.chunks[p].pinuse == s.chunks[p].pinuse && m.chunks[p + nb].pinuse
    && SameAt(m.chunks, s.chunks, p + nb + rsize)
  }

  /** The same chunk, or none, at a boundary. */
  ghost predicate SameAt(chunks': Chunks, chunks: Chunks, n: int) {
    && (n in chunks' <==> n in chunks)
    && (n in chunks ==> chunks'[n].size == chunks[n].size && chunks'[n].cinuse == chunks[n].cinuse)
  }

  function SetInuseMem(mem: Memory, p: int, size: int): Memory {
    var mem' := mem[Head(p) := HeadWord(size, true, PInUse(Peek(mem, Head(p))))];
    mem'[Head(p + size) := SetPInUse(Peek(mem', Head(p + size)))]
  }

  /** `set_inuse(M, p, s)`. */
  method SetInuse(m: State, p: int, size: int)
    requires m.Mapped(Head(p)) && m.Mapped(Head(p + size))
    modifies m`mem
    ensures m.mem == SetInuseMem(old(m.mem), p, size)
  {
    m.Put(Head(p), HeadWord(size, true, PInUse(m.At(Head(p)))));
    m.Put(Head(p + size), SetPInUse(m.At(Head(p + size))));
  }

  /** What can be read and written in a block. */
  lemma BlockReads(m: State, s: Snapshot, p: int, hi: int, gone: set<int>)
    requires Opened(m, s, gone) && Block(s, p, hi)
    ensures m.Mapped(Head(p)) && m.Mapped(PrevFoot(hi)) && m.Mapped(Head(hi)) && p < hi
    ensures var h := Peek(m.mem, Head(p)); PInUse(h) == s.chunks[p].pinuse && ChunkSize(h) == s.chunks[p].size
    ensures var h := Peek(m.mem, Head(hi));
            && (hi in s.chunks ==>
                  && h == HeadWord(s.chunks[hi].size, s.chunks[hi].cinuse, s.chunks[hi].pinuse)
                  && SetPInUse(h) == HeadWord(s.chunks[hi].size, s.chunks[hi].cinuse, true)
                  && ClearPInUse(h) == HeadWord(s.chunks[hi].size, s.chunks[hi].cinuse, false))
            && (hi == s.top ==> SetPInUse(h) == h) && h == Peek(s.mem, Head(hi))
            && (hi in s.chunks && s.chunks[hi].pinuse ==> SetPInUse(h) == h)
    ensures hi in s.chunks <==> hi != s.top
  {
    hide Flags, Tags, Tiles, BinsOk, Within, OnlyLinks, Placed;
    HeadRead(s, m, gone, p);
    BoundaryRead(s, m, gone, hi);
    if hi in s.chunks {
      HeadRead(s, m, gone, hi);
      ChunkBelowTop(s.chunks, s.base, s.top, hi);
    } else {
      TopRead(s, m, gone);
    }
  }

  lemma InsideMapped(m: State, s: Snapshot, p: int, r: int, hi: int, gone: set<int>)
    requires Opened(m, s, gone) && Block(s, p, hi) && p <= r < hi && r % 16 == 0
    ensures m.Mapped(Head(r)) && m.Mapped(PrevFoot(r))
  {
    hide Flags, Tags, Tiles, BinsOk, Within, OnlyLinks, Placed;
    ChunkBelowTop(s.chunks, s.base, s.top, p);
    AlignedMapped(m, r);
  }

  /** The two `set_inuse` of a split, seen as one change. */
  lemma SplitWrites(mem: Memory, p: int, nb: nat, rsize: nat)
    requires nb >= MIN_CHUNK_SIZE && rsize >= MIN_CHUNK_SIZE
    ensures var r, hi, mem2 := p + nb, p + nb + rsize, SetInuseMem(SetInuseMem(mem, p, nb), p + nb, rsize);
            && Peek(mem2, Head(p)) == HeadWord(nb, true, PInUse(Peek(mem, Head(p))))
            && Peek(mem2, Head(r)) == HeadWord(rsize, true, true)
            && Peek(mem2, Head(hi)) == SetPInUse(Peek(mem, Head(hi))) && OnlySplit(mem, mem2, p, r, hi)
  {
  }

  /** Everything a rewritten block needs but its new chunks. */
  ghost predicate Rewritten(m: State, s: Snapshot, p: int, hi: int, n: nat)
    reads m`mem, m`smallmap, m`treemap, m`sizes, m`small, m`tree, m`segBase, m`segSize, m`top, m`topsize,
          m`footprint, m`maxFootprint
  {
    && Block(s, p, hi) && m.Bins() && SameSegment(m, s) && Remains(s, m.sizes, p, hi)
    && OnlyRegion(s.mem, m.mem, s.sizes, p, hi) && PayloadKept(s.mem, m.mem, p, n)
    && TopOk(m.mem, s.base, s.size, s.top, s.topsize)
  }

  lemma NowRewritten(m: State, s: Snapshot, p: int, r: int, hi: int, n: nat, gone: set<int>, mem1: Memory)
    requires Writing(m, s, gone, mem1) && Block(s, p, hi) && Remains(s, m.sizes, p, hi)
    requires OnlySplit(mem1, m.mem, p, r, hi) && p <= r && r % 16 == 0 && r + 8 <= hi
    requires n <= s.chunks[p].size && (p + n <= r || r == p) && p + n + 8 <= hi
    requires hi in m.sizes || hi == s.top ==> Peek(m.mem, Head(hi)) == Peek(mem1, Head(hi))
    requires hi == s.top ==> Peek(mem1, Head(hi)) == Peek(s.mem, Head(hi))
    ensures Rewritten(m, s, p, hi, n)
  {
    hide BinsOk, Within, OnlyLinks, Sound, OnlySplit, Remains, OnlyRegion, PayloadKept, TopOk;
    RemainsElsewhere(s, m.sizes, p, hi);
    BlockTags(s, mem1, m.mem, m.sizes, p, r, hi);
    BinsKept(mem1, m.mem, m.smallmap, m.treemap, m.sizes, m.small, m.tree);
    BinsFromParts(m);
    BlockInRegion(s, mem1, m.mem, p, r, hi);
    BlockPayload(s, mem1, m.mem, p, r, hi, n);
    BlockTop(m.mem, s, p, hi);
  }

  function Lesser(a: nat, b: nat): nat {
    if a < b then a else b
  }

  lemma BlockLive(s: Snapshot, p: int, hi: int)
    requires Block(s, p, hi)
    ensures p in Live(s.chunks) && Live(s.chunks)[p] == s.chunks[p].size
    ensures p in s.chunks && s.chunks[p].size >= MIN_CHUNK_SIZE && p > 0 && s.chunks[p].size % 16 == 0
  {
    hide Flags, Tags, Placed;
    assert ChunkFits(s.chunks, s.base, s.top, p);
  }

  lemma CutDone(m: State, s: Snapshot, p: int, nb: nat, hi: int)
    requires Block(s, p, hi) && Rewritten(m, s, p, hi, Lesser(nb, s.chunks[p].size))
    requires nb % 16 == 0 && nb >= MIN_CHUNK_SIZE && p + nb + MIN_CHUNK_SIZE <= hi
    requires Peek(m.mem, Head(p)) == HeadWord(nb, true, s.chunks[p].pinuse)
    requires Peek(m.mem, Head(p + nb)) == HeadWord(hi - p - nb, true, true)
    requires hi in s.chunks ==> Peek(m.mem, Head(hi)) == HeadWord(s.chunks[hi].size, s.chunks[hi].cinuse, true)
    requires m.chunks == Retile(s.chunks, p, hi, Two(p, nb, hi, s.chunks[p].pinuse, true), true)
    requires m.dv == s.dv && m.dvsize == s.dvsize && !(s.dvsize != 0 && p <= s.dv < hi)
    ensures CutInUse(m, s, p, nb, hi - p - nb)
  {
    hide Block, BinsOk, Within, Tiles, Flags, Tags, OnlyRegion, PayloadKept, Remains, Untouched, Retile, HeapOk,
      Placed, TopOk;
    BlockLive(s, p, hi);
    TwoHeap(m.mem, s, p, nb, hi, true);
    TwoLive(s, p, nb, hi, true);
    TwoPlaced(s, m.sizes, p, nb, hi);
    BlockUntouched(s, m.mem, p, hi, Lesser(nb, s.chunks[p].size));
    TwoChunks(s, p, nb, hi);
  }

  lemma TwoChunks(s: Snapshot, p: int, nb: nat, hi: int)
    requires Block(s, p, hi) && nb % 16 == 0 && nb >= MIN_CHUNK_SIZE && p + nb + MIN_CHUNK_SIZE <= hi
    ensures var c' := Retile(s.chunks, p, hi, Two(p, nb, hi, s.chunks[p].pinuse, true), true);
            && p in c' && c'[p].cinuse && c'[p].size == nb && c'[p].pinuse == s.chunks[p].pinuse
            && p + nb in c' && c'[p + nb].cinuse && c'[p + nb].size == hi - p - nb && p + nb !in Live(s.chunks)
            && c'[p + nb].pinuse && SameAt(c', s.chunks, hi)
            && p != p + nb
  {
    hide Retile, Sound, Tiles, Live;
    TwoTiles(p, nb, hi, s.chunks[p].pinuse, true);
    LiveAt(s.chunks);
    RetileAt(s.chunks, p, hi, Two(p, nb, hi, s.chunks[p].pinuse, true), true, p);
    RetileAt(s.chunks, p, hi, Two(p, nb, hi, s.chunks[p].pinuse, true), true, p + nb);
    RetileAt(s.chunks, p, hi, Two(p, nb, hi, s.chunks[p].pinuse, true), true, hi);
  }

  /** `set_inuse(m, p, nb); set_inuse(m, r, rsize)`: block `[p, hi)` becomes two chunks in
      use. `gone` is what of it was binned. */
  method SplitInUse(m: State, p: int, nb: nat, rsize: nat, ghost s: Snapshot, ghost gone: set<int>)
    requires Opened(m, s, gone) && Block(s, p, p + nb + rsize) && Remains(s, m.sizes, p, p + nb + rsize)
    requires nb % 16 == 0 && nb >= MIN_CHUNK_SIZE && rsize >= MIN_CHUNK_SIZE
    requires !(s.dvsize != 0 && p <= s.dv < p + nb + rsize)
    modifies m`mem, m`chunks
    ensures CutInUse(m, s, p, nb, rsize)
  {
    hide *;
    ghost var mem1, hi := m.mem, p + nb + rsize;
    OpenedWriting(m, s, gone);
    OpenedFields(m, s, gone);
    BlockReads(m, s, p, hi, gone);
    SplitReads2(m, s, p, nb, rsize, gone);
    SplitWrites(m.mem, p, nb, rsize);
    SetInuse(m, p, nb);
    var r := p + nb;
    SetInuse(m, r, rsize);
    CutWritten(m, s, p, nb, rsize, gone, mem1);
    m.chunks := Retile(s.chunks, p, hi, Two(p, nb, hi, s.chunks[p].pinuse, true), true);
    CutRewritten(m, s, p, hi, Lesser(nb, s.chunks[p].size));
    CutDone(m, s, p, nb, hi);
  }

  lemma SplitReads2(m: State, s: Snapshot, p: int, nb: nat, rsize: nat, gone: set<int>)
    requires Opened(m, s, gone) && Block(s, p, p + nb + rsize)
    requires nb % 16 == 0 && nb >= MIN_CHUNK_SIZE && rsize >= MIN_CHUNK_SIZE
    ensures p in s.chunks && m.Mapped(Head(p + nb)) && nb > 0 && rsize > 0
    ensures InRegion(Two(p, nb, p + nb + rsize, s.chunks[p].pinuse, true), p, p + nb + rsize)
  {
    hide Opened, Sound, Tiles;
    InsideMapped(m, s, p, p + nb, p + nb + rsize, gone);
  }

  lemma CutWritten(m: State, s: Snapshot, p: int, nb: nat, rsize: nat, gone: set<int>, mem1: Memory)
    requires Writing(m, s, gone, mem1) && Block(s, p, p + nb + rsize) && Remains(s, m.sizes, p, p + nb + rsize)
    requires nb % 16 == 0 && nb >= MIN_CHUNK_SIZE && rsize >= MIN_CHUNK_SIZE
    requires OnlySplit(mem1, m.mem, p, p + nb, p + nb + rsize)
    requires Peek(m.mem, Head(p + nb + rsize)) == SetPInUse(Peek(mem1, Head(p + nb + rsize)))
    requires var hi, h := p + nb + rsize, Peek(mem1, Head(p + nb + rsize));
             && h == Peek(s.mem, Head(hi)) && (hi == s.top ==> SetPInUse(h) == h)
             && (hi in s.chunks && s.chunks[hi].pinuse ==> SetPInUse(h) == h)
    ensures Rewritten(m, s, p, p + nb + rsize, Lesser(nb, s.chunks[p].size))
  {
    hide Writing, Sound, Tiles, OnlySplit, Remains, Peek, SetPInUse;
    HiStillBinned(s, m.sizes, p, p + nb + rsize);
    NowRewritten(m, s, p, p + nb, p + nb + rsize, Lesser(nb, s.chunks[p].size), gone, mem1);
  }

  /** A chunk after the block that is still binned follows one in use. */
  lemma HiStillBinned(s: Snapshot, sizes: Sizes, p: int, hi: int)
    requires Block(s, p, hi) && Remains(s, sizes, p, hi)
    ensures hi in sizes ==> hi in s.chunks && s.chunks[hi].pinuse
  {
    hide Tags;
    if hi in sizes {
      assert FlagsAt(s.chunks, s.top, hi);
    }
  }

  lemma CutRewritten(m: State, s: Snapshot, p: int, hi: int, n: nat)
    requires Rewritten(m, s, p, hi, n)
    ensures Block(s, p, hi)
  {
    hide Block;
  }
}
