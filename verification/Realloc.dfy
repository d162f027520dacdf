/** `try_realloc_chunk` and `dlrealloc`. */
module Realloc {
  import opened Words
  import opened BinHistory
  import opened MallocState
  import opened Boundaries
  import opened Invariant
  import opened Freeing
  import opened Taking
  import opened LargeRequests
  import opened TopChunk
  import opened Resizing

  // ---- blocks ----

  lemma OwnBlock(s: Snapshot, p: int)
    requires Sound(s) && p in s.chunks && s.chunks[p].cinuse
    ensures Block(s, p, End(s.chunks, p)) && s.chunks[p].size % 16 == 0
    ensures Remains(s, s.sizes, p, End(s.chunks, p)) && !(s.dvsize != 0 && p <= s.dv < End(s.chunks, p))
  {
    hide Tags, Flags;
    var hi := End(s.chunks, p);
    assert ChunkFits(s.chunks, s.base, s.top, p);
    forall x | x in s.chunks && p <= x < hi
      ensures x == p
    {
      assert Apart2(s.chunks, x, p) && ChunkFits(s.chunks, s.base, s.top, x);
    }
    BoundaryAligned(s.chunks, s.base, s.top, hi);
    DvIsChunk(s);
  }

  /** A chunk in use with the free chunk after it. */
  ghost predicate FreeAfter(s: Snapshot, p: int, next: int, hi: int) {
    && Block(s, p, hi) && next == End(s.chunks, p) && next in s.chunks && !s.chunks[next].cinuse
    && hi == End(s.chunks, next)
    && hi in s.chunks && s.chunks[hi].cinuse && !s.chunks[hi].pinuse && s.chunks[p].size + MIN_CHUNK_SIZE <= hi - p
    && (forall y :: y in s.chunks && p <= y < hi ==> y == p || y == next)
    && (next == s.dv ==> s.chunks[next].size == s.dvsize && s.dvsize != 0)
    && (next != s.dv ==> next in s.sizes && s.sizes[next] == s.chunks[next].size)
  }

  lemma NextBlock(s: Snapshot, p: int)
    requires Sound(s) && p in s.chunks && s.chunks[p].cinuse
    requires End(s.chunks, p) in s.chunks && !s.chunks[End(s.chunks, p)].cinuse
    ensures FreeAfter(s, p, End(s.chunks, p), End(s.chunks, End(s.chunks, p)))
  {
    hide Tags, Flags;
    var next := End(s.chunks, p);
    var hi := End(s.chunks, next);
    FreeThenUsed(s, next);
    assert ChunkFits(s.chunks, s.base, s.top, p) && ChunkFits(s.chunks, s.base, s.top, next);
    forall x | x in s.chunks && p <= x < hi
      ensures x == p || x == next
    {
      assert Apart2(s.chunks, x, p) && Apart2(s.chunks, x, next) && ChunkFits(s.chunks, s.base, s.top, x);
    }
    BoundaryAligned(s.chunks, s.base, s.top, hi);
    DvIsChunk(s);
  }

  lemma NextRemains(s: Snapshot, p: int, next: int, hi: int)
    requires FreeAfter(s, p, next, hi)
    ensures next != s.dv ==> Remains(s, s.sizes - {next}, p, hi) && !(s.dvsize != 0 && p <= s.dv < hi)
    ensures next == s.dv ==> Remains(s, s.sizes, p, hi) && s.dvsize != 0 && p <= s.dv < hi
  {
    hide Tags, Flags, Tiles;
    DvIsChunk(s);
    UsedNotBinned(s, p);
  }

  // ---- the whole block in use ----

  lemma OneWrites(mem: Memory, p: int, size: nat)
    requires size >= MIN_CHUNK_SIZE
    ensures var mem2 := SetInuseMem(mem, p, size);
            && Peek(mem2, Head(p)) == HeadWord(size, true, PInUse(Peek(mem, Head(p))))
            && Peek(mem2, Head(p + size)) == SetPInUse(Peek(mem, Head(p + size)))
            && OnlySplit(mem, mem2, p, p, p + size)
  {
  }

  lemma WholeDone(m: State, s: Snapshot, p: int, hi: int)
    requires Block(s, p, hi) && Rewritten(m, s, p, hi, s.chunks[p].size) && s.chunks[p].size < hi - p
    requires p + MIN_CHUNK_SIZE <= hi
    requires Peek(m.mem, Head(p)) == HeadWord(hi - p, true, s.chunks[p].pinuse)
    requires hi in s.chunks ==> Peek(m.mem, Head(hi)) == HeadWord(s.chunks[hi].size, s.chunks[hi].cinuse, true)
    requires m.chunks == Retile(s.chunks, p, hi, One(p, hi, s.chunks[p].pinuse), true)
    requires if s.dvsize != 0 && p <= s.dv < hi then m.dv == 0 && m.dvsize == 0
             else m.dv == s.dv && m.dvsize == s.dvsize
    ensures Resized(m, s, p, hi - p)
  {
    hide Block, BinsOk, Within, Tiles, Flags, Tags, OnlyRegion, PayloadKept, Remains, Untouched, Retile, HeapOk,
      Placed, TopOk;
    BlockLive(s, p, hi);
    OneHeap(m.mem, s, p, hi);
    OneLive(s, p, hi);
    OnePlaced(s, m.sizes, m.dv, m.dvsize, p, hi);
    BlockUntouched(s, m.mem, p, hi, s.chunks[p].size);
  }

  lemma UseStart(m: State, s: Snapshot, p: int, next: int, hi: int, gone: set<int>)
    requires Opened(m, s, gone) && FreeAfter(s, p, next, hi) && Remains(s, m.sizes, p, hi)
    ensures Block(s, p, hi) && p in s.chunks && hi in s.chunks && Writing(m, s, gone, m.mem) && p <= hi
    ensures s.chunks[p].size < hi - p && p + MIN_CHUNK_SIZE <= hi
    ensures m.Mapped(Head(p)) && m.Mapped(Head(hi)) && m.Mapped(PrevFoot(hi)) && m.chunks == s.chunks && m.dv == s.dv
    ensures m.dvsize == s.dvsize
    ensures PInUse(Peek(m.mem, Head(p))) == s.chunks[p].pinuse
    ensures SetPInUse(Peek(m.mem, Head(hi))) == HeadWord(s.chunks[hi].size, s.chunks[hi].cinuse, true)
    ensures ClearPInUse(Peek(m.mem, Head(hi))) == HeadWord(s.chunks[hi].size, s.chunks[hi].cinuse, false)
    ensures s.chunks[hi].cinuse
    ensures next == s.dv <==> s.dvsize != 0 && p <= s.dv < hi
  {
    hide BinsOk, Within, OnlyLinks, Sound, Remains, Tiles;
    OpenedWriting(m, s, gone);
    BlockReads(m, s, p, hi, gone);
    NextRemains(s, p, next, hi);
  }

  lemma UseWritten(m: State, s: Snapshot, p: int, next: int, hi: int, gone: set<int>, mem1: Memory)
    requires Writing(m, s, gone, mem1) && FreeAfter(s, p, next, hi) && Remains(s, m.sizes, p, hi)
    requires OnlySplit(mem1, m.mem, p, p, hi)
    ensures Rewritten(m, s, p, hi, s.chunks[p].size)
  {
    hide Writing, Sound, Tiles, OnlySplit, Remains, Peek;
    HiStillBinned(s, m.sizes, p, hi);
    HiIsNotTop(s, hi);
    NowRewritten(m, s, p, p, hi, s.chunks[p].size, gone, mem1);
  }

  lemma HiIsNotTop(s: Snapshot, hi: int)
    requires Sound(s) && hi in s.chunks
    ensures hi != s.top
  {
    ChunkBelowTop(s.chunks, s.base, s.top, hi);
  }

  /** `set_inuse(m, p, newsize)` over the free chunk after `p`, which has left its bin. */
  method UseBlock(m: State, p: int, newsize: nat, ghost s: Snapshot, ghost next: int, ghost gone: set<int>)
    requires Opened(m, s, gone) && FreeAfter(s, p, next, p + newsize) && Remains(s, m.sizes, p, p + newsize)
    requires next != s.dv
    modifies m`mem, m`chunks
    ensures Resized(m, s, p, newsize)
  {
    hide *;
    ghost var mem1, hi := m.mem, p + newsize;
    UseStart(m, s, p, next, hi, gone);
    OneWrites(m.mem, p, newsize);
    SetInuse(m, p, newsize);
    UseWritten(m, s, p, next, hi, gone, mem1);
    m.chunks := Retile(s.chunks, p, hi, One(p, hi, s.chunks[p].pinuse), true);
    WholeDone(m, s, p, hi);
  }

  /** `set_inuse(m, p, newsize)` over the designated victim, which is used up. */
  method ExhaustVictim(m: State, p: int, newsize: nat, ghost s: Snapshot)
    requires Opened(m, s, {}) && FreeAfter(s, p, s.dv, p + newsize) && Remains(s, m.sizes, p, p + newsize)
    modifies m`mem, m`chunks, m`dv, m`dvsize
    ensures Resized(m, s, p, newsize) && m.dv == 0 && m.dvsize == 0
  {
    hide *;
    ghost var mem1, hi := m.mem, p + newsize;
    UseStart(m, s, p, s.dv, hi, {});
    OneWrites(m.mem, p, newsize);
    SetInuse(m, p, newsize);
    UseWritten(m, s, p, s.dv, hi, {}, mem1);
    m.dvsize := 0;
    m.dv := 0;
    m.chunks := Retile(s.chunks, p, hi, One(p, hi, s.chunks[p].pinuse), true);
    WholeDone(m, s, p, hi);
  }

  // ---- part of the designated victim ----

  /** The words of taking the front of the victim: `set_inuse`, the remainder's tags and
      `clear_pinuse`. */
  function VictimMem(mem: Memory, p: int, nb: int, dsize: int): Memory {
    var mem1 := SetInuseMem(mem, p, nb);
    var mem2 := mem1[Head(p + nb) := HeadWord(dsize, false, true)][PrevFoot(p + nb + dsize) := dsize];
    mem2[Head(p + nb + dsize) := ClearPInUse(Peek(mem2, Head(p + nb + dsize)))]
  }

  lemma VictimWrites(mem: Memory, p: int, nb: nat, dsize: nat)
    requires nb >= MIN_CHUNK_SIZE && dsize >= MIN_CHUNK_SIZE
    ensures var r, hi, mem2 := p + nb, p + nb + dsize, VictimMem(mem, p, nb, dsize);
            && Peek(mem2, Head(p)) == HeadWord(nb, true, PInUse(Peek(mem, Head(p))))
            && Peek(mem2, Head(r)) == HeadWord(dsize, false, true) && Peek(mem2, PrevFoot(hi)) == dsize
            && Peek(mem2, Head(hi)) == ClearPInUse(Peek(mem, Head(hi))) && OnlySplit(mem, mem2, p, r, hi)
  {
  }

  lemma PartDone(m: State, s: Snapshot, p: int, nb: nat, hi: int)
    requires Block(s, p, hi) && Rewritten(m, s, p, hi, s.chunks[p].size) && s.chunks[p].size <= nb
    requires nb % 16 == 0 && nb >= MIN_CHUNK_SIZE && p + nb + MIN_CHUNK_SIZE <= hi
    requires Peek(m.mem, Head(p)) == HeadWord(nb, true, s.chunks[p].pinuse)
    requires Peek(m.mem, Head(p + nb)) == HeadWord(hi - p - nb, false, true) && Peek(m.mem, PrevFoot(hi)) == hi - p - nb
    requires hi in s.chunks && s.chunks[hi].cinuse && Peek(m.mem, Head(hi)) == HeadWord(s.chunks[hi].size, true, false)
    requires m.chunks == Retile(s.chunks, p, hi, Two(p, nb, hi, s.chunks[p].pinuse, false), false)
    requires s.dvsize != 0 && p <= s.dv < hi && m.dv == p + nb && m.dvsize == hi - p - nb
    ensures Resized(m, s, p, nb)
  {
    hide Block, BinsOk, Within, Tiles, Flags, Tags, OnlyRegion, PayloadKept, Remains, Untouched, Retile, HeapOk,
      Placed, TopOk;
    BlockLive(s, p, hi);
    TwoHeap(m.mem, s, p, nb, hi, false);
    TwoLive(s, p, nb, hi, false);
    TwoVictim(s, m.sizes, p, nb, hi);
    BlockUntouched(s, m.mem, p, hi, s.chunks[p].size);
  }

  lemma PartWritten(m: State, s: Snapshot, p: int, nb: nat, hi: int, mem1: Memory)
    requires Writing(m, s, {}, mem1) && FreeAfter(s, p, s.dv, hi) && Remains(s, m.sizes, p, hi)
    requires s.chunks[p].size <= nb && nb % 16 == 0 && p + nb + MIN_CHUNK_SIZE <= hi
    requires OnlySplit(mem1, m.mem, p, p + nb, hi)
    ensures Rewritten(m, s, p, hi, s.chunks[p].size)
  {
    hide Writing, Sound, Tiles, OnlySplit, Remains, Peek;
    HiStillBinned(s, m.sizes, p, hi);
    HiIsNotTop(s, hi);
    NowRewritten(m, s, p, p + nb, hi, s.chunks[p].size, {}, mem1);
  }

  /** `clear_pinuse(n)`. */
  method ClearPinuse(m: State, n: int)
    requires m.Mapped(Head(n))
    modifies m`mem
    ensures m.mem == old(m.mem)[Head(n) := ClearPInUse(Peek(old(m.mem), Head(n)))]
  {
    m.Put(Head(n), ClearPInUse(m.At(Head(n))));
  }

  /** `p` grows to `nb` bytes at the designated victim's expense. */
  method CutVictim(m: State, p: int, nb: nat, dsize: nat, ghost s: Snapshot)
    requires Opened(m, s, {}) && FreeAfter(s, p, s.dv, p + nb + dsize) && Remains(s, m.sizes, p, p + nb + dsize)
    requires s.chunks[p].size <= nb && nb % 16 == 0 && nb >= MIN_CHUNK_SIZE && dsize >= MIN_CHUNK_SIZE
    modifies m`mem, m`chunks, m`dv, m`dvsize
    ensures Resized(m, s, p, nb) && m.dv == p + nb && m.dvsize == dsize
  {
    hide *;
    ghost var mem1, hi := m.mem, p + nb + dsize;
    UseStart(m, s, p, s.dv, hi, {});
    PartMapped(m, s, p, nb, dsize);
    VictimWrites(m.mem, p, nb, dsize);
    var r := p + nb;
    var n := r + dsize;
    SetInuse(m, p, nb);
    SetSizeAndPinuseOfFreeChunk(m, r, dsize);
    ClearPinuse(m, n);
    VictimMemIs(mem1, m.mem, p, nb, dsize);
    m.dvsize := dsize;
    m.dv := r;
    PartWritten(m, s, p, nb, hi, mem1);
    m.chunks := Retile(s.chunks, p, hi, Two(p, nb, hi, s.chunks[p].pinuse, false), false);
    PartDone(m, s, p, nb, hi);
  }

  lemma VictimMemIs(mem: Memory, mem': Memory, p: int, nb: int, dsize: int)
    requires var mem2 := SetInuseMem(mem, p, nb)[Head(p + nb) := HeadWord(dsize, false, true)]
          [PrevFoot(p + nb + dsize) := dsize];
             mem' == mem2[Head(p + nb + dsize) := ClearPInUse(Peek(mem2, Head(p + nb + dsize)))]
    ensures mem' == VictimMem(mem, p, nb, dsize)
  {
    hide SetInuseMem, Peek, ClearPInUse;
  }

  lemma PartMapped(m: State, s: Snapshot, p: int, nb: nat, dsize: nat)
    requires Opened(m, s, {}) && FreeAfter(s, p, s.dv, p + nb + dsize)
    requires nb % 16 == 0 && nb >= MIN_CHUNK_SIZE && dsize >= MIN_CHUNK_SIZE
    ensures m.Mapped(Head(p + nb)) && p + nb + dsize >= p + nb >= p
  {
    hide Opened, Sound, Tiles;
    InsideMapped(m, s, p, p + nb, p + nb + dsize, {});
  }

  // ---- into top ----

  /** `p`, the last chunk before `top`, stretched to `nb` bytes. */
  ghost function Stretched(chunks: Chunks, p: int, nb: nat): Chunks
    requires p in chunks
  {
    chunks[p := chunks[p].(size := nb)]
  }

  lemma StretchTiles(chunks: Chunks, base: int, top: int, p: int, nb: nat)
    requires Tiles(chunks, base, top) && p in chunks && End(chunks, p) == top && nb % 16 == 0 && chunks[p].size <= nb
    ensures Tiles(Stretched(chunks, p, nb), base, p + nb)
  {
    hide Tiles, ChunkFits, Apart2;
    var c' := Stretched(chunks, p, nb);
    TilesEnds(chunks, base, top);
    forall x | x in c'
      ensures ChunkFits(c', base, p + nb, x)
    {
      StretchFits(chunks, base, top, p, nb, x);
    }
    forall x, y | x in c' && y in c'
      ensures Apart2(c', x, y)
    {
      StretchApart(chunks, base, top, p, nb, x, y);
    }
    StretchFits(chunks, base, top, p, nb, p);
    StretchEnds(c', base, p + nb, p);
  }

  lemma TilesEnds(chunks: Chunks, base: int, top: int)
    requires Tiles(chunks, base, top)
    ensures base % 16 == 0 && top % 16 == 0 && base <= top && (base < top ==> base in chunks)
  {
  }

  lemma StretchEnds(c': Chunks, base: int, top': int, p: int)
    requires forall x {:trigger ChunkFits(c', base, top', x)} :: x in c' ==> ChunkFits(c', base, top', x)
    requires forall x, y {:trigger Apart2(c', x, y)} :: x in c' && y in c' ==> Apart2(c', x, y)
    requires base % 16 == 0 && p in c' && End(c', p) == top' && base in c'
    ensures Tiles(c', base, top')
  {
    assert ChunkFits(c', base, top', p);
  }

  lemma StretchFits(chunks: Chunks, base: int, top: int, p: int, nb: nat, x: int)
    requires Tiles(chunks, base, top) && p in chunks && End(chunks, p) == top && nb % 16 == 0 && chunks[p].size <= nb
    requires x in Stretched(chunks, p, nb)
    ensures ChunkFits(Stretched(chunks, p, nb), base, p + nb, x) && base in chunks
  {
    assert ChunkFits(chunks, base, top, p) && ChunkFits(chunks, base, top, x) && Apart2(chunks, x, p);
  }

  lemma StretchApart(chunks: Chunks, base: int, top: int, p: int, nb: nat, x: int, y: int)
    requires Tiles(chunks, base, top) && p in chunks && End(chunks, p) == top && chunks[p].size <= nb
    requires x in Stretched(chunks, p, nb) && y in Stretched(chunks, p, nb)
    ensures Apart2(Stretched(chunks, p, nb), x, y)
  {
    assert Apart2(chunks, x, y) && ChunkFits(chunks, base, top, x) && ChunkFits(chunks, base, top, y);
  }

  lemma StretchFlags(chunks: Chunks, base: int, top: int, p: int, nb: nat)
    requires Tiles(chunks, base, top) && Flags(chunks, base, top) && p in chunks && End(chunks, p) == top
    requires chunks[p].cinuse && chunks[p].size <= nb
    ensures Flags(Stretched(chunks, p, nb), base, p + nb)
  {
    var c' := Stretched(chunks, p, nb);
    forall x | x in c'
      ensures x < top
    {
      assert ChunkFits(chunks, base, top, x);
    }
    forall x | x in c'
      ensures FlagsAt(c', p + nb, x)
    {
      assert FlagsAt(chunks, top, x) && ChunkFits(chunks, base, top, x);
    }
  }

  /** Only the head of `p` and words above the old `top`'s head differ. */
  ghost predicate OnlyStretch(mem: Memory, mem': Memory, p: int, t: int) {
    forall a {:trigger Peek(mem', a)} :: Peek(mem', a) != Peek(mem, a) ==> a == Head(p) || a == Head(t)
  }

  lemma StretchKept(mem: Memory, mem': Memory, p: int, t: int, a: int)
    requires OnlyStretch(mem, mem', p, t) && a != Head(p) && a != Head(t)
    ensures Peek(mem', a) == Peek(mem, a)
  {
  }

  lemma StretchTags(mem: Memory, mem': Memory, chunks: Chunks, base: int, top: int, p: int, nb: nat)
    requires Tiles(chunks, base, top) && Tags(mem, chunks) && p in chunks && End(chunks, p) == top && chunks[p].cinuse
    requires chunks[p].size <= nb && OnlyStretch(mem, mem', p, p + nb)
    requires Peek(mem', Head(p)) == HeadWord(nb, true, chunks[p].pinuse)
    ensures Tags(mem', Stretched(chunks, p, nb))
  {
    hide OnlyStretch;
    var c' := Stretched(chunks, p, nb);
    assert ChunkFits(chunks, base, top, p);
    forall x | x in c'
      ensures TagsAt(mem', c', x)
    {
      assert TagsAt(mem, chunks, x) && ChunkFits(chunks, base, top, x) && Apart2(chunks, x, p);
      StretchKept(mem, mem', p, p + nb, PrevFoot(x));
      if x != p {
        StretchKept(mem, mem', p, p + nb, Head(x));
        StretchKept(mem, mem', p, p + nb, PrevFoot(x + chunks[x].size));
      }
    }
  }

  lemma StretchHeap(mem: Memory, mem': Memory, chunks: Chunks, base: int, top: int, p: int, nb: nat)
    requires HeapOk(mem, chunks, base, top) && p in chunks && End(chunks, p) == top && chunks[p].cinuse
    requires chunks[p].size <= nb && nb % 16 == 0 && OnlyStretch(mem, mem', p, p + nb)
    requires Peek(mem', Head(p)) == HeadWord(nb, true, chunks[p].pinuse)
    ensures HeapOk(mem', Stretched(chunks, p, nb), base, p + nb)
  {
    hide Tiles, Flags, Tags, OnlyStretch;
    StretchTiles(chunks, base, top, p, nb);
    StretchFlags(chunks, base, top, p, nb);
    StretchTags(mem, mem', chunks, base, top, p, nb);
  }

  lemma StretchUntouched(mem: Memory, mem': Memory, chunks: Chunks, base: int, top: int, p: int, nb: nat)
    requires Tiles(chunks, base, top) && p in chunks && End(chunks, p) == top && chunks[p].size <= nb
    requires OnlyStretch(mem, mem', p, p + nb)
    ensures Untouched(mem, mem', Live(chunks))
  {
    hide OnlyStretch;
    var live := Live(chunks);
    forall x, a | x in live && PayloadWord(x, live[x], a)
      ensures Peek(mem', a) == Peek(mem, a)
    {
      assert Apart2(chunks, x, p) && ChunkFits(chunks, base, top, x);
      StretchKept(mem, mem', p, p + nb, a);
    }
  }

  lemma StretchBins(m: State, s: Snapshot, p: int, nb: nat)
    requires Sound(s) && BinsOk(s.mem, m.smallmap, m.treemap, m.sizes, m.small, m.tree) && m.sizes == s.sizes
    requires p in s.chunks && s.chunks[p].cinuse && End(s.chunks, p) == s.top && s.chunks[p].size <= nb
    requires OnlyStretch(s.mem, m.mem, p, p + nb)
    ensures BinsOk(m.mem, m.smallmap, m.treemap, m.sizes, m.small, m.tree)
  {
    hide BinsOk, Tiles, Flags, Tags, OnlyStretch, LinkWord;
    OwnBlock(s, p);
    PlacedFree(s.chunks, s.sizes, s.dv, s.dvsize);
    RemainsElsewhere(s, s.sizes, p, s.top);
    forall a | Peek(m.mem, a) != Peek(s.mem, a)
      ensures !LinkWord(s.sizes, a) && !IsHead(s.sizes, a)
    {
      if a != Head(p) && a != Head(p + nb) {
        StretchKept(s.mem, m.mem, p, p + nb, a);
      }
      if a == Head(p) {
        BlockNoLink(s, s.sizes, p, s.top, a);
      } else {
        FencepostNoLink(s.chunks, s.sizes, s.base, s.top, a);
      }
      StretchNoHead(s, p, nb, a);
    }
    BinsKept(s.mem, m.mem, m.smallmap, m.treemap, m.sizes, m.small, m.tree);
  }

  lemma StretchNoHead(s: Snapshot, p: int, nb: nat, a: int)
    requires Sound(s) && p in s.chunks && s.chunks[p].cinuse && End(s.chunks, p) == s.top && s.chunks[p].size <= nb
    requires a == Head(p) || a == Head(p + nb)
    ensures !IsHead(s.sizes, a)
  {
    hide Flags, Tags;
    forall x | x in s.sizes
      ensures a != Head(x)
    {
      ChunkBelowTop(s.chunks, s.base, s.top, x);
    }
  }

  lemma StretchWords(mem: Memory, base: int, size: int, top: int, topsize: int, p: int, old_: nat, nb: nat)
    requires TopOk(mem, base, size, top, topsize) && p + old_ == top && old_ <= nb < old_ + topsize
    requires nb % 16 == 0 && old_ % 16 == 0 && nb >= MIN_CHUNK_SIZE
    ensures var t := p + nb;
            var mem' := SetInuseMem(mem, p, nb)[Head(t) := HeadWord(old_ + topsize - nb, false, true)];
            && OnlyStretch(mem, mem', p, t) && TopOk(mem', base, size, t, old_ + topsize - nb)
            && Peek(mem', Head(p)) == HeadWord(nb, true, PInUse(Peek(mem, Head(p))))
  {
  }

  /** Chunk `p` before `top` grows to `nb` bytes at its expense. */
  method IntoTop(m: State, p: int, nb: nat, oldsize: nat)
    requires Valid(m) && p in m.chunks && m.chunks[p].cinuse && End(m.chunks, p) == m.top && m.chunks[p].size == oldsize
    requires oldsize <= nb < oldsize + m.topsize && nb % 16 == 0 && nb >= MIN_CHUNK_SIZE
    modifies m`mem, m`top, m`topsize, m`chunks
    ensures Resized(m, old(Snap(m)), p, nb) && m.top == p + nb && m.topsize == oldsize + old(m.topsize) - nb
  {
    hide *;
    ghost var s := Snap(m);
    TopStart(m, p, nb);
    var newsize := oldsize + m.topsize;
    var newtopsize := newsize - nb;
    var newtop := p + nb;
    SetInuse(m, p, nb);
    SetTopHead(m, newtop, newtopsize);
    m.top := newtop;
    m.topsize := newtopsize;
    m.chunks := Stretched(s.chunks, p, nb);
    StretchDone(m, s, p, nb);
  }

  /** `newtop->head = newtopsize | PINUSE_BIT`. */
  method SetTopHead(m: State, p: int, size: int)
    requires m.Mapped(Head(p))
    modifies m`mem
    ensures m.mem == old(m.mem)[Head(p) := HeadWord(size, false, true)]
  {
    m.Put(Head(p), HeadWord(size, false, true));
  }

  lemma TopStart(m: State, p: int, nb: nat)
    requires Valid(m) && p in m.chunks && m.chunks[p].cinuse && End(m.chunks, p) == m.top
    requires m.chunks[p].size <= nb < m.chunks[p].size + m.topsize && nb % 16 == 0
    ensures var s := Snap(m);
            && Sound(s) && BinsOk(s.mem, m.smallmap, m.treemap, m.sizes, m.small, m.tree)
            && s.mem == m.mem && m.chunks == s.chunks && s.top == m.top && s.topsize == m.topsize && m.sizes == s.sizes
            && m.dv == s.dv && m.dvsize == s.dvsize && m.segBase == s.base && m.segSize == s.size
            && Within(m.sizes, m.segBase, m.segBase + m.segSize) && m.footprint == m.segSize <= m.maxFootprint
            && m.Mapped(Head(p)) && m.Mapped(Head(p + nb)) && PInUse(Peek(m.mem, Head(p))) == m.chunks[p].pinuse
            && End(s.chunks, p) == p + s.chunks[p].size
  {
    hide Tiles, Flags, Tags, BinsOk;
    HeapStart(m);
    HeadRead(Snap(m), m, {}, p);
    TopEnd(m, p, nb);
  }

  lemma TopEnd(m: State, p: int, nb: nat)
    requires Valid(m) && p in m.chunks && End(m.chunks, p) == m.top
    requires m.chunks[p].size <= nb < m.chunks[p].size + m.topsize && nb % 16 == 0
    ensures m.Mapped(Head(p + nb))
  {
    hide Flags, Tags, State.Bins, Placed;
    BoundaryAligned(m.chunks, m.segBase, m.top, p);
    SumOf16(p, nb);
    AlignedMapped(m, p + nb);
  }

  lemma StretchDone(m: State, s: Snapshot, p: int, nb: nat)
    requires Sound(s) && BinsOk(s.mem, m.smallmap, m.treemap, m.sizes, m.small, m.tree)
    requires p in s.chunks && s.chunks[p].cinuse && End(s.chunks, p) == s.top
    requires PInUse(Peek(s.mem, Head(p))) == s.chunks[p].pinuse
    requires s.chunks[p].size <= nb < s.chunks[p].size + s.topsize && nb % 16 == 0 && nb >= MIN_CHUNK_SIZE
    requires m.mem == SetInuseMem(s.mem, p, nb)
          [Head(p + nb) := HeadWord(s.chunks[p].size + s.topsize - nb, false, true)]
    requires m.top == p + nb && m.topsize == s.chunks[p].size + s.topsize - nb && m.chunks == Stretched(s.chunks, p, nb)
    requires m.sizes == s.sizes && m.dv == s.dv && m.dvsize == s.dvsize && m.segBase == s.base && m.segSize == s.size
    requires Within(m.sizes, m.segBase, m.segBase + m.segSize) && m.footprint == m.segSize <= m.maxFootprint
    ensures Resized(m, s, p, nb)
  {
    hide Tiles, Flags, Tags, BinsOk, Within, OnlyStretch, Untouched, SetInuseMem;
    OwnBlock(s, p);
    StretchWords(s.mem, s.base, s.size, s.top, s.topsize, p, s.chunks[p].size, nb);
    StretchHeap(s.mem, m.mem, s.chunks, s.base, s.top, p, nb);
    StretchUntouched(s.mem, m.mem, s.chunks, s.base, s.top, p, nb);
    StretchBins(m, s, p, nb);
    StretchLive(s.chunks, p, nb);
  }

  lemma StretchLive(chunks: Chunks, p: int, nb: nat)
    requires p in chunks && chunks[p].cinuse && chunks[p].size <= nb
    ensures p in Live(chunks) && Live(Stretched(chunks, p, nb)) == Live(chunks)[p := nb]
    ensures Live(chunks)[p := if nb < Live(chunks)[p] then nb else Live(chunks)[p]] == Live(chunks)
  {
  }

  // ---- try_realloc_chunk ----

  /** A chunk in use can be resized where it is. */
  ghost predicate CanResize(s: Snapshot, p: int, nb: int)
    requires p in s.chunks
  {
    var oldsize, next := s.chunks[p].size, End(s.chunks, p);
    || nb <= oldsize
    || (next == s.top && nb < oldsize + s.topsize)
    || (next in s.chunks && !s.chunks[next].cinuse && nb <= oldsize + s.chunks[next].size)
  }

  /** The free space after chunk `p` has been resized in place to `nb` bytes: what is left over
      at the end is given back; `top`, the designated victim or a free chunk gives what is
      needed. */
  ghost function AfterResize(s: Snapshot, p: int, nb: nat): Shelf
    requires p in s.chunks
  {
    var oldsize, next, sh := s.chunks[p].size, End(s.chunks, p), ShelfOf(s);
    if nb <= oldsize then
      if oldsize - nb >= MIN_CHUNK_SIZE then Give(sh, s.chunks, p + nb, next) else sh
    else if next == s.top then
      sh.(top := p + nb, topsize := oldsize + s.topsize - nb)
    else if next == s.dv then
      var r := oldsize + s.dvsize - nb;
      if r >= MIN_CHUNK_SIZE then sh.(dv := p + nb, dvsize := r) else sh.(dv := 0, dvsize := 0)
    else if next in s.chunks then
      var r, taken := oldsize + s.chunks[next].size - nb, sh.(trace := s.trace + [Remove(next)]);
      if r >= MIN_CHUNK_SIZE then Give(taken, s.chunks, p + nb, End(s.chunks, next)) else taken
    else sh
  }

  /** Cutting off and giving back the end of a block. */
  method ShrinkBlock(m: State, p: int, nb: nat, rsize: nat, ghost s: Snapshot, ghost gone: set<int>)
    requires Opened(m, s, gone) && Block(s, p, p + nb + rsize) && Remains(s, m.sizes, p, p + nb + rsize)
    requires nb % 16 == 0 && nb >= MIN_CHUNK_SIZE && rsize >= MIN_CHUNK_SIZE
    requires !(s.dvsize != 0 && p <= s.dv < p + nb + rsize)
    modifies m
    ensures old(m.trace) <= m.trace && (old(m.Chronicled()) ==> m.Chronicled())
    ensures Resized(m, s, p, nb)
    ensures ShelfOf(Snap(m)) == Give(old(ShelfOf(Snap(m))), s.chunks, p + nb, p + nb + rsize)
  {
    hide *;
    ShelfIs(m);
    SplitInUse(m, p, nb, rsize, s, gone);
    ghost var s1 := Snap(m);
    CutFields(m, s, p, nb, rsize);
    ShelfIs(m);
    CutGives(s1, s.chunks, p + nb, rsize);
    DisposeChunk(m, p + nb, rsize);
    CutDisposed(m, s, s1, p, nb, rsize);
  }

  /** The end that has been cut off is given back as such. */
  lemma CutGives(s1: Snapshot, chunks: Chunks, r: int, rsize: nat)
    requires r in s1.chunks && s1.chunks[r].pinuse && s1.chunks[r].size == rsize
    requires SameAt(s1.chunks, chunks, r + rsize)
    ensures AfterFree(s1, r) == Give(ShelfOf(s1), chunks, r, r + rsize)
  {
  }

  lemma CutFields(m: State, s: Snapshot, p: int, nb: nat, rsize: nat)
    requires CutInUse(m, s, p, nb, rsize)
    ensures Valid(m) && p + nb in m.chunks && m.chunks[p + nb].cinuse && m.chunks[p + nb].size == rsize
    ensures p in Live(s.chunks) && p + nb !in Live(s.chunks) && p != p + nb
    ensures var s1 := Snap(m);
            && Live(s1.chunks) == Live(s.chunks)[p := nb][p + nb := rsize] && s1.base == s.base && s1.size == s.size
            && p + nb in s1.chunks && s1.chunks[p + nb].pinuse && s1.chunks[p + nb].size == rsize
            && SameAt(s1.chunks, s.chunks, p + nb + rsize)
            && Untouched(s.mem, s1.mem, Live(s.chunks)[p := if nb < Live(s.chunks)[p] then nb else Live(s.chunks)[p]])
  {
    hide Valid, Untouched, Live;
  }

  lemma CutDisposed(m: State, s: Snapshot, s1: Snapshot, p: int, nb: nat, rsize: nat)
    requires Freed(m, s1, p + nb) && p in Live(s.chunks) && p + nb !in Live(s.chunks) && p != p + nb
    requires Live(s1.chunks) == Live(s.chunks)[p := nb][p + nb := rsize] && s1.base == s.base && s1.size == s.size
    requires Untouched(s.mem, s1.mem, Live(s.chunks)[p := if nb < Live(s.chunks)[p] then nb else Live(s.chunks)[p]])
    ensures Resized(m, s, p, nb)
  {
    hide Valid, Untouched, Live;
    var live := Live(s.chunks);
    assert live[p := nb][p + nb := rsize] - {p + nb} == live[p := nb];
    UntouchedTwice(s.mem, s1.mem, m.mem, live[p := if nb < live[p] then nb else live[p]], live[p := nb]);
  }

  /** Payloads untouched by one change and then, at least as far, by another. */
  lemma UntouchedTwice(m0: Memory, m1: Memory, m2: Memory, live: map<int, nat>, more: map<int, nat>)
    requires Untouched(m0, m1, live) && Untouched(m1, m2, more)
    requires forall x :: x in live ==> x in more && live[x] <= more[x]
    ensures Untouched(m0, m2, live)
  {
    forall x, a | x in live && PayloadWord(x, live[x], a)
      ensures Peek(m2, a) == Peek(m0, a)
    {
      assert PayloadWord(x, more[x], a);
    }
  }

  lemma SameSize(m: State, p: int)
    requires Valid(m) && p in m.chunks && m.chunks[p].cinuse
    ensures Resized(m, Snap(m), p, m.chunks[p].size)
  {
    hide State.Bins, HeapOk, Placed, TopOk;
    assert Live(m.chunks)[p := m.chunks[p].size] == Live(m.chunks);
  }

  /** `p` has been resized to at least `nb` bytes, wasting less than a chunk. */
  ghost predicate Fitted(m: State, s: Snapshot, p: int, nb: int)
    reads m
  {
    p in Live(m.chunks) && nb <= Live(m.chunks)[p] < nb + MIN_CHUNK_SIZE && Resized(m, s, p, Live(m.chunks)[p])
  }

  lemma NowFitted(m: State, s: Snapshot, p: int, nb: int, n: nat)
    requires Resized(m, s, p, n) && nb <= n < nb + MIN_CHUNK_SIZE
    ensures Fitted(m, s, p, nb)
  {
    hide Valid, Untouched, Live;
  }

  lemma ExactlyFits(nb: nat)
    ensures nb < nb + MIN_CHUNK_SIZE
  {
  }

  /** The chunk is already big enough. */
  method ShrinkInPlace(m: State, p: int, nb: nat, oldsize: nat)
    requires Valid(m) && p in m.chunks && m.chunks[p].cinuse && m.chunks[p].size == oldsize
    requires nb % 16 == 0 && MIN_CHUNK_SIZE <= nb <= oldsize
    modifies m
    ensures old(m.trace) <= m.trace && (old(m.Chronicled()) ==> m.Chronicled())
    ensures Fitted(m, old(Snap(m)), p, nb)
    ensures ShelfOf(Snap(m)) == AfterResize(old(Snap(m)), p, nb)
  {
    hide *;
    ghost var s := Snap(m);
    Start(m, p);
    OwnBlock(s, p);
    EndIs(s.chunks, p);
    ShrinkGives(s, p, nb);
    ExactlyFits(nb);
    Unopened(m, s);
    var rsize := oldsize - nb;
    if rsize >= MIN_CHUNK_SIZE {
      ShrinkBlock(m, p, nb, rsize, s, {});
      NowFitted(m, s, p, nb, nb);
    } else {
      SameSize(m, p);
      NowFitted(m, s, p, nb, oldsize);
    }
  }

  /** The cases of `AfterResize`. */
  lemma ShrinkGives(s: Snapshot, p: int, nb: nat)
    requires p in s.chunks && nb <= s.chunks[p].size
    ensures AfterResize(s, p, nb)
         == if s.chunks[p].size - nb >= MIN_CHUNK_SIZE then Give(ShelfOf(s), s.chunks, p + nb, End(s.chunks, p))
            else ShelfOf(s)
  {
  }

  lemma TopGives(s: Snapshot, p: int, nb: nat)
    requires p in s.chunks && s.chunks[p].size < nb && End(s.chunks, p) == s.top
    ensures AfterResize(s, p, nb) == Shelf(s.dv, s.dvsize, p + nb, s.chunks[p].size + s.topsize - nb, s.trace, s.size,
                                           s.maxFootprint)
  {
  }

  lemma VictimGives(s: Snapshot, p: int, nb: nat)
    requires p in s.chunks && s.chunks[p].size < nb && End(s.chunks, p) == s.dv && s.dv != s.top
    ensures var r := s.chunks[p].size + s.dvsize - nb;
            AfterResize(s, p, nb)
            == Shelf(if r >= MIN_CHUNK_SIZE then p + nb else 0, if r >= MIN_CHUNK_SIZE then r else 0, s.top, s.topsize,
                     s.trace, s.size, s.maxFootprint)
  {
  }

  lemma FreeGives(s: Snapshot, p: int, next: int, nb: nat)
    requires p in s.chunks && s.chunks[p].size < nb && End(s.chunks, p) == next && next != s.dv && next != s.top
    requires next in s.chunks
    ensures var r := s.chunks[p].size + s.chunks[next].size - nb;
            var taken := Shelf(s.dv, s.dvsize, s.top, s.topsize, s.trace + [Remove(next)], s.size, s.maxFootprint);
            AfterResize(s, p, nb)
            == if r >= MIN_CHUNK_SIZE then Give(taken, s.chunks, p + nb, next + s.chunks[next].size) else taken
  {
  }

  lemma EndIs(chunks: Chunks, p: int)
    requires p in chunks
    ensures End(chunks, p) == p + chunks[p].size
  {
  }

  lemma Unopened(m: State, s: Snapshot)
    requires Opened(m, s, {})
    ensures m.sizes == s.sizes && m.dv == s.dv && m.dvsize == s.dvsize && m.top == s.top && m.topsize == s.topsize
  {
    hide Sound, BinsOk, Within, OnlyLinks;
    assert s.sizes - {} == s.sizes;
  }

  /** What is known of a free chunk after `p`. */
  lemma AfterReads(m: State, s: Snapshot, p: int)
    requires Opened(m, s, {}) && p in s.chunks && s.chunks[p].cinuse
    requires End(s.chunks, p) in s.chunks && !s.chunks[End(s.chunks, p)].cinuse
    ensures var next := p + s.chunks[p].size;
            && next in s.chunks && FreeAfter(s, p, next, next + s.chunks[next].size)
            && m.Mapped(Head(next)) && ChunkSize(m.At(Head(next))) == s.chunks[next].size
            && s.chunks[next].size % 16 == 0
            && (next == s.dv ==> s.chunks[next].size == s.dvsize)
            && (next != s.dv ==> next in s.sizes && s.sizes[next] == s.chunks[next].size)
  {
    hide BinsOk, Within, OnlyLinks, Sound, Block;
    NextBlock(s, p);
    HeadRead(s, m, {}, End(s.chunks, p));
    ChunkAligned(s, End(s.chunks, p));
  }

  lemma ChunkAligned(s: Snapshot, p: int)
    requires Sound(s) && p in s.chunks
    ensures s.chunks[p].size % 16 == 0
  {
    assert ChunkFits(s.chunks, s.base, s.top, p);
  }

  /** The chunk after is the designated victim. */
  method IntoVictim(m: State, p: int, nb: nat, oldsize: nat) returns (newp: int)
    requires Valid(m) && p in m.chunks && m.chunks[p].cinuse && m.chunks[p].size == oldsize
    requires nb % 16 == 0 && nb >= MIN_CHUNK_SIZE && oldsize < nb
    requires p + oldsize == m.dv && m.dv in m.chunks && !m.chunks[m.dv].cinuse
    modifies m
    ensures old(m.trace) <= m.trace && (old(m.Chronicled()) ==> m.Chronicled())
    ensures newp == 0 <==> oldsize + old(m.dvsize) < nb
    ensures newp == 0 ==> unchanged(m)
    ensures newp != 0 ==> newp == p && Fitted(m, old(Snap(m)), p, nb)
    ensures newp != 0 ==> ShelfOf(Snap(m)) == AfterResize(old(Snap(m)), p, nb)
  {
    hide *;
    ghost var s := Snap(m);
    Start(m, p);
    EndIs(s.chunks, p);
    AfterReads(m, s, p);
    Unopened(m, s);
    UsedAddress(s, p);
    ShelfIs(m);
    NotTop(m, s.dv);
    VictimGives(s, p, nb);
    NextRemains(s, p, s.dv, s.dv + s.chunks[s.dv].size);
    newp := 0;
    var dvs := m.dvsize;
    if oldsize + dvs >= nb {
      var dsize := oldsize + dvs - nb;
      ExactlyFits(nb);
      if dsize >= MIN_CHUNK_SIZE {
        CutVictim(m, p, nb, dsize, s);
        NowFitted(m, s, p, nb, nb);
      } else {
        var newsize := oldsize + dvs;
        ExhaustVictim(m, p, newsize, s);
        NowFitted(m, s, p, nb, newsize);
      }
      ShelfIs(m);
      newp := p;
    }
  }

  lemma UsedAddress(s: Snapshot, p: int)
    requires Sound(s) && p in s.chunks
    ensures p > 0
  {
    GmBelow(s, p);
  }

  /** The chunk after is free and binned. */
  method IntoFree(m: State, p: int, nb: nat, oldsize: nat) returns (newp: int)
    requires Valid(m) && p in m.chunks && m.chunks[p].cinuse && m.chunks[p].size == oldsize
    requires nb % 16 == 0 && nb >= MIN_CHUNK_SIZE && oldsize < nb
    requires p + oldsize != m.dv && p + oldsize in m.chunks && !m.chunks[p + oldsize].cinuse
    modifies m
    ensures old(m.trace) <= m.trace && (old(m.Chronicled()) ==> m.Chronicled())
    ensures newp == 0 <==> oldsize + old(m.chunks)[p + oldsize].size < nb
    ensures newp == 0 ==> unchanged(m)
    ensures newp != 0 ==> newp == p && Fitted(m, old(Snap(m)), p, nb)
    ensures newp != 0 ==> ShelfOf(Snap(m)) == AfterResize(old(Snap(m)), p, nb)
  {
    hide *;
    ghost var s := Snap(m);
    Start(m, p);
    EndIs(s.chunks, p);
    AfterReads(m, s, p);
    Unopened(m, s);
    UsedAddress(s, p);
    ShelfIs(m);
    var next := p + oldsize;
    NotTop(m, next);
    FreeGives(s, p, next, nb);
    NextRemains(s, p, next, next + s.chunks[next].size);
    newp := 0;
    var nextsize := ChunkSize(m.At(Head(next)));
    if oldsize + nextsize >= nb {
      var rsize := oldsize + nextsize - nb;
      ExactlyFits(nb);
      TakeFromBin(m, next, nextsize, s, {});
      assert {} + {next} == {next};
      NowWithout(m, s, {next});
      if rsize < MIN_CHUNK_SIZE {
        var newsize := oldsize + nextsize;
        UseBlock(m, p, newsize, s, next, {next});
        NowFitted(m, s, p, nb, newsize);
        ShelfIs(m);
      } else {
        BlockAfter(s, p, next, next + nextsize);
        ShelfIs(m);
        ShrinkBlock(m, p, nb, rsize, s, {next});
        NowFitted(m, s, p, nb, nb);
      }
      newp := p;
    }
  }

  lemma NotTop(m: State, n: int)
    requires Valid(m) && n in m.chunks
    ensures n != m.top
  {
    hide Flags, Tags, State.Bins, Placed;
    ChunkBelowTop(m.chunks, m.segBase, m.top, n);
  }

  lemma NowWithout(m: State, s: Snapshot, gone: set<int>)
    requires Opened(m, s, gone)
    ensures m.sizes == s.sizes - gone && m.dv == s.dv
  {
    hide Sound, BinsOk, Within, OnlyLinks;
  }

  lemma BlockAfter(s: Snapshot, p: int, next: int, hi: int)
    requires FreeAfter(s, p, next, hi)
    ensures Block(s, p, hi)
  {
    hide Block;
  }

  /** Resizes chunk `p` in place if it can: shrinking it, or growing it into `top`, the
      designated victim or the free chunk after it. Null, and nothing changed, otherwise. */
  method TryReallocChunk(m: State, p: int, nb: nat) returns (newp: int)
    requires Valid(m) && p in m.chunks && m.chunks[p].cinuse && nb % 16 == 0 && MIN_CHUNK_SIZE <= nb < WORD_LIMIT
    modifies m
    ensures old(m.trace) <= m.trace && (old(m.Chronicled()) ==> m.Chronicled())
    ensures newp == 0 <==> !CanResize(old(Snap(m)), p, nb)
    ensures newp == 0 ==> unchanged(m)
    ensures newp != 0 ==> newp == p && Fitted(m, old(Snap(m)), p, nb)
    ensures newp != 0 ==> ShelfOf(Snap(m)) == AfterResize(old(Snap(m)), p, nb)
  {
    hide *;
    newp := 0;
    ghost var s := Snap(m);
    Start(m, p);
    NextReads(m, s, p, {});
    Unopened(m, s);
    UsedAddress(s, p);
    UsedNext(s, p);
    ResizeCases(s, p, nb);
    ExactlyFits(nb);
    var oldsize := ChunkSize(m.At(Head(p)));
    var next := p + oldsize;
    if m.OkAddress(p) && IsInUse(m.At(Head(p))) && p < next && PInUse(m.At(Head(next))) {
      if oldsize >= nb {
        ShrinkInPlace(m, p, nb, oldsize);
        newp := p;
      } else if next == m.top {
        if oldsize + m.topsize > nb {
          ShelfIs(m);
          TopGives(s, p, nb);
          IntoTop(m, p, nb, oldsize);
          NowFitted(m, s, p, nb, nb);
          ShelfIs(m);
          newp := p;
        }
      } else if next == m.dv {
        newp := IntoVictim(m, p, nb, oldsize);
      } else if !CInUse(m.At(Head(next))) {
        newp := IntoFree(m, p, nb, oldsize);
      }
    } else {
      assert false;
    }
  }

  /** The victim is never `top` nor in use. */
  lemma UsedNext(s: Snapshot, p: int)
    requires Sound(s) && p in s.chunks
    ensures var next := p + s.chunks[p].size;
            && End(s.chunks, p) == next && (next == s.dv ==>
                 next in s.chunks && !s.chunks[next].cinuse && s.chunks[next].size == s.dvsize)
            && next > 0 && s.chunks[p].size >= 0
  {
    hide Flags, Tags;
    assert ChunkFits(s.chunks, s.base, s.top, p);
    DvIsChunk(s);
    GmBelow(s, p);
  }

  lemma ResizeCases(s: Snapshot, p: int, nb: int)
    requires Sound(s) && p in s.chunks
    ensures var oldsize, next := s.chunks[p].size, p + s.chunks[p].size;
            && (nb <= oldsize ==> CanResize(s, p, nb))
            && (oldsize < nb && next == s.top ==> (CanResize(s, p, nb) <==> nb < oldsize + s.topsize))
            && (oldsize < nb && next in s.chunks && !s.chunks[next].cinuse ==>
                 (CanResize(s, p, nb) <==> nb <= oldsize + s.chunks[next].size))
            && (oldsize < nb && next in s.chunks && s.chunks[next].cinuse ==> !CanResize(s, p, nb))
            && (next == s.top ==> next !in s.chunks)
  {
    hide Flags, Tags, Placed;
    TopIsNoChunk(s.chunks, s.base, s.top);
  }
}
