/** Where the bytes of a heap are: every byte of the segment is in use, free, in `top` or in
    the space kept at its end, none is lost or counted twice, and free space is coalesced as
    far as it can be. */
module Conservation {
  import opened Words
  import opened MallocState
  import opened Boundaries
  import opened Invariant
  import opened Freeing
  import opened Taking

  // ---- sums ----

  /** The sum of the sizes in `live`. */
  ghost function Sum(live: map<int, nat>): nat
    decreases |live|
  {
    if IsEmpty(live) then 0 else
      var x := Any(live);
      live[x] + Sum(live - {x})
  }

  ghost predicate IsEmpty(live: map<int, nat>) {
    forall x :: x !in live
  }

  ghost function Any(live: map<int, nat>): (x: int)
    requires !IsEmpty(live)
    ensures x in live
  {
    var x :| x in live;
    x
  }

  /** The sum can be taken from any element. */
  lemma {:induction false} SumWithout(live: map<int, nat>, x: int)
    requires x in live
    ensures Sum(live) == live[x] + Sum(live - {x})
    decreases |live|
  {
    var y := Any(live);
    if y != x {
      assert live - {y} - {x} == live - {x} - {y};
      SumWithout(live - {y}, x);
      SumWithout(live - {x}, y);
    }
  }

  lemma SumMore(live: map<int, nat>, x: int, n: nat)
    requires x !in live
    ensures Sum(live[x := n]) == Sum(live) + n
  {
    SumWithout(live[x := n], x);
    assert live[x := n] - {x} == live;
  }

  lemma {:induction false} SumUnion(a: map<int, nat>, b: map<int, nat>)
    requires a.Keys !! b.Keys
    ensures Sum(a + b) == Sum(a) + Sum(b)
    decreases |a|
  {
    hide Sum;
    if IsEmpty(a) {
      EmptyUnion(a, b);
    } else {
      var x := Any(a);
      assert x !in b;
      UnionWithout(a, b, x);
      SumWithout(a + b, x);
      SumWithout(a, x);
      SmallerMap(a, x);
      SumUnion(a - {x}, b);
    }
  }

  lemma EmptyUnion(a: map<int, nat>, b: map<int, nat>)
    requires IsEmpty(a)
    ensures a + b == b && Sum(a) == 0
  {
    forall x
      ensures x in (a + b).Keys <==> x in b.Keys
    {
      assert x !in a;
    }
    assert (a + b).Keys == b.Keys;
  }

  lemma SmallerMap(a: map<int, nat>, x: int)
    requires x in a
    ensures |a - {x}| < |a|
  {
    assert (a - {x}).Keys == a.Keys - {x};
  }

  lemma UnionWithout(a: map<int, nat>, b: map<int, nat>, x: int)
    requires x in a && x !in b
    ensures (a + b) - {x} == (a - {x}) + b && (a - {x}).Keys !! {x} && (a + b)[x] == a[x]
  {
  }

  // ---- tiles ----

  ghost function ChunkSizes(chunks: Chunks): map<int, nat> {
    map x | x in chunks :: chunks[x].size
  }

  /** Chunks that tile a range have together its size. */
  lemma {:induction false} TilesSum(chunks: Chunks, lo: int, hi: int)
    requires Tiles(chunks, lo, hi)
    ensures Sum(ChunkSizes(chunks)) == hi - lo
    decreases hi - lo
  {
    if lo == hi {
      NoTiles(chunks, lo);
    } else {
      FirstTile(chunks, lo, hi);
      var n, rest := End(chunks, lo), chunks - {lo};
      TilesSum(rest, n, hi);
      SumWithout(ChunkSizes(chunks), lo);
      assert ChunkSizes(chunks) - {lo} == ChunkSizes(rest);
    }
  }

  lemma NoTiles(chunks: Chunks, lo: int)
    requires Tiles(chunks, lo, lo)
    ensures ChunkSizes(chunks) == map[]
  {
    forall p
      ensures p !in chunks
    {
      if p in chunks {
        TileInside(chunks, lo, lo, p);
      }
    }
  }

  lemma TileInside(chunks: Chunks, lo: int, hi: int, p: int)
    requires Tiles(chunks, lo, hi) && p in chunks
    ensures lo <= p < hi
  {
    assert ChunkFits(chunks, lo, hi, p);
  }

  /** Without its first chunk, a tiling tiles the rest. */
  lemma FirstTile(chunks: Chunks, lo: int, hi: int)
    requires Tiles(chunks, lo, hi) && lo < hi
    ensures lo in chunks && lo < End(chunks, lo) <= hi && Tiles(chunks - {lo}, End(chunks, lo), hi)
  {
    hide Tiles, ChunkFits, Apart2;
    FirstFits(chunks, lo, hi);
    var n, rest := End(chunks, lo), chunks - {lo};
    forall p | p in rest
      ensures ChunkFits(rest, n, hi, p)
    {
      RestFits(chunks, lo, hi, p);
    }
    forall p, q | p in rest && q in rest
      ensures Apart2(rest, p, q)
    {
      RestApart(chunks, lo, hi, p, q);
    }
    RestTiles(rest, n, hi);
  }

  lemma FirstFits(chunks: Chunks, lo: int, hi: int)
    requires Tiles(chunks, lo, hi) && lo < hi
    ensures lo in chunks && lo < End(chunks, lo) <= hi && End(chunks, lo) % 16 == 0 && hi % 16 == 0
    ensures End(chunks, lo) < hi ==> End(chunks, lo) in chunks - {lo}
  {
    assert ChunkFits(chunks, lo, hi, lo);
    if End(chunks, lo) < hi {
      assert ChunkFits(chunks, lo, hi, End(chunks, lo));
    }
  }

  lemma RestFits(chunks: Chunks, lo: int, hi: int, p: int)
    requires Tiles(chunks, lo, hi) && lo in chunks && p in chunks && p != lo
    ensures ChunkFits(chunks - {lo}, End(chunks, lo), hi, p)
  {
    assert ChunkFits(chunks, lo, hi, p) && Apart2(chunks, p, lo) && ChunkFits(chunks, lo, hi, lo);
  }

  lemma RestApart(chunks: Chunks, lo: int, hi: int, p: int, q: int)
    requires Tiles(chunks, lo, hi) && p in chunks && q in chunks && p != lo && q != lo
    ensures Apart2(chunks - {lo}, p, q)
  {
    assert Apart2(chunks, p, q);
  }

  lemma RestTiles(chunks: Chunks, lo: int, hi: int)
    requires lo % 16 == 0 && hi % 16 == 0 && lo <= hi && (lo < hi ==> lo in chunks)
    requires forall p {:trigger ChunkFits(chunks, lo, hi, p)} :: p in chunks ==> ChunkFits(chunks, lo, hi, p)
    requires forall p, q {:trigger Apart2(chunks, p, q)} :: p in chunks && q in chunks ==> Apart2(chunks, p, q)
    ensures Tiles(chunks, lo, hi)
  {
  }

  /** Every byte of the segment is in a chunk in use, in a free chunk, in `top` or in the
      space after it. */
  lemma EveryByte(m: State)
    requires Valid(m)
    ensures Sum(Live(m.chunks)) + Sum(AllFree(m.chunks)) + m.topsize + TOP_FOOT_SIZE == m.segSize
  {
    hide Flags, Tags, State.Bins, Placed, Tiles;
    TilesSum(m.chunks, m.segBase, m.top);
    SumUnion(Live(m.chunks), AllFree(m.chunks));
    assert Live(m.chunks) + AllFree(m.chunks) == ChunkSizes(m.chunks);
  }

  /** Freeing moves exactly the freed chunk's bytes from use to free space. */
  lemma FreedBytes(m: State, s: Snapshot, p: int)
    requires Freed(m, s, p) && Sound(s) && p in Live(s.chunks)
    ensures Sum(Live(m.chunks)) == Sum(Live(s.chunks)) - Live(s.chunks)[p]
    ensures Sum(AllFree(m.chunks)) + m.topsize == Sum(AllFree(s.chunks)) + s.topsize + Live(s.chunks)[p]
  {
    hide Flags, Tags, State.Bins, Placed, Tiles, Untouched;
    EveryByte(m);
    SumWithout(Live(s.chunks), p);
    TilesSum(s.chunks, s.base, s.top);
    SumUnion(Live(s.chunks), AllFree(s.chunks));
    assert Live(s.chunks) + AllFree(s.chunks) == ChunkSizes(s.chunks);
  }

  /** Allocating takes exactly the new chunk's bytes from free space and new memory. */
  lemma AllocatedBytes(m: State, s: Snapshot, p: int, nb: int)
    requires Allocated(m, s, p, nb) && Sound(s)
    ensures Sum(Live(m.chunks)) == Sum(Live(s.chunks)) + Live(m.chunks)[p]
    ensures Sum(AllFree(m.chunks)) + m.topsize + Live(m.chunks)[p]
          == Sum(AllFree(s.chunks)) + s.topsize + (m.segSize - s.size)
  {
    hide Flags, Tags, State.Bins, Placed, Tiles, Untouched;
    EveryByte(m);
    SumMore(Live(s.chunks), p, Live(m.chunks)[p]);
    TilesSum(s.chunks, s.base, s.top);
    SumUnion(Live(s.chunks), AllFree(s.chunks));
    assert Live(s.chunks) + AllFree(s.chunks) == ChunkSizes(s.chunks);
  }

  // ---- coalescing ----

  /** Every address below `hi` is in a chunk. */
  lemma {:induction false} Covered(chunks: Chunks, lo: int, hi: int, q: int, a: int) returns (p: int)
    requires Tiles(chunks, lo, hi) && q in chunks && q <= a < hi
    ensures p in chunks && p <= a < End(chunks, p)
    decreases hi - q
  {
    assert ChunkFits(chunks, lo, hi, q);
    if a < End(chunks, q) {
      p := q;
    } else {
      p := Covered(chunks, lo, hi, End(chunks, q), a);
    }
  }

  /** Chunk `q` is a maximal stretch of free space: the chunk after it is in use, and so is
      the one before it, unless it is the first. */
  ghost predicate MaximalFree(chunks: Chunks, base: int, top: int, q: int) {
    && q in chunks && !chunks[q].cinuse && End(chunks, q) in chunks && chunks[End(chunks, q)].cinuse
    && (forall x :: x in chunks && End(chunks, x) == q ==> chunks[x].cinuse)
  }

  /** After a chunk has been freed, all of it lies in `top`, before which there is a chunk in
      use, or in one maximal stretch of free space, which is the designated victim or in its
      bin. */
  lemma Coalesced(m: State, s: Snapshot, p: int) returns (q: int)
    requires Freed(m, s, p) && Sound(s) && p in Live(s.chunks)
    ensures || (q == m.top <= p && TopAlone(m.chunks, m.top))
            || (&& MaximalFree(m.chunks, m.segBase, m.top, q) && q <= p && p + Live(s.chunks)[p] <= End(m.chunks, q)
                && if q == m.dv then m.dvsize == m.chunks[q].size else q in m.sizes && m.sizes[q] == m.chunks[q].size)
  {
    hide Tags, State.Bins, Placed, Untouched, Flags;
    ChunkBelowTop(s.chunks, s.base, s.top, p);
    LivePiece(s, p);
    if m.top <= p {
      q := m.top;
      AloneBeforeTop(m);
    } else {
      q := Covered(m.chunks, m.segBase, m.top, m.segBase, p);
      FreedNotLive(m, s, p, p, q);
      FreeIsMaximal(m, q);
      FreeIsPlaced(m, q);
      if End(m.chunks, q) < p + Live(s.chunks)[p] {
        FreedNotLive(m, s, p, End(m.chunks, q), End(m.chunks, q));
      }
    }
  }

  /** The chunk before `top` is in use. */
  ghost predicate TopAlone(chunks: Chunks, top: int) {
    forall x :: x in chunks && End(chunks, x) == top ==> chunks[x].cinuse
  }

  lemma LivePiece(s: Snapshot, p: int)
    requires Sound(s) && p in Live(s.chunks)
    ensures Live(s.chunks)[p] > 0
  {
    hide Tags, Flags, Placed;
    assert ChunkFits(s.chunks, s.base, s.top, p);
  }

  lemma AloneBeforeTop(m: State)
    requires Valid(m)
    ensures TopAlone(m.chunks, m.top)
  {
    hide Tags, State.Bins, Placed;
    forall x | x in m.chunks && End(m.chunks, x) == m.top
      ensures m.chunks[x].cinuse
    {
      assert FlagsAt(m.chunks, m.top, x);
    }
  }

  /** In a valid heap every free chunk is a maximal one. */
  lemma FreeIsMaximal(m: State, q: int)
    requires Valid(m) && q in m.chunks && !m.chunks[q].cinuse
    ensures MaximalFree(m.chunks, m.segBase, m.top, q) && q < End(m.chunks, q) < End(m.chunks, End(m.chunks, q))
  {
    hide Tags, State.Bins, Placed;
    assert FlagsAt(m.chunks, m.top, q);
    assert ChunkFits(m.chunks, m.segBase, m.top, q);
    assert ChunkFits(m.chunks, m.segBase, m.top, End(m.chunks, q));
    forall x | x in m.chunks && End(m.chunks, x) == q
      ensures m.chunks[x].cinuse
    {
      assert FlagsAt(m.chunks, m.top, x);
    }
  }

  lemma FreeIsPlaced(m: State, q: int)
    requires Valid(m) && q in m.chunks && !m.chunks[q].cinuse
    ensures if q == m.dv then m.dvsize == m.chunks[q].size else q in m.sizes && m.sizes[q] == m.chunks[q].size
  {
    hide Tags, State.Bins, Tiles, Flags;
    if q == m.dv {
      DvIsFree(m, q);
    }
  }

  lemma DvIsFree(m: State, q: int)
    requires Valid(m) && q in m.chunks && q == m.dv
    ensures m.dvsize != 0
  {
    hide Tags, Flags;
    if m.dvsize == 0 {
      ChunkBelowTop(m.chunks, m.segBase, m.top, q);
    }
  }

  /** No chunk still in use holds a byte of the freed one. */
  lemma FreedNotLive(m: State, s: Snapshot, p: int, a: int, q: int)
    requires Freed(m, s, p) && Sound(s) && p in Live(s.chunks) && p <= a < p + Live(s.chunks)[p]
    requires q in m.chunks && q <= a < End(m.chunks, q)
    ensures !m.chunks[q].cinuse
  {
    hide Tags, Flags, Placed, Untouched, Valid;
    if m.chunks[q].cinuse {
      assert q in Live(m.chunks) && Live(m.chunks)[q] == m.chunks[q].size;
      LiveApart(s, p, q);
    }
  }

  lemma LiveApart(s: Snapshot, p: int, q: int)
    requires Sound(s) && p in Live(s.chunks) && q in Live(s.chunks) && p != q
    ensures p + Live(s.chunks)[p] <= q || q + Live(s.chunks)[q] <= p
  {
    hide Tags, Flags, Placed;
    assert Apart2(s.chunks, p, q);
  }
}
