/** Writes to the payload of a chunk in use, by the caller or by `memcpy`: they are all the
    allocator allows between its calls, and they keep its invariant. */
module Payloads {
  import opened Words
  import opened MallocState
  import opened Boundaries
  import opened Invariant
  import opened Freeing

  /** Only payload words of live chunk `x` differ. */
  ghost predicate OnlyPayload(mem: Memory, mem': Memory, x: int, size: int) {
    forall a {:trigger Peek(mem', a)} :: Peek(mem', a) != Peek(mem, a) ==> PayloadWord(x, size, a)
  }

  lemma PayloadOnly(mem: Memory, mem': Memory, x: int, size: int, a: int)
    requires OnlyPayload(mem, mem', x, size) && !PayloadWord(x, size, a)
    ensures Peek(mem', a) == Peek(mem, a)
  {
  }

  /** Heads, feet of free chunks and the words of `top` are no payload. */
  lemma PayloadIsNoTag(s: Snapshot, x: int, p: int)
    requires Sound(s) && x in s.chunks && s.chunks[x].cinuse && (p in s.chunks || p == s.top)
    ensures !PayloadWord(x, s.chunks[x].size, Head(p))
    ensures p in s.chunks && !s.chunks[p].pinuse ==> !PayloadWord(x, s.chunks[x].size, PrevFoot(p))
  {
    hide Tags, Placed;
    assert ChunkFits(s.chunks, s.base, s.top, x) && FlagsAt(s.chunks, s.top, x);
    if p in s.chunks {
      assert Apart2(s.chunks, x, p) && ChunkFits(s.chunks, s.base, s.top, p);
    }
  }

  lemma PayloadTags(s: Snapshot, mem': Memory, x: int)
    requires Sound(s) && x in s.chunks && s.chunks[x].cinuse && OnlyPayload(s.mem, mem', x, s.chunks[x].size)
    ensures Tags(mem', s.chunks)
  {
    hide Sound, OnlyPayload;
    forall p | p in s.chunks
      ensures TagsAt(mem', s.chunks, p)
    {
      TagsOf(s, p);
      PayloadIsNoTag(s, x, p);
      PayloadOnly(s.mem, mem', x, s.chunks[x].size, Head(p));
      if !s.chunks[p].cinuse {
        PayloadIsNoTag(s, x, End(s.chunks, p));
        PayloadOnly(s.mem, mem', x, s.chunks[x].size, PrevFoot(End(s.chunks, p)));
      }
      if !s.chunks[p].pinuse {
        PayloadOnly(s.mem, mem', x, s.chunks[x].size, PrevFoot(p));
      }
    }
  }

  lemma TagsOf(s: Snapshot, p: int)
    requires Sound(s) && p in s.chunks
    ensures TagsAt(s.mem, s.chunks, p)
    ensures !s.chunks[p].cinuse ==> End(s.chunks, p) in s.chunks && !s.chunks[End(s.chunks, p)].pinuse
  {
    assert FlagsAt(s.chunks, s.top, p);
  }

  lemma PayloadTop(s: Snapshot, mem': Memory, x: int)
    requires Sound(s) && x in s.chunks && s.chunks[x].cinuse && OnlyPayload(s.mem, mem', x, s.chunks[x].size)
    ensures TopOk(mem', s.base, s.size, s.top, s.topsize)
  {
    hide Flags, Tags, Placed, OnlyPayload;
    assert ChunkFits(s.chunks, s.base, s.top, x);
    PayloadOnly(s.mem, mem', x, s.chunks[x].size, Head(s.top));
    PayloadOnly(s.mem, mem', x, s.chunks[x].size, Head(s.top + s.topsize));
  }

  lemma PayloadBins(m: State, s: Snapshot, x: int)
    requires Sound(s) && BinsOk(s.mem, m.smallmap, m.treemap, m.sizes, m.small, m.tree) && m.sizes == s.sizes
    requires x in s.chunks && s.chunks[x].cinuse && OnlyPayload(s.mem, m.mem, x, s.chunks[x].size)
    ensures BinsOk(m.mem, m.smallmap, m.treemap, m.sizes, m.small, m.tree)
  {
    hide BinsOk, Sound, OnlyPayload, LinkWord, PayloadWord;
    forall a | Peek(m.mem, a) != Peek(s.mem, a)
      ensures !LinkWord(s.sizes, a) && !IsHead(s.sizes, a)
    {
      if !PayloadWord(x, s.chunks[x].size, a) {
        PayloadOnly(s.mem, m.mem, x, s.chunks[x].size, a);
      }
      PayloadUnlinked(s, x, a);
    }
    BinsKept(s.mem, m.mem, m.smallmap, m.treemap, m.sizes, m.small, m.tree);
  }

  lemma PayloadUnlinked(s: Snapshot, x: int, a: int)
    requires Sound(s) && x in s.chunks && s.chunks[x].cinuse && PayloadWord(x, s.chunks[x].size, a)
    ensures !LinkWord(s.sizes, a) && !IsHead(s.sizes, a)
  {
    hide Flags, Tags;
    ChunkBelowTop(s.chunks, s.base, s.top, x);
    forall y | y in s.sizes
      ensures !(y + 16 <= a < y + s.sizes[y]) && a != Head(y)
    {
      assert Apart2(s.chunks, x, y);
      assert ChunkFits(s.chunks, s.base, s.top, y) && ChunkFits(s.chunks, s.base, s.top, x);
    }
  }

  /** The fields of the allocator are those of `s`. */
  ghost predicate SameFields(m: State, s: Snapshot)
    reads m`chunks, m`sizes, m`dv, m`dvsize, m`segBase, m`segSize, m`top, m`topsize, m`footprint, m`maxFootprint
  {
    && m.chunks == s.chunks && m.sizes == s.sizes && m.dv == s.dv && m.dvsize == s.dvsize
    && m.segBase == s.base && m.segSize == s.size && m.top == s.top && m.topsize == s.topsize
    && m.footprint == m.segSize <= m.maxFootprint && Within(m.sizes, m.segBase, m.segBase + m.segSize)
  }

  lemma StillValid(m: State, s: Snapshot, x: int)
    requires Sound(s) && SameFields(m, s) && BinsOk(s.mem, m.smallmap, m.treemap, m.sizes, m.small, m.tree)
    requires x in s.chunks && s.chunks[x].cinuse && OnlyPayload(s.mem, m.mem, x, s.chunks[x].size)
    ensures Valid(m)
  {
    hide Tiles, Flags, Tags, BinsOk, Placed, OnlyPayload, Within;
    PayloadTags(s, m.mem, x);
    PayloadTop(s, m.mem, x);
    PayloadBins(m, s, x);
  }

  lemma Unwritten(m: State)
    requires Valid(m)
    ensures Sound(Snap(m)) && SameFields(m, Snap(m))
    ensures BinsOk(Snap(m).mem, m.smallmap, m.treemap, m.sizes, m.small, m.tree)
    ensures forall x, size :: OnlyPayload(Snap(m).mem, m.mem, x, size)
  {
    hide Tiles, Flags, Tags, BinsOk, Placed;
    ValidSound(m);
  }

  lemma OneMore(m0: Memory, m1: Memory, x: int, size: int, a: int, v: int)
    requires OnlyPayload(m0, m1, x, size) && PayloadWord(x, size, a)
    ensures OnlyPayload(m0, m1[a := v], x, size)
  {
    forall b | Peek(m1[a := v], b) != Peek(m0, b)
      ensures PayloadWord(x, size, b)
    {
      assert b != a ==> Peek(m1, b) != Peek(m0, b);
    }
  }

  lemma PayloadMapped(m: State, x: int, a: int)
    requires Valid(m) && x in Live(m.chunks) && PayloadWord(x, Live(m.chunks)[x], a) && a % 8 == 0
    ensures m.Mapped(a) && x in m.chunks && m.chunks[x].cinuse && m.chunks[x].size == Live(m.chunks)[x]
  {
    hide Flags, Tags, State.Bins, Placed;
    assert ChunkFits(m.chunks, m.segBase, m.top, x);
  }

  lemma OthersUntouched(m0: Memory, m1: Memory, s: Snapshot, x: int)
    requires Sound(s) && x in s.chunks && s.chunks[x].cinuse && OnlyPayload(m0, m1, x, s.chunks[x].size)
    ensures Untouched(m0, m1, Live(s.chunks) - {x})
  {
    hide Flags, Tags, OnlyPayload, Placed;
    var live := Live(s.chunks) - {x};
    forall y, a | y in live && PayloadWord(y, live[y], a)
      ensures Peek(m1, a) == Peek(m0, a)
    {
      assert Apart2(s.chunks, x, y);
      PayloadOnly(m0, m1, x, s.chunks[x].size, a);
    }
  }

  /** A caller's store into its own payload. */
  method Store(m: State, ghost x: int, a: int, v: int)
    requires Valid(m) && x in Live(m.chunks) && PayloadWord(x, Live(m.chunks)[x], a) && a % 8 == 0
    modifies m`mem
    ensures Valid(m) && m.mem == old(m.mem)[a := v]
    ensures Untouched(old(m.mem), m.mem, Live(m.chunks) - {x})
  {
    hide *;
    ghost var s := Snap(m);
    Unwritten(m);
    PayloadMapped(m, x, a);
    OneMore(m.mem, m.mem, x, Live(m.chunks)[x], a, v);
    SnapParts(m);
    m.Put(a, v);
    StillValid(m, s, x);
    OthersUntouched(s.mem, m.mem, s, x);
  }

  lemma SnapParts(m: State)
    ensures Snap(m).mem == m.mem && Snap(m).chunks == m.chunks
  {
  }
}
