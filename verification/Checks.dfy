/** The allocator's own invariant checks, `do_check_malloc_state` and what it calls: a heap
    that satisfies the invariant passes every one of them. Each method answers whether all
    of its assertions hold. */
module Checks {
  import opened Words
  import opened SizeBits
  import opened Rings
  import opened BinMaps
  import opened TreeBins
  import opened SmallBins
  import opened TreeRelink
  import opened TreeChains
  import opened MallocState
  import opened Boundaries
  import opened Invariant
  import opened LargeChunks
  import opened LargeInsertion
  import opened SmallChunks
  import opened Freeing
  import opened BestFit
  import opened LargeRequests
  import opened SmallRequests

  const FENCEPOST_HEAD := 11

  /** `is_mmapped`: neither in-use bit is set. */
  predicate IsMmapped(head: int) { head % 4 == 0 }

  // ---- single chunks ----

  /** What the head words around a chunk say. */
  lemma ChunkReads(m: State, p: int)
    requires Valid(m) && p in m.chunks
    ensures var c, n := m.chunks[p], p + m.chunks[p].size;
            && m.Mapped(PrevFoot(p)) && m.Mapped(Head(p)) && m.Mapped(PrevFoot(n)) && m.Mapped(Head(n))
            && m.OkAddress(p)
            && p % 16 == 0 && p > 0 && c.size >= MIN_CHUNK_SIZE && c.size % 16 == 0 && p < n <= m.top
            && m.At(Head(p)) == HeadWord(c.size, c.cinuse, c.pinuse)
            && PInUse(m.At(Head(n))) == c.cinuse
            && (!c.cinuse ==> m.At(PrevFoot(n)) == c.size && c.pinuse && n in m.chunks && m.chunks[n].cinuse)
            && (n in m.chunks || n == m.top)
  {
    hide Tiles, Tags, BinsOk, Within, OnlyLinks;
    var s := Snap(m);
    HeapStart(m);
    BoundaryRead(s, m, {}, p);
    ChunkShape(s, p);
    NextHead(m, s, p);
    GmBelow(s, p);
  }

  lemma ChunkShape(s: Snapshot, p: int)
    requires Sound(s) && p in s.chunks
    ensures var c, n := s.chunks[p], p + s.chunks[p].size;
            && p % 16 == 0 && c.size >= MIN_CHUNK_SIZE && c.size % 16 == 0
            && p < n <= s.top && (n in s.chunks || n == s.top)
            && (!c.cinuse ==> c.pinuse && n in s.chunks && s.chunks[n].cinuse)
            && (n in s.chunks ==> s.chunks[n].pinuse == c.cinuse) && (n == s.top ==> c.cinuse)
  {
    assert ChunkFits(s.chunks, s.base, s.top, p) && FlagsAt(s.chunks, s.top, p);
  }

  lemma NextHead(m: State, s: Snapshot, p: int)
    requires Opened(m, s, {}) && p in s.chunks
    ensures var n := p + s.chunks[p].size;
            m.Mapped(PrevFoot(n)) && m.Mapped(Head(n)) && PInUse(m.At(Head(n))) == s.chunks[p].cinuse
  {
    hide BinsOk, Within, OnlyLinks, Sound;
    var n := p + s.chunks[p].size;
    ChunkShape(s, p) by { OpenedFields(m, s, {}); }
    BoundaryRead(s, m, {}, n);
    if n in s.chunks {
      HeadRead(s, m, {}, n);
    } else {
      TopRead(s, m, {});
    }
  }

  /** `do_check_any_chunk`. */
  method CheckAnyChunk(m: State, p: int) returns (ok: bool)
    requires Valid(m) && (p in m.chunks || p == m.top)
    ensures ok
  {
    hide *;
    AnyReads(m, p);
    var h := m.At(Head(p));
    ok := ((p + 16) % 16 == 0 || h == FENCEPOST_HEAD) && m.OkAddress(p);
  }

  lemma AnyReads(m: State, p: int)
    requires Valid(m) && (p in m.chunks || p == m.top)
    ensures m.Mapped(Head(p)) && (p + 16) % 16 == 0 && m.OkAddress(p)
  {
    hide Flags, Tags, Placed, State.Bins;
    HeapStart(m);
    BoundaryMapped(Snap(m), m, p);
    BoundaryAligned(m.chunks, m.segBase, m.top, p);
  }

  /** `do_check_top_chunk`. */
  method CheckTopChunk(m: State) returns (ok: bool)
    requires Valid(m)
    ensures ok
  {
    TopReads(m);
    var p := m.top;
    var any := CheckAnyChunk(m, p);
    var sz := ChunkSize(m.At(Head(p)));
    ok := any && m.segBase <= p < m.segBase + m.segSize && sz == m.topsize && sz > 0
          && sz == m.segBase + m.segSize - p - TOP_FOOT_SIZE && PInUse(m.At(Head(p))) && !PInUse(m.At(Head(p + sz)));
  }

  lemma TopReads(m: State)
    requires Valid(m)
    ensures m.Mapped(Head(m.top)) && m.Mapped(Head(m.top + m.topsize)) && ChunkSize(m.At(Head(m.top))) == m.topsize > 0
    ensures m.segBase <= m.top < m.segBase + m.segSize && m.topsize == m.segBase + m.segSize - m.top - TOP_FOOT_SIZE
    ensures PInUse(m.At(Head(m.top))) && !PInUse(m.At(Head(m.top + m.topsize)))
  {
    hide HeapOk, Placed, State.Bins, State.Mapped, TopOk;
    TopWords(m.mem, m.segBase, m.segSize, m.top, m.topsize);
    TopAboveBase(m);
    AlignedMapped(m, m.top);
    AlignedMapped(m, m.top + m.topsize);
  }

  lemma TopAboveBase(m: State)
    requires Valid(m)
    ensures m.segBase <= m.top
  {
    hide Flags, Tags, Placed, State.Bins, TopOk;
  }

  lemma TopWords(mem: Memory, base: int, size: int, top: int, topsize: int)
    requires TopOk(mem, base, size, top, topsize)
    ensures ChunkSize(Peek(mem, Head(top))) == topsize > 0 && PInUse(Peek(mem, Head(top)))
    ensures !PInUse(Peek(mem, Head(top + topsize)))
    ensures top % 16 == 0 && (top + topsize) % 16 == 0 && top + topsize + TOP_FOOT_SIZE == base + size
  {
    SizeEight(topsize);
    HeadFields(topsize, false, true);
  }

  /** `do_check_inuse_chunk`. */
  method CheckInuseChunk(m: State, p: int) returns (ok: bool)
    requires Valid(m) && p in m.chunks && m.chunks[p].cinuse
    ensures ok
  {
    hide *;
    ChunkReads(m, p);
    var any := CheckAnyChunk(m, p);
    var h := m.At(Head(p));
    InuseWord(h, m.chunks[p].size, m.chunks[p].pinuse) by { SizeEight(m.chunks[p].size); }
    PrevReads(m, p);
    ok := any && IsInUse(h) && PInUse(m.At(Head(p + ChunkSize(h)))) && !IsMmapped(h)
          && (PInUse(h) || p - m.At(PrevFoot(p)) + ChunkSize(m.At(Head(p - m.At(PrevFoot(p))))) == p);
  }

  lemma SizeEight(size: int)
    requires size % 16 == 0
    ensures size % 8 == 0
  {
  }

  lemma InuseWord(h: int, size: int, pinuse: bool)
    requires size % 8 == 0 && h == HeadWord(size, true, pinuse)
    ensures IsInUse(h) && !IsMmapped(h) && ChunkSize(h) == size && PInUse(h) == pinuse
  {
    HeadFields(size, true, pinuse);
  }

  lemma PrevReads(m: State, p: int)
    requires Valid(m) && p in m.chunks
    ensures m.Mapped(PrevFoot(p))
    ensures !m.chunks[p].pinuse ==>
      var q := p - m.At(PrevFoot(p)); m.Mapped(Head(q)) && q + ChunkSize(m.At(Head(q))) == p
  {
    hide Tiles, Flags, Tags, BinsOk, Within, OnlyLinks, Placed;
    var s := Snap(m);
    HeapStart(m);
    BoundaryRead(s, m, {}, p);
    if !m.chunks[p].pinuse {
      BackNeighbour(s, p);
      HeadRead(s, m, {}, p - Peek(s.mem, PrevFoot(p)));
    }
  }

  /** `do_check_malloced_chunk`. */
  method CheckMallocedChunk(m: State, mem: int, s: int) returns (ok: bool)
    requires Valid(m)
    requires mem != 0 ==> mem - 16 in Live(m.chunks) && s <= Live(m.chunks)[mem - 16] < s + MIN_CHUNK_SIZE
    ensures ok
  {
    hide *;
    ok := true;
    if mem != 0 {
      var p := mem - 16;
      LiveChunk(m, p);
      ChunkReads(m, p);
      var used := CheckInuseChunk(m, p);
      var sz := ChunkSize(m.At(Head(p)));
      InuseWord(m.At(Head(p)), m.chunks[p].size, m.chunks[p].pinuse) by { SizeEight(m.chunks[p].size); }
      ok := used && sz % 16 == 0 && sz >= MIN_CHUNK_SIZE && sz >= s && sz < s + MIN_CHUNK_SIZE;
    }
  }

  // ---- rings ----

  /** The words of member `k` of a small bin's ring, and of its neighbours. */
  lemma SmallRing(m: State, i: nat, k: nat)
    requires m.Bins() && i < 32 && Marked(m.smallmap, i) && k < |RingOf(m.small, i)|
    ensures var r := RingOf(m.small, i);
            var x, f, b := r[k], r[Previous(k, |r|)], r[Next(k, |r|)];
            && m.Mapped(Fd(x)) && m.Mapped(Bk(x)) && m.At(Fd(x)) == f && m.At(Bk(x)) == b
            && m.Mapped(Bk(f)) && m.At(Bk(f)) == x && m.Mapped(Fd(b)) && m.At(Fd(b)) == x
            && (k > 0 ==> x in m.sizes && m.sizes[x] == 8 * i && IsSmall(m.sizes[x])) && r[0] == SmallBinAt(i)
    ensures |m.small| == 32 && |RingOf(m.small, i)| == |m.small[i]| + 1 >= 2
  {
    hide TreeLinks, Shape, HoldsLarge, HoldsSmall, Spaced, SizeHeads, Marked, SmallShape;
    var r := RingOf(m.small, i);
    FirstRead(m, i);
    assert BinLink(m.mem, m.smallmap, m.small, i);
    SmallMapped(m, i, k);
    SmallMapped(m, i, Previous(k, |r|));
    SmallMapped(m, i, Next(k, |r|));
    assert Next(Previous(k, |r|), |r|) == k && Previous(Next(k, |r|), |r|) == k;
    assert Peek(m.mem, Fd(r[k])) == r[Previous(k, |r|)] && Peek(m.mem, Bk(r[k])) == r[Next(k, |r|)];
    assert Peek(m.mem, Bk(r[Previous(k, |r|)])) == r[k] && Peek(m.mem, Fd(r[Next(k, |r|)])) == r[k];
  }

  lemma SmallRingDistinct(m: State, i: nat, j: nat, k: nat)
    requires m.Bins() && i < 32 && j < |RingOf(m.small, i)| && k < |RingOf(m.small, i)| && j != k
    ensures RingOf(m.small, i)[j] != RingOf(m.small, i)[k]
  {
    hide TreeLinks, Shape, HoldsLarge, HoldsSmall, SizeHeads, SmallLinks;
    RingMembers(m.small, m.sizes, i);
  }

  /** The words of member `j` of a chain, and of its neighbours. */
  lemma LargeRing(m: State, p: Pos, j: nat)
    requires m.Bins() && p in m.tree && j < |m.tree[p]|
    ensures var r := m.tree[p];
            var x, f, b := r[j], r[Previous(j, |r|)], r[Next(j, |r|)];
            && m.Mapped(Fd(x)) && m.Mapped(Bk(x)) && m.At(Fd(x)) == f && m.At(Bk(x)) == b
            && m.Mapped(Bk(f)) && m.At(Bk(f)) == x && m.Mapped(Fd(b)) && m.At(Fd(b)) == x
            && x in m.sizes && !IsSmall(m.sizes[x]) && m.sizes[x] == Key(m.tree, m.sizes, p)
  {
    hide TreeLinks, SmallLinks, HoldsSmall, SmallShape, HoldsLarge, SizeHeads, Shape, Key;
    var r := m.tree[p];
    ChainRead(m.mem, m.treemap, m.sizes, m.tree, p, j);
    LargeInTree(m, p, j);
    LargeInTree(m, p, Previous(j, |r|));
    LargeInTree(m, p, Next(j, |r|));
    MemberKey(m.tree, m.sizes, p, j);
  }

  /** The ring words of any binned chunk lead back to it. */
  lemma BinnedRing(m: State, x: int)
    requires m.Bins() && x in m.sizes
    ensures m.Mapped(Fd(x)) && m.Mapped(Bk(x))
    ensures var f, b := m.At(Fd(x)), m.At(Bk(x));
            m.Mapped(Bk(f)) && m.At(Bk(f)) == x && m.Mapped(Fd(b)) && m.At(Fd(b)) == x
  {
    hide State.Bins, RingOf;
    if IsSmall(m.sizes[x]) {
      var i, j := FindSmall(m, x);
      SmallMarked(m, x);
      RingIndex(m.small, i, j);
      SmallRing(m, i, j + 1);
    } else {
      LargeIsInTree(m, x);
      var p, j := FindMember(m.tree, x);
      LargeRing(m, p, j);
    }
  }

  lemma RingIndex(small: Smalls, i: nat, j: nat)
    requires i < |small| && j < |small[i]|
    ensures j + 1 < |RingOf(small, i)| && RingOf(small, i)[j + 1] == small[i][j]
  {
  }

  /** `do_check_free_chunk`. */
  method CheckFreeChunk(m: State, p: int) returns (ok: bool)
    requires Valid(m) && p in m.chunks && !m.chunks[p].cinuse
    ensures ok
  {
    hide *;
    ChunkReads(m, p);
    HeapStart(m);
    FreeWord(m.At(Head(p)), m.chunks[p].size) by { SizeEight(m.chunks[p].size); }
    var h := m.At(Head(p));
    var sz := ChunkSize(h);
    var next := p + sz;
    var any := CheckAnyChunk(m, p);
    ok := any && !IsInUse(h) && !PInUse(m.At(Head(next))) && !IsMmapped(h);
    if p != m.dv && p != m.top {
      if sz >= MIN_CHUNK_SIZE {
        FreeIsBinned(m, p);
        BinnedRing(m, p);
        var n := CheckNext(m, p, next);
        ok := ok && sz % 16 == 0 && (p + 16) % 16 == 0 && m.At(PrevFoot(next)) == sz && PInUse(h) && n
              && m.At(Bk(m.At(Fd(p)))) == p && m.At(Fd(m.At(Bk(p)))) == p;
      } else {
        assert false;
      }
    }
  }

  /** `next == m->top || is_inuse(next)`. */
  method CheckNext(m: State, ghost p: int, next: int) returns (ok: bool)
    requires Valid(m) && p in m.chunks && !m.chunks[p].cinuse && next == p + m.chunks[p].size
    ensures ok
  {
    hide *;
    ChunkReads(m, p);
    ChunkReads(m, next);
    InuseWord(m.At(Head(next)), m.chunks[next].size, m.chunks[next].pinuse) by { SizeEight(m.chunks[next].size); }
    var used := IsInUse(m.At(Head(next)));
    ok := next == m.top || used;
  }

  lemma FreeWord(h: int, size: int)
    requires size % 8 == 0 && h == HeadWord(size, false, true)
    ensures !IsInUse(h) && !IsMmapped(h) && ChunkSize(h) == size && PInUse(h)
  {
    HeadFields(size, false, true);
  }

  lemma FreeIsBinned(m: State, p: int)
    requires Valid(m) && p in m.chunks && !m.chunks[p].cinuse && p != m.dv
    ensures p in m.sizes && m.sizes[p] == m.chunks[p].size
  {
    hide HeapOk, State.Bins, TopOk;
  }

  // ---- bin_find ----

  /** Members of a small ring from `k` on, back to the header, other than `x`. */
  ghost predicate NotSeen(r: seq<int>, k: nat, x: int) {
    forall j {:trigger r[j]} :: k < j < |r| ==> r[j] != x
  }

  lemma SmallFound(m: State, x: int, i: nat)
    requires m.Bins() && i < 32 && |m.small| == 32
    ensures x in m.sizes && m.sizes[x] == 8 * i && i < 32 ==>
              exists k :: 0 < k < |RingOf(m.small, i)| && RingOf(m.small, i)[k] == x
  {
    hide TreeLinks, Shape, HoldsLarge, SizeHeads, SmallLinks, SmallShape;
    if x in m.sizes && m.sizes[x] == 8 * i && i < 32 {
      var i', j := FindSmall(m, x);
      assert RingOf(m.small, i)[j + 1] == x;
    }
  }

  /** Looking for `x` around the ring of a marked small bin. */
  method FindInSmall(m: State, x: int, i: nat) returns (found: bool)
    requires m.Bins() && i < 32 && Marked(m.smallmap, i) && x >= GM_END
    ensures found <==> x in m.sizes && m.sizes[x] == 8 * i
  {
    hide *;
    found := false;
    var b := SmallBinAt(i);
    FirstRead(m, i);
    ghost var r := RingOf(m.small, i);
    SmallStart(m, i, x);
    SmallFound(m, x, i);
    var p := m.At(Fd(b));
    ghost var k := |r| - 1;
    while p != b
      invariant 0 <= k < |r| && p == r[k] && NotSeen(r, k, x)
      decreases k
    {
      RingStep(m, i, k, x);
      if p == x {
        found := true;
        return;
      }
      p := m.At(Fd(p));
      k := k - 1;
    }
    RingDone(m, i, k, x);
  }

  /** The header is no chunk, and its `fd` leads to the last member of the ring. */
  lemma SmallStart(m: State, i: nat, x: int)
    requires m.Bins() && i < 32 && Marked(m.smallmap, i) && x >= GM_END
    ensures var r := RingOf(m.small, i);
            && |r| >= 2 && r[0] == SmallBinAt(i) != x && m.Mapped(Fd(SmallBinAt(i)))
            && m.At(Fd(SmallBinAt(i))) == r[|r| - 1]
            && NotSeen(r, |r| - 1, x)
  {
    hide State.Bins, Marked;
    FirstRead(m, i);
    SmallRing(m, i, 0);
  }

  lemma RingStep(m: State, i: nat, k: nat, x: int)
    requires m.Bins() && i < 32 && Marked(m.smallmap, i) && k < |RingOf(m.small, i)|
    requires RingOf(m.small, i)[k] != SmallBinAt(i)
    requires NotSeen(RingOf(m.small, i), k, x)
    ensures var r := RingOf(m.small, i);
            && k > 0 && m.Mapped(Fd(r[k])) && m.At(Fd(r[k])) == r[k - 1]
            && (r[k] == x ==> x in m.sizes && m.sizes[x] == 8 * i)
            && (r[k] != x ==> NotSeen(r, k - 1, x))
  {
    hide State.Bins, RingOf, Marked;
    SmallRing(m, i, k);
  }

  lemma RingDone(m: State, i: nat, k: nat, x: int)
    requires m.Bins() && i < 32 && Marked(m.smallmap, i) && k < |RingOf(m.small, i)|
    requires RingOf(m.small, i)[k] == SmallBinAt(i)
    requires NotSeen(RingOf(m.small, i), k, x) && x >= GM_END
    requires x in m.sizes && m.sizes[x] == 8 * i ==>
               exists k :: 0 < k < |RingOf(m.small, i)| && RingOf(m.small, i)[k] == x
    ensures !(x in m.sizes && m.sizes[x] == 8 * i)
  {
    hide State.Bins, RingOf, Marked;
    SmallRing(m, i, 0);
    if k > 0 {
      SmallRingDistinct(m, i, 0, k);
    }
  }

  // ---- in the tries ----

  /** The walk for size `s` is at `t`, the node at `p`, or has left the trie at `p`. */
  ghost predicate Seeking(m: State, s: nat, t: int, p: Pos, k: int)
    reads m`tree, m`sizes
  {
    && MIN_LARGE_SIZE <= s < WORD_LIMIT && s % 16 == 0 && p == PosOf(s, p.w) && p.w <= RootBits(p.bin) && p.w <= 64
    && k == SizeWord(s, p.w) && NoneAbove(m.tree, m.sizes, s, p.w) && IsChild(m.tree, t, p)
  }

  lemma SeekStart(m: State, s: nat)
    requires m.Bins() && MIN_LARGE_SIZE <= s < WORD_LIMIT && s % 16 == 0
    ensures var i := TreeIndex(s);
            && i < 32 && RootBits(i) <= 64 && m.Mapped(TreeBinAt(i))
            && (Marked(m.treemap, i) <==> RootPos(i) in m.tree)
            && Seeking(m, s, m.At(TreeBinAt(i)), RootPos(i), s * Pow2(64 - RootBits(i)) % WORD_LIMIT)
  {
    hide Shape, TreeLinks, SmallLinks, SizeHeads, Spaced, NoneAbove, SizeWord, Pow2, TreeIndex, Marked, SmallShape;
    var i := TreeIndex(s);
    RootOfBin(s);
    FirstSizeWord(s, RootBits(i));
    BinsShape(m);
    NoneAboveRoot(m.tree, m.sizes, s);
    TreeRootRead(m, i);
  }

  lemma SeekStep(m: State, s: nat, t: int, p: Pos, k: int)
    requires m.Bins() && Seeking(m, s, t, p, k) && t != 0 && Key(m.tree, m.sizes, p) != s
    ensures p.w >= 5 && p in m.tree && |m.tree[p]| > 0 && t == m.tree[p][0]
    ensures var b := k / 0x8000_0000_0000_0000 % 2;
            && b == NextBit(s, p.w) && m.Mapped(ChildAt(t, b)) && Down(p, b).w < p.w
            && Seeking(m, s, m.At(ChildAt(t, b)), Down(p, b), k * 2 % WORD_LIMIT)
  {
    hide State.Bins, Shape, NoneAbove, SizeWord, Key, TreeIndex, RootBits, NextBit;
    BinsShape(m);
    NodeReads(m, p);
    WalkOn(m.tree, m.sizes, s, p);
    SizeWordStep(s, p.w);
    BitBelowTwo(k, NextBit(s, p.w));
    RootBitsSame(p, NextBit(s, p.w));
  }

  lemma BitBelowTwo(k: int, b: nat)
    requires k / 0x8000_0000_0000_0000 == b < 2
    ensures k / 0x8000_0000_0000_0000 % 2 == b
  {
  }

  lemma RootBitsSame(p: Pos, b: nat)
    requires p.w > 0 && p.w <= RootBits(p.bin)
    ensures Down(p, b).w <= RootBits(Down(p, b).bin)
  {
  }

  /** No chunk of size `s` when the walk has left the trie. */
  lemma SeekLost(m: State, s: nat, p: Pos, k: int, x: int)
    requires m.Bins() && Seeking(m, s, 0, p, k)
    ensures !(x in m.sizes && m.sizes[x] == s)
  {
    hide TreeLinks, SmallLinks, SizeHeads, Spaced, SmallShape, SizeWord, Key, TreeIndex, RootBits;
    if x in m.sizes && m.sizes[x] == s {
      LargeIsInTree(m, x);
      var q, j := FindMember(m.tree, x);
      MemberKey(m.tree, m.sizes, q, j);
      LostChain(m.tree, m.sizes, s, p, q);
    }
  }

  lemma LostChain(tree: Tree, sizes: Sizes, s: nat, p: Pos, q: Pos)
    requires Shape(tree, sizes) && p == PosOf(s, p.w) && p.w <= RootBits(p.bin) && NoneAbove(tree, sizes, s, p.w)
    requires p !in tree
    requires q in tree
    ensures Key(tree, sizes, q) != s
  {
    ShapeAt(tree, sizes, q);
    if Key(tree, sizes, q) == s && q.w <= p.w {
      PathOccupied(tree, sizes, q, p.w);
    }
  }

  /** `x` of size `s` can only be in the chain of that size. */
  lemma SeekFound(m: State, s: nat, p: Pos, x: int)
    requires m.Bins() && p in m.tree && Key(m.tree, m.sizes, p) == s
    ensures x in m.sizes && m.sizes[x] == s ==> x in m.tree[p]
    ensures x in m.tree[p] ==> x in m.sizes && m.sizes[x] == s
  {
    hide TreeLinks, SmallLinks, SizeHeads, Spaced, SmallShape, Key;
    BinsShape(m);
    KeyRange(m.tree, m.sizes, p);
    if x in m.sizes && m.sizes[x] == s {
      LargeIsInTree(m, x);
      var q, j := FindMember(m.tree, x);
      MemberKey(m.tree, m.sizes, q, j);
    }
    if x in m.tree[p] {
      var j :| 0 <= j < |m.tree[p]| && m.tree[p][j] == x;
      MemberKey(m.tree, m.sizes, p, j);
    }
  }

  /** Looking for `x` around the chain at `p`. */
  method FindInChain(m: State, x: int, t: int, ghost p: Pos) returns (found: bool)
    requires m.Bins() && p in m.tree && |m.tree[p]| > 0 && t == m.tree[p][0]
    ensures found <==> x in m.tree[p]
  {
    hide *;
    ghost var r := m.tree[p];
    found := true;
    var u := t;
    if u == x {
      return;
    }
    LargeRing(m, p, 0);
    ghost var k := |r| - 1;
    ChainStart(r, x);
    u := m.At(Fd(u));
    while u != t
      invariant 0 <= k < |r| && u == r[k] && NotSeen(r, k, x)
      decreases k
    {
      ChainStep(m, p, k, x);
      if u == x {
        return;
      }
      u := m.At(Fd(u));
      k := k - 1;
    }
    ChainDone(m, p, k, x);
    found := false;
  }

  lemma ChainStart(r: seq<int>, x: int)
    requires |r| > 0
    ensures NotSeen(r, |r| - 1, x) && Previous(0, |r|) == |r| - 1
  {
  }

  lemma ChainStep(m: State, p: Pos, k: nat, x: int)
    requires m.Bins() && p in m.tree && k < |m.tree[p]| && m.tree[p][k] != m.tree[p][0] && NotSeen(m.tree[p], k, x)
    ensures var r := m.tree[p];
            k > 0 && m.Mapped(Fd(r[k])) && m.At(Fd(r[k])) == r[k - 1] && (r[k] != x ==> NotSeen(r, k - 1, x))
  {
    hide State.Bins;
    LargeRing(m, p, k);
  }

  lemma ChainDone(m: State, p: Pos, k: nat, x: int)
    requires m.Bins() && p in m.tree && k < |m.tree[p]| && m.tree[p][k] == m.tree[p][0] && NotSeen(m.tree[p], k, x)
    requires m.tree[p][0] != x
    ensures x !in m.tree[p]
  {
    hide TreeLinks, SmallLinks, SizeHeads, Spaced, SmallShape, HoldsLarge, SmallBins.HoldsSmall;
    ShapeAt(m.tree, m.sizes, p);
    assert k == 0;
  }

  /** Walking the trie of the chunk's size, then around the chain found. */
  method FindInTree(m: State, x: int, size: nat) returns (found: bool)
    requires m.Bins() && MIN_LARGE_SIZE <= size < WORD_LIMIT && size % 16 == 0
    ensures found <==> x in m.sizes && m.sizes[x] == size
  {
    hide *;
    var tidx := TreeIndex(size);
    SeekStart(m, size);
    ghost var p := RootPos(tidx);
    found := false;
    if Marked(m.treemap, tidx) {
      var t := m.At(TreeBinAt(tidx));
      var sizebits := size * Pow2(64 - RootBits(tidx)) % WORD_LIMIT;
      SeekNode(m, size, t, p, sizebits);
      while t != 0 && ChunkSize(m.At(Head(t))) != size
        invariant Seeking(m, size, t, p, sizebits)
        invariant t != 0 ==> p in m.tree && |m.tree[p]| > 0 && t == m.tree[p][0] && m.Mapped(Head(t))
                             && ChunkSize(m.At(Head(t))) == Key(m.tree, m.sizes, p)
        decreases p.w
      {
        SeekStep(m, size, t, p, sizebits);
        var b := sizebits / 0x8000_0000_0000_0000 % 2;
        t := m.At(ChildAt(t, b));
        p := Down(p, b);
        sizebits := sizebits * 2 % WORD_LIMIT;
        SeekNode(m, size, t, p, sizebits);
      }
      if t != 0 {
        found := FindInChain(m, x, t, p);
        SeekFound(m, size, p, x);
      } else {
        SeekLost(m, size, p, sizebits, x);
      }
    } else {
      SeekEmpty(m, size, x);
    }
  }

  lemma SeekNode(m: State, s: nat, t: int, p: Pos, k: int)
    requires m.Bins() && Seeking(m, s, t, p, k)
    ensures t != 0 ==> p in m.tree && |m.tree[p]| > 0 && t == m.tree[p][0] && m.Mapped(Head(t))
                       && ChunkSize(m.At(Head(t))) == Key(m.tree, m.sizes, p)
  {
    hide State.Bins, NoneAbove, SizeWord, Key, TreeIndex, RootBits;
    if t != 0 {
      NodeReads(m, p);
    }
  }

  lemma SeekEmpty(m: State, s: nat, x: int)
    requires m.Bins() && MIN_LARGE_SIZE <= s < WORD_LIMIT && s % 16 == 0 && RootPos(TreeIndex(s)) !in m.tree
    ensures !(x in m.sizes && m.sizes[x] == s)
  {
    hide TreeLinks, SmallLinks, SizeHeads, Spaced, SmallShape, Key, TreeIndex;
    BinsShape(m);
    if x in m.sizes && m.sizes[x] == s {
      LargeIsInTree(m, x);
      var q, j := FindMember(m.tree, x);
      MemberKey(m.tree, m.sizes, q, j);
      UnderRoot(m.tree, m.sizes, q);
      KeyRange(m.tree, m.sizes, q);
    }
  }

  /** `bin_find` answers yes for exactly the binned chunks. */
  method BinFind(m: State, x: int) returns (found: bool)
    requires Valid(m) && (x in m.chunks || x == m.top)
    ensures found <==> x in m.sizes
  {
    hide *;
    HeapStart(m);
    FindReads(m, x);
    var size := ChunkSize(m.At(Head(x)));
    if IsSmall(size) {
      var sidx := SmallIndex(size);
      SmallSizeIndex(size);
      found := false;
      if Marked(m.smallmap, sidx) {
        found := FindInSmall(m, x, sidx);
      } else {
        SmallUnmarked(m, x, size);
      }
    } else {
      LargeSize(size);
      found := FindInTree(m, x, size);
    }
  }

  lemma FindReads(m: State, x: int)
    requires Valid(m) && (x in m.chunks || x == m.top)
    ensures m.Mapped(Head(x)) && x >= GM_END
    ensures var size := ChunkSize(m.At(Head(x)));
            0 < size < WORD_LIMIT && size % 16 == 0 && (x in m.sizes ==> m.sizes[x] == size)
  {
    hide HeapOk, State.Bins, TopOk, Placed;
    if x in m.chunks {
      ChunkReads(m, x);
      InuseOrFree(m.At(Head(x)), m.chunks[x]);
      BinnedSize(m, x);
    } else {
      TopReads(m);
      TopUnbinned(m);
    }
  }

  lemma InuseOrFree(h: int, c: Chunk)
    requires c.size % 16 == 0 && h == HeadWord(c.size, c.cinuse, c.pinuse)
    ensures ChunkSize(h) == c.size
  {
    SizeEight(c.size);
    HeadFields(c.size, c.cinuse, c.pinuse);
  }

  lemma BinnedSize(m: State, x: int)
    requires Valid(m) && x in m.chunks
    ensures x in m.sizes ==> m.sizes[x] == m.chunks[x].size
    ensures x >= GM_END && m.chunks[x].size < WORD_LIMIT
  {
    hide Flags, Tags, BinsOk;
    HeapStart(m);
    ChunkShape(Snap(m), x);
    ChunkBelowTop(m.chunks, m.segBase, m.top, x);
  }

  lemma TopUnbinned(m: State)
    requires Valid(m)
    ensures m.top !in m.sizes && m.top >= GM_END && m.topsize % 16 == 0 && m.topsize < WORD_LIMIT
  {
    hide Flags, Tags, BinsOk;
    HeapStart(m);
    TopNotChunk(Snap(m));
  }

  lemma SmallSizeIndex(size: int)
    requires size % 16 == 0 && 0 <= size && IsSmall(size)
    ensures 0 <= SmallIndex(size) < 32 && 8 * SmallIndex(size) == size
  {
  }

  lemma LargeSize(size: int)
    requires !IsSmall(size)
    ensures MIN_LARGE_SIZE <= size
  {
  }

  lemma SmallUnmarked(m: State, x: int, size: int)
    requires m.Bins() && (x in m.sizes ==> m.sizes[x] == size) && IsSmall(size) && 0 <= SmallIndex(size) < 32
    requires !Marked(m.smallmap, SmallIndex(size))
    ensures x !in m.sizes
  {
    hide State.Bins, Marked;
    if x in m.sizes {
      SmallMarked(m, x);
    }
  }

  // ---- bins ----

  /** `do_check_smallbin`. */
  method CheckSmallbin(m: State, i: nat) returns (ok: bool)
    requires Valid(m) && i < 32
    ensures ok
  {
    hide *;
    HeapStart(m);
    var b := SmallBinAt(i);
    var empty := !Marked(m.smallmap, i);
    SmallHeader(m, i);
    var p := m.At(Bk(b));
    ok := true;
    if p == b {
      ok := empty;
    }
    if !empty {
      HeaderOnly(m, i);
      SmallRing(m, i, 0);
      ghost var r, k := RingOf(m.small, i), 1;
      while p != b
        invariant 0 <= k <= |r| && p == (if k < |r| then r[k] else r[0]) && ok
        decreases |r| - k
      {
        SmallMember(m, i, k);
        var size := ChunkSize(m.At(Head(p)));
        var free := CheckFreeChunk(m, p);
        ok := ok && free && SmallIndex(size) == i && (m.At(Bk(p)) == b || ChunkSize(m.At(Head(m.At(Bk(p))))) == size);
        var q := p + size;
        if m.At(Head(q)) != FENCEPOST_HEAD {
          var used := CheckInuseChunk(m, q);
          ok := ok && used;
        }
        p := m.At(Bk(p));
        k := k + 1;
      }
    }
  }

  lemma SmallHeader(m: State, i: nat)
    requires m.Bins() && i < 32
    ensures m.Mapped(Bk(SmallBinAt(i)))
    ensures m.At(Bk(SmallBinAt(i))) == SmallBinAt(i) ==> !Marked(m.smallmap, i)
  {
    hide State.Bins, Marked;
    SmallHeaderMapped(m, i);
    if Marked(m.smallmap, i) {
      FirstRead(m, i);
      SmallRing(m, i, 0);
      SmallRingDistinct(m, i, 0, 1);
    }
  }

  lemma SmallHeaderMapped(m: State, i: nat)
    requires i < 32
    ensures m.Mapped(Bk(SmallBinAt(i)))
  {
  }

  lemma HeaderOnly(m: State, i: nat)
    requires m.Bins() && i < 32 && Marked(m.smallmap, i)
    ensures var r := RingOf(m.small, i);
            |r| >= 2 && Next(0, |r|) == 1 && r[0] == SmallBinAt(i)
  {
    hide State.Bins, Marked;
    FirstRead(m, i);
  }

  /** A member of a small bin, when the traversal along `bk` is at it. */
  lemma SmallMember(m: State, i: nat, k: nat)
    requires Valid(m) && i < 32 && Marked(m.smallmap, i) && k <= |RingOf(m.small, i)|
    requires var r := RingOf(m.small, i); |r| >= 2 && (if k < |r| then r[k] else r[0]) != SmallBinAt(i)
    ensures var r := RingOf(m.small, i);
            && 0 < k < |r|
            && var p, q := r[k], r[k] + 8 * i;
               && p in m.chunks && !m.chunks[p].cinuse && m.Mapped(Head(p)) && ChunkSize(m.At(Head(p))) == 8 * i
               && SmallIndex(8 * i) == i
               && m.Mapped(Bk(p)) && m.At(Bk(p)) == (if k + 1 < |r| then r[k + 1] else r[0])
               && (m.At(Bk(p)) != SmallBinAt(i) ==>
                    m.Mapped(Head(m.At(Bk(p)))) && ChunkSize(m.At(Head(m.At(Bk(p))))) == 8 * i)
               && m.Mapped(Head(q)) && q in m.chunks && m.chunks[q].cinuse
  {
    hide Valid, Marked, RingOf, ChunkSize;
    HeapStart(m);
    SmallRing(m, i, 0);
    var r := RingOf(m.small, i);
    SmallRing(m, i, k);
    BinnedChunk(m, r[k]);
    if k + 1 < |r| {
      SmallRing(m, i, k + 1);
      BinnedChunk(m, r[k + 1]);
    }
  }

  /** A binned chunk, its head, and the chunk in use after it. */
  lemma BinnedChunk(m: State, p: int)
    requires Valid(m) && p in m.sizes
    ensures p in m.chunks && !m.chunks[p].cinuse && m.chunks[p].size == m.sizes[p] && p != m.dv
    ensures m.Mapped(Head(p)) && ChunkSize(m.At(Head(p))) == m.sizes[p] && p > 0
    ensures var q := p + m.sizes[p]; m.Mapped(Head(q)) && q in m.chunks && m.chunks[q].cinuse
  {
    hide HeapOk, State.Bins, TopOk;
    ChunkReads(m, p);
    InuseOrFree(m.At(Head(p)), m.chunks[p]);
    ChunkReads(m, p + m.chunks[p].size);
  }

  /** `minsize_for_tree_index`. */
  function MinSizeForTreeIndex(i: nat): int {
    Pow2(i / 2 + 8) + (if i % 2 == 1 then Pow2(i / 2 + 7) else 0)
  }

  /** Sizes of a bin lie between its smallest size and the next bin's. */
  lemma TreeIndexRange(s: nat)
    requires MIN_LARGE_SIZE <= s < WORD_LIMIT
    ensures var i := TreeIndex(s);
            MinSizeForTreeIndex(i) <= s && (i == 31 || s < MinSizeForTreeIndex(i + 1))
  {
    hide TreeIndex, Pow2, Shr;
    var i := TreeIndex(s);
    RootOfBin(s);
    if i == 31 {
      LastBin(s);
    } else {
      var w := RootBits(i);
      SplitAt(s, w);
      PowerSteps(i / 2);
      PrefixRange(s, Pow2(w), Shr(s, w), i);
    }
  }

  lemma PowerSteps(h: nat)
    ensures Pow2(h + 8) == 2 * Pow2(h + 7) && Pow2(h + 9) == 4 * Pow2(h + 7)
  {
  }

  lemma PrefixRange(s: nat, p: nat, q: nat, i: nat)
    requires q == 2 + i % 2 && q * p <= s < q * p + p
    ensures 2 * p + (if i % 2 == 1 then p else 0) <= s < (if i % 2 == 1 then 4 * p else 3 * p)
  {
  }

  lemma LastBin(s: nat)
    requires TreeIndex(s) == 31 && MIN_LARGE_SIZE <= s < WORD_LIMIT
    ensures MinSizeForTreeIndex(31) <= s
  {
    hide Pow2, Shr;
    PowerSteps(15);
    Pow2Small();
    Pow2Add(8, 16);
    PowerSteps(16);
    var x := Shr(s, 8);
    ShrEight(s);
    if x <= 0xFFFF {
      Log2Bound(x);
      LeadingBits(s);
      SplitAt(s, 22);
      ThreeTimes(Shr(s, 22), Pow2(22), s);
    }
  }

  lemma ThreeTimes(q: nat, p: nat, s: nat)
    requires q >= 3 && q * p <= s
    ensures 3 * p <= s
  {
    assert q * p == 3 * p + (q - 3) * p;
  }

  // ---- trees ----

  /** A member of a chain as `do_check_tree` looks at it. */
  lemma ChainMember(m: State, p: Pos, k: nat)
    requires Valid(m) && p in m.tree && k < |m.tree[p]|
    ensures var r := m.tree[p];
            var u, f := r[k], r[Previous(k, |r|)];
            && u in m.chunks && !m.chunks[u].cinuse && m.Mapped(Head(u)) && m.Mapped(IndexAt(u))
            && m.At(IndexAt(u)) == p.bin
            && ChunkSize(m.At(Head(u))) == Key(m.tree, m.sizes, p) && !IsInUse(m.At(Head(u)))
            && m.Mapped(Head(u + Key(m.tree, m.sizes, p))) && !PInUse(m.At(Head(u + Key(m.tree, m.sizes, p))))
            && m.Mapped(Fd(u)) && m.Mapped(Bk(u)) && m.At(Fd(u)) == f && m.Mapped(Bk(f)) && m.At(Bk(f)) == u
            && m.Mapped(Fd(m.At(Bk(u)))) && m.At(Fd(m.At(Bk(u)))) == u
            && m.Mapped(ParentAt(u)) && m.Mapped(ChildAt(u, 0)) && m.Mapped(ChildAt(u, 1))
            && (k > 0 ==> m.At(ParentAt(u)) == 0 && m.At(ChildAt(u, 0)) == 0 && m.At(ChildAt(u, 1)) == 0)
  {
    hide HeapOk, TopOk, Placed, Shape, Key, TreeLinks, SmallLinks, SmallShape, SmallBins.HoldsSmall, HoldsLarge,
      SizeHeads;
    var u := m.tree[p][k];
    HeapStart(m);
    LargeRing(m, p, k);
    BinnedChunk(m, u);
    ChunkReads(m, u);
    FreeWord(m.At(Head(u)), m.chunks[u].size) by { SizeEight(m.chunks[u].size); }
    LargeInTree(m, p, k);
    ChainRead(m.mem, m.treemap, m.sizes, m.tree, p, k);
    if k > 0 {
      ChainNulls(m.mem, m.treemap, m.tree, p, k);
    }
  }

  lemma ChainNulls(mem: Memory, treemap: BinMap, tree: Tree, p: Pos, k: nat)
    requires TreeLinks(mem, treemap, tree) && p in tree && 0 < k < |tree[p]|
    ensures Peek(mem, ParentAt(tree[p][k])) == 0 && Peek(mem, ChildAt(tree[p][k], 0)) == 0
    ensures Peek(mem, ChildAt(tree[p][k], 1)) == 0
  {
    assert PosLinks(mem, tree, p);
  }

  /** The parent word of a tree node, and the word that points back to the node. */
  lemma NodeParent(m: State, p: Pos)
    requires m.Bins() && p in m.tree && |m.tree[p]| > 0
    ensures var u := m.tree[p][0];
            var up := Peek(m.mem, ParentAt(u));
            && up != 0 && up != u && u >= GM_END
            && (Peek(m.mem, ChildAt(up, 0)) == u || Peek(m.mem, ChildAt(up, 1)) == u || Peek(m.mem, up) == u)
  {
    hide SmallLinks, SmallShape, SmallBins.HoldsSmall, HoldsLarge, SizeHeads, Shape, TreeLinks;
    ChainRead(m.mem, m.treemap, m.sizes, m.tree, p, 0);
    NodeAboveGm(m.tree, m.sizes, p);
    if p.w == RootBits(p.bin) {
      RootRead(m.mem, m.treemap, m.sizes, m.tree, p.bin);
    } else {
      NodeAboveGm(m.tree, m.sizes, Up(p));
      ChildRead(m.mem, m.treemap, m.sizes, m.tree, Up(p), p.q % 2);
      DownUp(p);
      if m.tree[p][0] == m.tree[Up(p)][0] {
        ChainsDisjoint(m.tree, m.sizes, p, Up(p), 0, 0);
      }
    }
  }

  /** A child of the node at `p`. */
  lemma NodeChild(m: State, p: Pos, b: nat)
    requires Valid(m) && p in m.tree && |m.tree[p]| > 0 && b < 2
    ensures p.w > 0
    ensures var u, d := m.tree[p][0], Down(p, b);
            && m.Mapped(ChildAt(u, b))
            && var c := m.At(ChildAt(u, b));
               (c != 0 <==> d in m.tree)
               && (c != 0 ==> d.w < p.w && |m.tree[d]| > 0 && c == m.tree[d][0] && c != u)
               && (c != 0 ==> m.Mapped(ParentAt(c)) && m.At(ParentAt(c)) == u)
               && (c != 0 ==> m.Mapped(Head(c)) && ChunkSize(m.At(Head(c))) == Key(m.tree, m.sizes, d))
  {
    hide HeapOk, TopOk, Placed, SmallLinks, SmallShape, SmallBins.HoldsSmall, HoldsLarge, SizeHeads, Shape,
      TreeLinks, Key;
    HeapStart(m);
    NodeReads(m, p);
    ChildRead(m.mem, m.treemap, m.sizes, m.tree, p, b);
    var d := Down(p, b);
    if d in m.tree {
      ChainMember(m, d, 0);
      ChainRead(m.mem, m.treemap, m.sizes, m.tree, d, 0);
      UpDown(p, b);
      NotRoot(m.tree, m.sizes, d, p);
      ChainsApart(m.tree, m.sizes, d, p);
    }
  }

  lemma ChainsApart(tree: Tree, sizes: Sizes, d: Pos, p: Pos)
    requires Shape(tree, sizes) && d in tree && p in tree && |tree[d]| > 0 && |tree[p]| > 0 && d != p
    ensures tree[d][0] != tree[p][0]
  {
    if tree[d][0] == tree[p][0] {
      ChainsDisjoint(tree, sizes, d, p, 0, 0);
    }
  }

  lemma NotRoot(tree: Tree, sizes: Sizes, d: Pos, p: Pos)
    requires Shape(tree, sizes) && d in tree && p in tree && Up(d) == p && |tree[p]| > 0
    ensures ParentOf(tree, d) == tree[p][0]
  {
    ShapeAt(tree, sizes, p);
  }

  /** The left child is smaller than the right one. */
  lemma ChildOrder(m: State, p: Pos)
    requires Valid(m) && p in m.tree && p.w > 0 && Down(p, 0) in m.tree && Down(p, 1) in m.tree
    ensures Key(m.tree, m.sizes, Down(p, 0)) < Key(m.tree, m.sizes, Down(p, 1))
  {
    hide HeapOk, TopOk, Placed, Key, TreeIndex;
    HeapStart(m);
    BinsShape(m);
    KeyRange(m.tree, m.sizes, Down(p, 0));
    KeyRange(m.tree, m.sizes, Down(p, 1));
    LeftLess(Key(m.tree, m.sizes, Down(p, 0)), Key(m.tree, m.sizes, Down(p, 1)), p.w - 1);
  }

  /** The loop body of `do_check_tree`. */
  method CheckMember(m: State, u: int, tindex: int, tsize: int, head: int, ghost p: Pos, ghost k: nat)
    returns (ok: bool, head': int)
    requires Valid(m) && p in m.tree && k < |m.tree[p]| && u == m.tree[p][k]
    requires tindex == p.bin && tsize == Key(m.tree, m.sizes, p) && (k == 0 ==> head == 0)
    ensures ok && head' == (if k == 0 then u else head)
    decreases p.w, 0
  {
    hide *;
    HeapStart(m);
    ChainMember(m, p, k);
    var h := m.At(Head(u));
    var any := CheckAnyChunk(m, u);
    ok := any && m.At(IndexAt(u)) == tindex && ChunkSize(h) == tsize && !IsInUse(h) && !PInUse(m.At(Head(u + tsize)))
          && m.At(Bk(m.At(Fd(u)))) == u && m.At(Fd(m.At(Bk(u)))) == u;
    head' := head;
    if k == 0 {
      NodeParent(m, p);
      ParentRead(m, u);
    }
    if m.At(ParentAt(u)) == 0 {
      ok := ok && m.At(ChildAt(u, 0)) == 0 && m.At(ChildAt(u, 1)) == 0;
    } else {
      var up := m.At(ParentAt(u));
      ok := ok && head == 0 && up != u
            && (Peek(m.mem, ChildAt(up, 0)) == u || Peek(m.mem, ChildAt(up, 1)) == u || Peek(m.mem, up) == u);
      head' := u;
      NodeChild(m, p, 0);
      NodeChild(m, p, 1);
      var c0, c1 := m.At(ChildAt(u, 0)), m.At(ChildAt(u, 1));
      if c0 != 0 {
        var sub := CheckTree(m, c0, Down(p, 0));
        ok := ok && m.At(ParentAt(c0)) == u && c0 != u && sub;
      }
      if c1 != 0 {
        var sub := CheckTree(m, c1, Down(p, 1));
        ok := ok && m.At(ParentAt(c1)) == u && c1 != u && sub;
      }
      if c0 != 0 && c1 != 0 {
        ChildOrder(m, p);
        ok := ok && ChunkSize(m.At(Head(c0))) < ChunkSize(m.At(Head(c1)));
      }
    }
  }

  lemma ParentRead(m: State, u: int)
    requires m.Mapped(ParentAt(u))
    ensures m.At(ParentAt(u)) == Peek(m.mem, ParentAt(u))
  {
  }

  /** `do_check_tree`. */
  method CheckTree(m: State, t: int, ghost p: Pos) returns (ok: bool)
    requires Valid(m) && p in m.tree && |m.tree[p]| > 0 && t == m.tree[p][0]
    ensures ok
    decreases p.w, 1
  {
    hide *;
    HeapStart(m);
    ChainMember(m, p, 0);
    NodeSizes(m, p);
    var head, u, tindex := 0, t, m.At(IndexAt(t));
    var tsize := ChunkSize(m.At(Head(t)));
    var idx := TreeIndex(tsize);
    ok := tindex == idx && tsize >= MIN_LARGE_SIZE && tsize >= MinSizeForTreeIndex(idx)
          && (idx == 31 || tsize < MinSizeForTreeIndex(idx + 1));
    var member: bool;
    member, head := CheckMember(m, u, tindex, tsize, head, p, 0);
    ok := ok && member;
    ghost var r := m.tree[p];
    ghost var k := |r| - 1;
    ChainStart(r, t);
    u := m.At(Fd(u));
    while u != t
      invariant 0 <= k < |r| && u == r[k] && ok && head == t
      decreases k
    {
      ChainMember(m, p, k);
      IndexBack(r, k);
      member, head := CheckMember(m, u, tindex, tsize, head, p, k);
      ok := ok && member;
      u := m.At(Fd(u));
      k := k - 1;
    }
    NodeParent(m, p);
    NotNull(t);
    ok := ok && head != 0;
  }

  lemma NotNull(t: int)
    requires t >= GM_END
    ensures t != 0
  {
  }

  lemma IndexBack(r: seq<int>, k: nat)
    requires k < |r| && r[k] != r[0]
    ensures k > 0 && Previous(k, |r|) == k - 1
  {
  }

  lemma NodeSizes(m: State, p: Pos)
    requires Valid(m) && p in m.tree
    ensures var s := Key(m.tree, m.sizes, p);
            && s >= MIN_LARGE_SIZE && p.bin == TreeIndex(s) && MinSizeForTreeIndex(p.bin) <= s
            && (p.bin == 31 || s < MinSizeForTreeIndex(p.bin + 1))
  {
    hide HeapOk, TopOk, Placed, Key, TreeIndex, MinSizeForTreeIndex;
    HeapStart(m);
    BinsShape(m);
    KeyRange(m.tree, m.sizes, p);
    TreeIndexRange(Key(m.tree, m.sizes, p));
  }

  /** `do_check_treebin`. */
  method CheckTreebin(m: State, i: nat) returns (ok: bool)
    requires Valid(m) && i < 32
    ensures ok
  {
    hide *;
    HeapStart(m);
    TreeRootRead(m, i);
    var t := m.At(TreeBinAt(i));
    var empty := !Marked(m.treemap, i);
    RootCheck(m, i, t);
    ok := true;
    if t == 0 {
      ok := empty;
    }
    if !empty {
      var tree := CheckTree(m, t, RootPos(i));
      ok := ok && tree;
    }
  }

  lemma RootCheck(m: State, i: nat, t: int)
    requires IsChild(m.tree, t, RootPos(i))
    ensures t == 0 <==> RootPos(i) !in m.tree
    ensures t != 0 ==> |m.tree[RootPos(i)]| > 0 && t == m.tree[RootPos(i)][0]
  {
  }

  // ---- the whole heap ----

  /** `traverse_and_check`: every chunk from the base of the segment to `top`; `sum` is the
      number of bytes seen. */
  method TraverseAndCheck(m: State) returns (ok: bool, sum: int)
    requires Valid(m)
    ensures ok && sum == m.segSize
  {
    hide *;
    sum := m.topsize + TOP_FOOT_SIZE;
    var q, lastq := m.segBase, 0;
    TraverseStart(m);
    ok := PInUse(m.At(Head(q)));
    while m.segBase <= q < m.segBase + m.segSize && q != m.top && m.At(Head(q)) != FENCEPOST_HEAD
      invariant ok && sum == m.topsize + TOP_FOOT_SIZE + (q - m.segBase)
      invariant q == m.top || q in m.chunks
      invariant m.Mapped(Head(q)) && m.segBase <= q <= m.top
      invariant lastq == 0 || (lastq in m.chunks && m.Mapped(Head(lastq)) && lastq + m.chunks[lastq].size == q)
      decreases m.top - q
    {
      ChunkReads(m, q);
      HeadTells(m.At(Head(q)), m.chunks[q]);
      sum := sum + ChunkSize(m.At(Head(q)));
      var found := BinFind(m, q);
      FoundIsFree(m, q);
      if IsInUse(m.At(Head(q))) {
        var used := CheckInuseChunk(m, q);
        ok := ok && !found && used;
      } else {
        var free := CheckFreeChunk(m, q);
        LastInUse(m, q, lastq);
        ok := ok && (q == m.dv || found) && (lastq == 0 || IsInUse(m.At(Head(lastq)))) && free;
      }
      TraverseNext(m, q);
      lastq := q;
      q := q + ChunkSize(m.At(Head(q)));
    }
    TraverseEnd(m, q);
  }

  lemma TraverseStart(m: State)
    requires Valid(m)
    ensures m.Mapped(Head(m.segBase)) && PInUse(m.At(Head(m.segBase))) && (m.segBase == m.top || m.segBase in m.chunks)
    ensures m.segBase <= m.top
  {
    hide Tags, Placed, State.Bins;
    TopAboveBase(m);
    TopReads(m);
    if m.segBase < m.top {
      ChunkReads(m, m.segBase);
      InuseOrFree2(m.At(Head(m.segBase)), m.chunks[m.segBase]);
    }
  }

  lemma InuseOrFree2(h: int, c: Chunk)
    requires c.size % 16 == 0 && h == HeadWord(c.size, c.cinuse, c.pinuse)
    ensures PInUse(h) == c.pinuse
  {
    SizeEight(c.size);
    HeadFields(c.size, c.cinuse, c.pinuse);
  }

  lemma HeadTells(h: int, c: Chunk)
    requires c.size % 16 == 0 && h == HeadWord(c.size, c.cinuse, c.pinuse)
    ensures ChunkSize(h) == c.size && (IsInUse(h) <==> c.cinuse || !c.pinuse)
  {
    SizeEight(c.size);
    HeadFields(c.size, c.cinuse, c.pinuse);
  }

  lemma FoundIsFree(m: State, q: int)
    requires Valid(m) && q in m.chunks
    ensures m.chunks[q].cinuse ==> q !in m.sizes
    ensures !m.chunks[q].cinuse ==> (q == m.dv || q in m.sizes) && m.chunks[q].pinuse
  {
    hide Tags, Tiles, State.Bins, TopOk;
    assert FlagsAt(m.chunks, m.top, q);
  }

  lemma LastInUse(m: State, q: int, lastq: int)
    requires Valid(m) && q in m.chunks && !m.chunks[q].cinuse
    requires lastq == 0 || (lastq in m.chunks && m.Mapped(Head(lastq)) && lastq + m.chunks[lastq].size == q)
    ensures lastq == 0 || IsInUse(m.At(Head(lastq)))
  {
    hide Tags, Tiles, State.Bins, TopOk, Placed, State.Mapped, ChunkSize;
    if lastq != 0 {
      assert FlagsAt(m.chunks, m.top, lastq) && FlagsAt(m.chunks, m.top, q);
      ChunkReads(m, lastq);
      HeadTells(m.At(Head(lastq)), m.chunks[lastq]);
    }
  }

  lemma TraverseNext(m: State, q: int)
    requires Valid(m) && q in m.chunks && m.Mapped(Head(q))
    ensures var n := q + m.chunks[q].size;
            && ChunkSize(m.At(Head(q))) == m.chunks[q].size && q < n <= m.top && (n in m.chunks || n == m.top)
            && m.Mapped(Head(n)) && m.segBase <= n
            && q != 0
  {
    hide Valid, ChunkSize, State.Mapped;
    ChunkReads(m, q);
    HeadTells(m.At(Head(q)), m.chunks[q]);
    BelowTopOf(m, q);
  }

  lemma BelowTopOf(m: State, q: int)
    requires Valid(m) && q in m.chunks
    ensures m.segBase <= q
  {
    hide Tags, Flags, State.Bins, TopOk, Placed;
    ChunkBelowTop(m.chunks, m.segBase, m.top, q);
  }

  /** The traversal stops nowhere but at `top`. */
  lemma TraverseEnd(m: State, q: int)
    requires Valid(m) && (q == m.top || q in m.chunks) && m.Mapped(Head(q))
    requires !(m.segBase <= q < m.segBase + m.segSize && q != m.top && m.At(Head(q)) != FENCEPOST_HEAD)
    ensures q == m.top && m.topsize + TOP_FOOT_SIZE + (q - m.segBase) == m.segSize
  {
    hide HeapOk, State.Bins, Placed, TopOk, ChunkSize;
    TopReads(m);
    if q != m.top {
      ChunkReads(m, q);
      BelowTopOf(m, q);
    }
  }

  /** `do_check_malloc_state`: in a heap that satisfies the invariant no check fails, and
      the bytes counted are exactly those of the segment. */
  method CheckMallocState(m: State) returns (ok: bool, total: int)
    requires Valid(m)
    ensures ok && total == m.segSize == m.footprint <= m.maxFootprint
  {
    hide *;
    ok := true;
    for i := 0 to 32
      invariant ok
    {
      var bin := CheckSmallbin(m, i);
      ok := ok && bin;
    }
    for i := 0 to 32
      invariant ok
    {
      var bin := CheckTreebin(m, i);
      ok := ok && bin;
    }
    VictimCheck(m);
    if m.dvsize != 0 {
      var any := CheckAnyChunk(m, m.dv);
      var found := BinFind(m, m.dv);
      ok := ok && any && m.dvsize == ChunkSize(m.At(Head(m.dv))) && m.dvsize >= MIN_CHUNK_SIZE && !found;
    }
    TopUnbinned(m);
    if m.top != 0 {
      var t := CheckTopChunk(m);
      var found := BinFind(m, m.top);
      ok := ok && t && m.topsize > 0 && !found;
    }
    var all: bool;
    all, total := TraverseAndCheck(m);
    FootprintIs(m);
    ok := ok && all && total <= m.footprint && m.footprint <= m.maxFootprint;
  }

  lemma VictimCheck(m: State)
    requires Valid(m)
    ensures m.dvsize != 0 ==> m.dv in m.chunks && m.dv !in m.sizes && m.Mapped(Head(m.dv))
                              && ChunkSize(m.At(Head(m.dv))) == m.dvsize && m.dvsize >= MIN_CHUNK_SIZE
    ensures m.topsize > 0
  {
    hide HeapOk, State.Bins;
    if m.dvsize != 0 {
      ChunkReads(m, m.dv);
      HeadTells(m.At(Head(m.dv)), m.chunks[m.dv]);
    }
  }

  lemma FootprintIs(m: State)
    requires Valid(m)
    ensures m.footprint == m.segSize <= m.maxFootprint
  {
    hide HeapOk, State.Bins, Placed, TopOk;
  }
}
