/** `tmalloc_large` and `tmalloc_small`: serving a request from the tree bins. Both hand out
    the oldest of the smallest chunks that are large enough. */
module LargeRequests {
  import opened Words
  import opened SizeBits
  import opened BinMaps
  import opened TreeBins
  import opened TreeChains
  import opened TreeOrder
  import BinHistory
  import opened MallocState
  import opened Boundaries
  import opened Invariant
  import opened LargeChunks
  import opened Freeing
  import opened Taking
  import opened BestFit

  /** `v` is a smallest tree chunk of at least `nb` bytes. */
  ghost predicate SmallestLarge(tree: Tree, sizes: Sizes, nb: int, v: int) {
    && v in sizes && InTree(tree, v) && nb <= sizes[v]
    && forall x :: x in sizes && InTree(tree, x) && nb <= sizes[x] ==> sizes[v] <= sizes[x]
  }

  /** `v` is the first of the chunks of its size to have been binned. */
  ghost predicate Oldest(tree: Tree, sizes: Sizes, v: int) {
    v in sizes && var r := ChainOfSize(tree, sizes, sizes[v]); r != [] && r[0] == v
  }

  ghost predicate NoneFits(tree: Tree, sizes: Sizes, nb: int) {
    forall x :: x in sizes && InTree(tree, x) ==> sizes[x] < nb
  }

  /** The choice of a search: null if no chunk fits, else the oldest of the smallest. */
  ghost predicate Best(tree: Tree, sizes: Sizes, nb: int, v: int, rsize: int) {
    if v == 0 then NoneFits(tree, sizes, nb) && rsize == Minus(0, nb)
    else SmallestLarge(tree, sizes, nb, v) && Oldest(tree, sizes, v) && sizes[v] == nb + rsize && rsize >= 0
  }

  lemma NowBest(m: State, nb: nat, v: int, rsize: int, c: Pos, d: Pos)
    requires m.Bins() && nb > 0
    requires Chosen(m.tree, m.sizes, nb, v, rsize, c) && AllCovered(m.tree, m.sizes, nb, nb + rsize, false, d)
    ensures Best(m.tree, m.sizes, nb, v, rsize)
  {
    hide State.Bins, Shape, Key, Under, ChainOfSize;
    BinsShape(m);
    forall x | x in m.sizes && InTree(m.tree, x) && nb <= m.sizes[x]
      ensures nb + rsize <= m.sizes[x]
    {
      var q, j := FindMember(m.tree, x);
      MemberKey(m.tree, m.sizes, q, j);
      assert Covered(m.tree, m.sizes, nb + rsize, false, d, q);
    }
    if v == 0 {
      forall x | x in m.sizes && InTree(m.tree, x)
        ensures m.sizes[x] < nb
      {
        SizeBelowLimit(m, x);
      }
    } else {
      MemberKey(m.tree, m.sizes, c, 0);
      assert HasSize(m.tree, m.sizes, m.sizes[v], c);
      ChainIs(m.tree, m.sizes, m.sizes[v], c);
      assert m.tree[c][0] in m.tree[c];
    }
  }

  lemma MemberKey(tree: Tree, sizes: Sizes, p: Pos, j: nat)
    requires Shape(tree, sizes) && p in tree && j < |tree[p]|
    ensures tree[p][j] in sizes && sizes[tree[p][j]] == Key(tree, sizes, p)
  {
    ShapeAt(tree, sizes, p);
  }

  lemma SizeBelowLimit(m: State, x: int)
    requires m.Bins() && x in m.sizes
    ensures m.sizes[x] < WORD_LIMIT
  {
    hide BinsOk;
  }

  /** The search of `tmalloc_large`. */
  method ChooseLarge(m: State, nb: nat) returns (v: int, rsize: int)
    requires m.Bins() && MIN_LARGE_SIZE <= nb < WORD_LIMIT
    ensures Best(m.tree, m.sizes, nb, v, rsize)
  {
    hide *;
    BinsShape(m);
    ghost var d, c := RootPos(0), RootPos(0);
    var t := 0;
    v, rsize := 0, Minus(0, nb);
    IndexInRange(nb);
    var idx := TreeIndex(nb);
    TreeRootRead(m, idx);
    var root := m.At(TreeBinAt(idx));
    if root != 0 {
      t, v, rsize, d, c := WalkForSize(m, nb, idx, root);
    } else {
      EmptyRoot(m.tree, m.sizes, nb, d, c);
    }
    if t == 0 && v == 0 {
      NotWalked(m.tree, m.sizes, nb, d, rsize, c);
      c := RootPos(idx);
      t, d := NextTree(m, nb, idx);
    } else {
      AllWalked(m.tree, m.sizes, nb, t, d, v, rsize, c);
    }
    ghost var d0 := d;
    v, rsize, c := SmallestOf(m, nb, t, v, rsize, d, c);
    NowBest(m, nb, v, rsize, c, d0);
  }

  lemma IndexInRange(nb: nat)
    requires MIN_LARGE_SIZE <= nb < WORD_LIMIT
    ensures TreeIndex(nb) < 32 && 0 < nb < WORD_LIMIT
  {
    RootOfBin(nb);
  }

  lemma EmptyRoot(tree: Tree, sizes: Sizes, nb: nat, d: Pos, c: Pos)
    requires Shape(tree, sizes) && IsChild(tree, 0, RootPos(TreeIndex(nb))) && MIN_LARGE_SIZE <= nb < WORD_LIMIT
    ensures Walked(tree, sizes, nb, 0, d, 0, Minus(0, nb), c)
  {
    hide Shape, Key, TreeIndex, RootPos;
    forall q | q in tree && nb <= Key(tree, sizes, q)
      ensures TreeIndex(nb) < q.bin
    {
      UnderRoot(tree, sizes, q);
      OtherBin(tree, sizes, nb, q);
    }
  }

  lemma NotWalked(tree: Tree, sizes: Sizes, nb: nat, d: Pos, rsize: int, c: Pos)
    requires Walked(tree, sizes, nb, 0, d, 0, rsize, c) && nb > 0
    ensures OnlyHigher(tree, sizes, nb) && rsize == Minus(0, nb)
  {
  }

  lemma AllWalked(tree: Tree, sizes: Sizes, nb: nat, t: int, d: Pos, v: int, rsize: int, c: Pos)
    requires Walked(tree, sizes, nb, t, d, v, rsize, c) && (t != 0 || v != 0)
    ensures Descending(tree, sizes, nb, t, d, v, rsize, c)
  {
  }

  // ---- taking the chosen chunk ----

  lemma HeapStart(m: State)
    requires Valid(m)
    ensures m.Bins() && Opened(m, Snap(m), {}) && Sound(Snap(m))
    ensures var s := Snap(m); s.sizes == m.sizes && s.dv == m.dv && s.dvsize == m.dvsize && s.dvsize >= 0
  {
    hide Tiles, Flags, Tags, BinsOk, Within;
    ValidSound(m);
    assert m.sizes == Snap(m).sizes - {};
    DvSize(Snap(m));
  }

  lemma DvSize(s: Snapshot)
    requires Sound(s)
    ensures 0 <= s.dvsize < WORD_LIMIT && s.dvsize % 16 == 0
  {
    hide Flags, Tags;
    if s.dvsize != 0 {
      assert ChunkFits(s.chunks, s.base, s.top, s.dv);
    }
  }

  /** A binned chunk is a free chunk of the heap whose head can be read. */
  lemma BinnedUsable(m: State, s: Snapshot, v: int)
    requires Opened(m, s, {}) && v in s.sizes
    ensures Usable(s, v, v + s.sizes[v]) && v != s.dv && v > 0
    ensures m.Mapped(Head(v)) && ChunkSize(m.At(Head(v))) == s.sizes[v] && m.OkAddress(v)
  {
    hide BinsOk, Within, OnlyLinks, Flags, Tags, Tiles;
    FreeIsUsable(s, v);
    HeadRead(s, m, {}, v);
    BoundaryRead(s, m, {}, v);
    GmBelow(s, v);
  }

  lemma TakenFromTree(m: State, s: Snapshot, v: int, mem0: Memory)
    requires Sound(s) && v in s.sizes && m.Bins() && m.sizes == Less(s.sizes, v) && OnlyLinks(mem0, m.mem, s.sizes)
    requires mem0 == s.mem
    requires m.chunks == s.chunks && m.dv == s.dv && m.dvsize == s.dvsize && m.segBase == s.base && m.segSize == s.size
    requires m.top == s.top && m.topsize == s.topsize && m.footprint == m.segSize <= m.maxFootprint
    ensures Opened(m, s, {v}) && m.sizes == s.sizes - {v}
  {
    hide Sound, BinsOk, Within, OnlyLinks;
  }

  /** `unlink_large_chunk` on the chosen chunk, the first step of taking it. */
  method UnlinkChosen(m: State, v: int, ghost s: Snapshot)
    requires Valid(m) && s == Snap(m) && InTree(m.tree, v) && v in m.sizes
    modifies m`mem, m`treemap, m`sizes, m`tree, m`trace
    ensures m.trace == old(m.trace) + [BinHistory.Remove(v)] && (old(m.Chronicled()) ==> m.Chronicled())
    ensures Opened(m, s, {v}) && m.sizes == s.sizes - {v}
  {
    hide *;
    HeapStart(m);
    StartFields(m);
    UnlinkLargeChunk(m, v);
    TakenFromTree(m, s, v, s.mem);
  }

  lemma StartFields(m: State)
    requires Valid(m)
    ensures var s := Snap(m);
            && s.mem == m.mem && s.sizes == m.sizes
            && m.chunks == s.chunks && m.dv == s.dv && m.dvsize == s.dvsize && m.segBase == s.base
            && m.segSize == s.size
            && m.top == s.top && m.topsize == s.topsize && m.footprint == m.segSize <= m.maxFootprint
  {
    hide HeapOk, State.Bins, Placed, TopOk;
  }

  /** Handing out a tree chunk: the oldest of the smallest that fit. */
  ghost predicate BestTree(tree: Tree, sizes: Sizes, v: int, nb: int) {
    SmallestLarge(tree, sizes, nb, v) && Oldest(tree, sizes, v)
  }

  /** If any tree chunk fits, the designated victim does, and at least as well. */
  ghost predicate VictimServes(tree: Tree, sizes: Sizes, nb: int, dvsize: int) {
    forall x :: x in sizes && InTree(tree, x) && nb <= sizes[x] ==> nb <= dvsize <= sizes[x]
  }

  /** Serves a large request from the tree bins, unless none of their chunks fits or the
      designated victim fits at least as well. */
  method TmallocLarge(m: State, nb: nat) returns (mem: int)
    requires Valid(m) && MIN_LARGE_SIZE <= nb < WORD_LIMIT && nb % 16 == 0
    modifies m
    ensures old(m.trace) <= m.trace && (old(m.Chronicled()) ==> m.Chronicled())
    ensures mem == 0 ==> unchanged(m)
    ensures mem == 0 ==> VictimServes(m.tree, m.sizes, nb, m.dvsize)
    ensures mem != 0 ==> Allocated(m, old(Snap(m)), mem - 16, nb) && BestTree(old(m.tree), old(m.sizes), mem - 16, nb)
    ensures mem != 0 ==>
              mem - 16 in old(m.sizes)
              && ShelfOf(Snap(m)) == TakeBinned(old(ShelfOf(Snap(m))), mem - 16, old(m.sizes)[mem - 16], nb)
    ensures mem != 0 && nb <= old(m.dvsize) ==> mem - 16 in old(m.sizes) && old(m.sizes)[mem - 16] < old(m.dvsize)
  {
    hide *;
    ghost var s, tree := Snap(m), m.tree;
    HeapStart(m);
    var v, rsize := ChooseLarge(m, nb);
    BetterThanVictim(m, nb, v, rsize);
    mem := 0;
    if v != 0 && rsize < Minus(m.dvsize, nb) {
      BinnedUsable(m, s, v);
      if m.OkAddress(v) {
        var r := v + nb;
        assert ChunkSize(m.At(Head(v))) == rsize + nb;
        RequestPositive(nb);
        if v < r {
          ShelfIs(m);
          UnlinkChosen(m, v, s);
          if rsize < MIN_CHUNK_SIZE {
            SmallRemainder(nb, rsize);
            TakeWhole(m, v, rsize + nb, s, nb, {v});
            WholeTaken(ShelfOf(s), v, rsize + nb, nb);
          } else {
            OpenedFields(m, s, {v});
            SplitTags(m, v, nb, rsize, s, r + rsize, {v});
            BinRemainder(m, r, rsize, s, v, nb, r + rsize);
            LargeTaken(ShelfOf(s), v, rsize + nb, nb);
          }
          ShelfIs(m);
          mem := v + 16;
        } else {
          assert false;
        }
      } else {
        assert false;
      }
    }
  }

  lemma RequestPositive(nb: nat)
    requires nb >= MIN_LARGE_SIZE
    ensures nb > 0 && nb >= MIN_CHUNK_SIZE && !IsSmall(nb)
  {
  }

  lemma SmallRemainder(nb: nat, rsize: int)
    requires 0 <= rsize < MIN_CHUNK_SIZE
    ensures nb <= rsize + nb < nb + MIN_CHUNK_SIZE
  {
  }

  /** The comparison with the designated victim, whose difference may have wrapped. */
  lemma BetterThanVictim(m: State, nb: nat, v: int, rsize: int)
    requires Valid(m) && MIN_LARGE_SIZE <= nb < WORD_LIMIT && Best(m.tree, m.sizes, nb, v, rsize)
    ensures v != 0 && rsize < Minus(m.dvsize, nb) ==>
      BestTree(m.tree, m.sizes, v, nb) && m.sizes[v] == nb + rsize && rsize >= 0 && v in m.sizes && InTree(m.tree, v)
      && (nb <= m.dvsize ==> m.sizes[v] < m.dvsize)
    ensures !(v != 0 && rsize < Minus(m.dvsize, nb)) ==> VictimServes(m.tree, m.sizes, nb, m.dvsize)
  {
    hide Tiles, Flags, Tags, BinsOk, Oldest, Placed, TopOk, Sound;
    HeapStart(m);
    DvSize(Snap(m));
    if v != 0 {
      SizeBelowLimit(m, v);
    }
  }

  // ---- small requests ----

  /** Bin `i` is the lowest tree bin that is not empty. */
  ghost predicate LowestBin(tree: Tree, i: nat) {
    i < 32 && RootPos(i) in tree && forall q {:trigger q in tree} :: q in tree ==> i <= q.bin
  }

  lemma LeastTree(m: State)
    requires m.Bins() && m.treemap != 0
    ensures LeastBit(m.treemap) != 0 && LowestBin(m.tree, BitIndex(LeastBit(m.treemap)))
  {
    hide Shape, Key, TreeIndex, LeastBit, Marked, Spaced, SizeHeads, SmallBins.SmallLinks, TreeLinks;
    LeastBitIsLeast(m.treemap);
    var i := BitIndex(LeastBit(m.treemap));
    TreeRootRead(m, i);
    forall q | q in m.tree
      ensures i <= q.bin
    {
      KeyRange(m.tree, m.sizes, q);
      UnderRoot(m.tree, m.sizes, q);
      TreeRootRead(m, q.bin);
    }
  }

  /** The root of the lowest bin, visited before the descent begins. */
  lemma LowestRoot(tree: Tree, sizes: Sizes, nb: nat, i: nat, t: int)
    requires Shape(tree, sizes) && LowestBin(tree, i) && 0 < nb < MIN_LARGE_SIZE && IsChild(tree, t, RootPos(i))
    ensures var d := RootPos(i);
            && d in tree && |tree[d]| > 0 && t == tree[d][0] && t != 0 && Key(tree, sizes, d) >= nb
            && Descending(tree, sizes, nb, t, d, t, Key(tree, sizes, d) - nb, d)
  {
    hide Shape, Key, TreeIndex, RootPos;
    var d := RootPos(i);
    KeyRange(tree, sizes, d);
    RootBin(i);
    forall q | q in tree && nb <= Key(tree, sizes, q)
      ensures Covered(tree, sizes, Key(tree, sizes, d), true, d, q)
    {
      KeyRange(tree, sizes, q);
      UnderRoot(tree, sizes, q);
      if i < q.bin {
        LowerBinLess(Key(tree, sizes, d), Key(tree, sizes, q));
      }
    }
    forall q | Under(tree, sizes, d, q)
      ensures q in tree && Key(tree, sizes, q) >= nb
    {
      KeyRange(tree, sizes, q);
    }
  }

  /** The search of `tmalloc_small`: the smallest chunk of all trees. */
  method ChooseSmall(m: State, nb: nat) returns (v: int, rsize: int)
    requires m.Bins() && m.treemap != 0 && MIN_CHUNK_SIZE <= nb < MIN_LARGE_SIZE
    ensures v != 0 && Best(m.tree, m.sizes, nb, v, rsize)
  {
    hide *;
    BinsShape(m);
    PositiveRequest(nb);
    LeastTree(m);
    var i := BitIndex(LeastBit(m.treemap));
    LowestIndex(m.tree, i);
    TreeRootRead(m, i);
    var t := m.At(TreeBinAt(i));
    v := t;
    LowestRoot(m.tree, m.sizes, nb, i, t);
    ghost var d, c := RootPos(i), RootPos(i);
    NodeReads(m, d);
    rsize := ChunkSize(m.At(Head(t))) - nb;
    t := LeftmostChild(m, t, d);
    LeftmostNode(m.tree, t, d);
    Descend(m.tree, m.sizes, nb, v, t, d, v, rsize, c);
    ghost var v0, rsize0, d0 := v, rsize, LeftmostPos(m.tree, d);
    v, rsize, c := SmallestOf(m, nb, t, v, rsize, d0, c);
    RootStillFits(m, nb, v, rsize, c, v0, rsize0, d, d0);
    NowBest(m, nb, v, rsize, c, d0);
  }

  lemma LowestIndex(tree: Tree, i: nat)
    requires LowestBin(tree, i)
    ensures i < 32
  {
  }

  lemma PositiveRequest(nb: nat)
    requires MIN_CHUNK_SIZE <= nb < MIN_LARGE_SIZE
    ensures 0 < nb && nb < MIN_LARGE_SIZE
  {
  }

  /** A search that started with a chunk ends with one. */
  lemma RootStillFits(m: State, nb: nat, v: int, rsize: int, c: Pos, v0: int, rsize0: int, d: Pos, d0: Pos)
    requires m.Bins() && nb > 0 && d in m.tree && nb <= Key(m.tree, m.sizes, d)
    requires Chosen(m.tree, m.sizes, nb, v, rsize, c) && AllCovered(m.tree, m.sizes, nb, nb + rsize, false, d0)
    ensures v != 0
  {
    hide State.Bins, Shape, Key, Under;
    BinsShape(m);
    KeyRange(m.tree, m.sizes, d);
    assert Covered(m.tree, m.sizes, nb + rsize, false, d0, d);
  }

  /** Serves a small request by splitting the smallest of all tree chunks; the remainder
      becomes the designated victim. */
  method TmallocSmall(m: State, nb: nat) returns (mem: int)
    requires Valid(m) && m.treemap != 0 && MIN_CHUNK_SIZE <= nb < MIN_LARGE_SIZE && nb % 16 == 0 && m.dvsize < nb
    modifies m
    ensures old(m.trace) <= m.trace && (old(m.Chronicled()) ==> m.Chronicled())
    ensures mem != 0 && Allocated(m, old(Snap(m)), mem - 16, nb) && BestTree(old(m.tree), old(m.sizes), mem - 16, nb)
    ensures var rsize := old(m.sizes)[mem - 16] - nb;
            rsize >= MIN_CHUNK_SIZE ==> m.dv == mem - 16 + nb && m.dvsize == rsize
    ensures ShelfOf(Snap(m)) == TakeBinned(old(ShelfOf(Snap(m))), mem - 16, old(m.sizes)[mem - 16], nb)
  {
    hide *;
    ghost var s, tree := Snap(m), m.tree;
    HeapStart(m);
    StartFields(m);
    var v, rsize := ChooseSmall(m, nb);
    BestParts(m.tree, m.sizes, nb, v, rsize);
    BinnedUsable(m, s, v);
    assert m.OkAddress(v);
    var r := v + nb;
    assert ChunkSize(m.At(Head(v))) == rsize + nb;
    SmallVictim(m.dvsize, nb);
    assert v < r;
    ShelfIs(m);
    UnlinkChosen(m, v, s);
    OpenedFields(m, s, {v});
    if rsize < MIN_CHUNK_SIZE {
      SmallRemainder(nb, rsize);
      TakeWhole(m, v, rsize + nb, s, nb, {v});
      WholeTaken(ShelfOf(s), v, rsize + nb, nb);
    } else {
      SplitTags(m, v, nb, rsize, s, r + rsize, {v});
      ReplaceDv(m, r, rsize, s, v, nb, r + rsize);
      SmallTaken(ShelfOf(s), v, rsize + nb, nb);
    }
    ShelfIs(m);
    mem := v + 16;
  }

  lemma SmallVictim(dvsize: int, nb: nat)
    requires dvsize < nb && MIN_CHUNK_SIZE <= nb < MIN_LARGE_SIZE
    ensures IsSmall(dvsize) && nb > 0 && IsSmall(nb)
  {
  }

  lemma BestParts(tree: Tree, sizes: Sizes, nb: nat, v: int, rsize: int)
    requires Best(tree, sizes, nb, v, rsize) && v != 0
    ensures v in sizes && InTree(tree, v) && sizes[v] == nb + rsize && rsize >= 0
    ensures BestTree(tree, sizes, v, nb)
  {
  }
}
