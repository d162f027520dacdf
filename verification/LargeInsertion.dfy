/** `insert_large_chunk` on the allocator's state: a walk that consumes one size bit per tree
    level, ending at a node of the same size or at the free slot for it. */
module LargeInsertion {
  import opened Words
  import opened SizeBits
  import opened BinMaps
  import opened TreeBins
  import opened SmallBins
  import opened TreeRelink
  import opened TreeChains
  import opened BinHistory
  import opened TreeOrder
  import opened MallocState
  import opened LargeChunks

  /** The bin invariant after large chunk `x` has joined the tries. */
  lemma AddedBins(mem: Memory, mem': Memory, smallmap: BinMap, treemap: BinMap, treemap': BinMap,
                  sizes: Sizes, small: Smalls, tree: Tree, tree': Tree, lo: int, hi: int, x: int, s: nat)
    requires BinsOk(mem, smallmap, treemap, sizes, small, tree) && Within(sizes, lo, hi)
    requires Binnable(mem, sizes, lo, hi, x, s) && !IsSmall(s)
    requires Shape(tree', sizes[x := s]) && TreeLinks(mem', treemap', tree')
    requires forall y {:trigger InTree(tree', y)} :: InTree(tree', y) <==> InTree(tree, y) || y == x
    requires OnlyTrees(mem, mem', sizes[x := s])
    ensures BinsOk(mem', smallmap, treemap', sizes[x := s], small, tree') && Within(sizes[x := s], lo, hi)
    ensures OnlyLinks(mem, mem', sizes[x := s])
  {
    hide SmallLinks, TreeLinks, OnlyTrees, Shape, SmallShape, Spaced, OnlyLinks, Binnable, SizeHeads, Within;
    var sizes' := sizes[x := s];
    SpacedMore(mem, sizes, lo, hi, x, s);
    TreesAreLinks(mem, mem', sizes');
    HeadsKept(mem, mem', sizes', sizes');
    assert x !in sizes by { NotYetBinned(mem, sizes, lo, hi, x, s); }
    SmallShapeMore(small, sizes, x, s);
    HoldsSmallMore(small, sizes, x, s);
    SmallsKept(mem, mem', smallmap, small, sizes');
  }

  lemma NotYetBinned(mem: Memory, sizes: Sizes, lo: int, hi: int, x: int, s: nat)
    requires Binnable(mem, sizes, lo, hi, x, s)
    ensures x !in sizes && s % 16 == 0 && x % 16 == 0
  {
  }

  lemma HoldsSmallMore(small: Smalls, sizes: Sizes, x: int, s: nat)
    requires HoldsSmall(small, sizes) && x !in sizes && !IsSmall(s)
    ensures HoldsSmall(small, sizes[x := s])
  {
    forall y
      ensures InSmall(small, y) <==> y in sizes[x := s] && IsSmall(sizes[x := s][y])
    {
      assert InSmall(small, y) <==> y in sizes && IsSmall(sizes[y]);
    }
  }

  /** Clearing the tree words of a chunk outside the tries readies it for insertion. */
  function Prepare(mem: Memory, x: int, i: int): Memory {
    mem[IndexAt(x) := i][ChildAt(x, 0) := 0][ChildAt(x, 1) := 0]
  }

  lemma PrepareNewcomer(mem: Memory, treemap: BinMap, sizes: Sizes, tree: Tree, lo: int, hi: int, x: int, s: nat)
    requires Spaced(sizes) && SizeHeads(mem, sizes) && Within(sizes, lo, hi) && Shape(tree, sizes)
    requires TreeLinks(mem, treemap, tree)
    requires Binnable(mem, sizes, lo, hi, x, s) && !IsSmall(s)
    ensures var mem1, sizes1 := Prepare(mem, x, TreeIndex(s)), sizes[x := s];
            Newcomer(mem1, tree, sizes1, x) && TreeLinks(mem1, treemap, tree) && OnlyTrees(mem, mem1, sizes1)
  {
    hide TreeLinks, Shape;
    var mem1, sizes1 := Prepare(mem, x, TreeIndex(s)), sizes[x := s];
    SpacedMore(mem, sizes, lo, hi, x, s);
    ShapeMore(tree, sizes, x, s);
    forall y | InTree(tree, y)
      ensures SameLinks(mem, mem1, y)
    {
      var p, k := FindMember(tree, y);
      MemberSize(tree, sizes, p, k);
    }
    TreeFrame(mem, mem1, treemap, tree, sizes);
  }

  /** No chunk of size `s` sits above the position for `s` with `w` undecided bits. */
  ghost predicate NoneAbove(tree: Tree, sizes: Sizes, s: nat, w: nat) {
    forall q {:trigger Key(tree, sizes, q)} :: q in tree && q.w > w ==> Key(tree, sizes, q) != s
  }

  lemma NoneAboveRoot(tree: Tree, sizes: Sizes, s: nat)
    requires Shape(tree, sizes)
    ensures NoneAbove(tree, sizes, s, RootBits(TreeIndex(s)))
  {
    forall q | q in tree && q.w > RootBits(TreeIndex(s))
      ensures Key(tree, sizes, q) != s
    {
      ShapeAt(tree, sizes, q);
    }
  }

  /** A free position on the path of `s`, with no chunk of that size above, is vacant. */
  lemma VacantOnPath(tree: Tree, sizes: Sizes, s: nat, w: nat)
    requires Shape(tree, sizes) && NoneAbove(tree, sizes, s, w) && PosOf(s, w) !in tree
    requires MIN_LARGE_SIZE <= s < WORD_LIMIT && s % 16 == 0 && 4 <= w <= RootBits(TreeIndex(s))
    requires w < RootBits(TreeIndex(s)) ==> PosOf(s, w + 1) in tree
    ensures Vacant(tree, sizes, PosOf(s, w), s)
  {
    PosOfUp(s, w);
    forall q | q in tree
      ensures Key(tree, sizes, q) != s
    {
      ShapeAt(tree, sizes, q);
      if Key(tree, sizes, q) == s && q.w <= w {
        PathOccupied(tree, sizes, q, w);
      }
    }
  }

  /** Going on from a node of another size: at least one aligned bit is left to look at. */
  lemma WalkOn(tree: Tree, sizes: Sizes, s: nat, p: Pos)
    requires Shape(tree, sizes) && p in tree && p == PosOf(s, p.w) && s % 16 == 0
    requires NoneAbove(tree, sizes, s, p.w) && Key(tree, sizes, p) != s
    ensures p.w >= 5 && Down(p, NextBit(s, p.w)) == PosOf(s, p.w - 1)
    ensures NoneAbove(tree, sizes, s, p.w - 1)
  {
    ShapeAt(tree, sizes, p);
    DifferAboveAlignment(s, Key(tree, sizes, p), p.w);
    PosOfDown(s, p.w);
    forall q | q in tree && q.w == p.w
      ensures Key(tree, sizes, q) != s
    {
      ShapeAt(tree, sizes, q);
    }
  }

  // ---- the walk ----

  /** What the walk knows at node `t` with `k` the shifted size. */
  ghost predicate Walking(m: State, s: nat, p: Pos, t: int, k: int)
    reads m
  {
    && MIN_LARGE_SIZE <= s < WORD_LIMIT && s % 16 == 0
    && p in m.tree && |m.tree[p]| > 0 && t == m.tree[p][0]
    && p == PosOf(s, p.w) && p.w <= 64 && k == SizeWord(s, p.w)
    && NoneAbove(m.tree, m.sizes, s, p.w)
  }

  /** State in which `x` awaits insertion. */
  ghost predicate Pending(m: State, x: int)
    reads m
    ensures Pending(m, x) ==> x in m.sizes
  {
    && m.Region() && Newcomer(m.mem, m.tree, m.sizes, x) && TreeLinks(m.mem, m.treemap, m.tree)
    && SizeHeads(m.mem, m.sizes)
  }

  lemma NodeSize(m: State, p: Pos)
    requires m.Region() && Shape(m.tree, m.sizes) && SizeHeads(m.mem, m.sizes) && p in m.tree
    ensures |m.tree[p]| > 0
    ensures var t := m.tree[p][0];
            m.Mapped(Head(t)) && m.OkAddress(t) && ChunkSize(Peek(m.mem, Head(t))) == Key(m.tree, m.sizes, p)
  {
    hide Shape;
    ShapeAt(m.tree, m.sizes, p);
    NodeWordsMapped(m, m.tree[p][0]);
  }

  lemma NewcomerSize(m: State, x: int)
    requires Pending(m, x)
    ensures x in m.sizes && MIN_LARGE_SIZE <= m.sizes[x] < WORD_LIMIT && m.sizes[x] % 16 == 0
    ensures TreeIndex(m.sizes[x]) < 32 && RootBits(TreeIndex(m.sizes[x])) <= 64
  {
    RootOfBin(m.sizes[x]);
  }

  /** A tree bin word points to the root of its tree, or is null. */
  lemma RootRead(mem: Memory, treemap: BinMap, sizes: Sizes, tree: Tree, i: nat)
    requires Shape(tree, sizes) && Spaced(sizes) && TreeLinks(mem, treemap, tree) && i < 32
    ensures Marked(treemap, i) <==> RootPos(i) in tree
    ensures RootPos(i) in tree ==>
      |tree[RootPos(i)]| > 0 && Peek(mem, TreeBinAt(i)) == tree[RootPos(i)][0] && Peek(mem, TreeBinAt(i)) != 0
    ensures RootPos(i) !in tree ==> Peek(mem, TreeBinAt(i)) == 0
  {
    assert RootLink(mem, treemap, tree, i);
    if RootPos(i) in tree {
      NodeAboveGm(tree, sizes, RootPos(i));
    }
  }

  lemma BinWordMapped(m: State, i: nat)
    requires i < 32
    ensures m.Mapped(TreeBinAt(i))
  {
  }

  lemma LargeChild(m: State, p: Pos, b: nat)
    requires m.Region() && Shape(m.tree, m.sizes) && p in m.tree && |m.tree[p]| > 0 && b < 2
    ensures m.Mapped(ChildAt(m.tree[p][0], b)) && m.OkAddress(ChildAt(m.tree[p][0], b)) && ChildAt(m.tree[p][0], b) != 0
  {
    hide Shape;
    NodeMapped(m, m.tree, p);
    MemberSize(m.tree, m.sizes, p, 0);
  }

  lemma PlaceFound(tree: Tree, sizes: Sizes, s: nat, p: Pos)
    requires Shape(tree, sizes) && p in tree && p == PosOf(s, p.w) && p.w >= 5
    requires NoneAbove(tree, sizes, s, p.w - 1) && PosOf(s, p.w - 1) !in tree
    requires MIN_LARGE_SIZE <= s < WORD_LIMIT && s % 16 == 0 && |tree[p]| > 0
    ensures var d := PosOf(s, p.w - 1);
            && Vacant(tree, sizes, d, s) && Up(d) == p && d.w < RootBits(d.bin)
            && Slot(tree, d) == ChildAt(tree[p][0], NextBit(s, p.w))
  {
    ShapeAt(tree, sizes, p);
    PosOfUp(s, p.w - 1);
    VacantOnPath(tree, sizes, s, p.w - 1);
  }

  /** One turn of the walk: which child word is looked at, and what the walk knows there. */
  lemma WalkStep(m: State, s: nat, x: int, p: Pos, t: int, k: int)
    requires Pending(m, x) && Walking(m, s, p, t, k) && Key(m.tree, m.sizes, p) != s
    ensures p.w >= 5
    ensures var b, d := NextBit(s, p.w), Down(p, NextBit(s, p.w));
            && k / 0x8000_0000_0000_0000 % 2 == b && k * 2 % WORD_LIMIT == SizeWord(s, d.w)
            && m.Mapped(ChildAt(t, b)) && m.OkAddress(ChildAt(t, b)) && ChildAt(t, b) != 0
            && (Peek(m.mem, ChildAt(t, b)) != 0 ==> Walking(m, s, d, Peek(m.mem, ChildAt(t, b)), k * 2 % WORD_LIMIT))
            && (Peek(m.mem, ChildAt(t, b)) == 0 ==>
                  d == PosOf(s, p.w - 1) && Up(d) == p && d.w < RootBits(TreeIndex(s))
                  && Vacant(m.tree, m.sizes, d, s) && ChildAt(t, b) == Slot(m.tree, d))
  {
    hide TreeLinks, Shape, Spaced, Within, SizeHeads, Slot, Key, NoneAbove, SizeWord, Vacant;
    WalkOn(m.tree, m.sizes, s, p);
    SizeWordStep(s, p.w);
    var b := NextBit(s, p.w);
    ChildRead(m.mem, m.treemap, m.sizes, m.tree, p, b);
    LargeChild(m, p, b);
    if Peek(m.mem, ChildAt(t, b)) == 0 {
      PlaceFound(m.tree, m.sizes, s, p);
    }
  }

  lemma WalkStart(m: State, s: nat, x: int)
    requires Pending(m, x) && m.sizes[x] == s && RootPos(TreeIndex(s)) in m.tree
    ensures TreeIndex(s) < 32 && m.Mapped(TreeBinAt(TreeIndex(s))) && RootBits(TreeIndex(s)) <= 64
    ensures Walking(m, s, RootPos(TreeIndex(s)), Peek(m.mem, TreeBinAt(TreeIndex(s))),
                    s * Pow2(64 - RootBits(TreeIndex(s))) % WORD_LIMIT)
  {
    hide TreeLinks, Shape, Spaced, Within, SizeHeads, Key, NoneAbove, SizeWord;
    var i := TreeIndex(s);
    NewcomerSize(m, x);
    RootOfBin(s);
    RootRead(m.mem, m.treemap, m.sizes, m.tree, i);
    BinWordMapped(m, i);
    FirstSizeWord(s, RootBits(i));
    NoneAboveRoot(m.tree, m.sizes, s);
  }

  /** Finds the node of size `s`, or the node below whose null child word `c` it belongs. */
  method FindPlace(m: State, s: nat, x: int) returns (t: int, c: int, ghost p: Pos)
    requires Pending(m, x) && m.sizes[x] == s && RootPos(TreeIndex(s)) in m.tree
    ensures p in m.tree && |m.tree[p]| > 0 && t == m.tree[p][0] && p.bin == TreeIndex(s)
    ensures c == 0 ==> Key(m.tree, m.sizes, p) == s
    ensures c != 0 ==>
      p.w > 0 && Vacant(m.tree, m.sizes, PosOf(s, p.w - 1), s) && Up(PosOf(s, p.w - 1)) == p
      && c == Slot(m.tree, PosOf(s, p.w - 1)) && p.w - 1 < RootBits(TreeIndex(s))
  {
    hide TreeLinks, Shape, Spaced, Within, SizeHeads, Slot, Key, NoneAbove, SizeWord, Vacant, TreeIndex, RootBits,
      Shr, NextBit;
    var i := TreeIndex(s);
    WalkStart(m, s, x);
    p := RootPos(i);
    t := m.At(TreeBinAt(i));
    var k := s * Pow2(64 - RootBits(i)) % WORD_LIMIT;
    while true
      invariant Walking(m, s, p, t, k)
      decreases p.w
    {
      NodeSize(m, p);
      if ChunkSize(m.At(Head(t))) == s {
        c := 0;
        return;
      }
      WalkStep(m, s, x, p, t, k);
      c := ChildAt(t, k / 0x8000_0000_0000_0000 % 2);
      k := k * 2 % WORD_LIMIT;
      if m.At(c) != 0 {
        t := m.At(c);
        p := Down(p, NextBit(s, p.w));
      } else if m.OkAddress(c) {
        return;
      } else {
        assert false;
      }
    }
  }

  lemma LeafTrees(mem: Memory, tree: Tree, sizes: Sizes, d: Pos, s: nat, x: int)
    requires Shape(tree, sizes) && Spaced(sizes) && Vacant(tree, sizes, d, s) && x in sizes && !IsSmall(sizes[x])
    ensures OnlyTrees(mem, LeafMem(mem, Slot(tree, d), ParentOf(tree, d), x), sizes)
  {
    BinInRange(d, s);
    if d.w < RootBits(d.bin) {
      ShapeAt(tree, sizes, Up(d));
      MemberWord(tree, sizes, Up(d), 0, 32 + 8 * (d.q % 2));
    }
    NewWord(sizes, x, 16);
    NewWord(sizes, x, 24);
    NewWord(sizes, x, 48);
  }

  lemma AppendTrees(mem: Memory, tree: Tree, sizes: Sizes, p: Pos, x: int)
    requires Shape(tree, sizes) && p in tree && |tree[p]| > 0 && x in sizes && !IsSmall(sizes[x])
    ensures OnlyTrees(mem, AppendMem(mem, tree[p][0], tree[p][|tree[p]| - 1], x), sizes)
  {
    MemberWord(tree, sizes, p, 0, 16);
    MemberWord(tree, sizes, p, |tree[p]| - 1, 24);
    NewWord(sizes, x, 16);
    NewWord(sizes, x, 24);
    NewWord(sizes, x, 48);
  }

  /** The tries with `x` as the only member or the last one of position `d`. */
  ghost function TreeWith(tree: Tree, d: Pos, x: int): Tree {
    tree[d := if d in tree then tree[d] + [x] else [x]]
  }

  /** Nothing in the tries has changed but one place. */
  ghost predicate OnlyPlace(tree': Tree, tree: Tree, x: int) {
    exists d {:trigger TreeWith(tree, d, x)} :: tree' == TreeWith(tree, d, x)
  }

  /** Bins chunk `x` of `s` bytes: afterwards the bins hold exactly one chunk more. */
  method InsertLargeChunk(m: State, x: int, s: nat)
    requires m.Bins() && Binnable(m.mem, m.sizes, m.segBase, m.segBase + m.segSize, x, s) && !IsSmall(s)
    modifies m`mem, m`treemap, m`sizes, m`tree, m`trace
    ensures old(m.trace) <= m.trace && (old(m.Chronicled()) ==> m.Chronicled())
    ensures m.Bins() && m.sizes == old(m.sizes)[x := s]
    ensures OnlyLinks(old(m.mem), m.mem, m.sizes)
    ensures Added(m.tree, m.sizes, old(m.tree), old(m.sizes), x, s) && OnlyPlace(m.tree, old(m.tree), x)
    ensures m.trace == old(m.trace) + [Insert(x, s)]
  {
    hide TreeLinks, SmallLinks, SmallShape, SizeHeads, Shape, Spaced, Within, OnlyTrees, OnlyLinks, Binnable, Newcomer,
      Marked, HoldsSmall, HoldsLarge, Added, Joined, Chronicle;
    ghost var mem0, treemap0, sizes0, tree0 := m.mem, m.treemap, m.sizes, m.tree;
    BinsStart(m);
    var i := TreeIndex(s);
    ClearTreeWords(m, x, s, i);
    ghost var mem1 := m.mem;
    assert i < 32 by { NewcomerSize(m, x); }
    RootRead(mem1, treemap0, m.sizes, tree0, i);
    if !Marked(m.treemap, i) {
      InsertRoot(m, x, s, i);
    } else {
      InsertBelow(m, x, s);
    }
    OnlyTreesTrans(mem0, mem1, m.mem, m.sizes);
    AddedSince(m.tree, tree0, sizes0, x, s);
    AddedBins(mem0, m.mem, m.smallmap, treemap0, m.treemap, sizes0, m.small, tree0, m.tree, m.segBase,
              m.segBase + m.segSize, x, s);
    if Chronicle(m.trace, m.small, tree0, sizes0) {
      LargeJoined(m.small, m.tree, m.sizes, tree0, sizes0, x, s);
      ChronicleInsert(m.trace, m.small, tree0, sizes0, m.small, m.tree, m.sizes, x, s);
    }
    m.trace := m.trace + [Insert(x, s)];
  }

  lemma BinsStart(m: State)
    requires m.Bins()
    ensures |m.small| == 32 && SmallShape(m.small, m.sizes) && Shape(m.tree, m.sizes)
  {
    hide Shape;
  }

  /** Order after an insertion, relative to the sizes before it. */
  lemma AddedSince(tree': Tree, tree: Tree, sizes: Sizes, x: int, s: nat)
    requires x !in sizes && Shape(tree, sizes) && Shape(tree, sizes[x := s])
    requires Added(tree', sizes[x := s], tree, sizes[x := s], x, s)
    ensures Added(tree', sizes[x := s], tree, sizes, x, s)
  {
    hide ChainOfSize, Shape;
    forall p | p in tree
      ensures Key(tree, sizes[x := s], p) == Key(tree, sizes, p)
    {
      ShapeAt(tree, sizes, p);
    }
    forall z: nat
      ensures ChainOfSize(tree', sizes[x := s], z) == ChainOfSize(tree, sizes, z) + (if z == s then [x] else [])
    {
      ChainsElsewhere(tree, sizes, sizes[x := s], z);
      assert ChainOfSize(tree', sizes[x := s], z) == ChainOfSize(tree, sizes[x := s], z) + (if z == s then [x] else []);
    }
  }

  /** `X->index = I; X->child[0] = X->child[1] = 0`. */
  method ClearTreeWords(m: State, x: int, s: nat, i: nat)
    requires m.Bins() && Binnable(m.mem, m.sizes, m.segBase, m.segBase + m.segSize, x, s) && !IsSmall(s)
    requires i == TreeIndex(s)
    modifies m`mem, m`sizes
    ensures m.sizes == old(m.sizes)[x := s] && Pending(m, x)
    ensures Shape(m.tree, m.sizes) && Spaced(m.sizes) && OnlyTrees(old(m.mem), m.mem, m.sizes)
    ensures x !in old(m.sizes)
  {
    hide TreeLinks, SmallLinks, SmallShape, SizeHeads, Shape, Spaced, Within, OnlyTrees, Binnable, Newcomer,
      HoldsSmall, HoldsLarge;
    ghost var mem0, sizes0 := m.mem, m.sizes;
    NewChunk(m, x, s);
    NotYetBinned(mem0, sizes0, m.segBase, m.segBase + m.segSize, x, s);
    PrepareNewcomer(mem0, m.treemap, sizes0, m.tree, m.segBase, m.segBase + m.segSize, x, s);
    m.Put(IndexAt(x), i);
    m.Put(ChildAt(x, 0), 0);
    m.Put(ChildAt(x, 1), 0);
    m.sizes := sizes0[x := s];
    TreesAreLinks(mem0, m.mem, m.sizes);
    HeadsKept(mem0, m.mem, m.sizes, m.sizes);
  }

  lemma NewChunk(m: State, x: int, s: nat)
    requires m.Bins() && Binnable(m.mem, m.sizes, m.segBase, m.segBase + m.segSize, x, s) && !IsSmall(s)
    ensures TreeIndex(s) < 32 && m.Mapped(IndexAt(x)) && m.Mapped(ChildAt(x, 0)) && m.Mapped(ChildAt(x, 1))
    ensures m.Mapped(Fd(x)) && m.Mapped(Bk(x)) && m.Mapped(ParentAt(x))
    ensures Spaced(m.sizes[x := s]) && Within(m.sizes[x := s], m.segBase, m.segBase + m.segSize)
    ensures SizeHeads(m.mem, m.sizes[x := s]) && Shape(m.tree, m.sizes[x := s])
  {
    hide TreeLinks, SmallLinks, SmallShape, Shape, HoldsSmall, HoldsLarge;
    RootOfBin(s);
    NodeWordsMapped(m, x);
    SpacedMore(m.mem, m.sizes, m.segBase, m.segBase + m.segSize, x, s);
    ShapeMore(m.tree, m.sizes, x, s);
  }

  /** The first chunk of a tree bin. */
  method InsertRoot(m: State, x: int, s: nat, i: nat)
    requires Pending(m, x) && m.sizes[x] == s && i == TreeIndex(s) && RootPos(i) !in m.tree
    modifies m`mem, m`treemap, m`tree
    ensures Shape(m.tree, m.sizes) && TreeLinks(m.mem, m.treemap, m.tree)
    ensures forall y {:trigger InTree(m.tree, y)} :: InTree(m.tree, y) <==> InTree(old(m.tree), y) || y == x
    ensures OnlyTrees(old(m.mem), m.mem, m.sizes)
    ensures Added(m.tree, m.sizes, old(m.tree), m.sizes, x, s)
    ensures OnlyPlace(m.tree, old(m.tree), x)
  {
    hide TreeLinks, Shape, Spaced, Within, SizeHeads, Slot, ParentOf, LeafMem, Mark, OnlyTrees, Newcomer, Added;
    ghost var mem1, tree1, d := m.mem, m.tree, RootPos(i);
    NewcomerSize(m, x);
    NewcomerWords(m, x);
    RootVacant(m.tree, m.sizes, s);
    LeafLinks(mem1, m.treemap, tree1, m.sizes, d, x);
    LeafShape(tree1, m.sizes, d, x);
    LeafHolds(tree1, d, x);
    AddLeaf(tree1, m.sizes, d, x, s);
    LeafTrees(mem1, tree1, m.sizes, d, s, x);
    BinWordMapped(m, i);
    var h := TreeBinAt(i);
    m.treemap := Mark(m.treemap, i);
    m.Put(h, x);
    m.Put(ParentAt(x), h);
    m.Put(Fd(x), x);
    m.Put(Bk(x), x);
    LeafMemIs(mem1, h, h, x);
    m.tree := tree1[d := [x]];
    assert d !in tree1 ==> m.tree == TreeWith(tree1, d, x);
  }

  lemma LeafMemIs(mem: Memory, slot: int, parent: int, x: int)
    ensures mem[slot := x][ParentAt(x) := parent][Fd(x) := x][Bk(x) := x] == LeafMem(mem, slot, parent, x)
  {
  }

  lemma NewcomerWords(m: State, x: int)
    requires Pending(m, x)
    ensures m.Mapped(Fd(x)) && m.Mapped(Bk(x)) && m.Mapped(ParentAt(x)) && x % 16 == 0 && m.OkAddress(x)
    ensures Newcomer(m.mem, m.tree, m.sizes, x) && Shape(m.tree, m.sizes) && Spaced(m.sizes) && !InTree(m.tree, x)
    ensures !IsSmall(m.sizes[x])
  {
    hide Shape, TreeLinks;
    NodeWordsMapped(m, x);
  }

  lemma RootVacant(tree: Tree, sizes: Sizes, s: nat)
    requires Shape(tree, sizes) && MIN_LARGE_SIZE <= s < WORD_LIMIT && s % 16 == 0 && RootPos(TreeIndex(s)) !in tree
    ensures TreeIndex(s) < 32
    ensures var d := RootPos(TreeIndex(s));
            && Vacant(tree, sizes, d, s) && Slot(tree, d) == ParentOf(tree, d) == TreeBinAt(TreeIndex(s))
  {
    RootOfBin(s);
    NoneAboveRoot(tree, sizes, s);
    VacantOnPath(tree, sizes, s, RootBits(TreeIndex(s)));
  }

  /** Any later chunk of a tree bin. */
  method InsertBelow(m: State, x: int, s: nat)
    requires Pending(m, x) && m.sizes[x] == s && RootPos(TreeIndex(s)) in m.tree
    modifies m`mem, m`tree
    ensures Shape(m.tree, m.sizes) && TreeLinks(m.mem, m.treemap, m.tree)
    ensures forall y {:trigger InTree(m.tree, y)} :: InTree(m.tree, y) <==> InTree(old(m.tree), y) || y == x
    ensures OnlyTrees(old(m.mem), m.mem, m.sizes)
    ensures Added(m.tree, m.sizes, old(m.tree), m.sizes, x, s)
    ensures OnlyPlace(m.tree, old(m.tree), x)
  {
    hide TreeLinks, Shape, Spaced, Within, SizeHeads, Slot, ParentOf, LeafMem, AppendMem, OnlyTrees, Newcomer,
      Vacant, Key, Added;
    NewcomerWords(m, x);
    var t, c, p := FindPlace(m, s, x);
    if c != 0 {
      InsertLeaf(m, x, s, t, c, p);
    } else {
      InsertSame(m, x, s, t, p);
    }
  }

  method InsertLeaf(m: State, x: int, s: nat, t: int, c: int, ghost p: Pos)
    requires Pending(m, x) && m.sizes[x] == s && p in m.tree && |m.tree[p]| > 0 && t == m.tree[p][0] && p.w > 0
    requires var d := PosOf(s, p.w - 1);
             Vacant(m.tree, m.sizes, d, s) && Up(d) == p && c == Slot(m.tree, d) && d.w < RootBits(d.bin)
    modifies m`mem, m`tree
    ensures Shape(m.tree, m.sizes) && TreeLinks(m.mem, m.treemap, m.tree)
    ensures forall y {:trigger InTree(m.tree, y)} :: InTree(m.tree, y) <==> InTree(old(m.tree), y) || y == x
    ensures OnlyTrees(old(m.mem), m.mem, m.sizes)
    ensures Added(m.tree, m.sizes, old(m.tree), m.sizes, x, s)
    ensures OnlyPlace(m.tree, old(m.tree), x)
  {
    hide TreeLinks, Shape, Spaced, Within, SizeHeads, LeafMem, OnlyTrees, Newcomer, Added;
    ghost var mem1, tree1, d := m.mem, m.tree, PosOf(s, p.w - 1);
    NewcomerWords(m, x);
    LeafLinks(mem1, m.treemap, tree1, m.sizes, d, x);
    LeafShape(tree1, m.sizes, d, x);
    LeafHolds(tree1, d, x);
    AddLeaf(tree1, m.sizes, d, x, s);
    LeafTrees(mem1, tree1, m.sizes, d, s, x);
    LargeChild(m, p, d.q % 2);
    m.Put(c, x);
    m.Put(ParentAt(x), t);
    m.Put(Fd(x), x);
    m.Put(Bk(x), x);
    LeafMemIs(mem1, c, t, x);
    m.tree := tree1[d := [x]];
    assert d !in tree1 ==> m.tree == TreeWith(tree1, d, x);
  }

  method InsertSame(m: State, x: int, s: nat, t: int, ghost p: Pos)
    requires Pending(m, x) && m.sizes[x] == s && p in m.tree && |m.tree[p]| > 0 && t == m.tree[p][0]
    requires Key(m.tree, m.sizes, p) == s && p.bin == TreeIndex(s)
    modifies m`mem, m`tree
    ensures Shape(m.tree, m.sizes) && TreeLinks(m.mem, m.treemap, m.tree)
    ensures forall y {:trigger InTree(m.tree, y)} :: InTree(m.tree, y) <==> InTree(old(m.tree), y) || y == x
    ensures OnlyTrees(old(m.mem), m.mem, m.sizes)
    ensures Added(m.tree, m.sizes, old(m.tree), m.sizes, x, s)
    ensures OnlyPlace(m.tree, old(m.tree), x)
  {
    hide TreeLinks, Shape, Spaced, Within, SizeHeads, AppendMem, OnlyTrees, Newcomer, Key, Added;
    ghost var mem1, tree1 := m.mem, m.tree;
    NewcomerWords(m, x);
    SameSizeRead(m, p, x);
    AppendLinks(mem1, m.treemap, tree1, m.sizes, p, x);
    AppendShape(tree1, m.sizes, p, x);
    AppendHolds(tree1, p, x);
    AddSame(tree1, m.sizes, p, x);
    AppendTrees(mem1, tree1, m.sizes, p, x);
    var f := m.At(Fd(t));
    if m.OkAddress(t) && m.OkAddress(f) {
      m.Put(Fd(t), x);
      m.Put(Bk(f), x);
      m.Put(Fd(x), f);
      m.Put(Bk(x), t);
      m.Put(ParentAt(x), 0);
      AppendMemIs(mem1, t, f, x);
      m.tree := tree1[p := tree1[p] + [x]];
      assert m.tree == TreeWith(tree1, p, x);
    } else {
      assert false;
    }
  }

  lemma AppendMemIs(mem: Memory, t: int, f: int, x: int)
    ensures mem[Fd(t) := x][Bk(f) := x][Fd(x) := f][Bk(x) := t][ParentAt(x) := 0] == AppendMem(mem, t, f, x)
  {
  }

  lemma SameSizeRead(m: State, p: Pos, x: int)
    requires Pending(m, x) && p in m.tree && |m.tree[p]| > 0 && p.bin == TreeIndex(m.sizes[x])
    ensures var r := m.tree[p];
            && Peek(m.mem, Fd(r[0])) == r[|r| - 1]
            && m.Mapped(Fd(r[0])) && m.OkAddress(r[0])
            && m.Mapped(Bk(r[|r| - 1])) && m.OkAddress(r[|r| - 1])
  {
    hide Shape, Chain;
    var r := m.tree[p];
    assert PosLinks(m.mem, m.tree, p);
    AppendChain(m.mem, m.tree, m.sizes, p, x);
    MemberSize(m.tree, m.sizes, p, 0);
    MemberSize(m.tree, m.sizes, p, |r| - 1);
    NodeWordsMapped(m, r[0]);
    NodeWordsMapped(m, r[|r| - 1]);
  }
}
