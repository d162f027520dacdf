/** `unlink_large_chunk` on the allocator's state. */
module LargeChunks {
  import opened Words
  import opened SizeBits
  import opened Rings
  import opened BinMaps
  import opened TreeBins
  import opened SmallBins
  import opened TreeUnlink
  import opened TreeRelink
  import opened TreeChains
  import opened TreeRemoval
  import opened BinHistory
  import opened TreeOrder
  import opened MallocState

  // ---- what tree operations write ----

  /** A tree bin word, or a link word of a large binned chunk. */
  ghost predicate TreeWord(sizes: Sizes, a: int) {
    TREEBINS <= a < GM_END || exists y :: y in sizes && !IsSmall(sizes[y]) && y + 16 <= a < y + 64
  }

  ghost predicate OnlyTrees(mem: Memory, mem': Memory, sizes: Sizes) {
    forall a {:trigger Peek(mem', a)} :: Peek(mem', a) != Peek(mem, a) ==> TreeWord(sizes, a)
  }

  lemma TreesAreLinks(mem: Memory, mem': Memory, sizes: Sizes)
    requires OnlyTrees(mem, mem', sizes)
    ensures OnlyLinks(mem, mem', sizes)
  {
    forall a | Peek(mem', a) != Peek(mem, a)
      ensures LinkWord(sizes, a)
    {
      assert TreeWord(sizes, a);
    }
  }

  lemma OnlyTreesTrans(m0: Memory, m1: Memory, m2: Memory, sizes: Sizes)
    requires OnlyTrees(m0, m1, sizes) && OnlyTrees(m1, m2, sizes)
    ensures OnlyTrees(m0, m2, sizes)
  {
    forall a | Peek(m2, a) != Peek(m0, a)
      ensures TreeWord(sizes, a)
    {
      assert Peek(m1, a) != Peek(m0, a) ==> TreeWord(sizes, a);
      assert Peek(m2, a) != Peek(m1, a) ==> TreeWord(sizes, a);
    }
  }

  lemma MemberWord(tree: Tree, sizes: Sizes, p: Pos, k: nat, o: int)
    requires Shape(tree, sizes) && p in tree && k < |tree[p]| && 16 <= o < 64
    ensures TreeWord(sizes, tree[p][k] + o)
  {
    ShapeAt(tree, sizes, p);
  }

  lemma SlotWord(tree: Tree, sizes: Sizes, p: Pos)
    requires Shape(tree, sizes) && Spaced(sizes) && p in tree
    ensures TreeWord(sizes, Slot(tree, p))
  {
    NodeAboveGm(tree, sizes, p);
    if p.w < RootBits(p.bin) {
      MemberWord(tree, sizes, Up(p), 0, 32 + 8 * (p.q % 2));
    }
  }

  /** Tree words are never heads of binned chunks, nor words of the small bins. */
  lemma TreeWordApart(sizes: Sizes, a: int, x: int)
    requires Spaced(sizes) && x in sizes
    ensures TreeWord(sizes, Head(x)) == false
    ensures IsSmall(sizes[x]) && x + 16 <= a < x + sizes[x] ==> !TreeWord(sizes, a)
  {
  }

  lemma SmallsKept(mem: Memory, mem': Memory, smallmap: BinMap, small: Smalls, sizes: Sizes)
    requires Spaced(sizes) && HoldsSmall(small, sizes) && SmallLinks(mem, smallmap, small)
    requires OnlyTrees(mem, mem', sizes)
    ensures SmallLinks(mem', smallmap, small)
  {
    forall y | InSmall(small, y)
      ensures SameRingWords(mem, mem', y)
    {
      TreeWordApart(sizes, Fd(y), y);
      TreeWordApart(sizes, Bk(y), y);
    }
    forall i | 0 <= i < 32
      ensures SameRingWords(mem, mem', SmallBinAt(i))
    {
      assert !TreeWord(sizes, Fd(SmallBinAt(i))) && !TreeWord(sizes, Bk(SmallBinAt(i)));
    }
    SmallFrame(mem, mem', smallmap, small);
  }

  /** The bin invariant after large chunk `x` has left the tries. */
  lemma RemovedBins(mem: Memory, mem': Memory, smallmap: BinMap, treemap: BinMap, treemap': BinMap,
                    sizes: Sizes, small: Smalls, tree: Tree, tree': Tree, x: int)
    requires BinsOk(mem, smallmap, treemap, sizes, small, tree)
    requires Removed(mem', treemap', tree', tree, sizes, x) && InTree(tree, x)
    requires OnlyTrees(mem, mem', sizes)
    ensures BinsOk(mem', smallmap, treemap', Less(sizes, x), small, tree')
  {
    hide SmallLinks, TreeLinks, OnlyTrees, Shape, SmallShape, Spaced;
    SmallsKept(mem, mem', smallmap, small, sizes);
    TreesAreLinks(mem, mem', sizes);
    HeadsKept(mem, mem', Less(sizes, x), sizes);
    SpacedLess(sizes, x);
    ShapeLess(tree', sizes, x);
    assert !InSmall(small, x);
    SmallShapeLess(small, sizes, x);
  }

  // ---- unlinking ----

  /** The ring words of a chain member, and where they lead. */
  lemma ChainRead(mem: Memory, treemap: BinMap, sizes: Sizes, tree: Tree, p: Pos, j: nat)
    requires Shape(tree, sizes) && TreeLinks(mem, treemap, tree) && p in tree && j < |tree[p]|
    ensures var r, n := tree[p], |tree[p]|;
            && Peek(mem, Fd(r[j])) == r[Previous(j, n)] && Peek(mem, Bk(r[j])) == r[Next(j, n)]
            && Peek(mem, Bk(r[Previous(j, n)])) == r[j] && Peek(mem, Fd(r[Next(j, n)])) == r[j]
            && (Peek(mem, Bk(r[j])) == r[j] <==> n == 1)
            && Peek(mem, IndexAt(r[j])) == p.bin
            && (j > 0 ==> Peek(mem, ParentAt(r[j])) == 0)
            && Peek(mem, ParentAt(r[0])) == ParentOf(tree, p)
  {
    ShapeAt(tree, sizes, p);
    assert PosLinks(mem, tree, p);
    var r, n := tree[p], |tree[p]|;
    assert Next(Previous(j, n), n) == j && Previous(Next(j, n), n) == j;
  }

  method UnlinkRing(m: State, x: int, ghost p: Pos, ghost j: nat) returns (r: int)
    requires m.Bins() && p in m.tree && j < |m.tree[p]| && |m.tree[p]| >= 2 && x == m.tree[p][j]
    modifies m`mem
    ensures r == m.tree[p][Next(j, |m.tree[p]|)]
    ensures m.mem == Bypass(old(m.mem), m.tree[p][Previous(j, |m.tree[p]|)], r)
  {
    hide Bypass, TreeLinks, Spaced, SmallLinks, HoldsSmall, SmallShape;
    ghost var f0, b0 := Previous(j, |m.tree[p]|), Next(j, |m.tree[p]|);
    ChainRead(m.mem, m.treemap, m.sizes, m.tree, p, j);
    LargeInTree(m, p, j);
    LargeInTree(m, p, f0);
    LargeInTree(m, p, b0);
    var f := m.At(Fd(x));
    r := m.At(Bk(x));
    if m.OkAddress(f) && m.At(Bk(f)) == x && m.At(Fd(r)) == x {
      m.Put(Bk(f), r);
      m.Put(Fd(r), f);
      BypassIs(old(m.mem), f, r);
    } else {
      assert false;
    }
  }

  lemma BypassIs(mem: Memory, f: int, b: int)
    ensures mem[Bk(f) := b][Fd(b) := f] == Bypass(mem, f, b)
  {
  }

  /** The words of a tree member are mapped. */
  lemma LargeInTree(m: State, p: Pos, j: nat)
    requires m.Bins() && p in m.tree && j < |m.tree[p]|
    ensures var x := m.tree[p][j];
            && x in m.sizes && !IsSmall(m.sizes[x]) && m.OkAddress(x) && x >= GM_END && x % 16 == 0
            && m.Mapped(Head(x)) && m.Mapped(Fd(x)) && m.Mapped(Bk(x)) && m.Mapped(ParentAt(x)) && m.Mapped(IndexAt(x))
            && m.Mapped(ChildAt(x, 0)) && m.Mapped(ChildAt(x, 1))
  {
    hide TreeLinks, SmallLinks, HoldsSmall, SmallShape, HoldsLarge, SizeHeads, Shape;
    var x := m.tree[p][j];
    MemberSize(m.tree, m.sizes, p, j);
    NodeWordsMapped(m, x);
  }

  lemma MemberSize(tree: Tree, sizes: Sizes, p: Pos, j: nat)
    requires Shape(tree, sizes) && p in tree && j < |tree[p]|
    ensures tree[p][j] in sizes && sizes[tree[p][j]] >= MIN_LARGE_SIZE
  {
    ShapeAt(tree, sizes, p);
  }

  lemma NodeWordsMapped(m: State, x: int)
    requires x % 16 == 0 && m.segBase <= x && x + 64 <= m.segBase + m.segSize
    ensures m.Mapped(Head(x)) && m.Mapped(Fd(x)) && m.Mapped(Bk(x)) && m.Mapped(ParentAt(x)) && m.Mapped(IndexAt(x))
    ensures m.Mapped(ChildAt(x, 0)) && m.Mapped(ChildAt(x, 1))
  {
  }

  /** A child word is null exactly when the position below is free; otherwise it points to
      the node there and is that position's slot. */
  lemma ChildRead(mem: Memory, treemap: BinMap, sizes: Sizes, tree: Tree, p: Pos, b: nat)
    requires Shape(tree, sizes) && Spaced(sizes) && TreeLinks(mem, treemap, tree) && p in tree && b < 2
    ensures p.w > 0 && |tree[p]| > 0
    ensures var c, d := Peek(mem, ChildAt(tree[p][0], b)), Down(p, b);
            && (c != 0 <==> d in tree)
            && (d in tree ==> |tree[d]| > 0 && c == tree[d][0] && 4 <= d.w < p.w)
            && (d in tree ==> Slot(tree, d) == ChildAt(tree[p][0], b))
  {
    ShapeAt(tree, sizes, p);
    assert PosLinks(mem, tree, p);
    var d := Down(p, b);
    if d in tree {
      NodeAboveGm(tree, sizes, d);
      ShapeAt(tree, sizes, d);
      UpDown(p, b);
    }
  }

  lemma BelowChild(tree: Tree, sizes: Sizes, p: Pos, c: Pos, b: nat)
    requires Shape(tree, sizes) && p in tree && c in tree && (c == p || Below(tree, sizes, c, p)) && b < 2
    requires c.w > 0 && Down(c, b) in tree
    ensures Below(tree, sizes, Down(c, b), p)
  {
    var d := Down(c, b);
    ShapeAt(tree, sizes, d);
    ShapeAt(tree, sizes, c);
    UpDown(c, b);
    PosOfUp(Key(tree, sizes, d), d.w);
    if c != p {
      ShrAgree(Key(tree, sizes, d), Key(tree, sizes, c), c.w, p.w);
    }
  }

  /** The descent to the rightmost leaf below `x`, and `*RP = 0`. */
  method DetachRightmost(m: State, x: int, ghost p: Pos) returns (r: int, ghost l: Pos)
    requires m.Bins() && p in m.tree && m.tree[p] == [x]
    modifies m`mem
    ensures p.w > 0
    ensures r == 0 ==> m.mem == old(m.mem) && IsLeaf(m.tree, p)
    ensures r != 0 ==> l in m.tree && l.w > 0 && |m.tree[l]| > 0 && IsLeaf(m.tree, l) && Below(m.tree, m.sizes, l, p)
    ensures r != 0 ==> r == m.tree[l][0] && m.mem == old(m.mem)[Slot(m.tree, l) := 0]
    ensures if r == 0 then RightmostPos(m.tree, p) == p else l == RightmostPos(m.tree, p) != p
  {
    hide TreeLinks, SmallLinks, HoldsSmall, SmallShape, HoldsLarge, SizeHeads, Shape, Slot, Below, Spaced, Within;
    l := p;
    ChildRead(m.mem, m.treemap, m.sizes, m.tree, p, 0);
    ChildRead(m.mem, m.treemap, m.sizes, m.tree, p, 1);
    LargeInTree(m, p, 0);
    var rp := ChildAt(x, 1);
    r := m.At(rp);
    if r == 0 {
      rp := ChildAt(x, 0);
      r := m.At(rp);
    }
    if r != 0 {
      l := Down(p, if rp == ChildAt(x, 1) then 1 else 0);
      BelowChild(m.tree, m.sizes, p, p, if rp == ChildAt(x, 1) then 1 else 0);
      r, rp, l := Rightmost(m, r, rp, p, l);
      if m.OkAddress(rp) {
        m.Put(rp, 0);
      } else {
        assert false;
      }
    }
  }

  method Rightmost(m: State, r0: int, rp0: int, ghost p: Pos, ghost l0: Pos) returns (r: int, rp: int, ghost l: Pos)
    requires m.Bins() && p in m.tree && l0 in m.tree && |m.tree[l0]| > 0 && Below(m.tree, m.sizes, l0, p)
    requires r0 == m.tree[l0][0] && rp0 == Slot(m.tree, l0) && m.Mapped(rp0) && m.OkAddress(rp0)
    ensures l in m.tree && l.w > 0 && |m.tree[l]| > 0 && IsLeaf(m.tree, l) && Below(m.tree, m.sizes, l, p)
    ensures r == m.tree[l][0] && rp == Slot(m.tree, l) && m.Mapped(rp) && m.OkAddress(rp)
    ensures r != 0 && l == RightmostPos(m.tree, l0) && l.w <= l0.w
  {
    hide TreeLinks, SmallLinks, HoldsSmall, SmallShape, HoldsLarge, SizeHeads, Shape, Slot, Below, Spaced, Within;
    r, rp, l := r0, rp0, l0;
    while true
      invariant l in m.tree && |m.tree[l]| > 0 && Below(m.tree, m.sizes, l, p)
      invariant RightmostPos(m.tree, l) == RightmostPos(m.tree, l0) && l.w <= l0.w
      invariant r == m.tree[l][0] && rp == Slot(m.tree, l) && m.Mapped(rp) && m.OkAddress(rp)
      decreases l.w
    {
      ChildRead(m.mem, m.treemap, m.sizes, m.tree, l, 0);
      ChildRead(m.mem, m.treemap, m.sizes, m.tree, l, 1);
      LargeInTree(m, l, 0);
      var cp := ChildAt(r, 1);
      if m.At(cp) == 0 {
        cp := ChildAt(r, 0);
        if m.At(cp) == 0 {
          break;
        }
        BelowChild(m.tree, m.sizes, p, l, 0);
        l := Down(l, 0);
      } else {
        BelowChild(m.tree, m.sizes, p, l, 1);
        l := Down(l, 1);
      }
      rp := cp;
      r := m.At(rp);
    }
  }

  // ---- the relinking step ----

  /** `XP` is null exactly for chained nodes; `X == *H` exactly at the root of its bin. */
  lemma SlotRead(mem: Memory, treemap: BinMap, sizes: Sizes, tree: Tree, p: Pos)
    requires Shape(tree, sizes) && Spaced(sizes) && p in tree
    requires LinksBut(mem, treemap, tree, p)
    ensures 0 < p.w <= RootBits(p.bin) && p.bin < 32 && |tree[p]| > 0
    ensures var x, xp := tree[p][0], ParentOf(tree, p);
            && Peek(mem, ParentAt(x)) == xp && xp != 0
            && (Peek(mem, TreeBinAt(p.bin)) == x <==> p.w == RootBits(p.bin))
            && (p.w == RootBits(p.bin) ==> Slot(tree, p) == TreeBinAt(p.bin))
            && (p.w < RootBits(p.bin) ==>
                  Up(p) in tree && |tree[Up(p)]| > 0 && xp == tree[Up(p)][0] && Slot(tree, p) == ChildAt(xp, p.q % 2)
                  && (Peek(mem, ChildAt(xp, 0)) == x <==> p.q % 2 == 0))
  {
    NodeAboveGm(tree, sizes, p);
    assert RootLink(mem, treemap, tree, p.bin);
    RootNode(tree, sizes, p);
    if p.w < RootBits(p.bin) {
      var u := Up(p);
      NodeAboveGm(tree, sizes, u);
      assert PosLinks(mem, tree, u);
      DownUp(p);
      if p.q % 2 == 1 {
        ChildDiffers(tree, sizes, Down(u, 0), p);
      }
    }
  }

  lemma ChildDiffers(tree: Tree, sizes: Sizes, d: Pos, p: Pos)
    requires Shape(tree, sizes) && Spaced(sizes) && p in tree && |tree[p]| > 0 && d != p && tree[p][0] != 0
    ensures NodeAt(tree, d) != tree[p][0]
  {
    if d in tree && |tree[d]| > 0 && tree[d][0] == tree[p][0] {
      ChainsDisjoint(tree, sizes, d, p, 0, 0);
    }
  }

  lemma RootNode(tree: Tree, sizes: Sizes, p: Pos)
    requires Shape(tree, sizes) && Spaced(sizes) && p in tree && |tree[p]| > 0 && p.bin < 32 && tree[p][0] != 0
    requires p.w == RootBits(p.bin) ==> p == RootPos(p.bin)
    ensures NodeAt(tree, RootPos(p.bin)) == tree[p][0] <==> p.w == RootBits(p.bin)
  {
    if p.w != RootBits(p.bin) {
      ChildDiffers(tree, sizes, RootPos(p.bin), p);
    }
  }

  /** The head of a chain that replaces the one at `p`, and the nodes around `p`. */
  lemma RelinkAddresses(m: State, tree: Tree, p: Pos, s: seq<int>)
    requires m.Region() && Shape(tree, m.sizes) && p in tree && |tree[p]| > 0 && Takes(tree, m.sizes, p, s)
    ensures var x, r := tree[p][0], s[0];
            && r != 0 && x in m.sizes && !IsSmall(m.sizes[x])
            && m.OkAddress(r) && m.Mapped(ParentAt(r)) && m.Mapped(ChildAt(r, 0)) && m.Mapped(ChildAt(r, 1))
            && m.Mapped(ParentAt(x)) && m.Mapped(IndexAt(x)) && m.Mapped(ChildAt(x, 0)) && m.Mapped(ChildAt(x, 1))
  {
    hide Shape;
    MemberSize(tree, m.sizes, p, 0);
    NodeWordsMapped(m, tree[p][0]);
    NodeWordsMapped(m, s[0]);
  }

  lemma NodeMapped(m: State, tree: Tree, p: Pos)
    requires m.Region() && Shape(tree, m.sizes) && p in tree && |tree[p]| > 0
    ensures var c := tree[p][0];
            c != 0 && m.OkAddress(c) && m.Mapped(ParentAt(c)) && m.Mapped(ChildAt(c, 0)) && m.Mapped(ChildAt(c, 1))
  {
    hide Shape;
    MemberSize(tree, m.sizes, p, 0);
    NodeWordsMapped(m, tree[p][0]);
  }

  /** Putting `r`, possibly null, into the slot of `x`. */
  method ReplaceInSlot(m: State, x: int, xp: int, r: int, ghost tree: Tree, ghost p: Pos)
    requires m.Region() && Shape(tree, m.sizes) && p in tree && LinksBut(m.mem, m.treemap, tree, p)
    requires |tree[p]| > 0 && tree[p][0] == x && xp == Peek(m.mem, ParentAt(x)) && Peek(m.mem, IndexAt(x)) == p.bin
    modifies m`mem, m`treemap
    ensures p.bin < 32 && m.mem == old(m.mem)[Slot(tree, p) := r]
    ensures m.treemap == if r == 0 then MapWithout(old(m.treemap), tree, p) else old(m.treemap)
  {
    hide Shape, LinksBut, Clear, Marked, Slot;
    SlotRead(m.mem, m.treemap, m.sizes, tree, p);
    MemberSize(tree, m.sizes, p, 0);
    NodeWordsMapped(m, x);
    if p.w < RootBits(p.bin) {
      NodeMapped(m, tree, Up(p));
    }
    var index := m.At(IndexAt(x));
    var h := TreeBinAt(index);
    if x == m.At(h) {
      m.Put(h, r);
      if r == 0 {
        m.treemap := Clear(m.treemap, index);
      }
    } else if m.OkAddress(xp) {
      if m.At(ChildAt(xp, 0)) == x {
        m.Put(ChildAt(xp, 0), r);
      } else {
        m.Put(ChildAt(xp, 1), r);
      }
    } else {
      assert false;
    }
  }

  /** The replacement takes over the children of `x`. */
  method AdoptChild(m: State, x: int, r: int, b: int)
    requires 0 <= b < 2 && m.Mapped(ChildAt(x, b)) && m.Mapped(ChildAt(r, b))
    requires var c := Peek(m.mem, ChildAt(x, b)); c == 0 || (m.OkAddress(c) && m.Mapped(ParentAt(c)))
    modifies m`mem
    ensures m.mem == Adopt(old(m.mem), x, r, b)
  {
    var c := m.At(ChildAt(x, b));
    if c != 0 {
      if m.OkAddress(c) {
        m.Put(ChildAt(r, b), c);
        m.Put(ParentAt(c), r);
      } else {
        assert false;
      }
    }
  }

  /** The children that `x` hands over are the nodes below `p`, whatever has been written
      before they are read. */
  lemma HandedOver(mem: Memory, tree: Tree, sizes: Sizes, p: Pos, s: seq<int>)
    requires p in tree && Ready(mem, tree, sizes, p, s) && OldNode(mem, tree, p)
    ensures |s| > 0
    ensures var x, r := tree[p][0], s[0];
            var m1 := mem[Slot(tree, p) := r][ParentAt(r) := Peek(mem, ParentAt(x))];
            && Peek(m1, ChildAt(x, 0)) == NodeAt(tree, Down(p, 0))
            && Peek(Adopt(m1, x, r, 0), ChildAt(x, 1)) == NodeAt(tree, Down(p, 1))
  {
    hide Slot, Shape, Spaced;
    RelinkApplies(mem, tree, sizes, p, s);
  }

  lemma ChildMapped(m: State, tree: Tree, d: Pos)
    requires m.Region() && Shape(tree, m.sizes)
    ensures var c := NodeAt(tree, d); c == 0 || (m.OkAddress(c) && m.Mapped(ParentAt(c)))
  {
    hide Shape;
    if d in tree && |tree[d]| > 0 {
      NodeMapped(m, tree, d);
    }
  }

  /** `R->parent = XP` and the adoption of both children. */
  method TakeOver(m: State, x: int, xp: int, r: int, ghost tree: Tree, ghost p: Pos, ghost s: seq<int>,
                  ghost mem0: Memory)
    requires m.Region() && p in tree && Ready(mem0, tree, m.sizes, p, s) && OldNode(mem0, tree, p)
    requires x == tree[p][0] && |s| > 0 && r == s[0] && xp == Peek(mem0, ParentAt(x))
    requires m.mem == mem0[Slot(tree, p) := r]
    modifies m`mem
    ensures m.mem == Relink(mem0, Slot(tree, p), x, r)
  {
    hide Shape, Takes, Slot, Adopt, Chain, NodeAt;
    RelinkAddresses(m, tree, p, s);
    HandedOver(mem0, tree, m.sizes, p, s);
    ChildMapped(m, tree, Down(p, 0));
    ChildMapped(m, tree, Down(p, 1));
    if m.OkAddress(r) {
      m.Put(ParentAt(r), xp);
      AdoptChild(m, x, r, 0);
      AdoptChild(m, x, r, 1);
    } else {
      assert false;
    }
  }

  // ---- unlink_large_chunk ----

  lemma FindMember(tree: Tree, x: int) returns (p: Pos, j: nat)
    requires InTree(tree, x)
    ensures p in tree && j < |tree[p]| && tree[p][j] == x
  {
    p :| p in tree && x in tree[p];
    j :| 0 <= j < |tree[p]| && tree[p][j] == x;
  }

  lemma BypassTrees(mem: Memory, tree: Tree, sizes: Sizes, p: Pos, f: nat, b: nat)
    requires Shape(tree, sizes) && p in tree && f < |tree[p]| && b < |tree[p]|
    ensures OnlyTrees(mem, Bypass(mem, tree[p][f], tree[p][b]), sizes)
  {
    MemberWord(tree, sizes, p, f, 24);
    MemberWord(tree, sizes, p, b, 16);
  }

  lemma SlotTrees(mem: Memory, tree: Tree, sizes: Sizes, p: Pos, v: int)
    requires Shape(tree, sizes) && Spaced(sizes) && p in tree
    ensures OnlyTrees(mem, mem[Slot(tree, p) := v], sizes)
  {
    SlotWord(tree, sizes, p);
  }

  lemma NodeWord(tree: Tree, sizes: Sizes, d: Pos, o: int)
    requires Shape(tree, sizes) && 16 <= o < 64
    ensures NodeAt(tree, d) != 0 ==> TreeWord(sizes, NodeAt(tree, d) + o)
  {
    if NodeAt(tree, d) != 0 {
      MemberWord(tree, sizes, d, 0, o);
    }
  }

  lemma RelinkTrees(mem: Memory, tree: Tree, sizes: Sizes, p: Pos, s: seq<int>)
    requires p in tree && Ready(mem, tree, sizes, p, s) && OldNode(mem, tree, p)
    ensures |s| > 0 && OnlyTrees(mem, Relink(mem, Slot(tree, p), tree[p][0], s[0]), sizes)
  {
    hide Relink, Slot, Shape, Spaced, TreeWord;
    var mem' := Relink(mem, Slot(tree, p), tree[p][0], s[0]);
    RelinkApplies(mem, tree, sizes, p, s);
    SlotWord(tree, sizes, p);
    NodeWord(tree, sizes, Down(p, 0), 48);
    NodeWord(tree, sizes, Down(p, 1), 48);
    NewWord(sizes, s[0], 32);
    NewWord(sizes, s[0], 40);
    NewWord(sizes, s[0], 48);
    forall a | Peek(mem', a) != Peek(mem, a)
      ensures TreeWord(sizes, a)
    {
      RelinkRead(mem, Slot(tree, p), tree[p][0], s[0], a);
    }
  }

  lemma NewWord(sizes: Sizes, r: int, o: int)
    requires r in sizes && !IsSmall(sizes[r]) && 16 <= o < 64
    ensures TreeWord(sizes, r + o)
  {
  }

  /** Takes chunk `x` out of its tree: the three cases of the source's comment. */
  method UnlinkLargeChunk(m: State, x: int)
    requires m.Bins() && InTree(m.tree, x)
    modifies m`mem, m`treemap, m`sizes, m`tree, m`trace
    ensures old(m.trace) <= m.trace && (old(m.Chronicled()) ==> m.Chronicled())
    ensures m.Bins() && m.sizes == Less(old(m.sizes), x)
    ensures OnlyLinks(old(m.mem), m.mem, old(m.sizes))
    ensures Dropped(m.tree, m.sizes, old(m.tree), old(m.sizes), x)
    ensures exists p, j {:trigger TreeWithout(old(m.tree), p, j)} ::
              p in old(m.tree) && 0 <= j < |old(m.tree)[p]| && old(m.tree)[p][j] == x
              && m.tree == TreeWithout(old(m.tree), p, j)
    ensures m.trace == old(m.trace) + [Remove(x)]
  {
    hide TreeLinks, SmallLinks, HoldsSmall, SmallShape, SizeHeads, Shape, Slot, Below, Spaced, Within, LinksBut,
      Removed, Relink, Chronicle, Dropped, Left, InSmall, TreeWithout;
    ghost var p, j := FindMember(m.tree, x);
    ghost var tree0, sizes0 := m.tree, m.sizes;
    ChainRead(m.mem, m.treemap, m.sizes, m.tree, p, j);
    LargeInTree(m, p, j);
    LargeNotSmall(m, x);
    var xp := m.At(ParentAt(x));
    if m.At(Bk(x)) != x {
      UnlinkChained(m, x, xp, p, j);
    } else {
      assert m.tree[p] == [x];
      UnlinkLast(m, x, xp, p);
    }
    if Chronicle(m.trace, m.small, tree0, sizes0) {
      LargeLeft(m.small, m.tree, m.sizes, tree0, sizes0, x);
      ChronicleRemove(m.trace, m.small, tree0, sizes0, m.small, m.tree, m.sizes, x);
    }
    m.trace := m.trace + [Remove(x)];
  }

  lemma LargeNotSmall(m: State, x: int)
    requires m.Bins() && x in m.sizes && !IsSmall(m.sizes[x])
    ensures !InSmall(m.small, x)
  {
    hide Shape, TreeLinks, SmallLinks, SmallShape;
  }

  method UnlinkChained(m: State, x: int, xp: int, ghost p: Pos, ghost j: nat)
    requires m.Bins() && p in m.tree && j < |m.tree[p]| && |m.tree[p]| >= 2 && x == m.tree[p][j]
    requires xp == Peek(m.mem, ParentAt(x))
    modifies m`mem, m`treemap, m`sizes, m`tree
    ensures m.Bins() && m.sizes == Less(old(m.sizes), x)
    ensures OnlyLinks(old(m.mem), m.mem, old(m.sizes))
    ensures Dropped(m.tree, m.sizes, old(m.tree), old(m.sizes), x) && m.tree == TreeWithout(old(m.tree), p, j)
  {
    hide TreeLinks, SmallLinks, SmallShape, SizeHeads, Shape, Slot, Below, Spaced, Within, LinksBut, Removed, Relink,
      ParentOf, Bypass, OnlyTrees, OnlyLinks, Dropped, RightmostPos;
    ghost var tree, mem0 := m.tree, m.mem;
    ghost var s := Without(tree[p], j);
    ChainRead(mem0, m.treemap, m.sizes, tree, p, j);
    ParentNonZero(mem0, m.treemap, m.sizes, tree, p);
    var r := UnlinkRing(m, x, p, j);
    BypassTrees(mem0, tree, m.sizes, p, Previous(j, |tree[p]|), Next(j, |tree[p]|));
    if xp != 0 {
      SucceedHead(m, x, xp, r, p, mem0);
    } else {
      RemoveChained(mem0, m.treemap, tree, m.sizes, p, j);
    }
    assert InTree(tree, x);
    RemovedBins(mem0, m.mem, m.smallmap, m.treemap, m.treemap, m.sizes, m.small, tree, tree[p := s], x);
    TreesAreLinks(mem0, m.mem, m.sizes);
    WithinLess(m.sizes, x, m.segBase, m.segBase + m.segSize);
    ChainShorter(m.mem, m.treemap, tree, m.sizes, p, j);
    m.tree := tree[p := s];
    m.sizes := Less(m.sizes, x);
  }

  /** The tree node `x` of a longer chain hands its place to `r`, its successor. */
  method SucceedHead(m: State, x: int, xp: int, r: int, ghost p: Pos, ghost mem0: Memory)
    requires m.Region() && Shape(m.tree, m.sizes) && TreeLinks(mem0, m.treemap, m.tree)
    requires p in m.tree && |m.tree[p]| >= 2 && x == m.tree[p][0] && r == m.tree[p][1]
    requires m.mem == Bypass(mem0, m.tree[p][|m.tree[p]| - 1], r)
    requires xp == Peek(mem0, ParentAt(x))
    modifies m`mem, m`treemap
    ensures m.treemap == old(m.treemap) && OnlyTrees(mem0, m.mem, m.sizes)
    ensures Removed(m.mem, m.treemap, m.tree[p := Without(m.tree[p], 0)], m.tree, m.sizes, x)
  {
    hide TreeLinks, Shape, Slot, Spaced, Within, LinksBut, Removed, Relink, Bypass, OnlyTrees, Ready, OldNode;
    ghost var tree, mem1, s := m.tree, m.mem, Without(m.tree[p], 0);
    assert r == s[0];
    NodeMapped2(m, tree, p);
    HeadReady(mem0, m.treemap, tree, m.sizes, p);
    ReplaceInSlot(m, x, xp, r, tree, p);
    TakeOver(m, x, xp, r, tree, p, s, mem1);
    RelinkTrees(mem1, tree, m.sizes, p, s);
    BypassTrees(mem0, tree, m.sizes, p, |tree[p]| - 1, 1);
    OnlyTreesTrans(mem0, mem1, m.mem, m.sizes);
    RemoveHead(mem0, m.treemap, tree, m.sizes, p);
  }

  lemma NodeMapped2(m: State, tree: Tree, p: Pos)
    requires m.Region() && Shape(tree, m.sizes) && p in tree && |tree[p]| >= 2
    ensures tree[p][1] != 0
  {
    hide Shape;
    MemberSize(tree, m.sizes, p, 1);
  }

  /** The last chunk of its size: null, or the rightmost leaf below, takes its place. */
  method UnlinkLast(m: State, x: int, xp: int, ghost p: Pos)
    requires m.Bins() && p in m.tree && m.tree[p] == [x] && xp == Peek(m.mem, ParentAt(x))
    modifies m`mem, m`treemap, m`sizes, m`tree
    ensures m.Bins() && m.sizes == Less(old(m.sizes), x)
    ensures OnlyLinks(old(m.mem), m.mem, old(m.sizes))
    ensures Dropped(m.tree, m.sizes, old(m.tree), old(m.sizes), x) && m.tree == TreeWithout(old(m.tree), p, 0)
  {
    hide TreeLinks, SmallLinks, SmallShape, SizeHeads, Shape, Slot, Below, Spaced, Within, Removed, Relink, ParentOf,
      OnlyTrees, OnlyLinks, NodeLinks, Clear, Dropped, RightmostPos;
    ghost var tree, mem0, treemap0, tree' := m.tree, m.mem, m.treemap, m.tree - {p};
    ParentNonZero(mem0, m.treemap, m.sizes, tree, p);
    ChainRead(mem0, m.treemap, m.sizes, tree, p, 0);
    var r, l := DetachRightmost(m, x, p);
    if r == 0 {
      LinksOfAll(mem0, treemap0, tree, p);
      RemoveLeaf(mem0, treemap0, tree, m.sizes, p);
      SlotTrees(mem0, tree, m.sizes, p, 0);
      if xp != 0 {
        ReplaceInSlot(m, x, xp, r, tree, p);
      }
    } else {
      BelowNotRoot(tree, m.sizes, l, p);
      tree' := (tree - {l})[p := tree[l]];
      if xp != 0 {
        MoveLeafUp(m, x, xp, r, p, l, mem0);
      }
    }
    assert InTree(tree, x);
    RemovedBins(mem0, m.mem, m.smallmap, treemap0, m.treemap, m.sizes, m.small, tree, tree', x);
    TreesAreLinks(mem0, m.mem, m.sizes);
    WithinLess(m.sizes, x, m.segBase, m.segBase + m.segSize);
    ChainGone(m.mem, m.treemap, tree, m.sizes, p, if r == 0 then p else l);
    m.tree := tree';
    m.sizes := Less(m.sizes, x);
  }

  method MoveLeafUp(m: State, x: int, xp: int, r: int, ghost p: Pos, ghost l: Pos, ghost mem0: Memory)
    requires m.Region() && Shape(m.tree, m.sizes) && TreeLinks(mem0, m.treemap, m.tree)
    requires p in m.tree && m.tree[p] == [x] && xp == Peek(mem0, ParentAt(x)) && Peek(mem0, IndexAt(x)) == p.bin
    requires l in m.tree && l.w > 0 && |m.tree[l]| > 0 && IsLeaf(m.tree, l) && Below(m.tree, m.sizes, l, p)
    requires r == m.tree[l][0] && m.mem == mem0[Slot(m.tree, l) := 0]
    modifies m`mem, m`treemap
    ensures m.treemap == old(m.treemap) && OnlyTrees(mem0, m.mem, m.sizes)
    ensures Removed(m.mem, m.treemap, (m.tree - {l})[p := m.tree[l]], m.tree, m.sizes, x)
  {
    hide TreeLinks, Shape, Slot, Spaced, Within, LinksBut, Removed, Relink, OnlyTrees, Ready, OldNode, Below;
    ghost var tree, mem1, s, tree1 := m.tree, m.mem, m.tree[l], m.tree - {l};
    NodeMapped(m, tree, l);
    LeafReady(mem0, m.treemap, tree, m.sizes, p, l);
    ReplaceInSlot(m, x, xp, r, tree1, p);
    TakeOver(m, x, xp, r, tree1, p, s, mem1);
    RelinkTrees(mem1, tree1, m.sizes, p, s);
    SlotTrees(mem0, tree, m.sizes, l, 0);
    OnlyTreesTrans(mem0, mem1, m.mem, m.sizes);
    RemoveInterior(mem0, m.treemap, tree, m.sizes, p, l);
  }

  lemma LeafReady(mem: Memory, treemap: BinMap, tree: Tree, sizes: Sizes, p: Pos, l: Pos)
    requires Shape(tree, sizes) && Spaced(sizes) && TreeLinks(mem, treemap, tree)
    requires p in tree && |tree[p]| == 1
    requires l in tree && l.w > 0 && |tree[l]| > 0 && IsLeaf(tree, l) && Below(tree, sizes, l, p)
    ensures p != l && Shape(tree - {l}, sizes)
    ensures var mem' := mem[Slot(tree, l) := 0];
            && Ready(mem', tree - {l}, sizes, p, tree[l]) && LinksBut(mem', treemap, tree - {l}, p)
            && OldNode(mem', tree - {l}, p)
            && Peek(mem', ParentAt(tree[p][0])) == Peek(mem, ParentAt(tree[p][0]))
            && Peek(mem', IndexAt(tree[p][0])) == Peek(mem, IndexAt(tree[p][0]))
  {
    hide TreeLinks, Shape, Spaced, Ready, Takes, Below;
    BelowNotRoot(tree, sizes, l, p);
    DetachShape(tree, sizes, l);
    DetachLinks(mem, treemap, tree, sizes, l);
    InteriorTakes(tree, sizes, p, l);
    InteriorReady(mem, treemap, tree, sizes, p, l);
    LinksOfAll(mem[Slot(tree, l) := 0], treemap, tree - {l}, p);
    if Up(l) == p {
      ParentWordsSame(mem, tree, l, 0);
    } else {
      SlotApart(tree, sizes, l, p, 0, mem, 0);
    }
  }

  /** Order after a removal, with the removed chunk's size forgotten. */
  lemma DroppedLess(tree': Tree, tree: Tree, sizes: Sizes, x: int)
    requires Shape(tree', sizes) && !InTree(tree', x) && Dropped(tree', sizes, tree, sizes, x)
    ensures Dropped(tree', Less(sizes, x), tree, sizes, x)
  {
    hide ChainOfSize, Shape;
    ShapeLess(tree', sizes, x);
    forall p | p in tree'
      ensures Key(tree', Less(sizes, x), p) == Key(tree', sizes, p)
    {
      ShapeAt(tree', sizes, p);
      NotMember(tree', p, x);
    }
    forall s: nat
      ensures ChainOfSize(tree', Less(sizes, x), s) == Drop(ChainOfSize(tree, sizes, s), x)
    {
      ChainsElsewhere(tree', sizes, Less(sizes, x), s);
      assert ChainOfSize(tree', sizes, s) == Drop(ChainOfSize(tree, sizes, s), x);
    }
  }

  lemma ChainShorter(mem': Memory, treemap': BinMap, tree: Tree, sizes: Sizes, p: Pos, j: nat)
    requires Shape(tree, sizes) && p in tree && j < |tree[p]| && |tree[p]| >= 2
    requires Removed(mem', treemap', tree[p := Without(tree[p], j)], tree, sizes, tree[p][j])
    ensures Dropped(tree[p := Without(tree[p], j)], Less(sizes, tree[p][j]), tree, sizes, tree[p][j])
  {
    hide Shape, Dropped, TreeLinks;
    DropWithout(tree, sizes, p, j);
    DroppedLess(tree[p := Without(tree[p], j)], tree, sizes, tree[p][j]);
  }

  lemma ChainGone(mem': Memory, treemap': BinMap, tree: Tree, sizes: Sizes, p: Pos, l: Pos)
    requires Shape(tree, sizes) && p in tree && |tree[p]| == 1 && l in tree
    requires Removed(mem', treemap', Vacated(tree, p, l), tree, sizes, tree[p][0])
    ensures Dropped(Vacated(tree, p, l), Less(sizes, tree[p][0]), tree, sizes, tree[p][0])
  {
    hide Shape, Dropped, TreeLinks, Vacated;
    DropLast(tree, sizes, p, l);
    DroppedLess(Vacated(tree, p, l), tree, sizes, tree[p][0]);
  }

  lemma WithinLess(sizes: Sizes, x: int, lo: int, hi: int)
    requires Within(sizes, lo, hi)
    ensures Within(Less(sizes, x), lo, hi)
  {
  }

  lemma ParentNonZero(mem: Memory, treemap: BinMap, sizes: Sizes, tree: Tree, p: Pos)
    requires Shape(tree, sizes) && Spaced(sizes) && TreeLinks(mem, treemap, tree) && p in tree
    ensures |tree[p]| > 0 && ParentOf(tree, p) != 0
  {
    NodeAboveGm(tree, sizes, p);
    if p.w < RootBits(p.bin) {
      NodeAboveGm(tree, sizes, Up(p));
    }
  }

  /** After the ring has been closed over the tree node, its successor can take its place. */
  lemma HeadReady(mem: Memory, treemap: BinMap, tree: Tree, sizes: Sizes, p: Pos)
    requires Shape(tree, sizes) && Spaced(sizes) && TreeLinks(mem, treemap, tree) && p in tree && |tree[p]| >= 2
    ensures var r, n := tree[p], |tree[p]|;
            var mem' := Bypass(mem, r[n - 1], r[1]);
            && Ready(mem', tree, sizes, p, Without(r, 0)) && LinksBut(mem', treemap, tree, p)
            && OldNode(mem', tree, p)
            && Peek(mem', ParentAt(r[0])) == Peek(mem, ParentAt(r[0]))
            && Peek(mem', IndexAt(r[0])) == p.bin
  {
    hide Bypass, Takes, Shape, Spaced, Linked;
    var r, n := tree[p], |tree[p]|;
    assert PosLinks(mem, tree, p);
    BypassChain(mem, tree, sizes, p, 0);
    BypassLinks(mem, treemap, tree, sizes, p, 0);
    TakesWithout(tree, sizes, p, 0);
    assert Without(r, 0)[0] == r[1];
    SameOrApart(tree, sizes, p, n - 1, 0);
    SameOrApart(tree, sizes, p, 1, 0);
    BypassTreeWords(mem, r[n - 1], r[1], r[0]);
  }
}
