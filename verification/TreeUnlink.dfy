/** What the word updates of `unlink_large_chunk` do to the tries. */
module TreeUnlink {
  import opened Words
  import opened SizeBits
  import opened BinMaps
  import opened TreeBins

  // ---- taking a leaf off its slot: *RP = 0 ----

  lemma DetachShape(tree: Tree, sizes: Sizes, l: Pos)
    requires Shape(tree, sizes) && l in tree && l.w > 0 && IsLeaf(tree, l)
    ensures Shape(tree - {l}, sizes)
  {
    var tree' := tree - {l};
    forall p | p in tree'
      ensures ChainFits(tree', sizes, p)
    {
      assert ChainFits(tree, sizes, p);
      if p.w < RootBits(p.bin) && Up(p) == l {
        DownUp(p);
      }
    }
    forall p, q | p in tree' && q in tree' && Key(tree', sizes, p) == Key(tree', sizes, q)
      ensures p == q
    {
      assert Key(tree, sizes, p) == Key(tree, sizes, q);
    }
  }

  /** The slot of `l` is a word of no other position's links than its parent's. */
  lemma SlotApart(tree: Tree, sizes: Sizes, l: Pos, p: Pos, k: nat, mem: Memory, v: int)
    requires Shape(tree, sizes) && Spaced(sizes) && l in tree && p in tree && k < |tree[p]|
    requires l.w == RootBits(l.bin) || p != Up(l) || k > 0
    ensures SameLinks(mem, mem[Slot(tree, l) := v], tree[p][k])
  {
    assert ChainFits(tree, sizes, l) && ChainFits(tree, sizes, p);
    BinInRange(l, Key(tree, sizes, l));
    var x := tree[p][k];
    if l.w == RootBits(l.bin) {
      WriteElsewhere(mem, sizes, x, x, Slot(tree, l), v);
    } else {
      var u := Up(l);
      assert ChainFits(tree, sizes, u);
      if tree[u][0] == x {
        ChainsDisjoint(tree, sizes, u, p, 0, k);
      }
      WriteElsewhere(mem, sizes, x, tree[u][0], Slot(tree, l), v);
    }
  }

  /** The positions next to `p` are next to `l` only when `p` is above `l`. */
  lemma DetachNeighbours(tree: Tree, l: Pos, p: Pos)
    requires l in tree && l.w > 0 && IsLeaf(tree, l) && p in tree && p.w > 0 && p != l
    requires l.w == RootBits(l.bin) ==> l == RootPos(l.bin)
    requires p.w < RootBits(p.bin) ==> Up(p) in tree
    ensures ParentOf(tree, p) == ParentOf(tree - {l}, p)
    ensures p != Up(l) ==> NodeAt(tree, Down(p, 0)) == NodeAt(tree - {l}, Down(p, 0))
    ensures p != Up(l) ==> NodeAt(tree, Down(p, 1)) == NodeAt(tree - {l}, Down(p, 1))
    ensures p == Up(l) ==> NodeAt(tree - {l}, Down(p, l.q % 2)) == 0
    ensures p == Up(l) ==> NodeAt(tree - {l}, Down(p, 1 - l.q % 2)) == NodeAt(tree, Down(p, 1 - l.q % 2))
  {
    UpDown(p, 0);
    UpDown(p, 1);
    DownUp(p);
    DownUp(l);
  }

  lemma DetachPos(mem: Memory, tree: Tree, sizes: Sizes, l: Pos, p: Pos)
    requires Shape(tree, sizes) && Spaced(sizes) && l in tree && l.w > 0 && IsLeaf(tree, l)
    requires p in tree && p != l && PosLinks(mem, tree, p)
    requires l.w == RootBits(l.bin) || p != Up(l)
    ensures PosLinks(mem[Slot(tree, l) := 0], tree - {l}, p)
  {
    hide Slot, ParentOf, NodeAt, Up, Down, Fits;
    var mem', tree' := mem[Slot(tree, l) := 0], tree - {l};
    assert ChainFits(tree, sizes, p) && ChainFits(tree, sizes, l);
    forall k | 0 <= k < |tree[p]|
      ensures SameLinks(mem, mem', tree[p][k])
    {
      SlotApart(tree, sizes, l, p, k, mem, 0);
    }
    if l.w == RootBits(l.bin) {
      TopIsRoot(l, Key(tree, sizes, l));
      NotAboveRoot(l, p);
    }
    DetachNeighbours(tree, l, p);
    PosFrame(mem, mem', tree, tree', p);
  }

  lemma NotAboveRoot(l: Pos, p: Pos)
    requires l.w == RootBits(l.bin) && p.w <= RootBits(p.bin)
    ensures p != Up(l)
  {
  }

  lemma DetachParentChain(mem: Memory, tree: Tree, sizes: Sizes, l: Pos)
    requires Shape(tree, sizes) && Spaced(sizes) && l in tree
    requires l.w < RootBits(l.bin) && Up(l) in tree && |tree[Up(l)]| > 0
    requires Chain(mem, l.bin, tree[Up(l)])
    ensures Chain(mem[Slot(tree, l) := 0], l.bin, tree[Up(l)])
  {
    var mem', r := mem[Slot(tree, l) := 0], tree[Up(l)];
    ParentWordsSame(mem, tree, l, 0);
    forall k | 0 < k < |r|
      ensures SameLinks(mem, mem', r[k])
    {
      SlotApart(tree, sizes, l, Up(l), k, mem, 0);
    }
    ChainFrameBelowHead(mem, mem', l.bin, r);
  }

  lemma DetachParent(mem: Memory, tree: Tree, sizes: Sizes, l: Pos)
    requires Shape(tree, sizes) && Spaced(sizes) && l in tree && 0 < l.w < RootBits(l.bin) && IsLeaf(tree, l)
    requires Up(l) in tree && PosLinks(mem, tree, Up(l))
    ensures PosLinks(mem[Slot(tree, l) := 0], tree - {l}, Up(l))
  {
    hide Slot, ParentOf, NodeAt, Down, Shape, Spaced, Chain;
    DetachParentChain(mem, tree, sizes, l);
    ParentWordsSame(mem, tree, l, 0);
    assert Up(l).w < RootBits(l.bin) ==> Up(Up(l)) in tree by {
      UpperOccupied(tree, sizes, Up(l));
    }
    DetachNeighbours(tree, l, Up(l));
  }

  lemma UpperOccupied(tree: Tree, sizes: Sizes, p: Pos)
    requires Shape(tree, sizes) && p in tree
    ensures p.w < RootBits(p.bin) ==> Up(p) in tree
  {
    assert ChainFits(tree, sizes, p);
  }

  /** Writing a child word of the parent leaves its other links alone. */
  lemma ParentWordsSame(mem: Memory, tree: Tree, l: Pos, v: int)
    requires l in tree && l.w < RootBits(l.bin) && Up(l) in tree && |tree[Up(l)]| > 0
    ensures var mem', a := mem[Slot(tree, l) := v], tree[Up(l)][0];
            && Peek(mem', Fd(a)) == Peek(mem, Fd(a)) && Peek(mem', Bk(a)) == Peek(mem, Bk(a))
            && Peek(mem', ParentAt(a)) == Peek(mem, ParentAt(a)) && Peek(mem', IndexAt(a)) == Peek(mem, IndexAt(a))
            && Peek(mem', ChildAt(a, l.q % 2)) == v
            && Peek(mem', ChildAt(a, 1 - l.q % 2)) == Peek(mem, ChildAt(a, 1 - l.q % 2))
  {
  }

  ghost function MapWithout(treemap: BinMap, tree: Tree, l: Pos): BinMap
    requires l.bin < 32
  {
    if l.w == RootBits(l.bin) then Clear(treemap, l.bin) else treemap
  }

  lemma DetachRoots(mem: Memory, treemap: BinMap, tree: Tree, sizes: Sizes, l: Pos, i: nat)
    requires Shape(tree, sizes) && Spaced(sizes) && l in tree && i < 32
    requires RootLink(mem, treemap, tree, i)
    ensures l.bin < 32 && RootLink(mem[Slot(tree, l) := 0], MapWithout(treemap, tree, l), tree - {l}, i)
  {
    hide Marked, Clear;
    assert ChainFits(tree, sizes, l);
    BinInRange(l, Key(tree, sizes, l));
    MarkAndClear(treemap, l.bin);
    if l.w == RootBits(l.bin) {
      TopIsRoot(l, Key(tree, sizes, l));
    } else {
      assert ChainFits(tree, sizes, Up(l));
    }
  }

  lemma DetachLinks(mem: Memory, treemap: BinMap, tree: Tree, sizes: Sizes, l: Pos)
    requires Shape(tree, sizes) && Spaced(sizes) && TreeLinks(mem, treemap, tree)
    requires l in tree && l.w > 0 && IsLeaf(tree, l)
    ensures l.bin < 32 && TreeLinks(mem[Slot(tree, l) := 0], MapWithout(treemap, tree, l), tree - {l})
  {
    var mem', tree' := mem[Slot(tree, l) := 0], tree - {l};
    assert ChainFits(tree, sizes, l);
    BinInRange(l, Key(tree, sizes, l));
    forall p | p in tree'
      ensures PosLinks(mem', tree', p)
    {
      assert PosLinks(mem, tree, p);
      if l.w < RootBits(l.bin) && p == Up(l) {
        DetachParent(mem, tree, sizes, l);
      } else {
        DetachPos(mem, tree, sizes, l, p);
      }
    }
    forall i | 0 <= i < 32
      ensures RootLink(mem', MapWithout(treemap, tree, l), tree', i)
    {
      assert RootLink(mem, treemap, tree, i);
      DetachRoots(mem, treemap, tree, sizes, l, i);
    }
  }
}
