/** The four ways in which `unlink_large_chunk` takes one chunk out of the tries. Each lemma
    says that the tries afterwards are well formed and hold exactly the other chunks. */
module TreeRemoval {
  import opened Words
  import opened SizeBits
  import opened Rings
  import opened BinMaps
  import opened TreeBins
  import opened TreeUnlink
  import opened TreeRelink
  import opened TreeChains

  /** `tree'` is well formed in memory and holds what `tree` held, except `x`. */
  ghost predicate Removed(mem': Memory, treemap': BinMap, tree': Tree, tree: Tree, sizes: Sizes, x: int) {
    && Shape(tree', sizes) && TreeLinks(mem', treemap', tree')
    && forall y {:trigger InTree(tree', y)} :: InTree(tree', y) <==> InTree(tree, y) && y != x
  }

  lemma TakesWithout(tree: Tree, sizes: Sizes, p: Pos, j: nat)
    requires Shape(tree, sizes) && p in tree && j < |tree[p]| && |tree[p]| >= 2
    ensures Takes(tree, sizes, p, Without(tree[p], j))
    ensures tree[p][j] !in Without(tree[p], j)
  {
    ShapeAt(tree, sizes, p);
    var r := tree[p];
    MembersWithout(r, j);
    forall q | q in tree && q != p
      ensures Key(tree, sizes, q) != sizes[r[0]]
    {
      ShapeAt(tree, sizes, q);
      assert Key(tree, sizes, q) == Key(tree, sizes, p) ==> p == q;
    }
  }

  lemma WithoutHolds(tree: Tree, sizes: Sizes, p: Pos, j: nat)
    requires Shape(tree, sizes) && p in tree && j < |tree[p]|
    ensures var tree' := tree[p := Without(tree[p], j)];
            forall y {:trigger InTree(tree', y)} :: InTree(tree', y) <==> InTree(tree, y) && y != tree[p][j]
  {
    var r, tree' := tree[p], tree[p := Without(tree[p], j)];
    ShapeAt(tree, sizes, p);
    forall y
      ensures InTree(tree', y) <==> InTree(tree, y) && y != r[j]
    {
      WithoutHoldsOne(tree, sizes, p, j, y);
    }
  }

  lemma WithoutHoldsOne(tree: Tree, sizes: Sizes, p: Pos, j: nat, y: int)
    requires Shape(tree, sizes) && p in tree && j < |tree[p]|
    ensures InTree(tree[p := Without(tree[p], j)], y) <==> InTree(tree, y) && y != tree[p][j]
  {
    if InTree(tree, y) && y != tree[p][j] {
      WithoutKeeps(tree, p, j, y);
    }
    if InTree(tree[p := Without(tree[p], j)], y) {
      WithoutAddsNone(tree, sizes, p, j, y);
    }
  }

  lemma WithoutKeeps(tree: Tree, p: Pos, j: nat, y: int)
    requires p in tree && j < |tree[p]| && InTree(tree, y) && y != tree[p][j]
    ensures InTree(tree[p := Without(tree[p], j)], y)
  {
    var r, tree' := tree[p], tree[p := Without(tree[p], j)];
    var q :| q in tree && y in tree[q];
    var k :| 0 <= k < |tree[q]| && tree[q][k] == y;
    if q == p {
      assert tree'[q][if k > j then k - 1 else k] == y;
    }
    assert q in tree' && y in tree'[q];
  }

  lemma WithoutAddsNone(tree: Tree, sizes: Sizes, p: Pos, j: nat, y: int)
    requires Shape(tree, sizes) && p in tree && j < |tree[p]|
    requires InTree(tree[p := Without(tree[p], j)], y)
    ensures InTree(tree, y) && y != tree[p][j]
  {
    hide Shape;
    var tree' := tree[p := Without(tree[p], j)];
    var q :| q in tree' && y in tree'[q];
    var k :| 0 <= k < |tree'[q]| && tree'[q][k] == y;
    var k' := if q == p && k >= j then k + 1 else k;
    assert tree[q][k'] == y;
    assert q in tree && y in tree[q];
    if y == tree[p][j] {
      ChainsDisjoint(tree, sizes, p, q, j, k');
    }
  }

  /** A chained node, not the tree node: only the ring changes. */
  lemma RemoveChained(mem: Memory, treemap: BinMap, tree: Tree, sizes: Sizes, p: Pos, j: nat)
    requires Shape(tree, sizes) && Spaced(sizes) && TreeLinks(mem, treemap, tree)
    requires p in tree && 0 < j < |tree[p]|
    ensures var r, n := tree[p], |tree[p]|;
            Removed(Bypass(mem, r[Previous(j, n)], r[Next(j, n)]), treemap, tree[p := Without(r, j)], tree, sizes, r[j])
  {
    hide Bypass, TreeLinks, LinksBut, Chain, Takes;
    var r, n := tree[p], |tree[p]|;
    var mem' := Bypass(mem, r[Previous(j, n)], r[Next(j, n)]);
    assert Chain(mem, p.bin, r) by { ChainOf(mem, treemap, tree, p); }
    BypassChain(mem, tree, sizes, p, j);
    BypassLinks(mem, treemap, tree, sizes, p, j);
    SameNode(mem', treemap, tree, p, Without(r, j));
    TakesWithout(tree, sizes, p, j);
    RelinkShape(tree, sizes, p, Without(r, j));
    WithoutHolds(tree, sizes, p, j);
  }

  lemma ChainOf(mem: Memory, treemap: BinMap, tree: Tree, p: Pos)
    requires TreeLinks(mem, treemap, tree) && p in tree
    ensures |tree[p]| > 0 && p.w > 0 && Chain(mem, p.bin, tree[p]) && NodeLinks(mem, tree, p)
  {
    assert PosLinks(mem, tree, p);
  }

  /** The tree node of a longer chain: the next oldest chunk of its size takes its place. */
  lemma RemoveHead(mem: Memory, treemap: BinMap, tree: Tree, sizes: Sizes, p: Pos)
    requires Shape(tree, sizes) && Spaced(sizes) && TreeLinks(mem, treemap, tree)
    requires p in tree && |tree[p]| >= 2
    ensures var r, n := tree[p], |tree[p]|;
            var mem' := Bypass(mem, r[n - 1], r[1]);
            Removed(Relink(mem', Slot(tree, p), r[0], r[1]), treemap, tree[p := Without(r, 0)], tree, sizes, r[0])
  {
    hide Bypass, TreeLinks, LinksBut, Chain, Takes, Relink, Slot, SameTreeLinks;
    var r, n := tree[p], |tree[p]|;
    var mem' := Bypass(mem, r[n - 1], r[1]);
    assert Chain(mem, p.bin, r) by { ChainOf(mem, treemap, tree, p); }
    BypassChain(mem, tree, sizes, p, 0);
    BypassLinks(mem, treemap, tree, sizes, p, 0);
    TakesWithout(tree, sizes, p, 0);
    assert Without(r, 0)[0] == r[1];
    RelinkLinks(mem', treemap, tree, sizes, p, Without(r, 0));
    RelinkShape(tree, sizes, p, Without(r, 0));
    WithoutHolds(tree, sizes, p, 0);
  }

  /** The last chunk of its size, at a leaf. */
  lemma RemoveLeaf(mem: Memory, treemap: BinMap, tree: Tree, sizes: Sizes, p: Pos)
    requires Shape(tree, sizes) && Spaced(sizes) && TreeLinks(mem, treemap, tree)
    requires p in tree && |tree[p]| == 1 && p.w > 0 && IsLeaf(tree, p)
    ensures p.bin < 32
    ensures Removed(mem[Slot(tree, p) := 0], MapWithout(treemap, tree, p), tree - {p}, tree, sizes, tree[p][0])
  {
    hide TreeLinks, Slot;
    DetachShape(tree, sizes, p);
    DetachLinks(mem, treemap, tree, sizes, p);
    hide MapWithout;
    var tree' := tree - {p};
    forall y
      ensures InTree(tree', y) <==> InTree(tree, y) && y != tree[p][0]
    {
      LeafHoldsOne(tree, sizes, p, y);
    }
  }

  lemma LeafHoldsOne(tree: Tree, sizes: Sizes, p: Pos, y: int)
    requires Shape(tree, sizes) && p in tree && |tree[p]| == 1
    ensures InTree(tree - {p}, y) <==> InTree(tree, y) && y != tree[p][0]
  {
    var tree' := tree - {p};
    if InTree(tree, y) && y != tree[p][0] {
      var q :| q in tree && y in tree[q];
      assert q != p;
      assert q in tree' && y in tree'[q];
    }
    if InTree(tree', y) {
      var q :| q in tree' && y in tree'[q];
      var k :| 0 <= k < |tree[q]| && tree[q][k] == y;
      assert q in tree && y in tree[q];
      if y == tree[p][0] {
        ChainsDisjoint(tree, sizes, p, q, 0, k);
      }
    }
  }

  /** Position `l` is strictly below `p`. */
  ghost predicate Below(tree: Tree, sizes: Sizes, l: Pos, p: Pos)
    requires l in tree
  {
    l.bin == p.bin && l.w < p.w && PosOf(Key(tree, sizes, l), p.w) == p
  }

  /** The leaf reached from `p` by going right where there is a right child, and left otherwise. */
  ghost function RightmostPos(tree: Tree, p: Pos): Pos
    decreases p.w
  {
    if p.w > 0 && Down(p, 1) in tree then RightmostPos(tree, Down(p, 1))
    else if p.w > 0 && Down(p, 0) in tree then RightmostPos(tree, Down(p, 0))
    else p
  }

  /** `d` is `l` or above it. */
  predicate Above(d: Pos, l: Pos) {
    d.bin == l.bin && l.w <= d.w && Shr(l.q, d.w - l.w) == d.q
  }

  lemma {:induction false} ShrTwice(s: nat, a: nat, b: nat)
    ensures Shr(Shr(s, a), b) == Shr(s, a + b)
  {
    if b > 0 {
      ShrTwice(s, a, b - 1);
    }
  }

  lemma AboveChild(d: Pos, b: nat, l: Pos)
    requires d.w > 0 && b < 2 && Above(Down(d, b), l)
    ensures Above(d, l)
  {
  }

  /** Of two positions above `l` the higher is above the lower. */
  lemma AboveBoth(c: Pos, d: Pos, l: Pos)
    requires Above(c, l) && Above(d, l) && d.w <= c.w
    ensures Above(c, d)
  {
    ShrTwice(l.q, d.w - l.w, c.w - d.w);
  }

  /** No node below `p` is to the right of that leaf: wherever the way to it leaves a node that
      has a right child, it leaves through that child. */
  lemma {:induction false} RightmostIsRight(tree: Tree, p: Pos, d: Pos)
    ensures var l := RightmostPos(tree, p);
            && Above(p, l) && (l.w > 0 ==> Down(l, 0) !in tree && Down(l, 1) !in tree) && (p in tree ==> l in tree)
            && (d.w <= p.w && Above(d, l) && d.w > l.w && Down(d, 1) in tree ==> Above(Down(d, 1), l))
    decreases p.w
  {
    var l := RightmostPos(tree, p);
    if l != p || (p.w > 0 && (Down(p, 1) in tree || Down(p, 0) in tree)) {
      var b := if Down(p, 1) in tree then 1 else 0;
      var c := Down(p, b);
      RightmostIsRight(tree, c, d);
      AboveChild(p, b, l);
      if d.w <= p.w && Above(d, l) {
        AboveBoth(p, d, l);
      }
    }
  }

  /** The tries without member `j` of the chain at `p`: the next oldest takes the place of the
      node; of a chain of one, the rightmost leaf below, or nothing. */
  ghost function TreeWithout(tree: Tree, p: Pos, j: nat): Tree
    requires p in tree && j < |tree[p]|
  {
    var l := RightmostPos(tree, p);
    if |tree[p]| >= 2 then tree[p := Without(tree[p], j)]
    else if l == p then tree - {p}
    else if l in tree then (tree - {l})[p := tree[l]]
    else tree
  }

  /** The last chunk of its size, at an interior position: leaf `l` below moves up. */
  lemma RemoveInterior(mem: Memory, treemap: BinMap, tree: Tree, sizes: Sizes, p: Pos, l: Pos)
    requires Shape(tree, sizes) && Spaced(sizes) && TreeLinks(mem, treemap, tree)
    requires p in tree && |tree[p]| == 1
    requires l in tree && l.w > 0 && |tree[l]| > 0 && IsLeaf(tree, l) && Below(tree, sizes, l, p)
    ensures var mem', tree' := mem[Slot(tree, l) := 0], tree - {l};
            Removed(Relink(mem', Slot(tree', p), tree[p][0], tree[l][0]), treemap, tree'[p := tree[l]], tree, sizes,
                    tree[p][0])
  {
    hide TreeLinks, Slot, Relink, Takes, Ready, LinksBut, Below;
    var mem', tree' := mem[Slot(tree, l) := 0], tree - {l};
    BelowNotRoot(tree, sizes, l, p);
    DetachShape(tree, sizes, l);
    DetachLinks(mem, treemap, tree, sizes, l);
    InteriorTakes(tree, sizes, p, l);
    InteriorReady(mem, treemap, tree, sizes, p, l);
    LinksOfAll(mem', treemap, tree', p);
    RelinkLinks(mem', treemap, tree', sizes, p, tree[l]);
    RelinkShape(tree', sizes, p, tree[l]);
    InteriorHolds(tree, sizes, p, l);
  }

  lemma BelowNotRoot(tree: Tree, sizes: Sizes, l: Pos, p: Pos)
    requires Shape(tree, sizes) && p in tree && l in tree && Below(tree, sizes, l, p)
    ensures l != p && l.bin == p.bin && l.w < RootBits(l.bin)
  {
    ShapeAt(tree, sizes, p);
  }

  lemma LinksOfAll(mem: Memory, treemap: BinMap, tree: Tree, p: Pos)
    requires TreeLinks(mem, treemap, tree) && p in tree
    ensures LinksBut(mem, treemap, tree, p)
  {
    assert PosLinks(mem, tree, p);
  }

  lemma InteriorTakes(tree: Tree, sizes: Sizes, p: Pos, l: Pos)
    requires Shape(tree, sizes) && p in tree && l in tree && l != p && Below(tree, sizes, l, p)
    ensures Takes(tree - {l}, sizes, p, tree[l])
  {
    ShapeAt(tree, sizes, p);
    ShapeAt(tree, sizes, l);
    var tree' := tree - {l};
    forall q | q in tree' && q != p
      ensures Key(tree', sizes, q) != sizes[tree[l][0]]
    {
      ShapeAt(tree, sizes, q);
      assert Key(tree, sizes, q) == Key(tree, sizes, l) ==> q == l;
    }
  }

  lemma InteriorReady(mem: Memory, treemap: BinMap, tree: Tree, sizes: Sizes, p: Pos, l: Pos)
    requires Shape(tree, sizes) && Spaced(sizes) && TreeLinks(mem, treemap, tree)
    requires p in tree && |tree[p]| == 1
    requires l in tree && l != p && 0 < l.w < RootBits(l.bin) && IsLeaf(tree, l)
    requires Takes(tree - {l}, sizes, p, tree[l]) && l.bin == p.bin
    requires Shape(tree - {l}, sizes)
    ensures Ready(mem[Slot(tree, l) := 0], tree - {l}, sizes, p, tree[l])
  {
    hide TreeLinks, Slot, Takes, Chain, Shape, Spaced;
    var mem' := mem[Slot(tree, l) := 0];
    ChainOf(mem, treemap, tree, l);
    forall k | 0 <= k < |tree[l]|
      ensures SameLinks(mem, mem', tree[l][k])
    {
      SlotApart(tree, sizes, l, l, k, mem, 0) by { UpIsUp(l); }
    }
    ChainFrame(mem, mem', l.bin, tree[l]);
    assert SameLinks(mem, mem', tree[l][0]);
    assert tree[p][0] !in tree[l] by {
      if tree[p][0] in tree[l] {
        var k :| 0 <= k < |tree[l]| && tree[l][k] == tree[p][0];
        ChainsDisjoint(tree, sizes, p, l, 0, k);
      }
    }
  }

  lemma UpIsUp(l: Pos)
    ensures l != Up(l)
  {
  }

  lemma InteriorHolds(tree: Tree, sizes: Sizes, p: Pos, l: Pos)
    requires Shape(tree, sizes) && p in tree && |tree[p]| == 1 && l in tree && l != p
    ensures var tree' := (tree - {l})[p := tree[l]];
            forall y {:trigger InTree(tree', y)} :: InTree(tree', y) <==> InTree(tree, y) && y != tree[p][0]
  {
    var tree' := (tree - {l})[p := tree[l]];
    forall y
      ensures InTree(tree', y) <==> InTree(tree, y) && y != tree[p][0]
    {
      InteriorHoldsOne(tree, sizes, p, l, y);
    }
  }

  lemma InteriorHoldsOne(tree: Tree, sizes: Sizes, p: Pos, l: Pos, y: int)
    requires Shape(tree, sizes) && p in tree && |tree[p]| == 1 && l in tree && l != p
    ensures InTree((tree - {l})[p := tree[l]], y) <==> InTree(tree, y) && y != tree[p][0]
  {
    var tree' := (tree - {l})[p := tree[l]];
    if InTree(tree, y) && y != tree[p][0] {
      var q :| q in tree && y in tree[q];
      assert q != p;
      assert tree'[p] == tree[l];
      assert q == l || tree'[q] == tree[q];
      assert y in tree'[if q == l then p else q];
    }
    if InTree(tree', y) {
      var q :| q in tree' && y in tree'[q];
      var o := if q == p then l else q;
      assert o in tree && y in tree[o];
      var k :| 0 <= k < |tree[o]| && tree[o][k] == y;
      if y == tree[p][0] {
        ChainsDisjoint(tree, sizes, p, o, 0, k);
      }
    }
  }
}
