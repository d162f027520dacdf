/** Giving a tree position a new chain: the last part of `unlink_large_chunk`, where a
    replacement takes over the unlinked node's slot, parent and children. */
module TreeRelink {
  import opened Words
  import opened SizeBits
  import opened Rings
  import opened BinMaps
  import opened TreeBins

  /** `if ((C = X->child[b]) != 0) { R->child[b] = C; C->parent = R; }` */
  function Adopt(mem: Memory, x: int, r: int, b: int): Memory {
    var c := Peek(mem, ChildAt(x, b));
    if c == 0 then mem else mem[ChildAt(r, b) := c][ParentAt(c) := r]
  }

  function Relink(mem: Memory, slot: int, x: int, r: int): Memory {
    var xp := Peek(mem, ParentAt(x));
    Adopt(Adopt(mem[slot := r][ParentAt(r) := xp], x, r, 0), x, r, 1)
  }

  predicate Apart(x: int, y: int) {
    x + 64 <= y || y + 64 <= x
  }

  predicate Outside(a: int, x: int) {
    a < x + 16 || x + 64 <= a
  }

  /** Every word after relinking `r` in place of `x`. */
  lemma RelinkRead(mem: Memory, slot: int, x: int, r: int, a: int)
    requires Separate(mem, slot, x, r)
    ensures var c0, c1 := Peek(mem, ChildAt(x, 0)), Peek(mem, ChildAt(x, 1));
            Peek(Relink(mem, slot, x, r), a) ==
            if (c0 != 0 && a == ParentAt(c0)) || (c1 != 0 && a == ParentAt(c1)) then r
            else if c0 != 0 && a == ChildAt(r, 0) then c0
            else if c1 != 0 && a == ChildAt(r, 1) then c1
            else if a == ParentAt(r) then Peek(mem, ParentAt(x))
            else if a == slot then r
            else Peek(mem, a)
  {
  }

  /** What RelinkRead asks of the four chunks involved. */
  ghost predicate Separate(mem: Memory, slot: int, x: int, r: int) {
    var c0, c1 := Peek(mem, ChildAt(x, 0)), Peek(mem, ChildAt(x, 1));
    && Apart(x, r) && Outside(slot, x)
    && (c0 != 0 ==> Apart(c0, x) && Apart(c0, r))
    && (c1 != 0 ==> Apart(c1, x) && Apart(c1, r))
    && (c0 != 0 && c1 != 0 ==> Apart(c0, c1))
  }

  /** Chunks away from the replacement and the slot keep their ring; those that are not
      adopted keep their tree links too. */
  lemma RelinkAway(mem: Memory, slot: int, x: int, r: int, y: int)
    requires Separate(mem, slot, x, r) && Apart(y, r)
    requires var c0, c1 := Peek(mem, ChildAt(x, 0)), Peek(mem, ChildAt(x, 1));
             (c0 == 0 || c0 == y || Apart(c0, y)) && (c1 == 0 || c1 == y || Apart(c1, y))
    requires Outside(slot, y) || slot == ChildAt(y, 0) || slot == ChildAt(y, 1)
    ensures SameRing(mem, Relink(mem, slot, x, r), y)
    ensures var c0, c1 := Peek(mem, ChildAt(x, 0)), Peek(mem, ChildAt(x, 1));
            Outside(slot, y) && (c0 == 0 || c0 != y) && (c1 == 0 || c1 != y) ==>
              SameLinks(mem, Relink(mem, slot, x, r), y)
  {
    hide Relink;
    RelinkRead(mem, slot, x, r, Fd(y));
    RelinkRead(mem, slot, x, r, Bk(y));
    RelinkRead(mem, slot, x, r, IndexAt(y));
    RelinkRead(mem, slot, x, r, ChildAt(y, 0));
    RelinkRead(mem, slot, x, r, ChildAt(y, 1));
    RelinkRead(mem, slot, x, r, ParentAt(y));
  }

  // ---- shape ----

  /** Chain `r` may take position `p`. */
  ghost predicate Takes(tree: Tree, sizes: Sizes, p: Pos, r: seq<int>)
    requires p in tree
  {
    && |r| > 0 && Members(r) && r[0] in sizes && Fits(p, sizes[r[0]])
    && (forall k :: 0 <= k < |r| ==> r[k] in sizes && sizes[r[k]] == sizes[r[0]])
    && (forall q {:trigger Key(tree, sizes, q)} :: q in tree && q != p ==> Key(tree, sizes, q) != sizes[r[0]])
  }

  lemma RelinkShape(tree: Tree, sizes: Sizes, p: Pos, r: seq<int>)
    requires Shape(tree, sizes) && p in tree && Takes(tree, sizes, p, r)
    ensures Shape(tree[p := r], sizes)
  {
    var tree' := tree[p := r];
    forall q | q in tree'
      ensures ChainFits(tree', sizes, q)
    {
      assert ChainFits(tree, sizes, p);
      if q != p {
        assert ChainFits(tree, sizes, q);
      }
    }
    forall q, s | q in tree' && s in tree' && Key(tree', sizes, q) == Key(tree', sizes, s)
      ensures q == s
    {
      assert q != p ==> Key(tree, sizes, q) == Key(tree', sizes, q);
      assert s != p ==> Key(tree, sizes, s) == Key(tree', sizes, s);
    }
  }

  // ---- links ----

  /** The situation in which `r`, off the tree, replaces the chain at `p`. */
  ghost predicate Ready(mem: Memory, tree: Tree, sizes: Sizes, p: Pos, r: seq<int>)
    requires p in tree
  {
    && Shape(tree, sizes) && Spaced(sizes)
    && Takes(tree, sizes, p, r)
    && |tree[p]| > 0 && tree[p][0] !in r
    && Chain(mem, p.bin, r)
    && Peek(mem, ChildAt(r[0], 0)) == 0 && Peek(mem, ChildAt(r[0], 1)) == 0
  }

  /** The tree links of the node at `p` itself; its ring may already be cut. */
  ghost predicate OldNode(mem: Memory, tree: Tree, p: Pos)
    requires p in tree
  {
    |tree[p]| > 0 && p.w > 0 && NodeLinks(mem, tree, p)
  }

  /** All links but the ring of the chain at `p`. */
  ghost predicate LinksBut(mem: Memory, treemap: BinMap, tree: Tree, p: Pos)
    requires p in tree
  {
    && OldNode(mem, tree, p)
    && (forall q {:trigger PosLinks(mem, tree, q)} :: q in tree && q != p ==> PosLinks(mem, tree, q))
    && (forall i {:trigger RootLink(mem, treemap, tree, i)} :: 0 <= i < 32 ==> RootLink(mem, treemap, tree, i))
  }

  /** The replacement chain shares no chunk with the chains of other positions. */
  lemma ReplacementApart(tree: Tree, sizes: Sizes, p: Pos, r: seq<int>, q: Pos, j: nat, k: nat)
    requires Shape(tree, sizes) && Spaced(sizes) && p in tree && Takes(tree, sizes, p, r)
    requires q in tree && q != p && j < |tree[q]| && k < |r|
    ensures Apart(tree[q][j], r[k])
  {
    assert ChainFits(tree, sizes, q);
    assert Key(tree, sizes, q) != sizes[r[0]];
  }

  lemma MembersApart(tree: Tree, sizes: Sizes, p: Pos, q: Pos, j: nat, k: nat)
    requires Shape(tree, sizes) && Spaced(sizes) && p in tree && q in tree
    requires j < |tree[p]| && k < |tree[q]| && (p != q || j != k)
    ensures Apart(tree[p][j], tree[q][k])
  {
    assert ChainFits(tree, sizes, p) && ChainFits(tree, sizes, q);
    if tree[p][j] == tree[q][k] {
      ChainsDisjoint(tree, sizes, p, q, j, k);
    }
  }

  /** In bounds for the words of nodes: above the allocator's own words. */
  lemma NodeAboveGm(tree: Tree, sizes: Sizes, p: Pos)
    requires Shape(tree, sizes) && Spaced(sizes) && p in tree
    ensures |tree[p]| > 0 && tree[p][0] >= GM_END && 0 < p.w <= RootBits(p.bin) && p.bin < 32
    ensures p.w < RootBits(p.bin) ==> Up(p) in tree && |tree[Up(p)]| > 0
    ensures p.w == RootBits(p.bin) ==> p == RootPos(p.bin)
  {
    assert ChainFits(tree, sizes, p);
    BinInRange(p, Key(tree, sizes, p));
    if p.w < RootBits(p.bin) {
      assert ChainFits(tree, sizes, Up(p));
    } else {
      TopIsRoot(p, Key(tree, sizes, p));
    }
  }

  /** The preconditions of RelinkRead hold. */
  lemma RelinkApplies(mem: Memory, tree: Tree, sizes: Sizes, p: Pos, r: seq<int>)
    requires p in tree && Ready(mem, tree, sizes, p, r) && OldNode(mem, tree, p)
    ensures var x, slot := tree[p][0], Slot(tree, p);
            var c0, c1 := Peek(mem, ChildAt(x, 0)), Peek(mem, ChildAt(x, 1));
            && c0 == NodeAt(tree, Down(p, 0)) && c1 == NodeAt(tree, Down(p, 1))
            && Separate(mem, slot, x, r[0])
  {
    var d0, d1 := Down(p, 0), Down(p, 1);
    NodeAboveGm(tree, sizes, p);
    HeadApart(tree, sizes, p, r);
    if d0 in tree && |tree[d0]| > 0 {
      MembersApart(tree, sizes, d0, p, 0, 0);
      ReplacementApart(tree, sizes, p, r, d0, 0, 0);
      if d1 in tree && |tree[d1]| > 0 {
        MembersApart(tree, sizes, d0, d1, 0, 0);
      }
    }
    if d1 in tree && |tree[d1]| > 0 {
      MembersApart(tree, sizes, d1, p, 0, 0);
      ReplacementApart(tree, sizes, p, r, d1, 0, 0);
    }
    SlotOutside(tree, sizes, p, p, 0);
  }

  /** The slot of `p` is a word of the node above it, or of the allocator. */
  lemma SlotOutside(tree: Tree, sizes: Sizes, p: Pos, q: Pos, k: nat)
    requires Shape(tree, sizes) && Spaced(sizes) && p in tree && q in tree && k < |tree[q]|
    requires p.w == RootBits(p.bin) || q != Up(p) || k > 0
    ensures Outside(Slot(tree, p), tree[q][k])
  {
    NodeAboveGm(tree, sizes, p);
    if p.w < RootBits(p.bin) {
      MembersApart(tree, sizes, Up(p), q, 0, k);
      assert Slot(tree, p) == ChildAt(tree[Up(p)][0], p.q % 2);
    } else {
      assert ChainFits(tree, sizes, q);
      assert Slot(tree, p) == TreeBinAt(p.bin) < GM_END <= tree[q][k];
    }
  }

  lemma HeadApart(tree: Tree, sizes: Sizes, p: Pos, r: seq<int>)
    requires p in tree && Shape(tree, sizes) && Spaced(sizes) && Takes(tree, sizes, p, r)
    requires |tree[p]| > 0 && tree[p][0] !in r
    ensures forall k {:trigger r[k]} :: 0 <= k < |r| ==> Apart(tree[p][0], r[k])
  {
    assert ChainFits(tree, sizes, p);
  }

  // ---- the links afterwards ----

  /** Chains of other positions keep their words, but for the child word that was the slot
      and the parent words of the adopted children. */
  lemma OthersAway(mem: Memory, tree: Tree, sizes: Sizes, p: Pos, r: seq<int>, q: Pos, k: nat)
    requires p in tree && Ready(mem, tree, sizes, p, r) && OldNode(mem, tree, p)
    requires q in tree && q != p && k < |tree[q]|
    ensures var mem', y := Relink(mem, Slot(tree, p), tree[p][0], r[0]), tree[q][k];
            && SameRing(mem, mem', y)
            && (k > 0 || (q != Down(p, 0) && q != Down(p, 1) && (p.w == RootBits(p.bin) || q != Up(p)))
                ==> SameLinks(mem, mem', y))
  {
    hide Relink, Shape, Spaced;
    NodeAboveGm(tree, sizes, p);
    var d0, d1 := Down(p, 0), Down(p, 1);
    RelinkApplies(mem, tree, sizes, p, r);
    ReplacementApart(tree, sizes, p, r, q, k, 0);
    NodeAboveGm(tree, sizes, q);
    AwayFromChild(tree, sizes, d0, q, k);
    AwayFromChild(tree, sizes, d1, q, k);
    if p.w == RootBits(p.bin) || q != Up(p) || k > 0 {
      SlotOutside(tree, sizes, p, q, k);
    }
    RelinkAway(mem, Slot(tree, p), tree[p][0], r[0], tree[q][k]);
  }

  lemma AwayFromChild(tree: Tree, sizes: Sizes, d: Pos, q: Pos, k: nat)
    requires Shape(tree, sizes) && Spaced(sizes) && q in tree && k < |tree[q]|
    ensures var c := NodeAt(tree, d);
            && (c == 0 || c == tree[q][k] || Apart(c, tree[q][k]))
            && (c == tree[q][k] ==> q == d && k == 0)
  {
    NodeAboveGm(tree, sizes, q);
    assert ChainFits(tree, sizes, q);
    if d in tree {
      NodeAboveGm(tree, sizes, d);
      if q != d || k != 0 {
        MembersApart(tree, sizes, d, q, 0, k);
      }
    }
  }

  lemma OtherChain(mem: Memory, tree: Tree, sizes: Sizes, p: Pos, r: seq<int>, q: Pos)
    requires p in tree && Ready(mem, tree, sizes, p, r) && OldNode(mem, tree, p)
    requires q in tree && q != p && PosLinks(mem, tree, q)
    ensures Chain(Relink(mem, Slot(tree, p), tree[p][0], r[0]), q.bin, tree[q])
  {
    hide Relink, Ready, Chain, Slot;
    ReadyTakes(mem, tree, sizes, p, r);
    var mem' := Relink(mem, Slot(tree, p), tree[p][0], r[0]);
    forall k | 0 <= k < |tree[q]|
      ensures k > 0 ==> SameLinks(mem, mem', tree[q][k])
      ensures SameRing(mem, mem', tree[q][k])
    {
      OthersAway(mem, tree, sizes, p, r, q, k);
    }
    ChainFrameBelowHead(mem, mem', q.bin, tree[q]);
  }

  lemma ReadyTakes(mem: Memory, tree: Tree, sizes: Sizes, p: Pos, r: seq<int>)
    requires p in tree && Ready(mem, tree, sizes, p, r)
    ensures Takes(tree, sizes, p, r)
  {
  }

  /** Tree words of a node away from position `p`. */
  lemma NodeWords(mem: Memory, tree: Tree, sizes: Sizes, p: Pos, r: seq<int>, q: Pos)
    requires p in tree && Ready(mem, tree, sizes, p, r) && OldNode(mem, tree, p)
    requires q in tree && q != p && |tree[q]| > 0
    ensures var mem', y := Relink(mem, Slot(tree, p), tree[p][0], r[0]), tree[q][0];
            && Peek(mem', ParentAt(y)) == (if q == Down(p, 0) || q == Down(p, 1) then r[0] else Peek(mem, ParentAt(y)))
            && Peek(mem', ChildAt(y, 0)) == (if Slot(tree, p) == ChildAt(y, 0) then r[0] else Peek(mem, ChildAt(y, 0)))
            && Peek(mem', ChildAt(y, 1)) == (if Slot(tree, p) == ChildAt(y, 1) then r[0] else Peek(mem, ChildAt(y, 1)))
  {
    hide Relink, PosLinks, Shape, Spaced;
    RelinkApplies(mem, tree, sizes, p, r);
    ReplacementApart(tree, sizes, p, r, q, 0, 0);
    NodeAboveGm(tree, sizes, q);
    AwayFromChild(tree, sizes, Down(p, 0), q, 0);
    AwayFromChild(tree, sizes, Down(p, 1), q, 0);
    SlotNotParent(tree, sizes, p, q);
    var slot, x, y := Slot(tree, p), tree[p][0], tree[q][0];
    RelinkRead(mem, slot, x, r[0], ParentAt(y));
    RelinkRead(mem, slot, x, r[0], ChildAt(y, 0));
    RelinkRead(mem, slot, x, r[0], ChildAt(y, 1));
  }

  lemma SlotNotParent(tree: Tree, sizes: Sizes, p: Pos, q: Pos)
    requires Shape(tree, sizes) && Spaced(sizes) && p in tree && q in tree && |tree[q]| > 0
    ensures Slot(tree, p) != ParentAt(tree[q][0])
    ensures Slot(tree, p) == ChildAt(tree[q][0], 0) <==> p.w < RootBits(p.bin) && q == Up(p) && p.q % 2 == 0
    ensures Slot(tree, p) == ChildAt(tree[q][0], 1) <==> p.w < RootBits(p.bin) && q == Up(p) && p.q % 2 == 1
  {
    NodeAboveGm(tree, sizes, p);
    if p.w == RootBits(p.bin) || q != Up(p) {
      SlotOutside(tree, sizes, p, q, 0);
    }
  }

  /** What a position next to `p` sees of it. */
  lemma RelinkNeighbours(tree: Tree, p: Pos, r: seq<int>, q: Pos)
    requires p in tree && q in tree && p != q && p.w > 0 && q.w > 0 && |r| > 0
    requires p.w == RootBits(p.bin) ==> p == RootPos(p.bin)
    requires p.w <= RootBits(p.bin) && q.w <= RootBits(q.bin)
    ensures var tree' := tree[p := r];
            && ParentOf(tree', q) == (if q == Down(p, 0) || q == Down(p, 1) then r[0] else ParentOf(tree, q))
            && NodeAt(tree', Down(q, 0)) == (if q == Up(p) && p.q % 2 == 0 then r[0] else NodeAt(tree, Down(q, 0)))
            && NodeAt(tree', Down(q, 1)) == (if q == Up(p) && p.q % 2 == 1 then r[0] else NodeAt(tree, Down(q, 1)))
    ensures p.w == RootBits(p.bin) ==> q != Up(p)
    ensures p.w < RootBits(p.bin) || q != Up(p)
  {
    UpDown(q, 0);
    UpDown(q, 1);
    DownUp(p);
    UpDown(p, 0);
    UpDown(p, 1);
    DownUp(q);
    ChildNotRoot(p, q);
  }

  lemma ChildNotRoot(p: Pos, q: Pos)
    requires p.w > 0 && p.w <= RootBits(p.bin)
    ensures q == Down(p, 0) || q == Down(p, 1) ==> q.w < RootBits(q.bin)
  {
  }

  lemma OtherPos(mem: Memory, tree: Tree, sizes: Sizes, p: Pos, r: seq<int>, q: Pos)
    requires p in tree && Ready(mem, tree, sizes, p, r) && OldNode(mem, tree, p)
    requires q in tree && q != p && PosLinks(mem, tree, q)
    ensures PosLinks(Relink(mem, Slot(tree, p), tree[p][0], r[0]), tree[p := r], q)
  {
    hide Relink, Chain, Slot, ParentOf, NodeAt, Down, Up, Shape, Spaced, Takes;
    OtherChain(mem, tree, sizes, p, r, q);
    ReadyTakes(mem, tree, sizes, p, r);
    TakesSome(tree, sizes, p, r);
    NodeAboveGm(tree, sizes, p);
    NodeAboveGm(tree, sizes, q);
    RelinkNeighbours(tree, p, r, q);
    NodeWords(mem, tree, sizes, p, r, q);
    SlotNotParent(tree, sizes, p, q);
  }

  lemma TakesSome(tree: Tree, sizes: Sizes, p: Pos, r: seq<int>)
    requires p in tree && Takes(tree, sizes, p, r)
    ensures |r| > 0
  {
  }

  /** The new chain's own links. */
  lemma NewChain(mem: Memory, tree: Tree, sizes: Sizes, p: Pos, r: seq<int>)
    requires p in tree && Ready(mem, tree, sizes, p, r) && OldNode(mem, tree, p)
    ensures Chain(Relink(mem, Slot(tree, p), tree[p][0], r[0]), p.bin, r)
  {
    hide Relink, Shape, Spaced, Slot, OldNode, NodeAt, Chain;
    var mem' := Relink(mem, Slot(tree, p), tree[p][0], r[0]);
    forall k | 0 <= k < |r|
      ensures k > 0 ==> SameLinks(mem, mem', r[k])
      ensures SameRing(mem, mem', r[k])
    {
      NewMember(mem, tree, sizes, p, r, k);
    }
    ChainFrameBelowHead(mem, mem', p.bin, r);
  }

  lemma NewMember(mem: Memory, tree: Tree, sizes: Sizes, p: Pos, r: seq<int>, k: nat)
    requires p in tree && Ready(mem, tree, sizes, p, r) && OldNode(mem, tree, p) && k < |r|
    ensures var mem' := Relink(mem, Slot(tree, p), tree[p][0], r[0]);
            SameRing(mem, mem', r[k]) && (k > 0 ==> SameLinks(mem, mem', r[k]))
  {
    hide Relink;
    RelinkApplies(mem, tree, sizes, p, r);
    NodeAboveGm(tree, sizes, p);
    NewAwayFrom(tree, sizes, p, r, Down(p, 0), k);
    NewAwayFrom(tree, sizes, p, r, Down(p, 1), k);
    SlotOutsideNew(tree, sizes, p, r, k);
    var slot, x, y := Slot(tree, p), tree[p][0], r[k];
    if k > 0 {
      assert Apart(y, r[0]) by { assert sizes[r[k]] == sizes[r[0]]; }
      RelinkAway(mem, slot, x, r[0], y);
    } else {
      RelinkRead(mem, slot, x, y, Fd(y));
      RelinkRead(mem, slot, x, y, Bk(y));
      RelinkRead(mem, slot, x, y, IndexAt(y));
    }
  }

  lemma NewAwayFrom(tree: Tree, sizes: Sizes, p: Pos, r: seq<int>, d: Pos, k: nat)
    requires Shape(tree, sizes) && Spaced(sizes) && p in tree && Takes(tree, sizes, p, r) && k < |r| && d != p
    ensures var c := NodeAt(tree, d); c == 0 || Apart(c, r[k])
  {
    if d in tree && |tree[d]| > 0 {
      ReplacementApart(tree, sizes, p, r, d, 0, k);
    }
  }

  lemma SlotOutsideNew(tree: Tree, sizes: Sizes, p: Pos, r: seq<int>, k: nat)
    requires Shape(tree, sizes) && Spaced(sizes) && p in tree && Takes(tree, sizes, p, r) && k < |r|
    ensures Outside(Slot(tree, p), r[k])
  {
    NodeAboveGm(tree, sizes, p);
    if p.w < RootBits(p.bin) {
      ReplacementApart(tree, sizes, p, r, Up(p), 0, k);
      assert Slot(tree, p) == ChildAt(tree[Up(p)][0], p.q % 2);
    } else {
      assert Slot(tree, p) == TreeBinAt(p.bin) < GM_END <= r[k];
    }
  }

  lemma NewPos(mem: Memory, tree: Tree, sizes: Sizes, p: Pos, r: seq<int>)
    requires p in tree && Ready(mem, tree, sizes, p, r) && OldNode(mem, tree, p)
    ensures PosLinks(Relink(mem, Slot(tree, p), tree[p][0], r[0]), tree[p := r], p)
  {
    hide Relink, Shape, Spaced, Slot;
    NewChain(mem, tree, sizes, p, r);
    RelinkApplies(mem, tree, sizes, p, r);
    NodeAboveGm(tree, sizes, p);
    SlotOutsideNew(tree, sizes, p, r, 0);
    assert NodeAt(tree[p := r], Up(p)) == NodeAt(tree, Up(p));
    var slot, x, y := Slot(tree, p), tree[p][0], r[0];
    RelinkRead(mem, slot, x, y, ParentAt(y));
    RelinkRead(mem, slot, x, y, ChildAt(y, 0));
    RelinkRead(mem, slot, x, y, ChildAt(y, 1));
  }

  lemma RelinkRoot(mem: Memory, treemap: BinMap, tree: Tree, sizes: Sizes, p: Pos, r: seq<int>, i: nat)
    requires p in tree && Ready(mem, tree, sizes, p, r) && OldNode(mem, tree, p)
    requires i < 32 && RootLink(mem, treemap, tree, i)
    ensures RootLink(Relink(mem, Slot(tree, p), tree[p][0], r[0]), treemap, tree[p := r], i)
  {
    hide Relink, Marked;
    RelinkApplies(mem, tree, sizes, p, r);
    NodeAboveGm(tree, sizes, p);
    ChildAboveGm(tree, sizes, Down(p, 0));
    ChildAboveGm(tree, sizes, Down(p, 1));
    if p.w < RootBits(p.bin) {
      NodeAboveGm(tree, sizes, Up(p));
    }
    RelinkRead(mem, Slot(tree, p), tree[p][0], r[0], TreeBinAt(i));
  }

  lemma ChildAboveGm(tree: Tree, sizes: Sizes, d: Pos)
    requires Shape(tree, sizes) && Spaced(sizes)
    ensures NodeAt(tree, d) == 0 || NodeAt(tree, d) >= GM_END
  {
    if d in tree {
      NodeAboveGm(tree, sizes, d);
    }
  }

  /** Relinking keeps every trie's pointer structure, with the new chain at `p`. */
  lemma RelinkLinks(mem: Memory, treemap: BinMap, tree: Tree, sizes: Sizes, p: Pos, r: seq<int>)
    requires p in tree && Ready(mem, tree, sizes, p, r) && LinksBut(mem, treemap, tree, p)
    ensures TreeLinks(Relink(mem, Slot(tree, p), tree[p][0], r[0]), treemap, tree[p := r])
  {
    hide Relink, Ready, Slot;
    assert Takes(tree, sizes, p, r) by { ReadyTakes(mem, tree, sizes, p, r); }
    var mem', tree' := Relink(mem, Slot(tree, p), tree[p][0], r[0]), tree[p := r];
    forall q | q in tree'
      ensures PosLinks(mem', tree', q)
    {
      if q == p {
        NewPos(mem, tree, sizes, p, r);
      } else {
        assert PosLinks(mem, tree, q);
        OtherPos(mem, tree, sizes, p, r, q);
      }
    }
    forall i | 0 <= i < 32
      ensures RootLink(mem', treemap, tree', i)
    {
      assert RootLink(mem, treemap, tree, i);
      RelinkRoot(mem, treemap, tree, sizes, p, r, i);
    }
  }
}
