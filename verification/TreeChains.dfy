/** Adding to and taking from the chain of same-sized chunks at a tree position, and adding
    a new leaf: the word updates of `insert_large_chunk`, and the ring part of
    `unlink_large_chunk`. */
module TreeChains {
  import opened Words
  import opened SizeBits
  import opened Rings
  import opened BinMaps
  import opened TreeBins
  import opened TreeRelink

  // ---- writes that touch no tree ----

  lemma TreeFrame(mem: Memory, mem': Memory, treemap: BinMap, tree: Tree, sizes: Sizes)
    requires Shape(tree, sizes) && TreeLinks(mem, treemap, tree)
    requires forall y {:trigger SameLinks(mem, mem', y)} :: InTree(tree, y) ==> SameLinks(mem, mem', y)
    requires forall i {:trigger TreeBinAt(i)} :: 0 <= i < 32 ==> Peek(mem', TreeBinAt(i)) == Peek(mem, TreeBinAt(i))
    ensures TreeLinks(mem', treemap, tree)
  {
    hide Marked;
    forall p | p in tree
      ensures PosLinks(mem', tree, p)
    {
      assert ChainFits(tree, sizes, p) && PosLinks(mem, tree, p);
      FrameOne(mem, mem', tree, p);
    }
    forall i | 0 <= i < 32
      ensures RootLink(mem', treemap, tree, i)
    {
      assert RootLink(mem, treemap, tree, i);
    }
  }

  lemma FrameOne(mem: Memory, mem': Memory, tree: Tree, p: Pos)
    requires p in tree && PosLinks(mem, tree, p)
    requires forall y {:trigger SameLinks(mem, mem', y)} :: InTree(tree, y) ==> SameLinks(mem, mem', y)
    ensures PosLinks(mem', tree, p)
  {
    hide SameLinks;
    forall k | 0 <= k < |tree[p]|
      ensures SameLinks(mem, mem', tree[p][k])
    {
      MemberInTree(tree, p, k);
    }
    PosFrame(mem, mem', tree, tree, p);
  }

  lemma MemberInTree(tree: Tree, p: Pos, k: nat)
    requires p in tree && k < |tree[p]|
    ensures InTree(tree, tree[p][k])
  {
  }

  // ---- bypassing a member ----

  /** Ring words change only inside the chain at `p`. */
  lemma BypassAway(mem: Memory, tree: Tree, sizes: Sizes, p: Pos, f: nat, b: nat, q: Pos, k: nat)
    requires Shape(tree, sizes) && Spaced(sizes) && p in tree && q in tree && q != p
    requires f < |tree[p]| && b < |tree[p]| && k < |tree[q]|
    ensures SameLinks(mem, Bypass(mem, tree[p][f], tree[p][b]), tree[q][k])
  {
    MembersApart(tree, sizes, p, q, f, k);
    MembersApart(tree, sizes, p, q, b, k);
  }

  lemma BypassTreeWords(mem: Memory, f: int, b: int, y: int)
    requires f == y || Apart(f, y)
    requires b == y || Apart(b, y)
    ensures SameTreeLinks(mem, Bypass(mem, f, b), y)
    ensures Peek(Bypass(mem, f, b), IndexAt(y)) == Peek(mem, IndexAt(y))
  {
  }

  lemma SameOrApart(tree: Tree, sizes: Sizes, p: Pos, j: nat, k: nat)
    requires Shape(tree, sizes) && Spaced(sizes) && p in tree && j < |tree[p]| && k < |tree[p]|
    ensures tree[p][j] == tree[p][k] || Apart(tree[p][j], tree[p][k])
  {
    if j != k {
      MembersApart(tree, sizes, p, p, j, k);
    }
  }

  /** The chain at `p` without member `j`. */
  lemma BypassChain(mem: Memory, tree: Tree, sizes: Sizes, p: Pos, j: nat)
    requires Shape(tree, sizes) && Spaced(sizes) && p in tree && j < |tree[p]| && |tree[p]| >= 2
    requires Chain(mem, p.bin, tree[p])
    ensures var r, n := tree[p], |tree[p]|;
            var mem' := Bypass(mem, r[Previous(j, n)], r[Next(j, n)]);
            && Peek(mem, Fd(r[j])) == r[Previous(j, n)] && Peek(mem, Bk(r[j])) == r[Next(j, n)]
            && Chain(mem', p.bin, Without(r, j))
            && SameTreeLinks(mem, mem', r[0])
            && (j == 0 ==> Peek(mem', ChildAt(r[1], 0)) == 0 && Peek(mem', ChildAt(r[1], 1)) == 0)
  {
    hide Bypass, Shape, Spaced;
    var r, n := tree[p], |tree[p]|;
    var f, b := r[Previous(j, n)], r[Next(j, n)];
    var mem', s := Bypass(mem, f, b), Without(r, j);
    assert Members(r) by { assert ChainFits(tree, sizes, p) by { ShapeAt(tree, sizes, p); } }
    UnlinkMember(mem, r, j);
    forall k | 0 <= k < n
      ensures SameTreeLinks(mem, mem', r[k]) && Peek(mem', IndexAt(r[k])) == Peek(mem, IndexAt(r[k]))
    {
      SameOrApart(tree, sizes, p, Previous(j, n), k);
      SameOrApart(tree, sizes, p, Next(j, n), k);
      BypassTreeWords(mem, f, b, r[k]);
    }
    hide Linked;
    ShorterChain(mem, mem', p.bin, r, j);
    assert SameTreeLinks(mem, mem', r[0]) && SameTreeLinks(mem, mem', r[1]);
  }

  lemma ShapeAt(tree: Tree, sizes: Sizes, p: Pos)
    requires Shape(tree, sizes) && p in tree
    ensures ChainFits(tree, sizes, p)
  {
  }

  lemma ShorterChain(mem: Memory, mem': Memory, bin: nat, r: seq<int>, j: nat)
    requires Chain(mem, bin, r) && j < |r| && Linked(mem', Without(r, j))
    requires forall k {:trigger SameTreeLinks(mem, mem', r[k])} :: 0 <= k < |r| ==>
      SameTreeLinks(mem, mem', r[k]) && Peek(mem', IndexAt(r[k])) == Peek(mem, IndexAt(r[k]))
    ensures Chain(mem', bin, Without(r, j))
  {
    hide Linked;
    var s := Without(r, j);
    forall k | 0 <= k < |s|
      ensures Peek(mem', IndexAt(s[k])) == bin
      ensures k > 0 ==> Peek(mem', ParentAt(s[k])) == 0
      ensures k > 0 ==> Peek(mem', ChildAt(s[k], 0)) == 0 && Peek(mem', ChildAt(s[k], 1)) == 0
    {
      var i := if k < j then k else k + 1;
      assert s[k] == r[i] && SameTreeLinks(mem, mem', r[i]);
    }
  }

  lemma BypassLinks(mem: Memory, treemap: BinMap, tree: Tree, sizes: Sizes, p: Pos, j: nat)
    requires Shape(tree, sizes) && Spaced(sizes) && TreeLinks(mem, treemap, tree)
    requires p in tree && j < |tree[p]| && |tree[p]| >= 2
    ensures var r, n := tree[p], |tree[p]|;
            LinksBut(Bypass(mem, r[Previous(j, n)], r[Next(j, n)]), treemap, tree, p)
  {
    hide Bypass, Marked, Spaced;
    var r, n := tree[p], |tree[p]|;
    var mem' := Bypass(mem, r[Previous(j, n)], r[Next(j, n)]);
    assert PosLinks(mem, tree, p);
    BypassChain(mem, tree, sizes, p, j);
    forall q | q in tree && q != p
      ensures PosLinks(mem', tree, q)
    {
      assert PosLinks(mem, tree, q);
      forall k | 0 <= k < |tree[q]|
        ensures SameLinks(mem, mem', tree[q][k])
      {
        BypassAway(mem, tree, sizes, p, Previous(j, n), Next(j, n), q, k);
      }
      PosFrame(mem, mem', tree, tree, q);
    }
    forall i | 0 <= i < 32
      ensures RootLink(mem', treemap, tree, i)
    {
      assert RootLink(mem, treemap, tree, i);
      BypassRoots(mem, tree, sizes, p, Previous(j, n), Next(j, n), i);
    }
  }

  lemma BypassRoots(mem: Memory, tree: Tree, sizes: Sizes, p: Pos, f: nat, b: nat, i: nat)
    requires Shape(tree, sizes) && Spaced(sizes) && p in tree && f < |tree[p]| && b < |tree[p]| && i < 32
    ensures Peek(Bypass(mem, tree[p][f], tree[p][b]), TreeBinAt(i)) == Peek(mem, TreeBinAt(i))
  {
    ShapeAt(tree, sizes, p);
  }

  /** Changing the chain at `p` but not its first member. */
  lemma SameNode(mem: Memory, treemap: BinMap, tree: Tree, p: Pos, s: seq<int>)
    requires p in tree && LinksBut(mem, treemap, tree, p)
    requires |s| > 0 && s[0] == tree[p][0] && Chain(mem, p.bin, s)
    ensures TreeLinks(mem, treemap, tree[p := s])
  {
    hide Marked, Chain;
    var tree' := tree[p := s];
    assert forall q :: NodeAt(tree', q) == NodeAt(tree, q);
    forall q | q in tree'
      ensures PosLinks(mem, tree', q)
    {
      if q != p {
        assert PosLinks(mem, tree, q);
      }
    }
    forall i | 0 <= i < 32
      ensures RootLink(mem, treemap, tree', i)
    {
      assert RootLink(mem, treemap, tree, i);
    }
  }

  // ---- adding a chunk ----

  /** Chunk `x` is binned by size but in no tree yet; its own tree words are cleared. */
  ghost predicate Newcomer(mem: Memory, tree: Tree, sizes: Sizes, x: int) {
    && Shape(tree, sizes) && Spaced(sizes)
    && x in sizes && !IsSmall(sizes[x]) && sizes[x] < WORD_LIMIT && !InTree(tree, x)
    && Peek(mem, ChildAt(x, 0)) == 0 && Peek(mem, ChildAt(x, 1)) == 0
    && Peek(mem, IndexAt(x)) == TreeIndex(sizes[x])
  }

  lemma NewcomerApart(mem: Memory, tree: Tree, sizes: Sizes, x: int, p: Pos, k: nat)
    requires Newcomer(mem, tree, sizes, x) && p in tree && k < |tree[p]|
    ensures Apart(x, tree[p][k])
  {
    ShapeAt(tree, sizes, p);
    MemberInTree(tree, p, k);
  }

  /** The words written by linking `x` into the chain of `t`, ring words aside. */
  function AppendMem(mem: Memory, t: int, f: int, x: int): Memory {
    Append(mem, t, f, x)[ParentAt(x) := 0]
  }

  lemma AppendTreeWords(mem: Memory, t: int, f: int, x: int, y: int)
    requires t == y || Apart(t, y)
    requires f == y || Apart(f, y)
    requires x == y || Apart(x, y)
    ensures x != y ==> SameTreeLinks(mem, AppendMem(mem, t, f, x), y)
    ensures Peek(AppendMem(mem, t, f, x), IndexAt(y)) == Peek(mem, IndexAt(y))
    ensures Peek(AppendMem(mem, t, f, x), ParentAt(x)) == 0
    ensures t != y && f != y && x != y ==> SameLinks(mem, AppendMem(mem, t, f, x), y)
    ensures x == y ==> Peek(AppendMem(mem, t, f, x), ChildAt(x, 0)) == Peek(mem, ChildAt(x, 0))
    ensures x == y ==> Peek(AppendMem(mem, t, f, x), ChildAt(x, 1)) == Peek(mem, ChildAt(x, 1))
  {
  }

  lemma AppendRing(mem: Memory, r: seq<int>, x: int)
    requires |r| > 0 && Members(r) && x % 16 == 0 && x !in r && Linked(mem, r)
    requires forall k {:trigger r[k]} :: 0 <= k < |r| ==> Apart(x, r[k])
    ensures Linked(AppendMem(mem, r[0], r[|r| - 1], x), r + [x])
    ensures Members(r + [x])
  {
    var s := r + [x];
    var m1 := Append(mem, r[0], r[|r| - 1], x);
    var m2 := m1[ParentAt(x) := 0];
    AppendMember(mem, r, x);
    hide Append;
    forall k | 0 <= k < |s|
      ensures Peek(m2, Bk(s[k])) == Peek(m1, Bk(s[k])) && Peek(m2, Fd(s[k])) == Peek(m1, Fd(s[k]))
    {
      assert k < |r| ==> s[k] == r[k];
    }
    LinkedFrame(m1, m2, s);
  }

  lemma AppendChain(mem: Memory, tree: Tree, sizes: Sizes, p: Pos, x: int)
    requires Newcomer(mem, tree, sizes, x) && p in tree && PosLinks(mem, tree, p) && p.bin == TreeIndex(sizes[x])
    ensures Peek(mem, Fd(tree[p][0])) == tree[p][|tree[p]| - 1]
    ensures Chain(AppendMem(mem, tree[p][0], tree[p][|tree[p]| - 1], x), p.bin, tree[p] + [x])
  {
    hide AppendMem, Shape, Spaced;
    var r, s := tree[p], tree[p] + [x];
    var mem' := AppendMem(mem, r[0], r[|r| - 1], x);
    ShapeAt(tree, sizes, p);
    NotMember(tree, p, x);
    forall k | 0 <= k < |r|
      ensures Apart(x, r[k])
    {
      NewcomerApart(mem, tree, sizes, x, p, k);
    }
    SpacedAt(sizes, x);
    AppendRing(mem, r, x);
    hide Linked;
    forall k | 0 <= k < |s|
      ensures Peek(mem', IndexAt(s[k])) == p.bin
      ensures k > 0 ==> Peek(mem', ParentAt(s[k])) == 0
      ensures k > 0 ==> Peek(mem', ChildAt(s[k], 0)) == 0 && Peek(mem', ChildAt(s[k], 1)) == 0
    {
      if k < |r| {
        SameOrApart(tree, sizes, p, 0, k);
        SameOrApart(tree, sizes, p, |r| - 1, k);
        NewcomerApart(mem, tree, sizes, x, p, k);
      } else {
        NewcomerApart(mem, tree, sizes, x, p, 0);
        NewcomerApart(mem, tree, sizes, x, p, |r| - 1);
      }
      AppendTreeWords(mem, r[0], r[|r| - 1], x, s[k]);
      assert k < |r| ==> s[k] == r[k];
    }
  }

  lemma NotMember(tree: Tree, p: Pos, x: int)
    requires p in tree && !InTree(tree, x)
    ensures x !in tree[p]
  {
  }

  lemma SpacedAt(sizes: Sizes, x: int)
    requires Spaced(sizes) && x in sizes
    ensures x >= GM_END && x % 16 == 0 && sizes[x] >= MIN_CHUNK_SIZE && sizes[x] % 16 == 0
  {
  }

  lemma AppendLinks(mem: Memory, treemap: BinMap, tree: Tree, sizes: Sizes, p: Pos, x: int)
    requires Newcomer(mem, tree, sizes, x) && TreeLinks(mem, treemap, tree)
    requires p in tree && |tree[p]| > 0 && p.bin == TreeIndex(sizes[x])
    ensures TreeLinks(AppendMem(mem, tree[p][0], tree[p][|tree[p]| - 1], x), treemap, tree[p := tree[p] + [x]])
  {
    hide AppendMem, Newcomer, Chain;
    assert PosLinks(mem, tree, p);
    AppendChain(mem, tree, sizes, p, x);
    AppendLinksBut(mem, treemap, tree, sizes, p, x);
    SameNode(AppendMem(mem, tree[p][0], tree[p][|tree[p]| - 1], x), treemap, tree, p, tree[p] + [x]);
  }

  lemma AppendLinksBut(mem: Memory, treemap: BinMap, tree: Tree, sizes: Sizes, p: Pos, x: int)
    requires Newcomer(mem, tree, sizes, x) && TreeLinks(mem, treemap, tree)
    requires p in tree && |tree[p]| > 0 && p.bin == TreeIndex(sizes[x])
    ensures LinksBut(AppendMem(mem, tree[p][0], tree[p][|tree[p]| - 1], x), treemap, tree, p)
  {
    hide AppendMem, Marked, Newcomer, Chain;
    var r := tree[p];
    var mem' := AppendMem(mem, r[0], r[|r| - 1], x);
    forall q | q in tree && q != p
      ensures PosLinks(mem', tree, q)
    {
      assert PosLinks(mem, tree, q);
      AppendOther(mem, tree, sizes, p, x, q);
    }
    forall i | 0 <= i < 32
      ensures RootLink(mem', treemap, tree, i)
    {
      assert RootLink(mem, treemap, tree, i);
      AppendRoots(mem, tree, sizes, p, x, i);
    }
    assert PosLinks(mem, tree, p);
    AppendNode(mem, tree, sizes, p, x);
  }

  lemma AppendNode(mem: Memory, tree: Tree, sizes: Sizes, p: Pos, x: int)
    requires Newcomer(mem, tree, sizes, x) && p in tree && |tree[p]| > 0
    ensures SameTreeLinks(mem, AppendMem(mem, tree[p][0], tree[p][|tree[p]| - 1], x), tree[p][0])
  {
    hide AppendMem, Shape, Spaced;
    SameOrApart(tree, sizes, p, |tree[p]| - 1, 0);
    NewcomerApart(mem, tree, sizes, x, p, 0);
    AppendTreeWords(mem, tree[p][0], tree[p][|tree[p]| - 1], x, tree[p][0]);
  }

  lemma AppendOther(mem: Memory, tree: Tree, sizes: Sizes, p: Pos, x: int, q: Pos)
    requires Newcomer(mem, tree, sizes, x) && p in tree && |tree[p]| > 0
    requires q in tree && q != p && PosLinks(mem, tree, q)
    ensures PosLinks(AppendMem(mem, tree[p][0], tree[p][|tree[p]| - 1], x), tree, q)
  {
    hide AppendMem, Shape, Spaced, PosLinks, SameLinks;
    var r := tree[p];
    var mem' := AppendMem(mem, r[0], r[|r| - 1], x);
    forall k | 0 <= k < |tree[q]|
      ensures SameLinks(mem, mem', tree[q][k])
    {
      MembersApart(tree, sizes, p, q, 0, k);
      MembersApart(tree, sizes, p, q, |r| - 1, k);
      NewcomerApart(mem, tree, sizes, x, q, k);
      AppendTreeWords(mem, r[0], r[|r| - 1], x, tree[q][k]);
    }
    assert |tree[q]| > 0 && q.w > 0 by { PosNonEmpty(mem, tree, q); }
    PosFrame(mem, mem', tree, tree, q);
  }

  lemma PosNonEmpty(mem: Memory, tree: Tree, q: Pos)
    requires q in tree && PosLinks(mem, tree, q)
    ensures |tree[q]| > 0 && q.w > 0
  {
  }

  lemma AppendRoots(mem: Memory, tree: Tree, sizes: Sizes, p: Pos, x: int, i: nat)
    requires Newcomer(mem, tree, sizes, x) && p in tree && |tree[p]| > 0 && i < 32
    ensures Peek(AppendMem(mem, tree[p][0], tree[p][|tree[p]| - 1], x), TreeBinAt(i)) == Peek(mem, TreeBinAt(i))
  {
    ShapeAt(tree, sizes, p);
  }

  lemma AppendShape(tree: Tree, sizes: Sizes, p: Pos, x: int)
    requires Shape(tree, sizes) && p in tree && x in sizes && !InTree(tree, x) && x % 16 == 0
    requires sizes[x] == Key(tree, sizes, p)
    ensures Shape(tree[p := tree[p] + [x]], sizes)
  {
    var tree' := tree[p := tree[p] + [x]];
    ShapeAt(tree, sizes, p);
    NotMember(tree, p, x);
    forall q | q in tree'
      ensures ChainFits(tree', sizes, q)
    {
      ShapeAt(tree, sizes, q);
    }
    forall q, s | q in tree' && s in tree' && Key(tree', sizes, q) == Key(tree', sizes, s)
      ensures q == s
    {
      assert Key(tree, sizes, q) == Key(tree', sizes, q);
      assert Key(tree, sizes, s) == Key(tree', sizes, s);
    }
  }

  lemma AppendHolds(tree: Tree, p: Pos, x: int)
    requires p in tree
    ensures forall y :: InTree(tree[p := tree[p] + [x]], y) <==> InTree(tree, y) || y == x
  {
    var tree' := tree[p := tree[p] + [x]];
    forall y
      ensures InTree(tree', y) <==> InTree(tree, y) || y == x
    {
      if InTree(tree, y) {
        var q :| q in tree && y in tree[q];
        assert q in tree' && y in tree'[q];
      }
      assert p in tree' && x in tree'[p];
    }
  }

  // ---- a new leaf ----

  /** `*C = X; X->parent = T; X->fd = X->bk = X`. */
  function LeafMem(mem: Memory, slot: int, parent: int, x: int): Memory {
    mem[slot := x][ParentAt(x) := parent][Fd(x) := x][Bk(x) := x]
  }

  /** Position `d` is free, next to the tree, and right for size `s`. */
  ghost predicate Vacant(tree: Tree, sizes: Sizes, d: Pos, s: nat) {
    && d !in tree && 4 <= d.w <= RootBits(d.bin) && Fits(d, s)
    && (d.w < RootBits(d.bin) ==> Up(d) in tree)
    && (forall q {:trigger Key(tree, sizes, q)} :: q in tree ==> Key(tree, sizes, q) != s)
  }

  lemma LeafShape(tree: Tree, sizes: Sizes, d: Pos, x: int)
    requires Shape(tree, sizes) && x in sizes && x % 16 == 0 && Vacant(tree, sizes, d, sizes[x])
    ensures Shape(tree[d := [x]], sizes)
  {
    var tree' := tree[d := [x]];
    forall q | q in tree'
      ensures ChainFits(tree', sizes, q)
    {
      if q != d {
        ShapeAt(tree, sizes, q);
      }
    }
    forall q, s | q in tree' && s in tree' && Key(tree', sizes, q) == Key(tree', sizes, s)
      ensures q == s
    {
      assert q != d ==> Key(tree, sizes, q) == Key(tree', sizes, q);
      assert s != d ==> Key(tree, sizes, s) == Key(tree', sizes, s);
    }
  }

  lemma LeafHolds(tree: Tree, d: Pos, x: int)
    requires d !in tree
    ensures forall y :: InTree(tree[d := [x]], y) <==> InTree(tree, y) || y == x
  {
    var tree' := tree[d := [x]];
    forall y
      ensures InTree(tree', y) <==> InTree(tree, y) || y == x
    {
      if InTree(tree, y) {
        var q :| q in tree && y in tree[q];
        assert q in tree' && y in tree'[q];
      }
      assert d in tree' && x in tree'[d];
    }
  }

  /** No position hangs below a vacant one. */
  lemma VacantBelow(tree: Tree, sizes: Sizes, d: Pos, q: Pos)
    requires Shape(tree, sizes) && d !in tree && q in tree
    ensures q.w < RootBits(q.bin) ==> Up(q) != d
  {
    ShapeAt(tree, sizes, q);
  }

  lemma LeafNeighbours(tree: Tree, sizes: Sizes, d: Pos, x: int, q: Pos)
    requires Shape(tree, sizes) && x in sizes && Vacant(tree, sizes, d, sizes[x]) && q in tree
    ensures q.w > 0 && d.w > 0
    ensures var tree' := tree[d := [x]];
            && ParentOf(tree', q) == ParentOf(tree, q)
            && NodeAt(tree', Down(q, 0)) == (if q == Up(d) && d.q % 2 == 0 then x else NodeAt(tree, Down(q, 0)))
            && NodeAt(tree', Down(q, 1)) == (if q == Up(d) && d.q % 2 == 1 then x else NodeAt(tree, Down(q, 1)))
            && NodeAt(tree', Down(d, 0)) == 0 && NodeAt(tree', Down(d, 1)) == 0
    ensures q == Up(d) ==> d.w < RootBits(d.bin)
  {
    ShapeAt(tree, sizes, q);
    VacantBelow(tree, sizes, d, q);
    UpDown(q, 0);
    UpDown(q, 1);
    DownUp(d);
    NothingBelow(tree, sizes, d, 0);
    NothingBelow(tree, sizes, d, 1);
  }

  lemma NothingBelow(tree: Tree, sizes: Sizes, d: Pos, b: nat)
    requires Shape(tree, sizes) && d !in tree && 0 < d.w <= RootBits(d.bin) && b < 2
    ensures Down(d, b) !in tree
  {
    if Down(d, b) in tree {
      VacantBelow(tree, sizes, d, Down(d, b));
      UpDown(d, b);
    }
  }

  lemma LeafWords(mem: Memory, slot: int, parent: int, x: int, y: int)
    requires Apart(x, y)
    requires Outside(slot, y) || slot == ChildAt(y, 0) || slot == ChildAt(y, 1)
    ensures var mem' := LeafMem(mem, slot, parent, x);
            && SameRing(mem, mem', y)
            && Peek(mem', ParentAt(y)) == Peek(mem, ParentAt(y))
            && Peek(mem', ChildAt(y, 0)) == (if slot == ChildAt(y, 0) then x else Peek(mem, ChildAt(y, 0)))
            && Peek(mem', ChildAt(y, 1)) == (if slot == ChildAt(y, 1) then x else Peek(mem, ChildAt(y, 1)))
    ensures Outside(slot, y) ==> SameLinks(mem, LeafMem(mem, slot, parent, x), y)
  {
  }

  lemma LeafSelf(mem: Memory, slot: int, parent: int, x: int)
    requires Outside(slot, x)
    ensures var mem' := LeafMem(mem, slot, parent, x);
            && Peek(mem', Fd(x)) == x && Peek(mem', Bk(x)) == x && Peek(mem', ParentAt(x)) == parent
            && Peek(mem', IndexAt(x)) == Peek(mem, IndexAt(x))
            && Peek(mem', ChildAt(x, 0)) == Peek(mem, ChildAt(x, 0))
            && Peek(mem', ChildAt(x, 1)) == Peek(mem, ChildAt(x, 1))
  {
  }

  /** The empty slot of a vacant position, like an occupied one's, is a child word of the
      node above it or a bin word. */
  lemma VacantSlot(tree: Tree, sizes: Sizes, d: Pos, s: nat, q: Pos, k: nat)
    requires Shape(tree, sizes) && Spaced(sizes) && Vacant(tree, sizes, d, s) && q in tree && k < |tree[q]|
    ensures var slot, y := Slot(tree, d), tree[q][k];
            && (d.w == RootBits(d.bin) || q != Up(d) || k > 0 ==> Outside(slot, y))
            && (d.w < RootBits(d.bin) && q == Up(d) && k == 0 ==> slot == ChildAt(y, d.q % 2))
            && (Outside(slot, y) || slot == ChildAt(y, 0) || slot == ChildAt(y, 1))
  {
    BinInRange(d, s);
    ShapeAt(tree, sizes, q);
    if d.w < RootBits(d.bin) {
      ShapeAt(tree, sizes, Up(d));
      if q != Up(d) || k != 0 {
        MembersApart(tree, sizes, Up(d), q, 0, k);
      }
    }
  }

  lemma VacantSlotNew(mem: Memory, tree: Tree, sizes: Sizes, d: Pos, x: int)
    requires Newcomer(mem, tree, sizes, x) && Vacant(tree, sizes, d, sizes[x])
    ensures Outside(Slot(tree, d), x)
  {
    BinInRange(d, sizes[x]);
    if d.w < RootBits(d.bin) {
      ShapeAt(tree, sizes, Up(d));
      NewcomerApart(mem, tree, sizes, x, Up(d), 0);
    }
  }

  lemma LeafOther(mem: Memory, tree: Tree, sizes: Sizes, d: Pos, x: int, q: Pos)
    requires Newcomer(mem, tree, sizes, x) && Vacant(tree, sizes, d, sizes[x])
    requires q in tree && PosLinks(mem, tree, q)
    ensures PosLinks(LeafMem(mem, Slot(tree, d), ParentOf(tree, d), x), tree[d := [x]], q)
  {
    hide LeafMem, Slot, NodeAt, ParentOf, Up, Down, Shape, Spaced, Vacant, Outside, Chain, Apart;
    var slot := Slot(tree, d);
    var mem' := LeafMem(mem, slot, ParentOf(tree, d), x);
    assert d !in tree by { VacantNot(tree, sizes, d, sizes[x]); }
    forall k | 0 <= k < |tree[q]|
      ensures SameRing(mem, mem', tree[q][k])
      ensures k > 0 ==> SameLinks(mem, mem', tree[q][k])
    {
      VacantSlot(tree, sizes, d, sizes[x], q, k);
      NewcomerApart(mem, tree, sizes, x, q, k);
      LeafWords(mem, slot, ParentOf(tree, d), x, tree[q][k]);
    }
    ChainFrameBelowHead(mem, mem', q.bin, tree[q]);
    LeafNeighbours(tree, sizes, d, x, q);
    LeafNode(mem, tree, sizes, d, x, q);
  }

  lemma VacantNot(tree: Tree, sizes: Sizes, d: Pos, s: nat)
    requires Vacant(tree, sizes, d, s)
    ensures d !in tree
  {
  }

  lemma LeafNode(mem: Memory, tree: Tree, sizes: Sizes, d: Pos, x: int, q: Pos)
    requires Newcomer(mem, tree, sizes, x) && Vacant(tree, sizes, d, sizes[x])
    requires q in tree && |tree[q]| > 0
    ensures var mem', y := LeafMem(mem, Slot(tree, d), ParentOf(tree, d), x), tree[q][0];
            && Peek(mem', ParentAt(y)) == Peek(mem, ParentAt(y))
            && Peek(mem', ChildAt(y, 0)) == (if q == Up(d) && d.q % 2 == 0 then x else Peek(mem, ChildAt(y, 0)))
            && Peek(mem', ChildAt(y, 1)) == (if q == Up(d) && d.q % 2 == 1 then x else Peek(mem, ChildAt(y, 1)))
  {
    hide LeafMem, Slot, ParentOf, NodeAt, Shape, Spaced;
    VacantSlot(tree, sizes, d, sizes[x], q, 0);
    NewcomerApart(mem, tree, sizes, x, q, 0);
    LeafWords(mem, Slot(tree, d), ParentOf(tree, d), x, tree[q][0]);
    ShapeAt(tree, sizes, q);
  }

  lemma LeafNew(mem: Memory, tree: Tree, sizes: Sizes, d: Pos, x: int)
    requires Newcomer(mem, tree, sizes, x) && Vacant(tree, sizes, d, sizes[x])
    ensures PosLinks(LeafMem(mem, Slot(tree, d), ParentOf(tree, d), x), tree[d := [x]], d)
  {
    hide LeafMem, Slot, Shape, Spaced;
    var tree' := tree[d := [x]];
    VacantSlotNew(mem, tree, sizes, d, x);
    LeafSelf(mem, Slot(tree, d), ParentOf(tree, d), x);
    NothingBelow(tree, sizes, d, 0);
    NothingBelow(tree, sizes, d, 1);
    assert NodeAt(tree', Up(d)) == NodeAt(tree, Up(d));
  }

  ghost function MapWith(treemap: BinMap, d: Pos): BinMap
    requires d.bin < 32
  {
    if d.w == RootBits(d.bin) then Mark(treemap, d.bin) else treemap
  }

  lemma LeafRoot(mem: Memory, treemap: BinMap, tree: Tree, sizes: Sizes, d: Pos, x: int, i: nat)
    requires Newcomer(mem, tree, sizes, x) && Vacant(tree, sizes, d, sizes[x])
    requires i < 32 && RootLink(mem, treemap, tree, i)
    ensures d.bin < 32
    ensures RootLink(LeafMem(mem, Slot(tree, d), ParentOf(tree, d), x), MapWith(treemap, d), tree[d := [x]], i)
  {
    hide Marked, Mark, Clear;
    BinInRange(d, sizes[x]);
    MarkAndClear(treemap, d.bin);
    if d.w == RootBits(d.bin) {
      TopIsRoot(d, sizes[x]);
    } else {
      ShapeAt(tree, sizes, Up(d));
    }
  }

  lemma LeafLinks(mem: Memory, treemap: BinMap, tree: Tree, sizes: Sizes, d: Pos, x: int)
    requires Newcomer(mem, tree, sizes, x) && Vacant(tree, sizes, d, sizes[x]) && TreeLinks(mem, treemap, tree)
    ensures d.bin < 32
    ensures TreeLinks(LeafMem(mem, Slot(tree, d), ParentOf(tree, d), x), MapWith(treemap, d), tree[d := [x]])
  {
    hide LeafMem, Slot, ParentOf, Newcomer, Vacant;
    var mem', tree' := LeafMem(mem, Slot(tree, d), ParentOf(tree, d), x), tree[d := [x]];
    assert d.bin < 32 by {
      assert RootLink(mem, treemap, tree, 0);
      LeafRoot(mem, treemap, tree, sizes, d, x, 0);
    }
    forall q | q in tree'
      ensures PosLinks(mem', tree', q)
    {
      if q == d {
        LeafNew(mem, tree, sizes, d, x);
      } else {
        assert PosLinks(mem, tree, q);
        LeafOther(mem, tree, sizes, d, x, q);
      }
    }
    forall i | 0 <= i < 32
      ensures RootLink(mem', MapWith(treemap, d), tree', i)
    {
      assert RootLink(mem, treemap, tree, i);
      LeafRoot(mem, treemap, tree, sizes, d, x, i);
    }
  }
}
