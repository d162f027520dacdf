/** The tree bins: bitwise tries of free chunks keyed on size, kept in the link words of the
    chunks themselves. The ghost view of all 32 tries is a map from trie positions to the
    chain of same-sized chunks found there; the first chunk of a chain is the tree node.
    A position knows its bin, how many size bits are still undecided below it and the value
    of the bits already decided, so "is below" and "is to the left of" are arithmetic. */
module TreeBins {
  import opened Words
  import opened SizeBits
  import opened Rings
  import opened BinMaps

  datatype Pos = Pos(bin: nat, w: nat, q: nat)

  type Tree = map<Pos, seq<int>>

  /** Sizes of the binned chunks, by chunk address. */
  type Sizes = map<int, nat>

  const SMALLBINS := 0x1000
  const TREEBINS := 0x1210
  const GM_END := 0x1310

  /** `treebin_at(M, i)`. */
  function TreeBinAt(i: int): int { TREEBINS + 8 * i }

  function Up(p: Pos): Pos { Pos(p.bin, p.w + 1, p.q / 2) }

  function Down(p: Pos, b: nat): Pos
    requires p.w > 0
  {
    Pos(p.bin, p.w - 1, 2 * p.q + b)
  }

  function RootPos(i: nat): Pos { Pos(i, RootBits(i), RootPrefix(i)) }

  /** Where a chunk of size `s` belongs when `w` bits are undecided. */
  function PosOf(s: nat, w: nat): Pos { Pos(TreeIndex(s), w, Shr(s, w)) }

  /** The pointer to the node at `p`: null when there is none. */
  ghost function NodeAt(tree: Tree, p: Pos): int {
    if p in tree && |tree[p]| > 0 then tree[p][0] else 0
  }

  ghost predicate InTree(tree: Tree, x: int) {
    exists p :: p in tree && x in tree[p]
  }

  // ---- shape ----

  /** Size `s` may be kept at position `p`. */
  ghost predicate Fits(p: Pos, s: nat) {
    && MIN_LARGE_SIZE <= s < WORD_LIMIT && s % 16 == 0
    && p == PosOf(s, p.w)
  }

  ghost predicate ChainFits(tree: Tree, sizes: Sizes, p: Pos)
    requires p in tree
  {
    && |tree[p]| > 0 && Members(tree[p])
    && 4 <= p.w <= RootBits(p.bin)
    && tree[p][0] in sizes
    && (forall k :: 0 <= k < |tree[p]| ==> tree[p][k] in sizes && sizes[tree[p][k]] == sizes[tree[p][0]])
    && Fits(p, sizes[tree[p][0]])
    && (p.w < RootBits(p.bin) ==> Up(p) in tree)
  }

  ghost function Key(tree: Tree, sizes: Sizes, p: Pos): nat
    requires p in tree
  {
    if |tree[p]| > 0 && tree[p][0] in sizes then sizes[tree[p][0]] else 0
  }

  /** Every chain sits where its size belongs, below an occupied position, and no two chains
      have the same size. */
  ghost predicate Shape(tree: Tree, sizes: Sizes) {
    && (forall p {:trigger ChainFits(tree, sizes, p)} :: p in tree ==> ChainFits(tree, sizes, p))
    && (forall p, q {:trigger Key(tree, sizes, p), Key(tree, sizes, q)} ::
          p in tree && q in tree && Key(tree, sizes, p) == Key(tree, sizes, q) ==> p == q)
  }

  /** Exactly the large binned chunks are in the trees. */
  ghost predicate HoldsLarge(tree: Tree, sizes: Sizes) {
    forall x {:trigger InTree(tree, x)} :: InTree(tree, x) <==> x in sizes && !IsSmall(sizes[x])
  }

  // ---- links ----

  /** The chain's ring, index words, and the null tree links of all but the tree node. */
  ghost predicate Chain(mem: Memory, bin: nat, r: seq<int>) {
    && Linked(mem, r)
    && (forall k {:trigger IndexAt(r[k])} :: 0 <= k < |r| ==> Peek(mem, IndexAt(r[k])) == bin)
    && (forall k {:trigger ParentAt(r[k])} :: 0 < k < |r| ==> Peek(mem, ParentAt(r[k])) == 0)
    && (forall k {:trigger ChildAt(r[k], 0)} :: 0 < k < |r| ==> Peek(mem, ChildAt(r[k], 0)) == 0)
    && (forall k {:trigger ChildAt(r[k], 1)} :: 0 < k < |r| ==> Peek(mem, ChildAt(r[k], 1)) == 0)
  }

  ghost predicate NodeLinks(mem: Memory, tree: Tree, p: Pos)
    requires p in tree && |tree[p]| > 0 && p.w > 0
  {
    var a := tree[p][0];
    && Peek(mem, ParentAt(a)) == ParentOf(tree, p)
    && Peek(mem, ChildAt(a, 0)) == NodeAt(tree, Down(p, 0))
    && Peek(mem, ChildAt(a, 1)) == NodeAt(tree, Down(p, 1))
  }

  ghost function ParentOf(tree: Tree, p: Pos): int {
    if p.w == RootBits(p.bin) then TreeBinAt(p.bin) else NodeAt(tree, Up(p))
  }

  ghost predicate PosLinks(mem: Memory, tree: Tree, p: Pos)
    requires p in tree
  {
    |tree[p]| > 0 && p.w > 0 && Chain(mem, p.bin, tree[p]) && NodeLinks(mem, tree, p)
  }

  ghost predicate RootLink(mem: Memory, treemap: BinMap, tree: Tree, i: nat)
    requires i < 32
  {
    && Peek(mem, TreeBinAt(i)) == NodeAt(tree, RootPos(i))
    && (Marked(treemap, i) <==> RootPos(i) in tree)
  }

  ghost predicate TreeLinks(mem: Memory, treemap: BinMap, tree: Tree) {
    && (forall p {:trigger PosLinks(mem, tree, p)} :: p in tree ==> PosLinks(mem, tree, p))
    && (forall i {:trigger RootLink(mem, treemap, tree, i)} :: 0 <= i < 32 ==> RootLink(mem, treemap, tree, i))
  }

  // ---- positions ----

  lemma UpDown(p: Pos, b: nat)
    requires p.w > 0 && b < 2
    ensures Up(Down(p, b)) == p
  {
  }

  lemma DownUp(p: Pos)
    ensures Down(Up(p), p.q % 2) == p
  {
  }

  lemma PosOfUp(s: nat, w: nat)
    ensures Up(PosOf(s, w)) == PosOf(s, w + 1)
  {
  }

  lemma PosOfDown(s: nat, w: nat)
    requires w > 0
    ensures Down(PosOf(s, w), NextBit(s, w)) == PosOf(s, w - 1)
  {
  }

  /** A position without undecided bits left above it is the root of its bin. */
  lemma TopIsRoot(p: Pos, s: nat)
    requires Fits(p, s) && p.w == RootBits(p.bin)
    ensures p.bin < 32 && p == RootPos(p.bin)
  {
    RootOfBin(s);
  }

  lemma BinInRange(p: Pos, s: nat)
    requires Fits(p, s)
    ensures p.bin < 32
  {
    RootOfBin(s);
  }

  /** Every position on the path of bits from the root down to a chain is occupied. */
  lemma {:induction false} PathOccupied(tree: Tree, sizes: Sizes, p: Pos, w: nat)
    requires Shape(tree, sizes) && p in tree && p.w <= w <= RootBits(p.bin)
    ensures PosOf(Key(tree, sizes, p), w) in tree
    decreases w
  {
    assert ChainFits(tree, sizes, p);
    if p.w < w {
      PathOccupied(tree, sizes, p, w - 1);
      var u := PosOf(Key(tree, sizes, p), w - 1);
      assert ChainFits(tree, sizes, u);
      PosOfUp(Key(tree, sizes, p), w - 1);
    }
  }

  // ---- framing ----

  /** Binned chunks lie above the allocator's own words and do not overlap. */
  ghost predicate Spaced(sizes: Sizes) {
    && (forall x :: x in sizes ==> GM_END <= x && x % 16 == 0 && MIN_CHUNK_SIZE <= sizes[x] && sizes[x] % 16 == 0)
    && (forall x, y :: x in sizes && y in sizes && x < y ==> x + sizes[x] <= y)
  }

  ghost predicate SameRing(mem: Memory, mem': Memory, x: int) {
    && Peek(mem', Fd(x)) == Peek(mem, Fd(x)) && Peek(mem', Bk(x)) == Peek(mem, Bk(x))
    && Peek(mem', IndexAt(x)) == Peek(mem, IndexAt(x))
  }

  ghost predicate SameTreeLinks(mem: Memory, mem': Memory, x: int) {
    && Peek(mem', ChildAt(x, 0)) == Peek(mem, ChildAt(x, 0))
    && Peek(mem', ChildAt(x, 1)) == Peek(mem, ChildAt(x, 1))
    && Peek(mem', ParentAt(x)) == Peek(mem, ParentAt(x))
  }

  ghost predicate SameLinks(mem: Memory, mem': Memory, x: int) {
    SameRing(mem, mem', x) && SameTreeLinks(mem, mem', x)
  }

  /** A chain survives when its members' links do; the tree links of its first member are
      not part of the chain. */
  lemma ChainFrameBelowHead(mem: Memory, mem': Memory, bin: nat, r: seq<int>)
    requires |r| > 0 && Chain(mem, bin, r)
    requires forall k {:trigger SameLinks(mem, mem', r[k])} :: 0 < k < |r| ==> SameLinks(mem, mem', r[k])
    requires SameRing(mem, mem', r[0])
    ensures Chain(mem', bin, r)
  {
    forall k | 0 <= k < |r|
      ensures SameRing(mem, mem', r[k])
    {
      assert k > 0 ==> SameLinks(mem, mem', r[k]);
    }
    forall k | 0 < k < |r|
      ensures SameTreeLinks(mem, mem', r[k])
    {
      assert SameLinks(mem, mem', r[k]);
    }
    RingPart(mem, mem', bin, r);
    TreePart(mem, mem', bin, r);
  }

  lemma ChainFrame(mem: Memory, mem': Memory, bin: nat, r: seq<int>)
    requires |r| > 0 && Chain(mem, bin, r)
    requires forall k {:trigger SameLinks(mem, mem', r[k])} :: 0 <= k < |r| ==> SameLinks(mem, mem', r[k])
    ensures Chain(mem', bin, r)
  {
    assert SameLinks(mem, mem', r[0]);
    ChainFrameBelowHead(mem, mem', bin, r);
  }

  lemma RingPart(mem: Memory, mem': Memory, bin: nat, r: seq<int>)
    requires Chain(mem, bin, r)
    requires forall k {:trigger SameRing(mem, mem', r[k])} :: 0 <= k < |r| ==> SameRing(mem, mem', r[k])
    ensures Linked(mem', r)
    ensures forall k {:trigger IndexAt(r[k])} :: 0 <= k < |r| ==> Peek(mem', IndexAt(r[k])) == bin
  {
    forall k | 0 <= k < |r|
      ensures Peek(mem', Bk(r[k])) == r[Next(k, |r|)]
      ensures Peek(mem', Fd(r[k])) == r[Previous(k, |r|)]
      ensures Peek(mem', IndexAt(r[k])) == bin
    {
      assert SameRing(mem, mem', r[k]);
    }
  }

  lemma TreePart(mem: Memory, mem': Memory, bin: nat, r: seq<int>)
    requires Chain(mem, bin, r)
    requires forall k {:trigger SameTreeLinks(mem, mem', r[k])} :: 0 < k < |r| ==> SameTreeLinks(mem, mem', r[k])
    ensures forall k {:trigger ParentAt(r[k])} :: 0 < k < |r| ==> Peek(mem', ParentAt(r[k])) == 0
    ensures forall k {:trigger ChildAt(r[k], 0)} :: 0 < k < |r| ==> Peek(mem', ChildAt(r[k], 0)) == 0
    ensures forall k {:trigger ChildAt(r[k], 1)} :: 0 < k < |r| ==> Peek(mem', ChildAt(r[k], 1)) == 0
  {
    forall k | 0 < k < |r|
      ensures Peek(mem', ParentAt(r[k])) == 0
      ensures Peek(mem', ChildAt(r[k], 0)) == 0
      ensures Peek(mem', ChildAt(r[k], 1)) == 0
    {
      assert SameTreeLinks(mem, mem', r[k]);
    }
  }

  /** A position keeps its links when its members' words, its neighbours and its chain are
      as before. */
  lemma PosFrame(mem: Memory, mem': Memory, tree: Tree, tree': Tree, p: Pos)
    requires p in tree && p in tree' && tree[p] == tree'[p]
    requires PosLinks(mem, tree, p)
    requires forall k {:trigger SameLinks(mem, mem', tree[p][k])} :: 0 <= k < |tree[p]| ==>
               SameLinks(mem, mem', tree[p][k])
    requires ParentOf(tree, p) == ParentOf(tree', p)
    requires NodeAt(tree, Down(p, 0)) == NodeAt(tree', Down(p, 0))
    requires NodeAt(tree, Down(p, 1)) == NodeAt(tree', Down(p, 1))
    ensures PosLinks(mem', tree', p)
  {
    ChainFrame(mem, mem', p.bin, tree[p]);
    assert SameLinks(mem, mem', tree[p][0]);
  }

  lemma ChainsDisjoint(tree: Tree, sizes: Sizes, p: Pos, q: Pos, j: nat, k: nat)
    requires Shape(tree, sizes) && p in tree && q in tree
    requires j < |tree[p]| && k < |tree[q]| && tree[p][j] == tree[q][k]
    ensures p == q && j == k
  {
    assert ChainFits(tree, sizes, p) && ChainFits(tree, sizes, q);
    assert Key(tree, sizes, p) == Key(tree, sizes, q);
  }

  /** A write inside another large chunk, or into the allocator's words, spares `x`. */
  lemma WriteElsewhere(mem: Memory, sizes: Sizes, x: int, y: int, a: int, v: int)
    requires Spaced(sizes) && x in sizes && !IsSmall(sizes[x])
    requires a < GM_END || (y in sizes && x != y && y <= a < y + sizes[y])
    ensures SameLinks(mem, mem[a := v], x)
  {
  }

  /** The address of the pointer to the node at `p`: the bin word or a child word. */
  ghost function Slot(tree: Tree, p: Pos): int {
    if p.w == RootBits(p.bin) then TreeBinAt(p.bin) else ChildAt(NodeAt(tree, Up(p)), p.q % 2)
  }

  ghost predicate IsLeaf(tree: Tree, p: Pos)
    requires p.w > 0
  {
    Down(p, 0) !in tree && Down(p, 1) !in tree
  }
}
