/** Serving a small request from the small bins: a chunk of the right size, or the next larger
    one, split. */
module SmallRequests {
  import opened Words
  import opened Rings
  import opened BinMaps
  import opened TreeBins
  import opened SmallBins
  import BinHistory
  import opened MallocState
  import opened Invariant
  import opened SmallChunks
  import opened Freeing
  import opened Taking
  import opened LargeRequests

  // ---- small bins ----

  /** The first chunk of a marked bin: the newest of its size. */
  lemma FirstRead(m: State, i: nat)
    requires m.Bins() && i < 32 && Marked(m.smallmap, i)
    ensures |m.small| == 32 && m.small[i] != [] && m.Mapped(Fd(SmallBinAt(i)))
    ensures var p := m.At(Fd(SmallBinAt(i)));
            p == m.small[i][|m.small[i]| - 1] && p in m.sizes && m.sizes[p] == 8 * i && IsSmall(m.sizes[p])
  {
    hide TreeLinks, Shape, HoldsLarge, HoldsSmall, Spaced, SizeHeads, Marked;
    assert BinLink(m.mem, m.smallmap, m.small, i);
    assert BinFits(m.small, m.sizes, i);
    var r := RingOf(m.small, i);
    assert r[|r| - 1] == m.small[i][|m.small[i]| - 1];
    assert Previous(0, |r|) == |r| - 1;
    SmallMapped(m, i, 0);
    assert r[0] == SmallBinAt(i);
    assert Peek(m.mem, Fd(r[0])) == r[Previous(0, |r|)];
  }

  /** Every small binned chunk's bin is marked, and only those. */
  lemma SmallMarked(m: State, x: int)
    requires m.Bins() && x in m.sizes && IsSmall(m.sizes[x])
    ensures m.sizes[x] == 8 * (m.sizes[x] / 8) && m.sizes[x] / 8 < 32 && Marked(m.smallmap, m.sizes[x] / 8)
  {
    hide TreeLinks, Shape, HoldsLarge, SizeHeads, Marked;
    assert InSmall(m.small, x);
    var i :| 0 <= i < |m.small| && x in m.small[i];
    assert BinFits(m.small, m.sizes, i);
    assert BinLink(m.mem, m.smallmap, m.small, i);
  }

  /** `unlink_first_small_chunk`, the first step of using a small chunk. */
  method UnlinkFirst(m: State, b: int, p: int, i: nat, ghost s: Snapshot)
    requires Valid(m) && s == Snap(m) && i < 32 && Marked(m.smallmap, i)
    requires b == SmallBinAt(i) && m.Mapped(Fd(b)) && p == m.At(Fd(b))
    modifies m`mem, m`smallmap, m`sizes, m`small, m`trace
    ensures m.trace == old(m.trace) + [BinHistory.Remove(p)] && (old(m.Chronicled()) ==> m.Chronicled())
    ensures Opened(m, s, {p}) && m.sizes == s.sizes - {p}
  {
    hide *;
    HeapStart(m);
    StartFields(m);
    FirstRead(m, i);
    UnlinkFirstSmallChunk(m, b, p, i);
    TakenFromTree(m, s, p, s.mem);
  }

  /** A remainderless fit from bin `idx`. */
  method TakeSmall(m: State, nb: nat, idx: nat) returns (mem: int)
    requires Valid(m) && idx < 32 && Marked(m.smallmap, idx) && nb <= 8 * idx < nb + MIN_CHUNK_SIZE
    modifies m
    ensures old(m.trace) <= m.trace && (old(m.Chronicled()) ==> m.Chronicled())
    ensures Allocated(m, old(Snap(m)), mem - 16, nb) && mem > 16
    ensures mem - 16 in old(m.sizes) && old(m.sizes)[mem - 16] == 8 * idx && IsNewest(old(m.small), idx, mem - 16)
    ensures ShelfOf(Snap(m)) == TakeBinned(old(ShelfOf(Snap(m))), mem - 16, 8 * idx, nb)
  {
    hide *;
    ghost var s := Snap(m);
    HeapStart(m);
    FirstRead(m, idx);
    var b := SmallBinAt(idx);
    var p := m.At(Fd(b));
    BinnedUsable(m, s, p);
    assert ChunkSize(m.At(Head(p))) == 8 * idx;
    ShelfIs(m);
    NewestRead(m, idx, p);
    UnlinkFirst(m, b, p, idx, s);
    TakeWhole(m, p, 8 * idx, s, nb, {p});
    WholeTaken(ShelfOf(s), p, 8 * idx, nb);
    ShelfIs(m);
    mem := p + 16;
  }

  /** A chunk from bin `i`, split if what is left is a chunk. */
  method SplitSmall(m: State, nb: nat, i: nat) returns (mem: int)
    requires Valid(m) && i < 32 && Marked(m.smallmap, i) && MIN_CHUNK_SIZE <= nb <= 8 * i && nb % 16 == 0
    requires m.dvsize < nb
    modifies m
    ensures old(m.trace) <= m.trace && (old(m.Chronicled()) ==> m.Chronicled())
    ensures Allocated(m, old(Snap(m)), mem - 16, nb) && mem > 16
    ensures mem - 16 in old(m.sizes) && old(m.sizes)[mem - 16] == 8 * i && IsNewest(old(m.small), i, mem - 16)
    ensures 8 * i - nb >= MIN_CHUNK_SIZE ==> m.dv == mem - 16 + nb && m.dvsize == 8 * i - nb
    ensures ShelfOf(Snap(m)) == TakeBinned(old(ShelfOf(Snap(m))), mem - 16, 8 * i, nb)
  {
    hide *;
    ghost var s := Snap(m);
    HeapStart(m);
    FirstRead(m, i);
    var b := SmallBinAt(i);
    var p := m.At(Fd(b));
    BinnedUsable(m, s, p);
    assert ChunkSize(m.At(Head(p))) == 8 * i;
    SmallRequest(m.dvsize, nb, i);
    ShelfIs(m);
    NewestRead(m, i, p);
    UnlinkFirst(m, b, p, i, s);
    OpenedFields(m, s, {p});
    var rsize := 8 * i - nb;
    if rsize < MIN_CHUNK_SIZE {
      SmallRemainder(nb, rsize);
      TakeWhole(m, p, 8 * i, s, nb, {p});
      WholeTaken(ShelfOf(s), p, 8 * i, nb);
    } else {
      var r := p + nb;
      SplitTags(m, p, nb, rsize, s, r + rsize, {p});
      ReplaceDv(m, r, rsize, s, p, nb, r + rsize);
      SmallTaken(ShelfOf(s), p, 8 * i, nb);
    }
    ShelfIs(m);
    mem := p + 16;
  }

  lemma SmallRequest(dvsize: int, nb: nat, i: nat)
    requires dvsize < nb && MIN_CHUNK_SIZE <= nb <= 8 * i && i < 32
    ensures IsSmall(dvsize) && IsSmall(nb)
  {
  }

  /** `p` is the newest chunk of small bin `i`. */
  ghost predicate IsNewest(small: Smalls, i: nat, p: int) {
    i < |small| && small[i] != [] && p == small[i][|small[i]| - 1]
  }

  lemma NewestRead(m: State, i: nat, p: int)
    requires |m.small| == 32 && i < 32 && m.small[i] != [] && p == m.small[i][|m.small[i]| - 1]
    ensures IsNewest(m.small, i, p)
  {
  }
}
