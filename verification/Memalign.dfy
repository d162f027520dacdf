/** `internal_memalign`: an aligned chunk cut out of a larger one. */
module Memalign {
  import opened Words
  import opened SizeBits
  import opened WordBits
  import opened BinHistory
  import opened MallocState
  import opened Boundaries
  import opened Invariant
  import opened Freeing
  import opened Taking
  import opened Malloc
  import opened Resizing
  import opened Realloc

  const TOP_POWER := 0x8000_0000_0000_0000

  // ---- the alignment ----

  /** `a` after `n` turns of `a <<= 1`, starting from `MALLOC_ALIGNMENT << 1`. */
  function Doubled(n: nat): nat {
    if n == 0 then 2 * MALLOC_ALIGNMENT else Doubled(n - 1) * 2 % WORD_LIMIT
  }

  lemma {:induction false} DoubledIs(n: nat)
    ensures Doubled(n) == if n < 59 then Pow2(n + 5) else 0
    ensures Doubled(n) <= TOP_POWER
  {
    if n == 0 {
      Pow2Five();
    } else {
      DoubledIs(n - 1);
      WrapDouble(Doubled(n - 1));
      Pow2Values();
      if n < 59 {
        Pow2Monotone(n + 5, 63);
      }
    }
  }

  lemma WrapDouble(p: nat)
    requires p <= TOP_POWER
    ensures p * 2 % WORD_LIMIT == if p < TOP_POWER then 2 * p else 0
  {
  }

  lemma Pow2Five()
    ensures Pow2(4) == 16 && Pow2(5) == 32
  {
    assert Pow2(4) == 2 * Pow2(3) == 4 * Pow2(2) == 8 * Pow2(1);
  }

  /** The rounding loop ends exactly for alignments of at most 2^63: beyond that `a` wraps to
      zero before it gets there. */
  lemma RoundingEnds(alignment: nat)
    requires alignment < WORD_LIMIT
    ensures (exists n: nat :: Doubled(n) >= alignment) <==> alignment <= TOP_POWER
  {
    hide Doubled, Pow2;
    Pow2Values();
    DoubledIs(58);
    forall n: nat
      ensures Doubled(n) <= TOP_POWER
    {
      DoubledIs(n);
    }
  }

  /** The alignment as `internal_memalign` uses it: the least power of two that is at least
      `alignment` and `MIN_CHUNK_SIZE`. */
  method RoundAlignment(alignment: nat) returns (a: nat)
    requires alignment <= TOP_POWER
    ensures IsPowerOfTwo(a) && a >= alignment && MIN_CHUNK_SIZE <= a <= TOP_POWER
    ensures forall b: nat :: IsPowerOfTwo(b) && b >= alignment && b >= MIN_CHUNK_SIZE ==> a <= b
  {
    a := if alignment < MIN_CHUNK_SIZE then MIN_CHUNK_SIZE else alignment;
    ghost var wanted := a;
    PowerOfTwoTest(a);
    if BitAnd(a, a - 1) != 0 {
      var r := 2 * MALLOC_ALIGNMENT;
      ghost var k := 5;
      Pow2Five();
      while r < a
        invariant k >= 5 && r == Pow2(k) && (k == 5 || Pow2(k - 1) < a) && r <= TOP_POWER
        decreases TOP_POWER - r
      {
        Pow2Values();
        DoubleBelow(k, a);
        r := r * 2 % WORD_LIMIT;
        k := k + 1;
      }
      Pow2IsPower(k);
      forall b: nat | IsPowerOfTwo(b) && b >= wanted
        ensures r <= b
      {
        var j := PowersOfTwo(b);
        LeastPower(k, j, wanted);
      }
      a := r;
    }
  }

  lemma DoubleBelow(k: nat, a: nat)
    requires Pow2(k) < a <= TOP_POWER
    ensures k < 63 && Pow2(k) * 2 == Pow2(k + 1) <= TOP_POWER && Pow2(k) * 2 % WORD_LIMIT == Pow2(k + 1)
  {
    Pow2Values();
    if k >= 63 {
      Pow2Monotone(63, k);
    } else {
      Pow2Monotone(k + 1, 63);
    }
  }

  lemma LeastPower(k: nat, j: nat, wanted: nat)
    requires k >= 5 && (k == 5 || Pow2(k - 1) < wanted) && Pow2(j) >= wanted >= MIN_CHUNK_SIZE
    ensures Pow2(k) <= Pow2(j)
  {
    hide Pow2;
    Pow2Five();
    if k <= j {
      Pow2Monotone(k, j);
    } else {
      Pow2Monotone(j, k - 1);
    }
  }

  // ---- the spot ----

  predicate IsAligned(x: int, alignment: nat)
    requires alignment > 0
  {
    x % alignment == 0
  }

  /** `mem` rounded up to a multiple of the alignment, as the source computes it. */
  function AlignUp(mem: nat, alignment: nat): nat
    requires 0 < alignment <= WORD_LIMIT
  {
    BitAnd((mem + alignment - 1) % WORD_LIMIT, WORD_LIMIT - alignment)
  }

  lemma MisalignedBits(mem: nat, alignment: nat)
    requires IsPowerOfTwo(alignment)
    ensures BitAnd(mem, alignment - 1) == 0 <==> IsAligned(mem, alignment)
  {
    var k := PowersOfTwo(alignment);
    AndMask(mem, k);
  }

  lemma AlignUpIs(mem: nat, alignment: nat)
    requires IsPowerOfTwo(alignment) && alignment <= TOP_POWER && mem + alignment - 1 < WORD_LIMIT
    requires !IsAligned(mem, alignment)
    ensures var a := AlignUp(mem, alignment);
            IsAligned(a, alignment) && mem < a < mem + alignment
  {
    hide BitAnd, IsPowerOfTwo, Pow2;
    RoundedUp(mem, alignment);
    AlignUpRounds(mem, alignment);
  }

  lemma AlignUpRounds(mem: nat, alignment: nat)
    requires IsPowerOfTwo(alignment) && alignment <= TOP_POWER && mem + alignment - 1 < WORD_LIMIT
    ensures AlignUp(mem, alignment) == (mem + alignment - 1) - (mem + alignment - 1) % alignment
  {
    hide BitAnd, IsPowerOfTwo, Pow2;
    var k := PowersOfTwo(alignment);
    var x := mem + alignment - 1;
    PowerBelow(k);
    AndNegated(x, k, 64);
    SmallMod(x, WORD_LIMIT);
  }

  lemma PowerBelow(k: nat)
    requires Pow2(k) <= TOP_POWER
    ensures k <= 64 && Pow2(64) == WORD_LIMIT
  {
    Pow2Values();
    if k > 64 {
      Pow2Monotone(64, k);
    }
  }

  lemma RoundedUp(mem: nat, alignment: nat)
    requires alignment > 0 && mem % alignment != 0
    ensures var x := mem + alignment - 1;
            (x - x % alignment) % alignment == 0 && mem < x - x % alignment < mem + alignment
  {
    var x := mem + alignment - 1;
    var q, r := mem / alignment, mem % alignment;
    assert mem == alignment * q + r;
    assert x == alignment * (q + 1) + (r - 1);
    QuotientIs(x, alignment, q + 1, r - 1);
    QuotientIs(alignment * (q + 1), alignment, q + 1, 0);
  }

  /** The spot chosen inside a chunk of `size` bytes at `p`: far enough in to give the leader
      back as a chunk, and leaving at least `nb` bytes. */
  ghost predicate GoodSpot(p: int, size: int, nb: int, alignment: int, pos: int)
    requires alignment > 0
  {
    && IsAligned(pos + 16, alignment) && IsAligned(pos, 16) && pos - p >= MIN_CHUNK_SIZE && nb <= size - (pos - p)
    && size - (pos - p) >= MIN_CHUNK_SIZE
  }

  /** The padding of the request suffices. */
  lemma SpotFits(p: nat, size: nat, nb: nat, alignment: nat)
    requires IsPowerOfTwo(alignment) && MIN_CHUNK_SIZE <= alignment <= TOP_POWER && !IsAligned(p + 16, alignment)
    requires IsAligned(p, 16) && nb >= MIN_CHUNK_SIZE && size >= nb + alignment + MIN_CHUNK_SIZE
    requires p + size < WORD_LIMIT
    ensures var br := AlignUp(p + 16, alignment) - 16;
            var pos := if br - p >= MIN_CHUNK_SIZE then br else br + alignment;
            br >= p && GoodSpot(p, size, nb, alignment, pos)
  {
    hide AlignUp, IsPowerOfTwo, GoodSpot, IsAligned;
    AlignUpIs(p + 16, alignment);
    var a := AlignUp(p + 16, alignment);
    SpotAligned(a, alignment);
    if a - 16 - p >= MIN_CHUNK_SIZE {
      SpotAt(p, size, nb, alignment, a - 16);
    } else {
      SpotAt(p, size, nb, alignment, a - 16 + alignment);
    }
  }

  /** `q` is the first aligned spot in the chunk at `p` that leaves no room before it or that of
      a chunk. */
  ghost predicate FirstSpot(p: int, q: int, alignment: int)
    requires alignment > 0
  {
    && IsAligned(q + 16, alignment) && (q == p || q - p >= MIN_CHUNK_SIZE)
    && forall x {:trigger IsAligned(x, alignment)} :: p + 16 <= x < q + 16 && IsAligned(x, alignment) ==>
         0 < x - 16 - p < MIN_CHUNK_SIZE
  }

  /** Aligned addresses are as far apart as the alignment. */
  lemma AlignedApart(x: int, y: int, alignment: nat)
    requires alignment > 0 && IsAligned(x, alignment) && IsAligned(y, alignment) && x < y
    ensures x + alignment <= y
  {
    var i, j := x / alignment, y / alignment;
    assert x == alignment * i && y == alignment * j;
    if j <= i {
      MonotoneProduct(alignment, j, i);
    } else {
      MonotoneProduct(alignment, i + 1, j);
    }
  }

  lemma MonotoneProduct(a: nat, i: int, j: int)
    requires i <= j
    ensures a * i <= a * j
  {
  }

  lemma SpotIsFirst(p: nat, alignment: nat)
    requires IsPowerOfTwo(alignment) && MIN_CHUNK_SIZE <= alignment <= TOP_POWER && !IsAligned(p + 16, alignment)
    requires p + 16 + alignment - 1 < WORD_LIMIT
    ensures var br := AlignUp(p + 16, alignment) - 16;
            FirstSpot(p, if br - p >= MIN_CHUNK_SIZE then br else br + alignment, alignment)
  {
    hide AlignUp, IsPowerOfTwo, IsAligned;
    AlignUpIs(p + 16, alignment);
    var a := AlignUp(p + 16, alignment);
    var pos := if a - 16 - p >= MIN_CHUNK_SIZE then a - 16 else a - 16 + alignment;
    NextMultiple(a, alignment);
    forall x {:trigger IsAligned(x, alignment)} | p + 16 <= x < pos + 16 && IsAligned(x, alignment)
      ensures 0 < x - 16 - p < MIN_CHUNK_SIZE
    {
      if x < a {
        AlignedApart(x, a, alignment);
      } else if a < x {
        AlignedApart(a, x, alignment);
      }
    }
  }

  lemma SpotAligned(a: nat, alignment: nat)
    requires IsPowerOfTwo(alignment) && alignment >= MIN_CHUNK_SIZE && IsAligned(a, alignment)
    ensures IsAligned(a + alignment, alignment) && IsAligned(a - 16, 16) && IsAligned(a - 16 + alignment, 16)
  {
    hide IsAligned, IsPowerOfTwo;
    PowerAligned(alignment);
    MultipleOf16(a, alignment);
    NextMultiple(a, alignment);
    Sixteens(a, alignment);
  }

  lemma Sixteens(a: int, b: int)
    requires IsAligned(a, 16) && IsAligned(b, 16)
    ensures IsAligned(a - 16, 16) && IsAligned(a - 16 + b, 16)
  {
  }

  lemma SpotAt(p: nat, size: nat, nb: nat, alignment: nat, pos: int)
    requires alignment >= MIN_CHUNK_SIZE && IsAligned(pos + 16, alignment) && IsAligned(pos, 16) && nb >= MIN_CHUNK_SIZE
    requires MIN_CHUNK_SIZE <= pos - p <= alignment + MIN_CHUNK_SIZE && size >= nb + alignment + MIN_CHUNK_SIZE
    ensures GoodSpot(p, size, nb, alignment, pos)
  {
    hide IsAligned;
  }

  lemma PowerAligned(alignment: nat)
    requires IsPowerOfTwo(alignment) && alignment >= MIN_CHUNK_SIZE
    ensures IsAligned(alignment, 16)
  {
    hide IsPowerOfTwo;
    var b := EvenPower(alignment);
    var c := EvenPower(b);
    var d := EvenPower(c);
    var e := EvenPower(d);
    QuotientIs(alignment, 16, e, 0);
  }

  lemma EvenPower(x: nat) returns (h: nat)
    requires IsPowerOfTwo(x) && x > 1
    ensures x == 2 * h && IsPowerOfTwo(h)
  {
    h := x / 2;
  }

  lemma MultipleOf16(a: nat, alignment: nat)
    requires alignment > 0 && IsAligned(alignment, 16) && IsAligned(a, alignment)
    ensures IsAligned(a, 16)
  {
    var q, h := a / alignment, alignment / 16;
    assert a == alignment * q == 16 * h * q;
    assert 16 * h * q == 16 * (h * q);
    QuotientIs(a, 16, h * q, 0);
  }

  lemma NextMultiple(a: nat, alignment: nat)
    requires alignment > 0 && IsAligned(a, alignment)
    ensures IsAligned(a + alignment, alignment)
  {
    var q := a / alignment;
    assert a == alignment * q;
    assert a + alignment == alignment * (q + 1);
    QuotientIs(a + alignment, alignment, q + 1, 0);
  }

  // ---- giving back the ends ----

  /** The two `set_inuse` in the order `internal_memalign` writes them: the second part first. */
  lemma SplitWritesBack(mem: Memory, p: int, nb: nat, rsize: nat)
    requires nb >= MIN_CHUNK_SIZE && rsize >= MIN_CHUNK_SIZE && rsize % 8 == 0
    ensures var r, hi, mem2 := p + nb, p + nb + rsize, SetInuseMem(SetInuseMem(mem, p + nb, rsize), p, nb);
            && Peek(mem2, Head(p)) == HeadWord(nb, true, PInUse(Peek(mem, Head(p))))
            && Peek(mem2, Head(r)) == HeadWord(rsize, true, true)
            && Peek(mem2, Head(hi)) == SetPInUse(Peek(mem, Head(hi))) && OnlySplit(mem, mem2, p, r, hi)
  {
    HeadFields(rsize, true, PInUse(Peek(mem, Head(p + nb))));
  }

  /** `set_inuse(m, r, rsize); set_inuse(m, p, nb)` on a chunk in use. */
  method SplitBack(m: State, p: int, nb: nat, rsize: nat, ghost s: Snapshot)
    requires Opened(m, s, {}) && Block(s, p, p + nb + rsize) && Remains(s, m.sizes, p, p + nb + rsize)
    requires nb % 16 == 0 && nb >= MIN_CHUNK_SIZE && rsize >= MIN_CHUNK_SIZE && rsize % 16 == 0
    requires !(s.dvsize != 0 && p <= s.dv < p + nb + rsize)
    modifies m`mem, m`chunks
    ensures CutInUse(m, s, p, nb, rsize)
  {
    hide *;
    ghost var mem1, hi := m.mem, p + nb + rsize;
    OpenedWriting(m, s, {});
    OpenedFields(m, s, {});
    BlockReads(m, s, p, hi, {});
    SplitReads2(m, s, p, nb, rsize, {});
    Of16Of8(rsize);
    SplitWritesBack(m.mem, p, nb, rsize);
    var r := p + nb;
    SetInuse(m, r, rsize);
    SetInuse(m, p, nb);
    CutWritten(m, s, p, nb, rsize, {}, mem1);
    m.chunks := Retile(s.chunks, p, hi, Two(p, nb, hi, s.chunks[p].pinuse, true), true);
    CutRewritten(m, s, p, hi, Lesser(nb, s.chunks[p].size));
    Resizing.CutDone(m, s, p, nb, hi);
  }

  /** Chunk `p` now begins `lead` bytes later; the rest of its payload and everything else the
      caller has is as it was. */
  ghost predicate Advanced(m: State, s: Snapshot, p: int, lead: nat, size: nat)
    reads m
  {
    && Valid(m) && p in Live(s.chunks) && p + lead !in Live(s.chunks) && p != p + lead
    && Live(m.chunks) == (Live(s.chunks) - {p})[p + lead := size]
    && Untouched(s.mem, m.mem, Live(s.chunks) - {p}) && m.segBase == s.base && m.segSize == s.size
  }

  /** Giving back the leading `lead` bytes of chunk `p`. */
  method GiveBackLeader(m: State, p: int, lead: nat, size: nat)
    requires Valid(m) && p in m.chunks && m.chunks[p].cinuse && m.chunks[p].size == lead + size
    requires lead % 16 == 0 && lead >= MIN_CHUNK_SIZE && size >= MIN_CHUNK_SIZE
    modifies m
    ensures old(m.trace) <= m.trace && (old(m.Chronicled()) ==> m.Chronicled())
    ensures Advanced(m, old(Snap(m)), p, lead, size)
    ensures old(m.chunks)[p].pinuse ==> ShelfOf(Snap(m)) == Binning(old(ShelfOf(Snap(m))), p, lead)
  {
    hide *;
    ghost var s := Snap(m);
    Start(m, p);
    OwnBlock(s, p);
    EndIs(s.chunks, p);
    Unopened(m, s);
    RestAligned(lead, size, s.chunks[p].size);
    ShelfIs(m);
    SplitBack(m, p, lead, size, s);
    CutHead(m, s, p, lead, size);
    ghost var s1 := Snap(m);
    ShelfIs(m);
    HeadGives(m, p, lead);
    DisposeChunk(m, p, lead);
    LeaderGone(m, s, s1, p, lead, size);
  }

  /** A chunk of `size` bytes is put into a bin. */
  ghost function Binning(sh: Shelf, p: int, size: nat): Shelf {
    sh.(trace := sh.trace + [Insert(p, size)])
  }

  /** What is cut off between two chunks in use goes into a bin. */
  lemma HeadGives(m: State, p: int, lead: nat)
    requires Valid(m) && p in m.chunks && m.chunks[p].size == lead && m.chunks[p].cinuse
    requires p + lead in m.chunks && m.chunks[p + lead].cinuse
    ensures p in Snap(m).chunks
    ensures m.chunks[p].pinuse ==> AfterFree(Snap(m), p) == Binning(ShelfOf(Snap(m)), p, lead)
  {
    hide Flags, Tags, State.Bins;
    ValidSound(m);
    ChunkBelowTop(m.chunks, m.segBase, m.top, p + lead);
    UsedIsNotVictim(Snap(m), p + lead);
    UsedIsNotVictim(Snap(m), p);
  }

  lemma RestAligned(lead: nat, size: nat, all: nat)
    requires all == lead + size && lead % 16 == 0 && all % 16 == 0
    ensures size % 16 == 0
  {
  }

  lemma CutHead(m: State, s: Snapshot, p: int, nb: nat, rsize: nat)
    requires CutInUse(m, s, p, nb, rsize)
    ensures Valid(m) && p in m.chunks && m.chunks[p].cinuse && m.chunks[p].size == nb
    ensures p + nb in m.chunks && m.chunks[p + nb].cinuse && m.chunks[p].pinuse == s.chunks[p].pinuse
    ensures p in Live(s.chunks) && p + nb !in Live(s.chunks) && p != p + nb
    ensures var s1 := Snap(m);
            && Live(s1.chunks) == Live(s.chunks)[p := nb][p + nb := rsize] && s1.base == s.base && s1.size == s.size
            && Untouched(s.mem, s1.mem, Live(s.chunks) - {p})
  {
    hide Valid, Live;
    var live := Live(s.chunks);
    var more := live[p := if nb < live[p] then nb else live[p]];
    forall x, a | x in live - {p} && PayloadWord(x, (live - {p})[x], a)
      ensures Peek(m.mem, a) == Peek(s.mem, a)
    {
      assert x in more && PayloadWord(x, more[x], a);
    }
  }

  lemma LeaderGone(m: State, s: Snapshot, s1: Snapshot, p: int, lead: nat, size: nat)
    requires Freed(m, s1, p) && p in Live(s.chunks) && p + lead !in Live(s.chunks) && p != p + lead
    requires Live(s1.chunks) == Live(s.chunks)[p := lead][p + lead := size] && s1.base == s.base && s1.size == s.size
    requires Untouched(s.mem, s1.mem, Live(s.chunks) - {p})
    ensures Advanced(m, s, p, lead, size)
  {
    hide Valid, Untouched, Live;
    var live := Live(s.chunks);
    assert live[p := lead][p + lead := size] - {p} == (live - {p})[p + lead := size];
    UntouchedTwice(s.mem, s1.mem, m.mem, live - {p}, (live - {p})[p + lead := size]);
  }

  // ---- internal_memalign ----

  /** A new live chunk `p` with an aligned payload and `nb` to `nb + MIN_CHUNK_SIZE` bytes;
      nothing else has changed for the caller. */
  ghost predicate AlignedAt(m: State, s: Snapshot, p: int, nb: int, alignment: nat)
    requires alignment > 0
    reads m
  {
    && NewAt(m, s, p) && nb <= Live(m.chunks)[p] <= nb + MIN_CHUNK_SIZE && IsAligned(p + 16, alignment)
  }

  /** A new live chunk `p`, and nothing else has changed for the caller. */
  ghost predicate NewAt(m: State, s: Snapshot, p: int)
    reads m
    ensures NewAt(m, s, p) ==> p in Live(m.chunks)
  {
    && Valid(m) && p !in Live(s.chunks) && p in Live(m.chunks)
    && Live(m.chunks) == Live(s.chunks)[p := Live(m.chunks)[p]]
    && Untouched(s.mem, m.mem, Live(s.chunks)) && m.segBase == s.base && m.segSize >= s.size
  }

  lemma AllocatedIsNew(m: State, s: Snapshot, p: int, nb: int)
    requires Allocated(m, s, p, nb)
    ensures NewAt(m, s, p) && p > 0 && IsAligned(p, 16) && nb <= Live(m.chunks)[p]
    ensures Valid(m) && p in m.chunks && m.chunks[p].cinuse && m.chunks[p].size == Live(m.chunks)[p]
    ensures p + m.chunks[p].size < WORD_LIMIT && m.chunks[p].size % 16 == 0 && Snap(m).chunks == m.chunks
    ensures m.chunks[p].pinuse
  {
    hide Untouched, State.Bins, Flags, Tags, Placed;
    assert ChunkFits(m.chunks, m.segBase, m.top, p);
    SegmentEnd(m);
  }

  lemma SegmentEnd(m: State)
    requires Valid(m)
    ensures m.top < WORD_LIMIT
  {
    hide BinsOk, HeapOk, Placed;
  }

  lemma AdvancedIsNew(m: State, s: Snapshot, s1: Snapshot, p: int, lead: nat, size: nat)
    requires p !in Live(s.chunks) && p in Live(s1.chunks) && Live(s1.chunks) == Live(s.chunks)[p := Live(s1.chunks)[p]]
    requires Untouched(s.mem, s1.mem, Live(s.chunks)) && s1.base == s.base && s1.size >= s.size
    requires Advanced(m, s1, p, lead, size)
    ensures NewAt(m, s, p + lead) && Live(m.chunks)[p + lead] == size
  {
    hide Valid, Untouched, Live;
    assert Live(s1.chunks) - {p} == Live(s.chunks);
    UntouchedTwice(s.mem, s1.mem, m.mem, Live(s.chunks), Live(s.chunks));
  }

  lemma ResizedIsNew(m: State, s: Snapshot, s1: Snapshot, p: int, n: nat)
    requires p !in Live(s.chunks) && p in Live(s1.chunks) && Live(s1.chunks) == Live(s.chunks)[p := Live(s1.chunks)[p]]
    requires Untouched(s.mem, s1.mem, Live(s.chunks)) && s1.base == s.base && s1.size >= s.size
    requires Resized(m, s1, p, n)
    ensures NewAt(m, s, p) && Live(m.chunks)[p] == n
  {
    hide Valid, Untouched, Live;
    var more := Live(s1.chunks)[p := if n < Live(s1.chunks)[p] then n else Live(s1.chunks)[p]];
    UntouchedTwice(s.mem, s1.mem, m.mem, Live(s.chunks), more);
    assert Live(s1.chunks)[p := n] == Live(s.chunks)[p := n];
  }

  /** What being new says of the state after it. */
  lemma NewParts(m: State, s: Snapshot, p: int)
    requires NewAt(m, s, p)
    ensures Valid(m) && p in m.chunks && m.chunks[p].cinuse && m.chunks[p].size == Live(m.chunks)[p]
    ensures var s1 := Snap(m);
            && p !in Live(s.chunks) && p in Live(s1.chunks)
            && Live(s1.chunks) == Live(s.chunks)[p := Live(s1.chunks)[p]]
            && Untouched(s.mem, s1.mem, Live(s.chunks)) && s1.base == s.base && s1.size >= s.size
            && Live(s1.chunks)[p] == Live(m.chunks)[p] && s1.chunks == m.chunks && s1.mem == m.mem
  {
    hide Valid, Untouched;
  }

  /** Moving to an aligned spot inside the chunk at `p`, if it is not aligned itself. */
  method AlignInside(m: State, p: int, nb: nat, alignment: nat, ghost s: Snapshot) returns (q: int)
    requires NewAt(m, s, p) && IsPowerOfTwo(alignment) && MIN_CHUNK_SIZE <= alignment <= TOP_POWER && p > 0
    requires IsAligned(p, 16)
    requires nb >= MIN_CHUNK_SIZE && Live(m.chunks)[p] >= nb + alignment + MIN_CHUNK_SIZE
    requires p + Live(m.chunks)[p] < WORD_LIMIT && p in m.chunks && m.chunks[p].pinuse
    modifies m
    ensures old(m.trace) <= m.trace && (old(m.Chronicled()) ==> m.Chronicled())
    ensures NewAt(m, s, q) && IsAligned(q + 16, alignment) && nb <= Live(m.chunks)[q]
    ensures FirstSpot(p, q, alignment)
    ensures Live(m.chunks)[q] == old(Live(m.chunks)[p]) - (q - p)
    ensures q == p ==> Snap(m) == old(Snap(m))
    ensures q != p ==> q > p && ShelfOf(Snap(m)) == Binning(old(ShelfOf(Snap(m))), p, q - p)
  {
    hide *;
    q := p;
    NoSpotBefore(p, alignment);
    NewParts(m, s, p);
    Start(m, p);
    ghost var s1 := Snap(m);
    var mem := p + 16;
    MisalignedBits(mem, alignment);
    PaddedEnough(nb, alignment, Live(m.chunks)[p]);
    if BitAnd(mem, alignment - 1) != 0 {
      var size := ChunkSize(m.At(Head(p)));
      SpotFits(p, size, nb, alignment);
      SpotIsFirst(p, alignment);
      var br := AlignUp(mem, alignment) - 16;
      var pos := if br - p >= MIN_CHUNK_SIZE then br else br + alignment;
      var leadsize := pos - p;
      var newsize := size - leadsize;
      SpotParts(p, size, nb, alignment, pos);
      GiveBackLeader(m, p, leadsize, newsize);
      AdvancedIsNew(m, s, s1, p, leadsize, newsize);
      q := pos;
    }
  }

  lemma NoSpotBefore(p: int, alignment: nat)
    requires alignment > 0
    ensures IsAligned(p + 16, alignment) ==> FirstSpot(p, p, alignment)
  {
  }

  lemma PaddedEnough(nb: nat, alignment: nat, size: nat)
    requires size >= nb + alignment + MIN_CHUNK_SIZE
    requires alignment <= TOP_POWER
    ensures nb <= size && alignment <= WORD_LIMIT && size > alignment + 16
  {
  }

  lemma SpotParts(p: int, size: nat, nb: nat, alignment: nat, pos: int)
    requires alignment > 0 && GoodSpot(p, size, nb, alignment, pos) && IsAligned(p, 16)
    ensures pos - p >= MIN_CHUNK_SIZE && (pos - p) % 16 == 0 && pos - p >= 0
    ensures nb <= size - (pos - p) && size - (pos - p) >= MIN_CHUNK_SIZE && size - (pos - p) >= 0
    ensures IsAligned(pos + 16, alignment) && p + (pos - p) == pos
  {
    assert pos % 16 == 0 && p % 16 == 0;
  }

  /** Giving back spare room at the end. */
  method TrimEnd(m: State, p: int, nb: nat, ghost s: Snapshot)
    requires NewAt(m, s, p) && nb <= Live(m.chunks)[p] && nb % 16 == 0 && nb >= MIN_CHUNK_SIZE
    modifies m
    ensures old(m.trace) <= m.trace && (old(m.Chronicled()) ==> m.Chronicled())
    ensures NewAt(m, s, p) && nb <= Live(m.chunks)[p] <= nb + MIN_CHUNK_SIZE
    ensures var size := old(Live(m.chunks)[p]);
            if size > nb + MIN_CHUNK_SIZE then
              ShelfOf(Snap(m)) == Give(old(ShelfOf(Snap(m))), old(m.chunks), p + nb, p + size)
            else Snap(m) == old(Snap(m))
  {
    hide *;
    NewParts(m, s, p);
    Start(m, p);
    ghost var s1 := Snap(m);
    var size := ChunkSize(m.At(Head(p)));
    if size > nb + MIN_CHUNK_SIZE {
      var remainder_size := size - nb;
      OwnBlock(s1, p);
      EndIs(s1.chunks, p);
      Unopened(m, s1);
      ExactlyFits(nb);
      ShrinkBlock(m, p, nb, remainder_size, s1, {});
      ResizedIsNew(m, s, s1, p, nb);
    }
  }

  function PaddedRequest(bytes: nat, alignment: nat): nat
  {
    RequestToSize(bytes) + alignment + MIN_CHUNK_SIZE - CHUNK_OVERHEAD
  }

  lemma BelowMax(bytes: nat, a: nat)
    requires bytes < MAX_REQUEST - a
    ensures bytes < MAX_REQUEST
  {
  }

  lemma PaddedIs(bytes: nat, a: nat)
    ensures PaddedRequest(bytes, a) == RequestToSize(bytes) + a + MIN_CHUNK_SIZE - CHUNK_OVERHEAD
  {
  }

  lemma PaddedSize(nb: nat, a: nat, req: nat, size: nat)
    requires req == nb + a + MIN_CHUNK_SIZE - CHUNK_OVERHEAD && req + CHUNK_OVERHEAD <= size
    ensures size >= nb + a + MIN_CHUNK_SIZE
  {
  }

  lemma NewPositive(m: State, s: Snapshot, p: int)
    requires NewAt(m, s, p)
    ensures p > 0
  {
    hide Flags, Tags, State.Bins, Placed, Untouched;
    ChunkBelowTop(m.chunks, m.segBase, m.top, p);
  }

  lemma MiddleSound(m: State, s: Snapshot, p: int)
    requires NewAt(m, s, p)
    ensures Snap(m).chunks == m.chunks && Sound(Snap(m)) && p in Live(Snap(m).chunks)
    ensures Live(Snap(m).chunks).Keys == Live(s.chunks).Keys + {p}
  {
    hide Live, HeapOk, State.Bins, Placed, TopOk, Untouched;
    ValidSound(m);
  }

  lemma NowAlignedVia(s: Snapshot, mid: Snapshot, mid2: Snapshot, sh: Shelf, p0: int, q: int, bytes: nat, a: nat)
    requires a > 0
    requires var padded := PaddedRequest(bytes, a);
             Chooses(s, padded, p0) && Sound(mid) && ShelfOf(mid) == AfterTake(s, p0, RequestToSize(padded))
    requires p0 in Live(mid.chunks) && FirstSpot(p0, q, a)
    requires if q == p0 then mid2 == mid else q > p0 && ShelfOf(mid2) == Binning(ShelfOf(mid), p0, q - p0)
    requires Sound(mid2) && q in Live(mid2.chunks) && Live(mid2.chunks)[q] == Live(mid.chunks)[p0] - (q - p0)
    requires Live(mid2.chunks).Keys == Live(s.chunks).Keys + {q}
    requires var nb, size := RequestToSize(bytes), Live(mid2.chunks)[q];
             sh == if size > nb + MIN_CHUNK_SIZE then Give(ShelfOf(mid2), mid2.chunks, q + nb, q + size)
                   else ShelfOf(mid2)
    ensures AlignedVia(s, mid, mid2, sh, p0, q, bytes, a)
  {
    hide Chooses, Sound, Live, AfterTake, RequestToSize, FirstSpot, Give;
  }

  lemma NowAligned(m: State, s: Snapshot, p: int, nb: int, a: nat)
    requires NewAt(m, s, p) && nb <= Live(m.chunks)[p] <= nb + MIN_CHUNK_SIZE && a > 0 && IsAligned(p + 16, a)
    ensures AlignedAt(m, s, p, nb, a)
  {
    hide NewAt, IsAligned;
  }

  /** How it goes: `malloc` chooses `p0` for the padded request; `q` is the first aligned spot in
      that chunk; what is before it is binned, and spare room at the end given back. `mid` is
      the heap after `malloc`, `mid2` the one before the last step. */
  ghost predicate AlignedVia(s: Snapshot, mid: Snapshot, mid2: Snapshot, sh: Shelf, p0: int, q: int, bytes: nat, a: nat)
    requires a > 0
  {
    var nb, padded := RequestToSize(bytes), PaddedRequest(bytes, a);
    && Chooses(s, padded, p0) && Sound(mid) && ShelfOf(mid) == AfterTake(s, p0, RequestToSize(padded))
    && p0 in Live(mid.chunks) && FirstSpot(p0, q, a)
    && (if q == p0 then mid2 == mid else q > p0 && ShelfOf(mid2) == Binning(ShelfOf(mid), p0, q - p0))
    && Sound(mid2) && q in Live(mid2.chunks) && Live(mid2.chunks)[q] == Live(mid.chunks)[p0] - (q - p0)
    && Live(mid2.chunks).Keys == Live(s.chunks).Keys + {q}
    && var size := Live(mid2.chunks)[q];
       sh == if size > nb + MIN_CHUNK_SIZE then Give(ShelfOf(mid2), mid2.chunks, q + nb, q + size) else ShelfOf(mid2)
  }

  ghost predicate AlignedSomehow(s: Snapshot, sh: Shelf, q: int, bytes: nat, a: nat)
    requires a > 0
  {
    exists p0, mid, mid2 :: AlignedVia(s, mid, mid2, sh, p0, q, bytes, a)
  }

  /** `internal_memalign`. The alignment may be at most 2^63: rounding a greater one up to a
      power of two would not end. */
  method InternalMemalign(m: State, alignment: nat, bytes: nat, grows: bool)
    returns (mem: int, ghost a: nat, ghost p0: int, ghost mid: Snapshot, ghost mid2: Snapshot)
    requires Valid(m) && alignment <= TOP_POWER
    modifies m
    ensures old(m.trace) <= m.trace && (old(m.Chronicled()) ==> m.Chronicled())
    ensures IsPowerOfTwo(a) && a >= alignment && MIN_CHUNK_SIZE <= a <= TOP_POWER
    ensures forall b: nat :: IsPowerOfTwo(b) && b >= alignment && b >= MIN_CHUNK_SIZE ==> a <= b
    ensures mem == 0 ==> unchanged(m)
    ensures mem == 0 <==> bytes >= MAX_REQUEST - a
                          || PaddedRequest(bytes, a) >= MAX_REQUEST
                          || OutOfMemory(old(Snap(m)), RequestToSize(PaddedRequest(bytes, a)), grows)
    ensures mem != 0 ==> AlignedAt(m, old(Snap(m)), mem - 16, RequestToSize(bytes), a)
    ensures mem != 0 ==> AlignedVia(old(Snap(m)), mid, mid2, ShelfOf(Snap(m)), p0, mem - 16, bytes, a)
  {
    hide *;
    mem := 0;
    ghost var s := Snap(m);
    p0, mid, mid2 := 0, s, s;
    var rounded := RoundAlignment(alignment);
    a := rounded;
    if bytes >= MAX_REQUEST - rounded {
    } else {
      BelowMax(bytes, rounded);
      RequestSize(bytes);
      var nb := RequestToSize(bytes);
      var req := nb + rounded + MIN_CHUNK_SIZE - CHUNK_OVERHEAD;
      PaddedIs(bytes, rounded);
      mem := DlMalloc(m, req, grows);
      if mem != 0 {
        var p := mem - 16;
        AllocatedIsNew(m, s, p, RequestToSize(req));
        RequestSize(req);
        PaddedSize(nb, rounded, req, Live(m.chunks)[p]);
        p0, mid := p, Snap(m);
        MiddleSound(m, s, p);
        p := AlignInside(m, p, nb, rounded, s);
        mid2 := Snap(m);
        MiddleSound(m, s, p);
        TrimEnd(m, p, nb, s);
        NowAlignedVia(s, mid, mid2, ShelfOf(Snap(m)), p0, p, bytes, a);
        NewPositive(m, s, p);
        mem := p + 16;
        assert mem - 16 == p;
        NowAligned(m, s, p, nb, a);
      }
    }
  }

}
