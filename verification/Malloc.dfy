/** `dlmalloc`: where a request is served from, and that the choice is the best there is. */
module Malloc {
  import opened Words
  import opened BinMaps
  import opened TreeBins
  import opened SmallBins
  import opened MallocState
  import opened Boundaries
  import opened Invariant
  import opened Freeing
  import opened Taking
  import opened BestFit
  import opened LargeRequests
  import opened SmallRequests
  import opened TopChunk

  // ---- which chunk ----

  /** No free chunk but `top` has `nb` bytes. */
  ghost predicate NoneFree(s: Snapshot, nb: int) {
    forall x :: x in AllFree(s.chunks) ==> AllFree(s.chunks)[x] < nb
  }

  /** `v` is a smallest free chunk of at least `nb` bytes. */
  ghost predicate SmallestFree(s: Snapshot, nb: int, v: int) {
    && v in AllFree(s.chunks) && nb <= AllFree(s.chunks)[v]
    && forall x :: x in AllFree(s.chunks) && nb <= AllFree(s.chunks)[x] ==> AllFree(s.chunks)[v] <= AllFree(s.chunks)[x]
  }

  /** Large requests take a smallest free chunk, the designated victim before a binned one
      and otherwise the oldest, and `top` only when no free chunk fits. */
  ghost predicate LargeChoice(s: Snapshot, tree: Tree, nb: int, v: int) {
    && (NoneFree(s, nb) ==> v == s.top)
    && (!NoneFree(s, nb) ==> SmallestFree(s, nb, v))
    && (!NoneFree(s, nb) && v != s.dv ==> Oldest(tree, s.sizes, v) && AllFree(s.chunks)[v] != s.dvsize)
  }

  ghost predicate HasExact(sizes: Sizes, nb: int) {
    exists x :: x in sizes && sizes[x] == nb
  }

  ghost predicate SmallestBinned(sizes: Sizes, nb: int, v: int) {
    v in sizes && nb <= sizes[v] && forall x :: x in sizes && nb <= sizes[x] ==> sizes[v] <= sizes[x]
  }

  /** Among binned chunks of one size it is the turn of the newest in a small bin, and of the
      oldest in a tree. */
  ghost predicate Turn(small: Smalls, tree: Tree, sizes: Sizes, v: int) {
    v in sizes && if IsSmall(sizes[v]) then IsNewest(small, sizes[v] / 8, v) else Oldest(tree, sizes, v)
  }

  /** Small requests take a binned chunk of exactly their size, or else the designated victim,
      or else a smallest binned chunk, and `top` only when none of these fits. */
  ghost predicate SmallChoice(s: Snapshot, nb: int, v: int) {
    if HasExact(s.sizes, nb) then v in s.sizes && s.sizes[v] == nb && Turn(s.small, s.tree, s.sizes, v)
    else if nb <= s.dvsize then v == s.dv
    else if exists x :: x in s.sizes && nb <= s.sizes[x] then
      SmallestBinned(s.sizes, nb, v) && Turn(s.small, s.tree, s.sizes, v)
    else v == s.top
  }

  /** The free space after `nb` bytes have been taken from `p`: from `top`, the designated victim
      or a bin. */
  ghost function AfterTake(s: Snapshot, p: int, nb: nat): Shelf {
    if p == s.top then TakeTop(ShelfOf(s), nb)
    else if p in s.sizes then TakeBinned(ShelfOf(s), p, s.sizes[p], nb)
    else TakeVictim(ShelfOf(s), nb)
  }

  /** The chunk for a request of `bytes`. */
  ghost predicate Chooses(s: Snapshot, bytes: nat, p: int) {
    if bytes <= MAX_SMALL_REQUEST then SmallChoice(s, RequestToSize(bytes), p)
    else LargeChoice(s, s.tree, RequestToSize(bytes), p)
  }

  // ---- what smallbits tells ----

  ghost predicate Servable(nb: int) {
    MIN_CHUNK_SIZE <= nb < MIN_LARGE_SIZE && nb % 16 == 0
  }

  lemma OddBinEmpty(m: State, i: nat)
    requires m.Bins() && i < 32 && i % 2 == 1
    ensures !Marked(m.smallmap, i)
  {
    hide TreeLinks, Shape, HoldsLarge, SizeHeads, SmallLinks, SmallShape, Marked, SmallBins.HoldsSmall;
    if Marked(m.smallmap, i) {
      FirstRead(m, i);
    }
  }

  lemma ExactBin(m: State, nb: nat)
    requires m.Bins() && Servable(nb)
    ensures var idx := SmallIndex(nb);
            var smallbits := ShiftRight(m.smallmap, Amount(idx));
            && 4 <= idx < 31 && 8 * idx == nb
            && (EitherLow(smallbits) <==> Marked(m.smallmap, idx)) && (EitherLow(smallbits) ==> SkipLow(smallbits) == 0)
            && (Marked(m.smallmap, idx) <==> HasExact(m.sizes, nb))
  {
    hide State.Bins, Marked, EitherLow, SkipLow, ShiftRight, Amount;
    var idx := SmallIndex(nb);
    SmallBits(m.smallmap, idx);
    OddBinEmpty(m, idx + 1);
    if Marked(m.smallmap, idx) {
      FirstRead(m, idx);
    }
    forall x | x in m.sizes && m.sizes[x] == nb
      ensures Marked(m.smallmap, idx)
    {
      SmallMarked(m, x);
    }
  }

  ghost predicate IsNextBin(smallmap: BinMap, sizes: Sizes, nb: int, i: nat) {
    && i < 32 && nb <= 8 * i && Marked(smallmap, i)
    && forall x :: x in sizes && nb <= sizes[x] ==> 8 * i <= sizes[x]
  }

  /** The next nonempty small bin holds the smallest chunks of more than `nb` bytes. */
  lemma NextBin(m: State, nb: nat)
    requires m.Bins() && Servable(nb) && !HasExact(m.sizes, nb)
    ensures var idx := SmallIndex(nb);
            var smallbits := ShiftRight(m.smallmap, Amount(idx));
            var leftbits := And(ShiftLeft(smallbits, Amount(idx)), LeftBits(Bit(idx)));
            && (smallbits != 0 ==>
                  && leftbits != 0 && LeastBit(leftbits) != 0
                  && IsNextBin(m.smallmap, m.sizes, nb, BitIndex(LeastBit(leftbits))))
            && (smallbits == 0 ==> forall x :: x in m.sizes && IsSmall(m.sizes[x]) ==> m.sizes[x] < nb)
  {
    hide State.Bins, Marked, EitherLow, SkipLow, ShiftRight, ShiftLeft, Amount, And, LeftBits, LeastBit, Bit, HasExact;
    var idx := SmallIndex(nb);
    var smallbits := ShiftRight(m.smallmap, Amount(idx));
    var leftbits := And(ShiftLeft(smallbits, Amount(idx)), LeftBits(Bit(idx)));
    ExactBin(m, nb);
    SmallBits(m.smallmap, idx);
    NextSmallBins(m.smallmap, idx);
    NonZeroHasMark(leftbits);
    forall x | x in m.sizes && IsSmall(m.sizes[x])
      ensures m.sizes[x] == 8 * (m.sizes[x] / 8) && m.sizes[x] / 8 < 32 && Marked(m.smallmap, m.sizes[x] / 8)
    {
      SmallMarked(m, x);
    }
    if leftbits != 0 {
      LeastBitIsLeast(leftbits);
    }
  }

  // ---- from the bins ----

  /** A small request served from the bins: null when it must go on to the designated victim
      or to top. */
  method FromBinsSmall(m: State, nb: nat) returns (mem: int)
    requires Valid(m) && Servable(nb)
    modifies m
    ensures old(m.trace) <= m.trace && (old(m.Chronicled()) ==> m.Chronicled())
    ensures mem == 0 ==> unchanged(m) && !HasExact(m.sizes, nb)
    ensures mem == 0 ==> nb <= m.dvsize || forall x :: x in m.sizes ==> m.sizes[x] < nb
    ensures mem != 0 ==> mem > 16 && Allocated(m, old(Snap(m)), mem - 16, nb)
    ensures mem != 0 ==> if HasExact(old(m.sizes), nb) then mem - 16 in old(m.sizes) && old(m.sizes)[mem - 16] == nb
                         else old(m.dvsize) < nb && SmallestBinned(old(m.sizes), nb, mem - 16)
    ensures mem != 0 ==> Turn(old(m.small), old(m.tree), old(m.sizes), mem - 16)
    ensures mem != 0 ==>
              mem - 16 in old(m.sizes)
              && ShelfOf(Snap(m)) == TakeBinned(old(ShelfOf(Snap(m))), mem - 16, old(m.sizes)[mem - 16], nb)
  {
    hide *;
    ghost var s, sizes, small, tree := Snap(m), m.sizes, m.small, m.tree;
    HeapStart(m);
    ExactBin(m, nb);
    var idx := SmallIndex(nb);
    var smallbits := ShiftRight(m.smallmap, Amount(idx));
    if EitherLow(smallbits) {
      idx := idx + SkipLow(smallbits);
      ExactServes(nb);
      mem := TakeSmall(m, nb, idx);
      NewestTurn(small, tree, sizes, idx, mem - 16);
      return;
    } else if nb > m.dvsize {
      NextBin(m, nb);
      if smallbits != 0 {
        var leftbits := And(ShiftLeft(smallbits, Amount(idx)), LeftBits(Bit(idx)));
        var i := BitIndex(LeastBit(leftbits));
        NextServes(m.smallmap, sizes, nb, i);
        mem := SplitSmall(m, nb, i);
        NextIsSmallest(m.smallmap, sizes, nb, i, mem - 16);
        NewestTurn(small, tree, sizes, i, mem - 16);
        return;
      } else if m.treemap != 0 {
        TreeServes(nb, m.dvsize);
        LargeAreTrees(m);
        TreesAreLarge(m);
        mem := TmallocSmall(m, nb);
        AllocatedAbove(m, s, mem - 16, nb);
        TreeIsSmallest(tree, sizes, nb, mem - 16);
        OldestTurn(small, tree, sizes, nb, mem - 16);
        return;
      } else {
        NoTreesNoLarge(m);
      }
    }
    mem := 0;
  }

  lemma NewestTurn(small: Smalls, tree: Tree, sizes: Sizes, i: nat, v: int)
    requires v in sizes && sizes[v] == 8 * i && i < 32 && IsNewest(small, i, v)
    ensures Turn(small, tree, sizes, v)
  {
  }

  lemma OldestTurn(small: Smalls, tree: Tree, sizes: Sizes, nb: int, v: int)
    requires BestTree(tree, sizes, v, nb)
    requires forall x :: x in sizes && InTree(tree, x) ==> !IsSmall(sizes[x])
    ensures Turn(small, tree, sizes, v) && v in sizes
  {
    hide InTree, Oldest, IsNewest;
  }

  lemma TreesAreLarge(m: State)
    requires m.Bins()
    ensures forall x :: x in m.sizes && InTree(m.tree, x) ==> !IsSmall(m.sizes[x])
  {
    hide InTree, State.Bins, IsSmall;
    forall x | x in m.sizes && InTree(m.tree, x)
      ensures !IsSmall(m.sizes[x])
    {
      TreeIsLarge(m, x);
    }
  }

  lemma TreeIsLarge(m: State, x: int)
    requires m.Bins() && InTree(m.tree, x)
    ensures x in m.sizes && !IsSmall(m.sizes[x])
  {
    hide TreeLinks, SmallLinks, SmallShape, Shape, Key;
    var d :| d in m.tree && x in m.tree[d];
    var j :| 0 <= j < |m.tree[d]| && m.tree[d][j] == x;
    MemberKey(m.tree, m.sizes, d, j);
    KeyRange(m.tree, m.sizes, d);
  }

  lemma AllocatedAbove(m: State, s: Snapshot, p: int, nb: int)
    requires Allocated(m, s, p, nb)
    ensures p > 0
  {
    hide Valid, Untouched;
  }

  lemma ExactServes(nb: nat)
    requires Servable(nb)
    ensures nb <= 8 * SmallIndex(nb) < nb + MIN_CHUNK_SIZE
  {
  }

  lemma NextServes(smallmap: BinMap, sizes: Sizes, nb: nat, i: nat)
    requires Servable(nb) && IsNextBin(smallmap, sizes, nb, i)
    ensures i < 32 && Marked(smallmap, i) && MIN_CHUNK_SIZE <= nb <= 8 * i && nb % 16 == 0
    ensures forall x :: x in sizes && nb <= sizes[x] ==> 8 * i <= sizes[x]
  {
    hide Marked;
  }

  lemma NextIsSmallest(smallmap: BinMap, sizes: Sizes, nb: nat, i: nat, v: int)
    requires nb <= 8 * i && v in sizes && sizes[v] == 8 * i
    requires forall x :: x in sizes && nb <= sizes[x] ==> 8 * i <= sizes[x]
    ensures SmallestBinned(sizes, nb, v)
  {
  }

  lemma TreeServes(nb: nat, dvsize: int)
    requires Servable(nb)
    ensures MIN_CHUNK_SIZE <= nb < MIN_LARGE_SIZE && nb % 16 == 0
  {
  }

  lemma LargeAreTrees(m: State)
    requires m.Bins()
    ensures forall x :: x in m.sizes && !IsSmall(m.sizes[x]) ==> InTree(m.tree, x)
  {
    hide TreeLinks, Shape, SizeHeads, SmallLinks, SmallShape, SmallBins.HoldsSmall;
  }

  /** With all small chunks too small, the smallest tree chunk is the smallest of all. */
  lemma TreeIsSmallest(tree: Tree, sizes: Sizes, nb: nat, v: int)
    requires BestTree(tree, sizes, v, nb)
    requires forall x :: x in sizes && IsSmall(sizes[x]) ==> sizes[x] < nb
    requires forall x :: x in sizes && !IsSmall(sizes[x]) ==> InTree(tree, x)
    ensures SmallestBinned(sizes, nb, v)
  {
    hide InTree, IsSmall;
  }

  lemma NoTreesNoLarge(m: State)
    requires m.Bins() && m.treemap == 0
    ensures forall x :: x in m.sizes ==> IsSmall(m.sizes[x])
    ensures forall x :: x in m.sizes ==> !InTree(m.tree, x)
  {
    hide Shape, TreeLinks, SizeHeads, SmallLinks, SmallShape, SmallBins.HoldsSmall, Marked, Key;
    forall x | x in m.sizes
      ensures !InTree(m.tree, x)
    {
      if InTree(m.tree, x) {
        var q :| q in m.tree && x in m.tree[q];
        KeyRange(m.tree, m.sizes, q);
        UnderRoot(m.tree, m.sizes, q);
        TreeRootRead(m, q.bin);
        NonZeroHasMark(m.treemap);
      }
    }
  }

  // ---- from the designated victim, top or the system ----

  /** The last steps of `dlmalloc`. */
  method FromRest(m: State, nb: nat, grows: bool) returns (mem: int)
    requires Valid(m) && nb < WORD_LIMIT && (nb == MAX_SIZE_T || (nb % 16 == 0 && nb >= MIN_CHUNK_SIZE))
    modifies m
    ensures old(m.trace) <= m.trace && (old(m.Chronicled()) ==> m.Chronicled())
    ensures mem == 0 <==> old(m.dvsize) < nb && old(m.topsize) <= nb
                          && (!grows || !Extends(old(m.segBase) + old(m.segSize), nb, old(m.topsize)))
    ensures mem == 0 ==> unchanged(m)
    ensures mem != 0 ==> mem > 16 && Allocated(m, old(Snap(m)), mem - 16, nb)
    ensures mem != 0 ==> mem - 16 == if nb <= old(m.dvsize) then old(m.dv) else old(m.top)
    ensures mem != 0 ==> ShelfOf(Snap(m)) == if nb <= old(m.dvsize) then TakeVictim(old(ShelfOf(Snap(m))), nb)
                                             else TakeTop(old(ShelfOf(Snap(m))), nb)
  {
    hide *;
    ghost var s := Snap(m);
    HeapStart(m);
    NotMaxSize(m);
    if nb <= m.dvsize {
      mem := UseVictim(m, nb);
      AllocatedAbove(m, s, mem - 16, nb);
    } else if nb < m.topsize {
      ShelfIs(m);
      TopTaken(ShelfOf(s), nb);
      mem := SplitTop(m, nb);
      ShelfIs(m);
    } else {
      mem := SysAlloc(m, nb, grows);
    }
  }

  lemma NotMaxSize(m: State)
    requires Valid(m)
    ensures 0 <= m.dvsize < MAX_SIZE_T && m.topsize < MAX_SIZE_T && m.top > 0
    ensures m.dvsize != 0 ==> m.dv > 0
    ensures m.topsize > 0
  {
    hide Flags, Tags, Tiles, BinsOk;
    HeapStart(m);
    DvSize(Snap(m));
    TopPositive(Snap(m));
    if m.dvsize != 0 {
      GmBelow(Snap(m), m.dv);
    }
  }

  // ---- dlmalloc ----

  /** No free chunk fits `nb` bytes, top cannot serve them, and the system gives no more. */
  ghost predicate OutOfMemory(s: Snapshot, nb: int, grows: bool) {
    NoneFree(s, nb) && s.topsize <= nb && (!grows || !Extends(s.base + s.size, nb, s.topsize))
  }

  /** The chunk size for a request of `bytes`, with room for its head. */
  lemma RequestSize(bytes: nat)
    requires bytes < MAX_REQUEST
    ensures var nb := RequestToSize(bytes);
            && bytes + CHUNK_OVERHEAD <= nb < WORD_LIMIT && nb % 16 == 0 && nb >= MIN_CHUNK_SIZE && nb > 0
            && (forall z :: bytes + CHUNK_OVERHEAD <= z && z % 16 == 0 && z >= MIN_CHUNK_SIZE ==> nb <= z)
            && (bytes <= MAX_SMALL_REQUEST <==> IsSmall(nb))
  {
    PadIs(bytes);
    hide PadRequest;
  }

  /** The free chunks are the binned ones and the designated victim. */
  ghost predicate FreesAre(s: Snapshot) {
    && (forall x :: x in AllFree(s.chunks) <==> x in s.sizes || (x == s.dv && s.dvsize != 0))
    && (forall x :: x in s.sizes ==> x != s.dv && AllFree(s.chunks)[x] == s.sizes[x])
    && (s.dvsize != 0 ==> s.dv in AllFree(s.chunks) && AllFree(s.chunks)[s.dv] == s.dvsize) && s.dvsize >= 0
  }

  lemma FreeChunks(m: State)
    requires Valid(m)
    ensures var s := Snap(m);
            && FreesAre(s) && s.sizes == m.sizes && s.dv == m.dv && s.dvsize == m.dvsize && s.top == m.top
            && s.topsize == m.topsize && s.base == m.segBase && s.size == m.segSize
  {
    hide Tiles, Flags, Tags, BinsOk, Within;
    ValidSound(m);
    DvIsChunk(Snap(m));
    DvSize(Snap(m));
  }

  lemma SmallChosen(m: State, s: Snapshot, nb: nat, v: int, binned: bool)
    requires FreesAre(s) && nb > 0
    requires binned ==> if HasExact(s.sizes, nb) then v in s.sizes && s.sizes[v] == nb
                        else s.dvsize < nb && SmallestBinned(s.sizes, nb, v)
    requires binned ==> Turn(s.small, s.tree, s.sizes, v)
    requires !binned ==> !HasExact(s.sizes, nb) && (nb <= s.dvsize || forall x :: x in s.sizes ==> s.sizes[x] < nb)
    requires !binned ==> v == if nb <= s.dvsize then s.dv else s.top
    ensures SmallChoice(s, nb, v)
  {
    hide Turn;
  }

  /** What `AfterTake` comes to in the three cases. */
  lemma TakenIs(s: Snapshot, v: int, nb: nat)
    requires Sound(s) && FreesAre(s)
    ensures v in s.sizes ==> v != s.top && AfterTake(s, v, nb) == TakeBinned(ShelfOf(s), v, s.sizes[v], nb)
    ensures v == s.dv && s.dvsize > 0 ==>
              v != s.top && v !in s.sizes && AfterTake(s, v, nb) == TakeVictim(ShelfOf(s), nb)
    ensures v == s.top ==> AfterTake(s, v, nb) == TakeTop(ShelfOf(s), nb)
  {
    hide TakeBinned, TakeVictim, TakeTop, Sound;
    TopNotChunk(s);
    DvBelowTop(s);
  }

  lemma StartBins(m: State)
    ensures Snap(m).small == m.small && Snap(m).tree == m.tree
  {
  }

  /** The last places to take from. */
  lemma RestTaken(s: Snapshot, v: int, nb: nat)
    requires Sound(s) && FreesAre(s) && nb > 0 && v == if nb <= s.dvsize then s.dv else s.top
    ensures AfterTake(s, v, nb) == if nb <= s.dvsize then TakeVictim(ShelfOf(s), nb) else TakeTop(ShelfOf(s), nb)
  {
    hide TakeBinned, TakeVictim, TakeTop, Sound, AfterTake, FreesAre;
    TakenIs(s, v, nb);
  }

  /** `malloc`: `grows` is the system's answer if it is asked for more memory. */
  method DlMalloc(m: State, bytes: nat, grows: bool) returns (mem: int)
    requires Valid(m)
    modifies m
    ensures old(m.trace) <= m.trace && (old(m.Chronicled()) ==> m.Chronicled())
    ensures mem == 0 <==> bytes >= MAX_REQUEST || OutOfMemory(old(Snap(m)), RequestToSize(bytes), grows)
    ensures mem == 0 ==> unchanged(m)
    ensures mem != 0 ==> Allocated(m, old(Snap(m)), mem - 16, RequestToSize(bytes))
    ensures mem != 0 ==> ShelfOf(Snap(m)) == AfterTake(old(Snap(m)), mem - 16, RequestToSize(bytes))
    ensures mem != 0 ==> Chooses(old(Snap(m)), bytes, mem - 16)
  {
    hide *;
    SmallBelowMax();
    StartBins(m);
    ghost var s, tree := Snap(m), m.tree;
    if bytes <= MAX_SMALL_REQUEST {
      mem := SmallMalloc(m, bytes, grows);
    } else if bytes >= MAX_REQUEST {
      mem := HugeMalloc(m, grows);
    } else {
      mem := LargeMalloc(m, bytes, grows);
    }
    if mem != 0 {
      ChosenIs(s, tree, bytes, mem - 16);
    }
  }

  lemma ChosenIs(s: Snapshot, tree: Tree, bytes: nat, p: int)
    requires s.tree == tree
    requires if bytes <= MAX_SMALL_REQUEST then SmallChoice(s, RequestToSize(bytes), p)
             else LargeChoice(s, tree, RequestToSize(bytes), p)
    ensures Chooses(s, bytes, p)
  {
  }

  lemma SmallBelowMax()
    ensures MAX_SMALL_REQUEST < MAX_REQUEST
  {
  }

  method SmallMalloc(m: State, bytes: nat, grows: bool) returns (mem: int)
    requires Valid(m) && bytes <= MAX_SMALL_REQUEST
    modifies m
    ensures old(m.trace) <= m.trace && (old(m.Chronicled()) ==> m.Chronicled())
    ensures mem == 0 <==> OutOfMemory(old(Snap(m)), RequestToSize(bytes), grows)
    ensures mem == 0 ==> unchanged(m)
    ensures mem != 0 ==> Allocated(m, old(Snap(m)), mem - 16, RequestToSize(bytes))
    ensures mem != 0 ==> ShelfOf(Snap(m)) == AfterTake(old(Snap(m)), mem - 16, RequestToSize(bytes))
    ensures mem != 0 ==> SmallChoice(old(Snap(m)), RequestToSize(bytes), mem - 16)
  {
    hide *;
    ghost var s := Snap(m);
    FreeChunks(m);
    HeapStart(m);
    SmallSizes(bytes);
    var nb := if bytes < MIN_REQUEST then MIN_CHUNK_SIZE else PadRequest(bytes);
    StartBins(m);
    mem := FromBinsSmall(m, nb);
    if mem != 0 {
      SmallChosen(m, s, nb, mem - 16, true);
      ServedFits(s, nb, mem - 16, grows);
      TakenIs(s, mem - 16, nb);
      return;
    }
    mem := FromRest(m, nb, grows);
    SmallRest(s, nb, grows);
    if mem != 0 {
      RestTaken(s, mem - 16, nb);
      SmallChosen(m, s, nb, mem - 16, false);
    }
  }

  lemma SmallSizes(bytes: nat)
    requires bytes <= MAX_SMALL_REQUEST
    ensures var nb := if bytes < MIN_REQUEST then MIN_CHUNK_SIZE else PadRequest(bytes);
            nb == RequestToSize(bytes) && Servable(nb) && 0 < nb < WORD_LIMIT && nb % 16 == 0 && nb >= MIN_CHUNK_SIZE
  {
    PadIs(bytes);
    hide PadRequest;
  }

  /** A request served from the bins had a chunk to be served from. */
  lemma ServedFits(s: Snapshot, nb: nat, v: int, grows: bool)
    requires FreesAre(s) && (HasExact(s.sizes, nb) || SmallestBinned(s.sizes, nb, v))
    ensures !OutOfMemory(s, nb, grows)
  {
    hide AllFree;
  }

  lemma SmallRest(s: Snapshot, nb: nat, grows: bool)
    requires FreesAre(s) && nb > 0 && (nb <= s.dvsize || forall x :: x in s.sizes ==> s.sizes[x] < nb)
    ensures OutOfMemory(s, nb, grows) <==>
            s.dvsize < nb && s.topsize <= nb && (!grows || !Extends(s.base + s.size, nb, s.topsize))
  {
    hide AllFree, Extends;
  }

  method HugeMalloc(m: State, grows: bool) returns (mem: int)
    requires Valid(m)
    modifies m
    ensures old(m.trace) <= m.trace && (old(m.Chronicled()) ==> m.Chronicled())
    ensures mem == 0 && unchanged(m)
  {
    hide *;
    NotMaxSize(m);
    TooHuge(m.segBase + m.segSize, m.topsize);
    mem := FromRest(m, MAX_SIZE_T, grows);
  }

  lemma TooHuge(end: int, topsize: int)
    ensures !Extends(end, MAX_SIZE_T, topsize) && 0 <= MAX_SIZE_T < WORD_LIMIT
  {
  }

  method LargeMalloc(m: State, bytes: nat, grows: bool) returns (mem: int)
    requires Valid(m) && MAX_SMALL_REQUEST < bytes < MAX_REQUEST
    modifies m
    ensures old(m.trace) <= m.trace && (old(m.Chronicled()) ==> m.Chronicled())
    ensures mem == 0 <==> OutOfMemory(old(Snap(m)), RequestToSize(bytes), grows)
    ensures mem == 0 ==> unchanged(m)
    ensures mem != 0 ==> Allocated(m, old(Snap(m)), mem - 16, RequestToSize(bytes))
    ensures mem != 0 ==> ShelfOf(Snap(m)) == AfterTake(old(Snap(m)), mem - 16, RequestToSize(bytes))
    ensures mem != 0 ==> LargeChoice(old(Snap(m)), old(m.tree), RequestToSize(bytes), mem - 16)
  {
    hide *;
    ghost var s, tree := Snap(m), m.tree;
    FreeChunks(m);
    HeapStart(m);
    LargeSizes(bytes);
    var nb := PadRequest(bytes);
    LargeAreTrees(m);
    if m.treemap != 0 {
      mem := TmallocLarge(m, nb);
      if mem != 0 {
        LargeFromTree(s, tree, nb, mem - 16, grows);
        TakenIs(s, mem - 16, nb);
        return;
      }
    } else {
      NoTreesNoLarge(m);
      NoTrees(tree, s.sizes, nb, s.dvsize);
    }
    mem := FromRest(m, nb, grows);
    LargeRest(s, tree, nb, grows);
    if mem != 0 {
      RestTaken(s, mem - 16, nb);
    }
  }

  lemma NoTrees(tree: Tree, sizes: Sizes, nb: nat, dvsize: int)
    requires forall x :: x in sizes ==> !InTree(tree, x)
    ensures VictimServes(tree, sizes, nb, dvsize)
  {
    hide InTree;
  }

  lemma LargeSizes(bytes: nat)
    requires MAX_SMALL_REQUEST < bytes < MAX_REQUEST
    ensures var nb := PadRequest(bytes);
            && nb == RequestToSize(bytes) && MIN_LARGE_SIZE <= nb < WORD_LIMIT
            && nb % 16 == 0 && nb >= MIN_CHUNK_SIZE && nb > 0
  {
    PadIs(bytes);
    hide PadRequest;
  }

  lemma LargeFromTree(s: Snapshot, tree: Tree, nb: nat, v: int, grows: bool)
    requires FreesAre(s) && BestTree(tree, s.sizes, v, nb) && (nb <= s.dvsize ==> s.sizes[v] < s.dvsize)
    requires nb >= MIN_LARGE_SIZE && forall x :: x in s.sizes && !IsSmall(s.sizes[x]) ==> InTree(tree, x)
    ensures LargeChoice(s, tree, nb, v) && !OutOfMemory(s, nb, grows)
  {
    hide AllFree, InTree, Oldest;
  }

  lemma LargeRest(s: Snapshot, tree: Tree, nb: nat, grows: bool)
    requires FreesAre(s) && nb >= MIN_LARGE_SIZE && forall x :: x in s.sizes && !IsSmall(s.sizes[x]) ==> InTree(tree, x)
    requires VictimServes(tree, s.sizes, nb, s.dvsize)
    ensures OutOfMemory(s, nb, grows) <==>
            s.dvsize < nb && s.topsize <= nb && (!grows || !Extends(s.base + s.size, nb, s.topsize))
    ensures LargeChoice(s, tree, nb, if nb <= s.dvsize then s.dv else s.top)
  {
    hide AllFree, InTree, Oldest, Extends;
  }
}
