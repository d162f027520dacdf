/** Where memory is taken from and where it goes, in terms of the chunks of the heap and one
    plain queue for each size: the laws of `AfterFree`, `AfterTake` and the choice of `malloc`. */
module Placement {
  import opened Words
  import opened TreeBins
  import opened SmallBins
  import opened BinHistory
  import opened TreeOrder
  import opened MallocState
  import opened Boundaries
  import opened Invariant
  import opened Freeing
  import opened Taking
  import opened LargeRequests
  import opened SmallRequests
  import opened TopChunk
  import opened Malloc

  // ---- free ----

  /** What chunk `p` joins when it is freed: `[q, hi)` is `p` with the free chunk before it and
      the free chunk after it, if there are any; `n` is the end of `p`. */
  ghost predicate Joins(chunks: Chunks, p: int, q: int, n: int, hi: int)
    requires p in chunks
  {
    && n == End(chunks, p) && q <= p < n <= hi
    && (q == p || (q in chunks && !chunks[q].cinuse && End(chunks, q) == p))
    && (q == p ==> forall b :: b in chunks && !chunks[b].cinuse ==> End(chunks, b) != p)
    && (if n in chunks && !chunks[n].cinuse then hi == End(chunks, n) else hi == n)
  }

  lemma WhatJoins(s: Snapshot, p: int) returns (q: int, n: int, hi: int)
    requires Sound(s) && p in s.chunks && s.chunks[p].cinuse
    ensures Joins(s.chunks, p, q, n, hi) && q != s.top && s.dv != s.top && (s.dvsize == 0 ==> s.dv != q && s.dv != n)
    ensures q == if s.chunks[p].pinuse then p else p - Peek(s.mem, PrevFoot(p))
    ensures q != p && q != s.dv ==> q in s.sizes
    ensures n != s.top ==> n in s.chunks
    ensures n == s.dv ==> n in s.chunks && !s.chunks[n].cinuse && hi == n + s.dvsize
    ensures n in s.chunks && !s.chunks[n].cinuse && n != s.dv ==> n in s.sizes && n < hi && hi == n + s.chunks[n].size
    ensures p !in s.sizes && p != s.dv && (q == p ==> q !in s.sizes && q != s.dv)
    ensures forall x :: x in s.sizes && q <= x < hi ==> x == q || x == n
    ensures n == s.top ==> hi == n && n !in s.chunks
    ensures q > 0
  {
    hide Tags;
    n := End(s.chunks, p);
    NextNeighbour(s, p);
    UsedIsNotVictim(s, p);
    UsedNotBinned(s, p);
    DvIsChunk(s);
    DvBelowTop(s);
    hi := if n in s.chunks && !s.chunks[n].cinuse then End(s.chunks, n) else n;
    q := p;
    if s.chunks[p].pinuse {
      NoneBefore(s, p);
    } else {
      BackNeighbour(s, p);
      q := p - Peek(s.mem, PrevFoot(p));
    }
    GmBelow(s, q);
    ChunkBelowTop(s.chunks, s.base, s.top, q);
    OnlyEnds(s, p, q, n, hi);
  }

  lemma NoneBefore(s: Snapshot, p: int)
    requires Sound(s) && p in s.chunks && s.chunks[p].pinuse
    ensures forall b :: b in s.chunks && !s.chunks[b].cinuse ==> End(s.chunks, b) != p
  {
    hide Tags, Placed;
    forall b | b in s.chunks && !s.chunks[b].cinuse
      ensures End(s.chunks, b) != p
    {
      assert FlagsAt(s.chunks, s.top, b);
    }
  }

  lemma OnlyEnds(s: Snapshot, p: int, q: int, n: int, hi: int)
    requires Sound(s) && p in s.chunks && Joins(s.chunks, p, q, n, hi) && p !in s.sizes && q in s.chunks
    ensures forall x :: x in s.sizes && q <= x < hi ==> x == q || x == n
  {
    hide Tags, Flags;
    forall x | x in s.sizes && q <= x < hi
      ensures x == q || x == n
    {
      assert x in s.chunks && ChunkFits(s.chunks, s.base, s.top, x);
      assert Apart2(s.chunks, x, q) && Apart2(s.chunks, x, p);
      if n in s.chunks {
        assert Apart2(s.chunks, x, n);
      }
    }
  }

  /** Freed space that touches `top` joins it. */
  ghost predicate IntoTop(s: Snapshot, sh: Shelf, q: int) {
    && sh.top == q && sh.topsize == s.topsize + (s.top - q)
    && sh.dv == (if q == s.dv then 0 else s.dv) && sh.dvsize == if q == s.dv then 0 else s.dvsize
  }

  /** If the designated victim is a part of it, the whole is the victim. */
  ghost predicate IntoVictim(s: Snapshot, sh: Shelf, q: int, hi: int) {
    sh.top == s.top && sh.topsize == s.topsize && sh.dv == q && sh.dvsize == hi - q
  }

  /** In all other cases the victim stays, and the whole is binned, the last of its size. */
  ghost predicate IntoBin(s: Snapshot, sh: Shelf, q: int, hi: int) {
    && sh.top == s.top && sh.topsize == s.topsize && sh.dv == s.dv && sh.dvsize == s.dvsize && q < hi
    && var r := Queue(sh.trace, hi - q); r != [] && r[|r| - 1] == q
  }

  /** The binned chunks outside `[q, hi)`. */
  ghost function Outside(sizes: Sizes, q: int, hi: int): Sizes {
    map x | x in sizes && !(q <= x < hi) :: sizes[x]
  }

  ghost function AfterBack(s: Snapshot, p: int, q: int): Shelf {
    ShelfOf(s).(trace := if q == p || q == s.dv then s.trace else s.trace + [Remove(q)])
  }

  /** The bins when the chunk before has left its bin. */
  ghost function BackSizes(s: Snapshot, p: int, q: int): Sizes {
    if q == p || q == s.dv then s.sizes else s.sizes - {q}
  }

  lemma BackBinned(s: Snapshot, p: int, q: int)
    requires s.sizes == Binned(s.trace)
    ensures Binned(AfterBack(s, p, q).trace) == BackSizes(s, p, q)
  {
    BinnedMore(s.trace, Remove(q));
  }

  lemma AfterBackIs(s: Snapshot, p: int, q: int)
    requires Sound(s) && p in s.chunks && s.chunks[p].cinuse
    requires q == if s.chunks[p].pinuse then p else p - Peek(s.mem, PrevFoot(p))
    ensures AfterFree(s, p) == Give(AfterBack(s, p, q), s.chunks, q, End(s.chunks, p))
  {
    hide Give;
    UsedIsNotVictim(s, p);
    if !s.chunks[p].pinuse {
      BackNeighbour(s, p);
    }
  }

  lemma GoesToTop(s: Snapshot, p: int, q: int, n: int)
    requires s.sizes == Binned(s.trace) && q < n == s.top
    ensures var sh := Give(AfterBack(s, p, q), s.chunks, q, n);
            IntoTop(s, sh, q) && Binned(sh.trace) == BackSizes(s, p, q) && sh.size == s.size
            && sh.peak == s.maxFootprint
  {
    BackBinned(s, p, q);
    GiveToTop(AfterBack(s, p, q), s.chunks, q, n, n - q);
    hide Give, Binned;
  }

  lemma GoesToVictim(s: Snapshot, p: int, q: int, n: int, hi: int)
    requires s.sizes == Binned(s.trace) && q < n != s.top && n == s.dv && hi == n + s.dvsize
    ensures var sh := Give(AfterBack(s, p, q), s.chunks, q, n);
            IntoVictim(s, sh, q, hi) && Binned(sh.trace) == BackSizes(s, p, q) && sh.size == s.size
            && sh.peak == s.maxFootprint
  {
    BackBinned(s, p, q);
    GiveToVictim(AfterBack(s, p, q), s.chunks, q, n, n - q);
    hide Give, Binned;
  }

  lemma LastBinned(trace: seq<BinOp>, q: int, size: nat)
    ensures Binned(trace + [Insert(q, size)]) == Binned(trace)[q := size]
    ensures var r := Queue(trace + [Insert(q, size)], size); r != [] && r[|r| - 1] == q
  {
    BinnedMore(trace, Insert(q, size));
    QueueMore(trace, Insert(q, size), size);
  }

  lemma GoesToFree(s: Snapshot, p: int, q: int, n: int, hi: int)
    requires s.sizes == Binned(s.trace) && q < n != s.top && n != s.dv && n in s.chunks && !s.chunks[n].cinuse
    requires hi == n + s.chunks[n].size
    ensures var sh := Give(AfterBack(s, p, q), s.chunks, q, n);
            && (if q == s.dv then IntoVictim(s, sh, q, hi) else IntoBin(s, sh, q, hi))
            && Binned(sh.trace) == (if q == s.dv then BackSizes(s, p, q) - {n}
                                    else (BackSizes(s, p, q) - {n})[q := hi - q])
            && sh.size == s.size && sh.peak == s.maxFootprint
  {
    var b := AfterBack(s, p, q);
    BackBinned(s, p, q);
    GiveToFree(b, s.chunks, q, n, n - q);
    hide Give, Binned, Queue, BackSizes;
    assert b.dv == s.dv && b.dvsize == s.dvsize && b.top == s.top && b.topsize == s.topsize;
    hide AfterBack;
    RemovedThenLast(b.trace, n, q, hi - q);
  }

  lemma RemovedThenLast(trace: seq<BinOp>, n: int, q: int, size: nat)
    ensures Binned(trace + [Remove(n)]) == Binned(trace) - {n}
    ensures Binned(trace + [Remove(n)] + [Insert(q, size)]) == (Binned(trace) - {n})[q := size]
    ensures var r := Queue(trace + [Remove(n)] + [Insert(q, size)], size); r != [] && r[|r| - 1] == q
  {
    BinnedMore(trace, Remove(n));
    LastBinned(trace + [Remove(n)], q, size);
  }

  lemma GoesAlone(s: Snapshot, p: int, q: int, n: int)
    requires s.sizes == Binned(s.trace) && q < n != s.top && n != s.dv && n in s.chunks && s.chunks[n].cinuse
    ensures var sh := Give(AfterBack(s, p, q), s.chunks, q, n);
            && (if q == s.dv then IntoVictim(s, sh, q, n) else IntoBin(s, sh, q, n))
            && Binned(sh.trace) == (if q == s.dv then BackSizes(s, p, q) else BackSizes(s, p, q)[q := n - q])
            && sh.size == s.size && sh.peak == s.maxFootprint
  {
    var b := AfterBack(s, p, q);
    BackBinned(s, p, q);
    GiveAlone(b, s.chunks, q, n, n - q);
    LastBinned(b.trace, q, n - q);
    hide Give, Binned, Queue, BackSizes;
  }

  lemma SizesOutside(s: Snapshot, p: int, q: int, n: int, hi: int, binned: bool)
    requires q <= p < n <= hi && p !in s.sizes && (q == p ==> q !in s.sizes)
    requires (q == s.dv ==> q !in s.sizes) && forall x :: x in s.sizes && q <= x < hi ==> x == q || x == n
    requires binned <==> n < hi && n in s.sizes
    ensures Outside(s.sizes, q, hi) == if binned then BackSizes(s, p, q) - {n} else BackSizes(s, p, q)
  {
  }

  /** Where the space `[q, hi)` goes: it joins `top`, or it is the designated victim if that is a
      part of it, or it is binned. What has joined it leaves its bin, and all other binned chunks
      stay. */
  ghost predicate Goes(s: Snapshot, sh: Shelf, q: int, n: int, hi: int) {
    && (if n == s.top then IntoTop(s, sh, q)
        else if q == s.dv || n == s.dv then IntoVictim(s, sh, q, hi)
        else IntoBin(s, sh, q, hi))
    && Binned(sh.trace) == (if n == s.top || q == s.dv || n == s.dv then Outside(s.sizes, q, hi)
                            else if q <= hi then Outside(s.sizes, q, hi)[q := hi - q] else s.sizes)
    && sh.size == s.size && sh.peak == s.maxFootprint
  }

  lemma FreeGoes(s: Snapshot, p: int) returns (q: int, n: int, hi: int)
    requires Sound(s) && p in s.chunks && s.chunks[p].cinuse && s.sizes == Binned(s.trace)
    ensures Joins(s.chunks, p, q, n, hi) && Goes(s, AfterFree(s, p), q, n, hi)
  {
    q, n, hi := WhatJoins(s, p);
    VictimNotBinned(s);
    AfterBackIs(s, p, q);
    SizesOutside(s, p, q, n, hi, n < hi && n in s.sizes);
    hide *;
    GoesCase(s, p, q, n, hi);
  }

  lemma GoesCase(s: Snapshot, p: int, q: int, n: int, hi: int)
    requires s.sizes == Binned(s.trace) && q <= p < n <= hi && (n == s.top ==> hi == n)
    requires n != s.top ==> n in s.chunks
    requires n == s.dv ==> hi == n + s.dvsize && n !in s.sizes && n in s.chunks && !s.chunks[n].cinuse
    requires n in s.chunks && n != s.dv && n != s.top ==>
               if s.chunks[n].cinuse then hi == n else n in s.sizes && n < hi && hi == n + s.chunks[n].size
    requires Outside(s.sizes, q, hi)
          == if n < hi && n in s.sizes then BackSizes(s, p, q) - {n} else BackSizes(s, p, q)
    ensures Goes(s, Give(AfterBack(s, p, q), s.chunks, q, n), q, n, hi)
  {
    hide Sound, AfterFree, Give, AfterBack, Binned, IntoTop, IntoVictim, IntoBin, Outside, BackSizes;
    if n == s.top {
      GoesToTop(s, p, q, n);
    } else if n == s.dv {
      GoesToVictim(s, p, q, n, hi);
    } else if !s.chunks[n].cinuse {
      GoesToFree(s, p, q, n, hi);
    } else {
      GoesAlone(s, p, q, n);
    }
  }

  /** So, after `free`: if no neighbour is the old victim the victim stays, and unless the space
      joins `top` it is in the bins, behind all others of its size; if one is, the victim is the
      joined space, or there is none when that has joined `top`. */
  lemma FreedGoes(m: State, s: Snapshot, p: int) returns (q: int, n: int, hi: int)
    requires Sound(s) && p in s.chunks && s.chunks[p].cinuse && s.sizes == Binned(s.trace)
    requires ShelfOf(Snap(m)) == AfterFree(s, p) && m.Chronicled()
    ensures Joins(s.chunks, p, q, n, hi)
    ensures q != s.dv && n != s.dv ==> m.dv == s.dv && m.dvsize == s.dvsize
    ensures n == s.top ==> m.top == q && m.topsize == s.topsize + (s.top - q) && m.sizes == Outside(s.sizes, q, hi)
    ensures n == s.top && q == s.dv ==> m.dv == 0 && m.dvsize == 0
    ensures n != s.top && (q == s.dv || n == s.dv) ==>
              m.dv == q && m.dvsize == hi - q && m.sizes == Outside(s.sizes, q, hi)
    ensures n != s.top && q != s.dv && n != s.dv ==>
              && q < hi && m.sizes == Outside(s.sizes, q, hi)[q := hi - q]
              && var r := Waiting(m.small, m.tree, m.sizes, hi - q); r != [] && r[|r| - 1] == q
    ensures n != s.top ==> m.top == s.top && m.topsize == s.topsize
  {
    q, n, hi := FreeGoes(s, p);
    ShelfIs(m);
    hide Sound, AfterFree, Joins, Outside, Binned, Waiting, Queue, Fresh;
    if n != s.top && q != s.dv && n != s.dv {
      assert Waiting(m.small, m.tree, m.sizes, hi - q) == Queue(m.trace, hi - q);
    }
  }

  lemma VictimNotBinned(s: Snapshot)
    requires Sound(s)
    ensures s.dv !in s.sizes
  {
    if s.dv in s.sizes {
      GmBelow(s, s.dv);
    }
  }

  // ---- malloc ----

  /** The chunk that leaves the queue of size `z` next: the newest of a small size, the oldest of
      a large one. */
  ghost predicate Out(trace: seq<BinOp>, z: nat, p: int) {
    var r := Queue(trace, z);
    r != [] && p == if IsSmall(z) then r[|r| - 1] else r[0]
  }

  /** The least size of at least `nb` for which a chunk waits. */
  ghost predicate LeastFit(trace: seq<BinOp>, nb: nat, z: nat) {
    z >= nb && Queue(trace, z) != [] && forall y: nat {:trigger Queue(trace, y)} ::
      nb <= y && Queue(trace, y) != [] ==> z <= y
  }

  /** Where a request for a chunk of `nb` bytes is served from, in terms of the queues, the
      designated victim and `top` alone. */
  ghost predicate Served(sh: Shelf, nb: nat, p: int) {
    if IsSmall(nb) && Queue(sh.trace, nb) != [] then Out(sh.trace, nb, p)
    else if IsSmall(nb) && nb <= sh.dvsize then p == sh.dv
    else if exists z: nat :: LeastFit(sh.trace, nb, z) && (sh.dvsize < nb || z < sh.dvsize) then
      exists z: nat :: LeastFit(sh.trace, nb, z) && Out(sh.trace, z, p)
    else if nb <= sh.dvsize then p == sh.dv
    else p == sh.top
  }

  /** This leaves no choice. */
  lemma ServedOnce(sh: Shelf, nb: nat, p: int, p2: int)
    requires Served(sh, nb, p) && Served(sh, nb, p2)
    ensures p == p2
  {
    hide Queue;
  }

  lemma WaitsHere(m: State, x: int)
    requires m.Chronicled() && x in m.sizes
    ensures x in Queue(m.trace, m.sizes[x]) && Queue(m.trace, m.sizes[x]) != []
  {
    hide BinsAreQueues;
    WaitsBySize(m.trace, x, m.sizes[x]);
  }

  /** Whoever waits is binned. */
  lemma WaitingIsBinned(m: State, z: nat) returns (x: int)
    requires m.Chronicled() && Queue(m.trace, z) != []
    ensures x in m.sizes && m.sizes[x] == z
  {
    hide BinsAreQueues;
    x := Queue(m.trace, z)[0];
    WaitsBySize(m.trace, x, z);
  }

  lemma ExactWaits(m: State, nb: nat)
    requires m.Chronicled()
    ensures HasExact(m.sizes, nb) <==> Queue(m.trace, nb) != []
  {
    hide State.Chronicled, Queue;
    if x :| x in m.sizes && m.sizes[x] == nb {
      WaitsHere(m, x);
    }
    if Queue(m.trace, nb) != [] {
      var _ := WaitingIsBinned(m, nb);
    }
  }

  /** A smallest binned chunk that fits has the least size for which a chunk waits. */
  lemma SmallestWaits(m: State, nb: nat, v: int)
    requires m.Chronicled() && SmallestBinned(m.sizes, nb, v)
    ensures LeastFit(m.trace, nb, m.sizes[v])
  {
    hide State.Chronicled, Queue;
    WaitsHere(m, v);
    forall y: nat {:trigger Queue(m.trace, y)} | nb <= y && Queue(m.trace, y) != []
      ensures m.sizes[v] <= y
    {
      var _ := WaitingIsBinned(m, y);
    }
  }

  lemma NothingWaits(m: State, nb: nat, z: nat)
    requires m.Chronicled() && LeastFit(m.trace, nb, z)
    ensures exists x :: x in m.sizes && m.sizes[x] == z && z >= nb
  {
    hide State.Chronicled, Queue;
    var _ := WaitingIsBinned(m, z);
  }

  /** Whose turn it is leaves the queue of its size. */
  lemma TurnIsOut(m: State, v: int)
    requires m.Bins() && m.Chronicled() && Turn(m.small, m.tree, m.sizes, v)
    ensures v in m.sizes && Out(m.trace, m.sizes[v], v)
  {
    hide BinsOk, ChainOfSize, Queue, Within, Binned;
    var z := m.sizes[v];
    assert Waiting(m.small, m.tree, m.sizes, z) == Queue(m.trace, z);
    SmallsCounted(m);
    if IsSmall(z) {
      SmallSizes8(m, v);
    }
  }

  lemma SmallsCounted(m: State)
    requires m.Bins()
    ensures |m.small| == 32
  {
    hide TreeLinks, SmallLinks, Shape;
  }

  lemma SmallSizes8(m: State, v: int)
    requires m.Bins() && v in m.sizes && IsSmall(m.sizes[v])
    ensures m.sizes[v] % 8 == 0 && m.sizes[v] / 8 < 32
  {
    SmallMarked(m, v);
  }

  /** `malloc` takes the chunk that the queues, the designated victim and `top` determine. */
  lemma ServedFromQueues(m: State, bytes: nat, p: int)
    requires Valid(m) && m.Chronicled() && bytes < MAX_REQUEST && Chooses(Snap(m), bytes, p)
    ensures Served(ShelfOf(Snap(m)), RequestToSize(bytes), p)
  {
    var s, nb := Snap(m), RequestToSize(bytes);
    RequestSize(bytes);
    FreeChunks(m);
    hide Valid, State.Chronicled, RequestToSize, Served;
    if bytes <= MAX_SMALL_REQUEST {
      SmallFromQueues(m, s, nb, p);
    } else {
      LargeFromQueues(m, s, nb, p);
    }
  }

  lemma BinsStart(m: State)
    requires Valid(m)
    ensures m.Bins()
  {
    hide State.Bins;
  }

  lemma SmallFromQueues(m: State, s: Snapshot, nb: nat, p: int)
    requires Valid(m) && m.Chronicled() && s == Snap(m) && IsSmall(nb) && nb > 0 && SmallChoice(s, nb, p)
    ensures Served(ShelfOf(s), nb, p)
  {
    BinsStart(m);
    hide Valid, State.Chronicled, Queue, Turn, Out, State.Bins;
    ExactWaits(m, nb);
    if HasExact(s.sizes, nb) {
      TurnIsOut(m, p);
    } else if nb <= s.dvsize {
    } else if exists x :: x in s.sizes && nb <= s.sizes[x] {
      TurnIsOut(m, p);
      SmallestWaits(m, nb, p);
    } else {
      forall z: nat | LeastFit(s.trace, nb, z) ensures false {
        NothingWaits(m, nb, z);
      }
    }
  }

  lemma LargeFromQueues(m: State, s: Snapshot, nb: nat, p: int)
    requires Valid(m) && m.Chronicled() && s == Snap(m) && FreesAre(s) && !IsSmall(nb) && LargeChoice(s, s.tree, nb, p)
    ensures Served(ShelfOf(s), nb, p)
  {
    BinsStart(m);
    hide Valid, State.Chronicled, Queue, Turn, Out, State.Bins, AllFree;
    if NoneFree(s, nb) || p == s.dv {
      forall z: nat | LeastFit(s.trace, nb, z) ensures !NoneFree(s, nb) && nb <= s.dvsize <= z {
        NothingWaits(m, nb, z);
      }
    } else {
      LargeTurn(m, nb, p);
      TurnIsOut(m, p);
      SmallestWaits(m, nb, p);
    }
  }

  lemma LargeTurn(m: State, nb: nat, v: int)
    requires Oldest(m.tree, m.sizes, v) && !IsSmall(nb) && nb <= m.sizes[v]
    ensures Turn(m.small, m.tree, m.sizes, v)
  {
    hide ChainOfSize;
  }

  /** A request is granted if a free chunk or `top` is large enough, or the system extends the
      segment by the pages `g` that are needed: and in no other case. */
  lemma GrantedIff(s: Snapshot, bytes: nat, nb: nat, g: int, grows: bool)
    requires bytes < 0x1_0000_0000_0000_0000 - 128 && 0 <= s.topsize && s.base + s.size >= 0
    requires nb % 16 == 0 && nb >= 32 && bytes + 8 <= nb && (nb == 32 || nb < bytes + 8 + 16)
    requires s.topsize <= nb ==> g % 4096 == 0 && nb - s.topsize + 96 <= g < nb - s.topsize + 96 + 4096
    ensures RequestToSize(bytes) == nb
    ensures !OutOfMemory(s, RequestToSize(bytes), grows) <==>
            || (exists x :: x in s.chunks && !s.chunks[x].cinuse && s.chunks[x].size >= nb)
            || nb < s.topsize
            || (grows && nb + 96 + 4096 <= 0x1_0000_0000_0000_0000 && g < 0x7FFF_FFFF_FFFF_FFFF
                && s.base + s.size + g < 0x1_0000_0000_0000_0000)
  {
    PaddedTo(bytes, nb);
    hide Extends, RequestToSize;
    if s.topsize <= nb {
      AskedFor(s.base + s.size, nb, s.topsize, g);
    }
    FreeAreFree(s, nb);
  }

  lemma PaddedTo(bytes: nat, nb: nat)
    requires nb % 16 == 0 && nb >= 32 && bytes + 8 <= nb && (nb == 32 || nb < bytes + 8 + 16)
    ensures RequestToSize(bytes) == nb
  {
    PadIs(bytes);
    hide PadRequest;
    var i, j := nb / 16, PadRequest(bytes) / 16;
    assert nb == 16 * i && PadRequest(bytes) == 16 * j;
  }

  lemma FreeAreFree(s: Snapshot, nb: int)
    ensures NoneFree(s, nb) <==> forall x :: x in s.chunks && !s.chunks[x].cinuse ==> s.chunks[x].size < nb
  {
    forall x | x in s.chunks && !s.chunks[x].cinuse
      ensures x in AllFree(s.chunks) && AllFree(s.chunks)[x] == s.chunks[x].size
    {
    }
  }
}
