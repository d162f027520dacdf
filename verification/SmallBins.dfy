/** The small bins: one ring per size, headed by two words of the allocator's own that are
    addressed as if they were a chunk. An empty bin is known by its clear `smallmap` bit
    alone: unlinking the last chunk of a bin leaves the header's links stale. */
module SmallBins {
  import opened Words
  import opened Rings
  import opened BinMaps
  import opened TreeBins

  /** The chunks of each bin in `bk` order, that is, oldest first. */
  type Smalls = seq<seq<int>>

  /** `smallbin_at(M, i)`. */
  function SmallBinAt(i: int): int { SMALLBINS + 16 * i }

  ghost function RingOf(small: Smalls, i: nat): seq<int>
    requires i < |small|
  {
    [SmallBinAt(i)] + small[i]
  }

  ghost predicate InSmall(small: Smalls, x: int) {
    exists i :: 0 <= i < |small| && x in small[i]
  }

  ghost predicate BinFits(small: Smalls, sizes: Sizes, i: nat)
    requires i < |small|
  {
    && Members(small[i])
    && forall k {:trigger small[i][k]} :: 0 <= k < |small[i]| ==> small[i][k] in sizes && sizes[small[i][k]] == 8 * i
  }

  ghost predicate SmallShape(small: Smalls, sizes: Sizes) {
    && |small| == 32
    && forall i {:trigger BinFits(small, sizes, i)} :: 0 <= i < 32 ==> BinFits(small, sizes, i)
  }

  /** Exactly the small binned chunks are in the small bins. */
  ghost predicate HoldsSmall(small: Smalls, sizes: Sizes) {
    forall x {:trigger InSmall(small, x)} :: InSmall(small, x) <==> x in sizes && IsSmall(sizes[x])
  }

  ghost predicate BinLink(mem: Memory, smallmap: BinMap, small: Smalls, i: nat)
    requires i < 32 && i < |small|
  {
    && (Marked(smallmap, i) <==> small[i] != [])
    && (small[i] != [] ==> Linked(mem, RingOf(small, i)))
  }

  ghost predicate SmallLinks(mem: Memory, smallmap: BinMap, small: Smalls) {
    && |small| == 32
    && forall i {:trigger BinLink(mem, smallmap, small, i)} :: 0 <= i < 32 ==> BinLink(mem, smallmap, small, i)
  }

  lemma RingMembers(small: Smalls, sizes: Sizes, i: nat)
    requires SmallShape(small, sizes) && Spaced(sizes) && i < 32
    ensures Members(RingOf(small, i))
    ensures forall k {:trigger RingOf(small, i)[k]} :: 0 < k < |RingOf(small, i)| ==> RingOf(small, i)[k] >= GM_END
  {
    assert BinFits(small, sizes, i);
    var r := RingOf(small, i);
    forall k | 0 < k < |r|
      ensures r[k] >= GM_END && r[k] % 16 == 0
    {
      assert r[k] == small[i][k - 1];
    }
    forall j, k | 0 <= j < k < |r|
      ensures r[j] != r[k]
    {
      assert r[k] == small[i][k - 1];
      assert j > 0 ==> r[j] == small[i][j - 1];
    }
  }

  lemma SmallsDisjoint(small: Smalls, sizes: Sizes, i: nat, j: nat, a: nat, b: nat)
    requires SmallShape(small, sizes) && i < 32 && j < 32 && i != j && a < |small[i]| && b < |small[j]|
    ensures small[i][a] != small[j][b]
  {
    assert BinFits(small, sizes, i) && BinFits(small, sizes, j);
  }

  lemma RingsDisjoint(small: Smalls, sizes: Sizes, i: nat, j: nat, a: nat, b: nat)
    requires SmallShape(small, sizes) && Spaced(sizes) && i < 32 && j < 32 && i != j
    requires a < |RingOf(small, i)| && b < |RingOf(small, j)|
    ensures RingOf(small, i)[a] != RingOf(small, j)[b]
  {
    RingMembers(small, sizes, i);
    RingMembers(small, sizes, j);
    if a > 0 && b > 0 {
      SmallsDisjoint(small, sizes, i, j, a - 1, b - 1);
    }
  }

  // ---- framing ----

  ghost predicate SameRingWords(mem: Memory, mem': Memory, x: int) {
    Peek(mem', Fd(x)) == Peek(mem, Fd(x)) && Peek(mem', Bk(x)) == Peek(mem, Bk(x))
  }

  lemma RingFrame(mem: Memory, mem': Memory, r: seq<int>)
    requires Linked(mem, r)
    requires forall k {:trigger SameRingWords(mem, mem', r[k])} :: 0 <= k < |r| ==> SameRingWords(mem, mem', r[k])
    ensures Linked(mem', r)
  {
    forall k | 0 <= k < |r|
      ensures Peek(mem', Bk(r[k])) == Peek(mem, Bk(r[k])) && Peek(mem', Fd(r[k])) == Peek(mem, Fd(r[k]))
    {
      assert SameRingWords(mem, mem', r[k]);
    }
    LinkedFrame(mem, mem', r);
  }

  lemma SmallFrame(mem: Memory, mem': Memory, smallmap: BinMap, small: Smalls)
    requires SmallLinks(mem, smallmap, small)
    requires forall y {:trigger SameRingWords(mem, mem', y)} :: InSmall(small, y) ==> SameRingWords(mem, mem', y)
    requires forall i {:trigger SmallBinAt(i)} :: 0 <= i < 32 ==> SameRingWords(mem, mem', SmallBinAt(i))
    ensures SmallLinks(mem', smallmap, small)
  {
    hide Marked;
    forall i | 0 <= i < 32
      ensures BinLink(mem', smallmap, small, i)
    {
      assert BinLink(mem, smallmap, small, i);
      var r := RingOf(small, i);
      forall k | 0 <= k < |r|
        ensures SameRingWords(mem, mem', r[k])
      {
        if k > 0 {
          assert r[k] == small[i][k - 1];
          assert InSmall(small, r[k]);
        } else {
          assert r[k] == SmallBinAt(i);
        }
      }
      if small[i] != [] {
        RingFrame(mem, mem', r);
      }
    }
  }

  /** Ring words written for bin `i` leave the rings of other bins alone. */
  lemma OtherBin(mem: Memory, mem': Memory, smallmap: BinMap, smallmap': BinMap, small: Smalls, small': Smalls,
                 i: nat, j: nat)
    requires i < 32 && j < 32 && |small| == 32 && |small'| == 32 && i != j && small'[j] == small[j]
    requires BinLink(mem, smallmap, small, j)
    requires Marked(smallmap', j) == Marked(smallmap, j)
    requires forall k {:trigger SameRingWords(mem, mem', RingOf(small, j)[k])} ::
      0 <= k < |RingOf(small, j)| ==> SameRingWords(mem, mem', RingOf(small, j)[k])
    ensures BinLink(mem', smallmap', small', j)
  {
    hide Marked;
    if small[j] != [] {
      RingFrame(mem, mem', RingOf(small, j));
    }
  }

  // ---- inserting ----

  /** The last ring member, `B->fd`, when the bin is marked; the header itself when not. */
  ghost function LastOf(small: Smalls, i: nat): int
    requires i < |small|
  {
    RingOf(small, i)[|small[i]|]
  }

  lemma InsertRing(mem: Memory, smallmap: BinMap, small: Smalls, sizes: Sizes, i: nat, x: int)
    requires SmallShape(small, sizes) && Spaced(sizes) && SmallLinks(mem, smallmap, small)
    requires i < 32 && x % 16 == 0 && x >= GM_END && !InSmall(small, x)
    ensures small[i] != [] ==> Peek(mem, Fd(SmallBinAt(i))) == LastOf(small, i)
    ensures Linked(Append(mem, SmallBinAt(i), LastOf(small, i), x), RingOf(small, i) + [x])
    ensures RingOf(small[i := small[i] + [x]], i) == RingOf(small, i) + [x]
  {
    hide Append, Marked;
    var r := RingOf(small, i);
    RingMembers(small, sizes, i);
    assert BinLink(mem, smallmap, small, i);
    if small[i] == [] {
      AppendFirst(mem, r[0], x);
      assert r + [x] == [r[0], x];
    } else {
      NotInRing(small, i, x);
      AppendMember(mem, r, x);
    }
  }

  lemma NotInRing(small: Smalls, i: nat, x: int)
    requires i < |small| && i < 32 && x >= GM_END && !InSmall(small, x)
    ensures x !in RingOf(small, i)
  {
    assert x !in small[i];
  }

  lemma InsertLinks(mem: Memory, smallmap: BinMap, small: Smalls, sizes: Sizes, i: nat, x: int)
    requires SmallShape(small, sizes) && Spaced(sizes) && SmallLinks(mem, smallmap, small)
    requires i < 32 && x % 16 == 0 && x >= GM_END && !InSmall(small, x)
    ensures SmallLinks(Append(mem, SmallBinAt(i), LastOf(small, i), x), Mark(smallmap, i), small[i := small[i] + [x]])
  {
    hide Append, Marked, Mark, LastOf, Linked, RingOf, SmallBinAt;
    var mem', small' := Append(mem, SmallBinAt(i), LastOf(small, i), x), small[i := small[i] + [x]];
    MarkAndClear(smallmap, i);
    InsertRing(mem, smallmap, small, sizes, i, x);
    forall j | 0 <= j < 32
      ensures BinLink(mem', Mark(smallmap, i), small', j)
    {
      assert BinLink(mem, smallmap, small, j);
      if j != i {
        forall k | 0 <= k < |RingOf(small, j)|
          ensures SameRingWords(mem, mem', RingOf(small, j)[k])
        {
          InsertAway(mem, small, sizes, i, x, j, k);
        }
        OtherBin(mem, mem', smallmap, Mark(smallmap, i), small, small', i, j);
      }
    }
  }

  lemma InsertAway(mem: Memory, small: Smalls, sizes: Sizes, i: nat, x: int, j: nat, k: nat)
    requires SmallShape(small, sizes) && Spaced(sizes) && i < 32 && j < 32 && i != j
    requires x % 16 == 0 && x >= GM_END && !InSmall(small, x) && k < |RingOf(small, j)|
    ensures SameRingWords(mem, Append(mem, SmallBinAt(i), LastOf(small, i), x), RingOf(small, j)[k])
  {
    hide Append;
    RingMembers(small, sizes, i);
    RingMembers(small, sizes, j);
    RingsDisjoint(small, sizes, i, j, 0, k);
    RingsDisjoint(small, sizes, i, j, |small[i]|, k);
    NotInRing(small, j, x);
    NotInRing(small, i, x);
    AppendWords(mem, SmallBinAt(i), LastOf(small, i), x, RingOf(small, j)[k]);
  }

  lemma InsertShape(small: Smalls, sizes: Sizes, i: nat, x: int)
    requires SmallShape(small, sizes) && i < 32 && x in sizes && sizes[x] == 8 * i && x % 16 == 0 && !InSmall(small, x)
    ensures SmallShape(small[i := small[i] + [x]], sizes)
    ensures forall y :: InSmall(small[i := small[i] + [x]], y) <==> InSmall(small, y) || y == x
  {
    var small' := small[i := small[i] + [x]];
    forall j | 0 <= j < 32
      ensures BinFits(small', sizes, j)
    {
      assert BinFits(small, sizes, j);
      assert x !in small[i];
    }
    forall y
      ensures InSmall(small', y) <==> InSmall(small, y) || y == x
    {
      if InSmall(small, y) {
        var j :| 0 <= j < |small| && y in small[j];
        assert y in small'[j];
      }
      assert x in small'[i];
    }
  }

  // ---- unlinking ----

  /** `F->bk = B; B->fd = F`, unless the chunk is the last of its bin. */
  ghost function UnlinkMem(mem: Memory, small: Smalls, i: nat, j: nat): Memory
    requires i < |small| && j < |small[i]|
  {
    var r := RingOf(small, i);
    if |small[i]| == 1 then mem else Bypass(mem, r[Previous(j + 1, |r|)], r[Next(j + 1, |r|)])
  }

  ghost function UnlinkMap(smallmap: BinMap, small: Smalls, i: nat): BinMap
    requires i < |small| && i < 32
  {
    if |small[i]| == 1 then Clear(smallmap, i) else smallmap
  }

  lemma UnlinkedRing(mem: Memory, smallmap: BinMap, small: Smalls, sizes: Sizes, i: nat, j: nat)
    requires SmallShape(small, sizes) && Spaced(sizes) && SmallLinks(mem, smallmap, small)
    requires i < 32 && j < |small[i]|
    ensures var r := RingOf(small, i);
            && Peek(mem, Fd(small[i][j])) == r[Previous(j + 1, |r|)]
            && Peek(mem, Bk(small[i][j])) == r[Next(j + 1, |r|)]
            && (r[Previous(j + 1, |r|)] == r[Next(j + 1, |r|)] <==> |small[i]| == 1)
            && RingOf(small[i := Without(small[i], j)], i) == Without(r, j + 1)
            && (|small[i]| > 1 ==> Linked(UnlinkMem(mem, small, i, j), Without(r, j + 1)))
  {
    hide Bypass, Marked;
    var r := RingOf(small, i);
    RingMembers(small, sizes, i);
    assert BinLink(mem, smallmap, small, i);
    assert r[j + 1] == small[i][j];
    UnlinkMember(mem, r, j + 1);
    hide Linked;
  }

  lemma UnlinkLinks(mem: Memory, smallmap: BinMap, small: Smalls, sizes: Sizes, i: nat, j: nat)
    requires SmallShape(small, sizes) && Spaced(sizes) && SmallLinks(mem, smallmap, small)
    requires i < 32 && j < |small[i]|
    ensures SmallLinks(UnlinkMem(mem, small, i, j), UnlinkMap(smallmap, small, i), small[i := Without(small[i], j)])
  {
    hide Bypass, Marked, Clear, UnlinkMem, Linked, RingOf;
    var mem', small' := UnlinkMem(mem, small, i, j), small[i := Without(small[i], j)];
    var smallmap' := UnlinkMap(smallmap, small, i);
    MarkAndClear(smallmap, i);
    UnlinkedRing(mem, smallmap, small, sizes, i, j);
    forall b | 0 <= b < 32
      ensures BinLink(mem', smallmap', small', b)
    {
      assert BinLink(mem, smallmap, small, b);
      if b != i {
        forall k | 0 <= k < |RingOf(small, b)|
          ensures SameRingWords(mem, mem', RingOf(small, b)[k])
        {
          UnlinkAway(mem, small, sizes, i, j, b, k);
        }
        OtherBin(mem, mem', smallmap, smallmap', small, small', i, b);
      }
    }
  }

  lemma UnlinkAway(mem: Memory, small: Smalls, sizes: Sizes, i: nat, j: nat, b: nat, k: nat)
    requires SmallShape(small, sizes) && Spaced(sizes) && i < 32 && b < 32 && i != b && j < |small[i]|
    requires k < |RingOf(small, b)|
    ensures SameRingWords(mem, UnlinkMem(mem, small, i, j), RingOf(small, b)[k])
  {
    hide Bypass;
    var r := RingOf(small, i);
    var f, n := Previous(j + 1, |r|), Next(j + 1, |r|);
    RingMembers(small, sizes, i);
    RingMembers(small, sizes, b);
    RingsDisjoint(small, sizes, i, b, f, k);
    RingsDisjoint(small, sizes, i, b, n, k);
    BypassWords(mem, r[f], r[n], RingOf(small, b)[k]);
  }

  lemma UnlinkShape(small: Smalls, sizes: Sizes, i: nat, j: nat)
    requires SmallShape(small, sizes) && i < 32 && j < |small[i]|
    ensures var small' := small[i := Without(small[i], j)];
            && SmallShape(small', sizes)
            && forall y {:trigger InSmall(small', y)} :: InSmall(small', y) <==> InSmall(small, y) && y != small[i][j]
  {
    var small' := small[i := Without(small[i], j)];
    assert BinFits(small, sizes, i);
    MembersWithout(small[i], j);
    forall b | 0 <= b < 32
      ensures BinFits(small', sizes, b)
    {
      assert BinFits(small, sizes, b);
    }
    forall y
      ensures InSmall(small', y) <==> InSmall(small, y) && y != small[i][j]
    {
      UnlinkHolds(small, sizes, i, j, y);
    }
  }

  lemma UnlinkHolds(small: Smalls, sizes: Sizes, i: nat, j: nat, y: int)
    requires SmallShape(small, sizes) && i < 32 && j < |small[i]|
    ensures InSmall(small[i := Without(small[i], j)], y) <==> InSmall(small, y) && y != small[i][j]
  {
    var small' := small[i := Without(small[i], j)];
    assert BinFits(small, sizes, i);
    if InSmall(small, y) && y != small[i][j] {
      var b :| 0 <= b < |small| && y in small[b];
      var k :| 0 <= k < |small[b]| && small[b][k] == y;
      assert small'[b][if b == i && k > j then k - 1 else k] == y;
      assert y in small'[b];
    }
    if InSmall(small', y) {
      var b :| 0 <= b < |small'| && y in small'[b];
      var k :| 0 <= k < |small'[b]| && small'[b][k] == y;
      var k' := if b == i && k >= j then k + 1 else k;
      assert small[b][k'] == y;
      if b != i {
        SmallsDisjoint(small, sizes, i, b, j, k');
      }
    }
  }
}
