/** The 32-bit bin maps of malloc_state (`smallmap`, `treemap`): one bit per bin, set
    exactly while the bin is non-empty, searched with word-parallel tricks. The lemmas of
    the first half speak of machine words and shift amounts; those of the second half say
    what each trick computes in terms of `Marked`, for bin indices. */
module BinMaps {

  type BinMap = bv32

  // ---- words and shift amounts ----

  predicate IsSet(m: BinMap, a: bv6)
    requires a < 32
  {
    m & (1 << a) != 0
  }

  function PowerAt(a: bv6): BinMap
    requires a < 32
  {
    1 << a
  }

  function Or(m: BinMap, b: BinMap): BinMap {
    m | b
  }

  function AndNot(m: BinMap, b: BinMap): BinMap {
    m & !b
  }

  function And(m: BinMap, b: BinMap): BinMap {
    m & b
  }

  /** `smallmap >> idx`. */
  function ShiftRight(m: BinMap, a: bv6): BinMap
    requires a < 32
  {
    m >> a
  }

  function ShiftLeft(m: BinMap, a: bv6): BinMap
    requires a < 32
  {
    m << a
  }

  /** `least_bit(x)`: isolates the least set bit. */
  function LeastBit(x: BinMap): BinMap {
    x & -x
  }

  /** `left_bits(x)`: all bits strictly to the left of the least set bit of `x`. */
  function LeftBits(x: BinMap): BinMap {
    (x << 1) | -(x << 1)
  }

  lemma OrDisjoint(m: BinMap, b: BinMap, c: BinMap)
    requires b & c == 0
    ensures (m | b) & c == m & c
  {
  }

  lemma OrOther(m: BinMap, a: bv6, b: bv6)
    requires a < 32 && b < 32 && a != b
    ensures IsSet(Or(m, PowerAt(a)), b) <==> IsSet(m, b)
  {
    DistinctPowers(a, b);
    OrDisjoint(m, PowerAt(a), PowerAt(b));
  }

  lemma OrSelf(m: BinMap, a: bv6)
    requires a < 32
    ensures IsSet(Or(m, PowerAt(a)), a)
  {
    assert (m | PowerAt(a)) & PowerAt(a) == PowerAt(a);
    assert PowerAt(a) != 0;
  }

  lemma DistinctPowers(a: bv6, b: bv6)
    requires a < 32 && b < 32 && a != b
    ensures PowerAt(a) & PowerAt(b) == 0
  {
  }

  lemma AndNotDisjoint(m: BinMap, b: BinMap, c: BinMap)
    requires b & c == 0
    ensures (m & !b) & c == m & c
  {
  }

  lemma AndNotOther(m: BinMap, a: bv6, b: bv6)
    requires a < 32 && b < 32 && a != b
    ensures IsSet(AndNot(m, PowerAt(a)), b) <==> IsSet(m, b)
  {
    DistinctPowers(a, b);
    AndNotDisjoint(m, PowerAt(a), PowerAt(b));
  }

  lemma AndNotSelf(m: BinMap, a: bv6)
    requires a < 32
    ensures !IsSet(AndNot(m, PowerAt(a)), a)
  {
    ClearedAnd(m, PowerAt(a));
  }

  lemma ClearedAnd(m: BinMap, b: BinMap)
    ensures (m & !b) & b == 0
  {
  }

  /** The bits of `x` below shift amount `a` are all zero. */
  predicate LowClear(x: BinMap, a: bv6)
    requires a < 32
  {
    x & ((1 << a) - 1) == 0
  }

  lemma LowClearNone(x: BinMap)
    ensures LowClear(x, 0)
  {
  }

  lemma LowClearStep(x: BinMap, a: bv6)
    requires a < 31
    requires LowClear(x, a) && !IsSet(x, a)
    ensures LowClear(x, a + 1)
  {
  }

  lemma LowClearAll(x: BinMap)
    requires LowClear(x, 31) && !IsSet(x, 31)
    ensures x == 0
  {
  }

  lemma LeastNonZero(m: BinMap)
    requires m != 0
    ensures LeastBit(m) != 0
  {
  }

  lemma LeastWithin(m: BinMap, a: bv6)
    requires a < 32 && IsSet(LeastBit(m), a)
    ensures IsSet(m, a)
  {
  }

  lemma LeastBelow(m: BinMap, a: bv6, b: bv6)
    requires b < a < 32 && IsSet(LeastBit(m), a)
    ensures !IsSet(m, b)
  {
  }

  lemma ShiftRightSet(m: BinMap, a: bv6)
    requires a < 32
    ensures ShiftRight(m, a) & 1 == 1 <==> IsSet(m, a)
    decreases a
  {
    if a != 0 {
      ShiftRightSet(m >> 1, a - 1);
      assert (m >> 1) >> (a - 1) == m >> a;
      assert (m >> 1) & (1 << (a - 1)) == (m & (1 << a)) >> 1;
      assert (m & (1 << a)) & 1 == 0;
    }
  }

  lemma IsSetShifted(m: BinMap, a: bv6)
    requires 0 < a < 32
    ensures IsSet(m >> 1, a - 1) <==> IsSet(m, a)
  {
    hide IsSet;
    ShiftRightSet(m, a);
    ShiftRightSet(m >> 1, a - 1);
    ShiftOneFirst(m, a);
  }

  lemma ShiftOneFirst(m: BinMap, a: bv6)
    requires 0 < a < 32
    ensures (m >> 1) >> (a - 1) == m >> a
  {
  }

  lemma AndShifted(x: BinMap, m: BinMap)
    ensures And(x >> 1, m >> 1) == And(x, m) >> 1
  {
  }

  lemma AndLow(x: BinMap, m: BinMap)
    ensures IsSet(And(x, m), 0) <==> IsSet(x, 0) && IsSet(m, 0)
  {
  }

  lemma AndSet(x: BinMap, m: BinMap, a: bv6)
    requires a < 32
    ensures IsSet(And(x, m), a) <==> IsSet(x, a) && IsSet(m, a)
    decreases a
  {
    hide IsSet, And;
    if a == 0 {
      AndLow(x, m);
    } else {
      AndSet(x >> 1, m >> 1, a - 1);
      AndShifted(x, m);
      IsSetShifted(x, a);
      IsSetShifted(m, a);
      IsSetShifted(And(x, m), a);
    }
  }

  lemma LeftOfPower(a: bv6, b: bv6)
    requires a < 32 && b < 32
    ensures IsSet(LeftBits(PowerAt(a)), b) <==> a < b
  {
  }

  lemma LeftBitsSet(m: BinMap, a: bv6, b: bv6)
    requires a < 32 && b < 32
    ensures IsSet(And(LeftBits(PowerAt(a)), m), b) <==> a < b && IsSet(m, b)
  {
    hide *;
    LeftOfPower(a, b);
    AndSet(LeftBits(PowerAt(a)), m, b);
  }

  lemma AndComm(a: BinMap, b: BinMap)
    ensures And(a, b) == And(b, a)
  {
  }

  /** `(smallbits & 3) != 0`. */
  predicate EitherLow(x: BinMap) {
    x & 3 != 0
  }

  /** `~smallbits & 1`, the step from bin `idx` to bin `idx + 1`. */
  function SkipLow(x: BinMap): (d: nat)
    ensures d <= 1
  {
    if !x & 1 == 0 then 0 else 1
  }

  lemma LowTwo(x: BinMap)
    ensures EitherLow(x) <==> x & 1 == 1 || (x >> 1) & 1 == 1
    ensures SkipLow(x) == 0 <==> x & 1 == 1
  {
  }

  lemma LowTwoSet(m: BinMap, a: bv6)
    requires a < 31
    ensures EitherLow(ShiftRight(m, a)) <==> IsSet(m, a) || IsSet(m, a + 1)
    ensures SkipLow(ShiftRight(m, a)) == 0 <==> IsSet(m, a)
  {
    hide IsSet, EitherLow, SkipLow;
    ShiftRightSet(m, a);
    ShiftRightSet(m, a + 1);
    ShiftAgain(m, a);
    LowTwo(m >> a);
  }

  lemma ShiftAgain(m: BinMap, a: bv6)
    requires a < 31
    ensures (m >> (a + 1)) == (m >> a) >> 1
  {
  }

  lemma ShiftBackSet(m: BinMap, a: bv6, b: bv6)
    requires a < 32 && b < 32
    ensures IsSet(ShiftLeft(ShiftRight(m, a), a), b) <==> a <= b && IsSet(m, b)
  {
    hide IsSet, ShiftLeft, ShiftRight;
    if a <= b {
      ShiftBackAbove(m, a, b);
    } else {
      ShiftBackBelow(m, a, b);
    }
  }

  lemma ShiftBackAbove(m: BinMap, a: bv6, b: bv6)
    requires a <= b < 32
    ensures IsSet(ShiftLeft(ShiftRight(m, a), a), b) <==> IsSet(m, b)
  {
    hide IsSet;
    HighBitsStay(m, a, b);
    SameBit(ShiftLeft(ShiftRight(m, a), a), m, b);
  }

  lemma SameBit(x: BinMap, y: BinMap, b: bv6)
    requires b < 32 && x & (1 << b) == y & (1 << b)
    ensures IsSet(x, b) <==> IsSet(y, b)
  {
  }

  lemma HighBitsStay(m: BinMap, a: bv6, b: bv6)
    requires a <= b < 32
    ensures ((m >> a) << a) & (1 << b) == m & (1 << b)
  {
  }

  lemma ShiftBackBelow(m: BinMap, a: bv6, b: bv6)
    requires b < a < 32
    ensures !IsSet(ShiftLeft(ShiftRight(m, a), a), b)
  {
    LowBitsGo(m, a, b);
  }

  lemma LowBitsGo(m: BinMap, a: bv6, b: bv6)
    requires b < a < 32
    ensures ((m >> a) << a) & (1 << b) == 0
  {
  }

  lemma ShiftBackNonZero(m: BinMap, a: bv6)
    requires a < 32
    ensures ShiftRight(m, a) != 0 <==> ShiftLeft(ShiftRight(m, a), a) != 0
  {
    assert ((m >> a) << a) >> a == m >> a;
  }

  // ---- bin indices ----

  function Amount(i: nat): (a: bv6)
    requires i < 32
    ensures a < 32
  {
    AmountFits(i);
    i as bv6
  }

  lemma AmountFits(i: nat)
    requires i < 32
    ensures (i as bv6) as int == i
    ensures (i as bv6) < 32
  {
  }

  lemma AmountOrder(i: nat, j: nat)
    requires i < 32 && j < 32
    ensures i == j <==> Amount(i) == Amount(j)
    ensures i < j <==> Amount(i) < Amount(j)
  {
    AmountFits(i);
    AmountFits(j);
  }

  lemma NextAmount(i: nat)
    requires i < 31
    ensures Amount(i) < 31 && Amount(i + 1) == Amount(i) + 1
  {
    AmountFits(i);
    AmountFits(i + 1);
    assert ((i as bv6) + 1) as int == i + 1;
  }

  lemma AmountEnds()
    ensures Amount(0) == 0 && Amount(31) == 31
  {
  }

  /** `idx2bit(i)`. */
  function Bit(i: nat): BinMap
    requires i < 32
  {
    PowerAt(Amount(i))
  }

  /** `smallmap_is_marked` / `treemap_is_marked`. */
  predicate Marked(m: BinMap, i: nat)
    requires i < 32
  {
    IsSet(m, Amount(i))
  }

  /** `mark_smallmap` / `mark_treemap`. */
  function Mark(m: BinMap, i: nat): BinMap
    requires i < 32
  {
    Or(m, Bit(i))
  }

  /** `clear_smallmap` / `clear_treemap`. */
  function Clear(m: BinMap, i: nat): BinMap
    requires i < 32
  {
    AndNot(m, Bit(i))
  }

  /** `compute_bit2idx`: the number of trailing zeros, counted bit by bit. */
  function BitIndex(x: BinMap): (i: nat)
    requires x != 0
    ensures i < 32 && Marked(x, i)
    ensures forall j: nat :: j < i ==> !Marked(x, j)
  {
    NonZeroHasMark(x);
    FirstMarked(x, 0)
  }

  function FirstMarked(x: BinMap, i: nat): (z: nat)
    requires exists j: nat :: i <= j < 32 && Marked(x, j)
    ensures i <= z < 32 && Marked(x, z)
    ensures forall j: nat :: i <= j < z ==> !Marked(x, j)
    decreases 32 - i
  {
    if Marked(x, i) then i else FirstMarked(x, i + 1)
  }

  /** Marking or clearing bin `i` decides bit `i` and leaves every other bit alone. */
  lemma MarkAndClear(m: BinMap, i: nat)
    requires i < 32
    ensures forall j: nat :: j < 32 ==> (Marked(Mark(m, i), j) <==> j == i || Marked(m, j))
    ensures forall j: nat :: j < 32 ==> (Marked(Clear(m, i), j) <==> j != i && Marked(m, j))
  {
    hide Amount, IsSet, Or, AndNot, PowerAt;
    forall j: nat | j < 32
      ensures Marked(Mark(m, i), j) <==> j == i || Marked(m, j)
      ensures Marked(Clear(m, i), j) <==> j != i && Marked(m, j)
    {
      AmountOrder(i, j);
      if i == j {
        OrSelf(m, Amount(i));
        AndNotSelf(m, Amount(i));
      } else {
        OrOther(m, Amount(i), Amount(j));
        AndNotOther(m, Amount(i), Amount(j));
      }
    }
  }

  lemma LowMarksClear(x: BinMap, i: nat)
    requires i < 32
    requires forall j: nat :: j < 32 ==> !Marked(x, j)
    ensures LowClear(x, Amount(i))
  {
    hide Amount, IsSet, LowClear;
    if i == 0 {
      AmountEnds();
      LowClearNone(x);
    } else {
      LowMarksClear(x, i - 1);
      assert !Marked(x, i - 1);
      NextAmount(i - 1);
      LowClearStep(x, Amount(i - 1));
    }
  }

  /** A bin map is zero exactly when no bin is marked. */
  lemma NonZeroHasMark(x: BinMap)
    ensures x != 0 <==> exists j: nat :: j < 32 && Marked(x, j)
  {
    hide Amount, IsSet, LowClear;
    if forall j: nat :: j < 32 ==> !Marked(x, j) {
      LowMarksClear(x, 31);
      assert !Marked(x, 31);
      AmountEnds();
      LowClearAll(x);
    } else {
      var j: nat :| j < 32 && Marked(x, j);
      ZeroUnset(Amount(j));
    }
  }

  lemma ZeroUnset(a: bv6)
    requires a < 32
    ensures !IsSet(0, a)
  {
  }

  /** `compute_bit2idx(least_bit(m))` is the least marked index of `m`. */
  lemma LeastBitIsLeast(m: BinMap)
    requires m != 0
    ensures LeastBit(m) != 0
    ensures Marked(m, BitIndex(LeastBit(m)))
    ensures forall j: nat :: j < BitIndex(LeastBit(m)) ==> !Marked(m, j)
  {
    hide Amount, IsSet, LeastBit, BitIndex;
    LeastNonZero(m);
    var i := BitIndex(LeastBit(m));
    LeastWithin(m, Amount(i));
    forall j: nat | j < i
      ensures !Marked(m, j)
    {
      AmountOrder(j, i);
      LeastBelow(m, Amount(i), Amount(j));
    }
  }

  /** `left_bits(idx2bit(i)) & m` keeps exactly the marks strictly above `i`. */
  lemma LeftOf(m: BinMap, i: nat)
    requires i < 32
    ensures forall j: nat :: j < 32 ==> (Marked(And(LeftBits(Bit(i)), m), j) <==> i < j && Marked(m, j))
  {
    hide Amount, IsSet, LeftBits, PowerAt, And;
    forall j: nat | j < 32
      ensures Marked(And(LeftBits(Bit(i)), m), j) <==> i < j && Marked(m, j)
    {
      AmountOrder(i, j);
      LeftBitsSet(m, Amount(i), Amount(j));
    }
  }

  /** What `dlmalloc` reads off `smallbits = smallmap >> idx`: its two low bits tell about
      bins `idx` and `idx + 1`, and it is zero exactly when no bin from `idx` up is marked. */
  lemma SmallBits(m: BinMap, i: nat)
    requires i < 31
    ensures var smallbits := ShiftRight(m, Amount(i));
            && (EitherLow(smallbits) <==> Marked(m, i) || Marked(m, i + 1))
            && (SkipLow(smallbits) == 0 <==> Marked(m, i))
            && (smallbits != 0 <==> exists j: nat :: i <= j < 32 && Marked(m, j))
  {
    hide Amount, IsSet, EitherLow, SkipLow, ShiftRight, ShiftLeft;
    NextAmount(i);
    LowTwoSet(m, Amount(i));
    var back := ShiftLeft(ShiftRight(m, Amount(i)), Amount(i));
    ShiftBackNonZero(m, Amount(i));
    NonZeroHasMark(back);
    forall j: nat | j < 32
      ensures Marked(back, j) <==> i <= j && Marked(m, j)
    {
      AmountOrder(i, j);
      ShiftBackSet(m, Amount(i), Amount(j));
    }
  }

  /** `(smallbits << idx) & left_bits(idx2bit(idx))` keeps exactly the marks above `idx`. */
  lemma NextSmallBins(m: BinMap, i: nat)
    requires i < 32
    ensures var leftbits := And(ShiftLeft(ShiftRight(m, Amount(i)), Amount(i)), LeftBits(Bit(i)));
            forall j: nat :: j < 32 ==> (Marked(leftbits, j) <==> i < j && Marked(m, j))
  {
    hide Amount, IsSet, LeftBits, And, ShiftRight, ShiftLeft, PowerAt;
    var back := ShiftLeft(ShiftRight(m, Amount(i)), Amount(i));
    LeftOf(back, i);
    AndComm(back, LeftBits(Bit(i)));
    forall j: nat | j < 32
      ensures i < j ==> (Marked(back, j) <==> Marked(m, j))
    {
      AmountOrder(i, j);
      ShiftBackSet(m, Amount(i), Amount(j));
    }
  }
}
