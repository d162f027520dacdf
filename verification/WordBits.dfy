/** Bitwise `and` on words, as arithmetic. */
module WordBits {
  import opened SizeBits

  /** `a & b`. */
  function BitAnd(a: nat, b: nat): nat {
    if a == 0 || b == 0 then 0 else a % 2 * (b % 2) + 2 * BitAnd(a / 2, b / 2)
  }

  predicate IsPowerOfTwo(x: nat): (b: bool)
    ensures b ==> x > 0
  {
    x > 0 && (x == 1 || (x % 2 == 0 && IsPowerOfTwo(x / 2)))
  }

  lemma {:induction false} AndSelf(m: nat)
    ensures BitAnd(m, m) == m
  {
    if m > 0 {
      AndSelf(m / 2);
    }
  }

  /** `(x & (x - 1)) == 0` tests for a power of two. */
  lemma {:induction false} PowerOfTwoTest(x: nat)
    requires x > 0
    ensures BitAnd(x, x - 1) == 0 <==> IsPowerOfTwo(x)
  {
    if x == 1 {
    } else if x % 2 == 1 {
      assert (x - 1) / 2 == x / 2;
      AndSelf(x / 2);
    } else {
      assert (x - 1) / 2 == x / 2 - 1;
      PowerOfTwoTest(x / 2);
    }
  }

  lemma {:induction false} PowersOfTwo(x: nat) returns (k: nat)
    requires IsPowerOfTwo(x)
    ensures x == Pow2(k)
  {
    if x == 1 {
      k := 0;
    } else {
      k := PowersOfTwo(x / 2);
      k := k + 1;
    }
  }

  lemma {:induction false} Pow2IsPower(k: nat)
    ensures IsPowerOfTwo(Pow2(k))
  {
    if k > 0 {
      Pow2IsPower(k - 1);
    }
  }

  lemma AndEven(x: nat, b: nat)
    ensures BitAnd(x, 2 * b) == 2 * BitAnd(x / 2, b)
  {
  }

  lemma AndOdd(x: nat, b: nat)
    ensures BitAnd(x, 2 * b + 1) == x % 2 + 2 * BitAnd(x / 2, b)
  {
    assert (2 * b + 1) / 2 == b;
  }

  lemma HalfRemainder(x: nat, p: nat)
    requires p > 0
    ensures x % (2 * p) == x % 2 + 2 * (x / 2 % p)
  {
    var q, r := x / 2 / p, x / 2 % p;
    assert x / 2 == p * q + r;
    assert x == 2 * (x / 2) + x % 2;
    assert x == 2 * p * q + (2 * r + x % 2);
    QuotientIs(x, 2 * p, q, 2 * r + x % 2);
  }

  lemma QuotientIs(x: nat, p: nat, q: nat, r: nat)
    requires x == p * q + r && r < p
    ensures x % p == r
  {
    var d := x / p - q;
    assert x == p * (x / p) + x % p;
    assert p * (x / p) == p * q + p * d;
    Product(p, d);
    Product(p, -d);
    assert p * -d == -(p * d);
  }

  lemma Product(p: int, d: int)
    requires p > 0
    ensures d >= 1 ==> p * d >= p
  {
  }

  /** `x & (2^k - 1)` is the remainder. */
  lemma {:induction false} AndMask(x: nat, k: nat)
    ensures BitAnd(x, Pow2(k) - 1) == x % Pow2(k)
  {
    hide BitAnd;
    if k > 0 {
      AndMask(x / 2, k - 1);
      MaskStep(x, Pow2(k - 1));
    } else {
      AndZero(x);
    }
  }

  lemma AndZero(x: nat)
    ensures BitAnd(x, 0) == 0 && x % 1 == 0
  {
  }

  lemma MaskStep(x: nat, p: nat)
    requires p > 0 && BitAnd(x / 2, p - 1) == x / 2 % p
    ensures BitAnd(x, 2 * p - 1) == x % (2 * p)
  {
    hide BitAnd;
    AndOdd(x, p - 1);
    HalfRemainder(x, p);
  }

  /** `x & -2^k` in words of `n` bits: `x` rounded down. */
  lemma {:induction false} AndNegated(x: nat, k: nat, n: nat)
    requires k <= n && x < Pow2(n)
    ensures Pow2(k) <= Pow2(n)
    ensures BitAnd(x, Pow2(n) - Pow2(k)) == x - x % Pow2(k)
  {
    hide BitAnd;
    Pow2Monotone(k, n);
    if k == 0 {
      AndMask(x, n);
      SmallMod(x, Pow2(n));
    } else {
      AndNegated(x / 2, k - 1, n - 1);
      NegatedStep(x, Pow2(n - 1) - Pow2(k - 1), Pow2(k - 1));
    }
  }

  lemma NegatedStep(x: nat, b: nat, p: nat)
    requires p > 0 && BitAnd(x / 2, b) == x / 2 - x / 2 % p
    ensures BitAnd(x, 2 * b) == x - x % (2 * p)
  {
    hide BitAnd;
    AndEven(x, b);
    HalfRemainder(x, p);
  }

  lemma SmallMod(x: nat, p: nat)
    requires x < p
    ensures x % p == x
  {
  }
}
