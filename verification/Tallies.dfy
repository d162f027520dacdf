/** Sums over the threads of a pool: of a number each, and of what each has in hand. */
module Tallies {

  function Tally<W>(ws: seq<W>, weight: W -> nat): nat {
    if ws == [] then 0 else Tally(ws[..|ws| - 1], weight) + weight(ws[|ws| - 1])
  }

  lemma {:induction false} TallyChange<W>(ws: seq<W>, w: nat, x: W, weight: W -> nat)
    requires w < |ws|
    ensures Tally(ws[w := x], weight) == Tally(ws, weight) - weight(ws[w]) + weight(x)
  {
    var k := |ws| - 1;
    if w < k {
      TallyChange(ws[..k], w, x, weight);
      assert ws[w := x][..k] == ws[..k][w := x];
    } else {
      assert ws[w := x][..k] == ws[..k];
    }
  }

  /** A sum is zero exactly when all its numbers are. */
  lemma {:induction false} TallyZero<W>(ws: seq<W>, weight: W -> nat)
    ensures Tally(ws, weight) == 0 <==> forall w :: 0 <= w < |ws| ==> weight(ws[w]) == 0
  {
    if |ws| > 0 {
      TallyZero(ws[..|ws| - 1], weight);
    }
  }

  /** A sum of ones and zeros counts: it reaches the number of elements when all are ones. */
  lemma {:induction false} TallyAll<W>(ws: seq<W>, weight: W -> nat)
    requires forall w :: 0 <= w < |ws| ==> weight(ws[w]) <= 1
    ensures Tally(ws, weight) <= |ws|
    ensures Tally(ws, weight) == |ws| <==> forall w :: 0 <= w < |ws| ==> weight(ws[w]) == 1
  {
    if |ws| > 0 {
      TallyAll(ws[..|ws| - 1], weight);
    }
  }

  /** What all of them have in hand. */
  function InHand<W, T>(ws: seq<W>, held: W -> multiset<T>): multiset<T> {
    if ws == [] then multiset{} else InHand(ws[..|ws| - 1], held) + held(ws[|ws| - 1])
  }

  lemma {:induction false} HandsChange<W, T>(ws: seq<W>, w: nat, x: W, held: W -> multiset<T>)
    requires w < |ws|
    ensures InHand(ws[w := x], held) + held(ws[w]) == InHand(ws, held) + held(x)
  {
    var k := |ws| - 1;
    if w < k {
      HandsChange(ws[..k], w, x, held);
      assert ws[w := x][..k] == ws[..k][w := x];
      assert ws[w := x][k] == ws[k];
      Regroup(InHand(ws[..k][w := x], held), held(ws[w]), InHand(ws[..k], held), held(x), held(ws[k]));
    } else {
      assert ws[w := x][..k] == ws[..k];
    }
  }

  lemma Regroup<T>(a: multiset<T>, b: multiset<T>, c: multiset<T>, d: multiset<T>, e: multiset<T>)
    requires a + b == c + d
    ensures (a + e) + b == (c + e) + d
  {
    assert (a + e) + b == (a + b) + e;
  }

  lemma EmptyHands<T>(a: multiset<T>, b: multiset<T>)
    requires a + multiset{} == b + multiset{}
    ensures a == b
  {
    assert a + multiset{} == a && b + multiset{} == b;
  }

  lemma {:induction false} NothingInHand<W, T>(ws: seq<W>, held: W -> multiset<T>)
    requires forall w :: 0 <= w < |ws| ==> held(ws[w]) == multiset{}
    ensures InHand(ws, held) == multiset{}
  {
    if |ws| > 0 {
      NothingInHand(ws[..|ws| - 1], held);
    }
  }
}
