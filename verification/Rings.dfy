/** Circular doubly-linked lists threaded through chunks by their `fd` and `bk` words. A ring
    is listed in `bk` order: `bk` leads from each member to the next, and from the last one
    back to the first. Small bins (whose ring starts with the bin header) and the chains of
    same-sized tree chunks are both rings, linked and unlinked by the same word updates. */
module Rings {
  import opened Words

  function Next(k: nat, n: nat): nat
    requires k < n
  {
    if k + 1 == n then 0 else k + 1
  }

  function Previous(k: nat, n: nat): nat
    requires k < n
  {
    if k == 0 then n - 1 else k - 1
  }

  ghost predicate Linked(mem: Memory, r: seq<int>) {
    && (forall k {:trigger Bk(r[k])} :: 0 <= k < |r| ==> Peek(mem, Bk(r[k])) == r[Next(k, |r|)])
    && (forall k {:trigger Fd(r[k])} :: 0 <= k < |r| ==> Peek(mem, Fd(r[k])) == r[Previous(k, |r|)])
  }

  /** Members are distinct chunk addresses. */
  ghost predicate Members(r: seq<int>) {
    && (forall k :: 0 <= k < |r| ==> r[k] % 16 == 0)
    && (forall j, k :: 0 <= j < k < |r| ==> r[j] != r[k])
  }

  /** `F->bk = B; B->fd = F`. */
  function Bypass(mem: Memory, f: int, b: int): Memory {
    mem[Bk(f) := b][Fd(b) := f]
  }

  /** `T->fd = F->bk = X; X->fd = F; X->bk = T`, with `F` the old `T->fd`. */
  function Append(mem: Memory, t: int, f: int, x: int): Memory {
    mem[Fd(t) := x][Bk(f) := x][Fd(x) := f][Bk(x) := t]
  }

  function Without<T>(r: seq<T>, j: nat): (s: seq<T>)
    requires j < |r|
    ensures |s| == |r| - 1
    ensures forall k :: 0 <= k < |s| ==> s[k] == if k < j then r[k] else r[k + 1]
  {
    r[..j] + r[j + 1..]
  }

  lemma LinkedFrame(mem: Memory, mem': Memory, r: seq<int>)
    requires Linked(mem, r)
    requires forall k {:trigger Bk(r[k])} :: 0 <= k < |r| ==> Peek(mem', Bk(r[k])) == Peek(mem, Bk(r[k]))
    requires forall k {:trigger Fd(r[k])} :: 0 <= k < |r| ==> Peek(mem', Fd(r[k])) == Peek(mem, Fd(r[k]))
    ensures Linked(mem', r)
  {
  }

  /** Bypassing a member leaves a ring of the others, in the same order. */
  lemma UnlinkMember(mem: Memory, r: seq<int>, j: nat)
    requires Linked(mem, r) && Members(r) && j < |r| && |r| >= 2
    ensures var f, b := Peek(mem, Fd(r[j])), Peek(mem, Bk(r[j]));
            && f == r[Previous(j, |r|)] && b == r[Next(j, |r|)]
            && Linked(Bypass(mem, f, b), Without(r, j))
            && Members(Without(r, j))
  {
    hide Bypass;
    MembersWithout(r, j);
    var s := Without(r, j);
    forall k | 0 <= k < |s|
      ensures UnlinkedAt(mem, r, j, k)
    {
      UnlinkStep(mem, r, j, k);
    }
    assert forall k {:trigger Bk(s[k])} :: 0 <= k < |s| ==> UnlinkedAt(mem, r, j, k);
    assert forall k {:trigger Fd(s[k])} :: 0 <= k < |s| ==> UnlinkedAt(mem, r, j, k);
  }

  ghost predicate UnlinkedAt(mem: Memory, r: seq<int>, j: nat, k: int)
    requires j < |r| && 0 <= k < |r| - 1
  {
    var s := Without(r, j);
    var mem' := Bypass(mem, r[Previous(j, |r|)], r[Next(j, |r|)]);
    Peek(mem', Bk(s[k])) == s[Next(k, |s|)] && Peek(mem', Fd(s[k])) == s[Previous(k, |s|)]
  }

  lemma UnlinkStep(mem: Memory, r: seq<int>, j: nat, k: int)
    requires Linked(mem, r) && Members(r) && j < |r| && 0 <= k < |r| - 1
    ensures UnlinkedAt(mem, r, j, k)
  {
    hide Bypass;
    var f, b, s := r[Previous(j, |r|)], r[Next(j, |r|)], Without(r, j);
    BypassWords(mem, f, b, s[k]);
    if k < j {
      NeighboursBefore(mem, r, j, k);
    } else {
      NeighboursAfter(mem, r, j, k + 1);
    }
  }

  lemma MembersWithout(r: seq<int>, j: nat)
    requires Members(r) && j < |r|
    ensures Members(Without(r, j))
  {
  }

  lemma NeighboursBefore(mem: Memory, r: seq<int>, j: nat, i: nat)
    requires Linked(mem, r) && Members(r) && i < j < |r|
    ensures var f, b, s := r[Previous(j, |r|)], r[Next(j, |r|)], Without(r, j);
            && (if r[i] == f then b else Peek(mem, Bk(r[i]))) == s[Next(i, |s|)]
            && (if r[i] == b then f else Peek(mem, Fd(r[i]))) == s[Previous(i, |s|)]
  {
  }

  lemma NeighboursAfter(mem: Memory, r: seq<int>, j: nat, i: nat)
    requires Linked(mem, r) && Members(r) && j < i < |r|
    ensures var f, b, s := r[Previous(j, |r|)], r[Next(j, |r|)], Without(r, j);
            && (if r[i] == f then b else Peek(mem, Bk(r[i]))) == s[Next(i - 1, |s|)]
            && (if r[i] == b then f else Peek(mem, Fd(r[i]))) == s[Previous(i - 1, |s|)]
  {
  }

  lemma BypassWords(mem: Memory, f: int, b: int, x: int)
    requires f % 16 == 0 && b % 16 == 0 && x % 16 == 0
    ensures Peek(Bypass(mem, f, b), Bk(x)) == if x == f then b else Peek(mem, Bk(x))
    ensures Peek(Bypass(mem, f, b), Fd(x)) == if x == b then f else Peek(mem, Fd(x))
  {
  }

  /** Linking `x` in front of the first member (at its `fd`) makes it the last in `bk`
      order: members leave through the first member's `bk` oldest first. */
  lemma AppendMember(mem: Memory, r: seq<int>, x: int)
    requires |r| > 0 && Members(r) && x % 16 == 0 && x !in r
    requires Linked(mem, r)
    ensures Peek(mem, Fd(r[0])) == r[|r| - 1]
    ensures Linked(Append(mem, r[0], r[|r| - 1], x), r + [x])
    ensures Members(r + [x])
  {
    var t, f := r[0], r[|r| - 1];
    var mem', s := Append(mem, t, f, x), r + [x];
    forall k | 0 <= k < |s|
      ensures Peek(mem', Bk(s[k])) == s[Next(k, |s|)]
      ensures Peek(mem', Fd(s[k])) == s[Previous(k, |s|)]
    {
      AppendWords(mem, t, f, x, s[k]);
    }
  }

  /** A header alone needs no valid links before the first member arrives. */
  lemma AppendFirst(mem: Memory, h: int, x: int)
    requires h % 16 == 0 && x % 16 == 0 && h != x
    ensures Linked(Append(mem, h, h, x), [h, x]) && Members([h, x])
  {
    AppendWords(mem, h, h, x, h);
    AppendWords(mem, h, h, x, x);
  }

  lemma AppendWords(mem: Memory, t: int, f: int, x: int, y: int)
    requires t % 16 == 0 && f % 16 == 0 && x % 16 == 0 && y % 16 == 0 && x != t && x != f
    ensures Peek(Append(mem, t, f, x), Bk(y)) == if y == x then t else if y == f then x else Peek(mem, Bk(y))
    ensures Peek(Append(mem, t, f, x), Fd(y)) == if y == x then f else if y == t then x else Peek(mem, Fd(y))
  {
  }
}
