/** spdlog's `circular_q`: a ring buffer with one reserved slot, which drops its oldest item
    when it is full. It refines a sequence of bounded length. */
module CircularQueue {
  import opened WordBits

  const SIZE_LIMIT := 0x1_0000_0000_0000_0000

  /** More cells than this no `std::vector` can have: its constructor throws. */
  const VECTOR_LIMIT := 0x8000_0000_0000_0000

  /** What is in a bounded queue after one more item: the oldest gives way when there is no
      room. */
  function Pushed<T>(items: seq<T>, capacity: nat, item: T): seq<T> {
    if |items| < capacity then items + [item] else (items + [item])[1..]
  }

  /** The `size` cells from `head` on, around the end of the buffer if need be. */
  function Ring<T>(cells: seq<T>, head: nat, size: nat): (s: seq<T>)
    requires head <= |cells| && size <= |cells|
    ensures |s| == size
  {
    if head + size <= |cells| then cells[head..head + size] else cells[head..] + cells[..head + size - |cells|]
  }

  /** `x % n` for an index that is at most once around: the indices below are all computed so. */
  function Around(x: nat, n: nat): (j: nat)
    requires x < 2 * n
    ensures j < n
  {
    if x >= n then x - n else x
  }

  /** In `size_t` arithmetic, too: the sum before the `%` cannot wrap. */
  lemma AroundIsModulo(x: nat, n: nat)
    requires x < 2 * n && n <= VECTOR_LIMIT
    ensures Around(x, n) == (x % SIZE_LIMIT) % n
  {
    QuotientIs(x, SIZE_LIMIT, 0, x);
    if x >= n {
      QuotientIs(x, n, 1, x - n);
    } else {
      QuotientIs(x, n, 0, x);
    }
  }

  /** The cell after `i`. */
  function Step(i: nat, n: nat): (j: nat)
    requires i < n
    ensures j < n
  {
    Around(i + 1, n)
  }

  /** The number of cells from `head` up to `tail`. */
  function Span(head: nat, tail: nat, n: nat): nat
    requires head <= n
  {
    if tail >= head then tail - head else n - (head - tail)
  }

  lemma RingAt<T>(cells: seq<T>, head: nat, size: nat, i: nat)
    requires head < |cells| && size <= |cells| && i < size
    ensures Ring(cells, head, size)[i] == cells[Around(head + i, |cells|)]
  {
  }

  /** The cells of the queue are the `size` cells from `head` on; the tail is the next one. */
  lemma TailBehind(head: nat, tail: nat, n: nat, i: nat)
    requires head < n && tail < n && i <= Span(head, tail, n)
    ensures Span(head, tail, n) < n && (Around(head + i, n) == tail <==> i == Span(head, tail, n))
  {
  }

  /** Writing the cell at the tail makes the item the last one. */
  lemma RingAppend<T>(cells: seq<T>, head: nat, tail: nat, item: T)
    requires head < |cells| && tail < |cells|
    ensures var size := Span(head, tail, |cells|);
            size < |cells| && Ring(cells[tail := item], head, size + 1) == Ring(cells, head, size) + [item]
  {
    hide Ring, Around, Span;
    var n, cells', size := |cells|, cells[tail := item], Span(head, tail, |cells|);
    TailBehind(head, tail, n, 0);
    forall i | 0 <= i < size + 1
      ensures Ring(cells', head, size + 1)[i] == (Ring(cells, head, size) + [item])[i]
    {
      TailBehind(head, tail, n, i);
      RingAt(cells', head, size + 1, i);
      if i < size {
        RingAt(cells, head, size, i);
      }
    }
  }

  /** Dropping the first item and moving the head on come to the same. */
  lemma RingRest<T>(cells: seq<T>, head: nat, size: nat)
    requires head < |cells| && 0 < size <= |cells|
    ensures Ring(cells, Step(head, |cells|), size - 1) == Ring(cells, head, size)[1..]
  {
    forall i | 0 <= i < size - 1
      ensures Ring(cells, Step(head, |cells|), size - 1)[i] == Ring(cells, head, size)[1..][i]
    {
      RingAt(cells, Step(head, |cells|), size - 1, i);
      RingAt(cells, head, size, i + 1);
    }
  }

  lemma Spans(head: nat, tail: nat, n: nat)
    requires head < n && tail < n
    ensures var size, t := Span(head, tail, n), Step(tail, n);
            && (t != head ==> Span(head, t, n) == size + 1 < n)
            && (t == head ==> Span(Step(head, n), t, n) == size == n - 1)
  {
  }

  /** Writing the cell at the tail and moving the tail on; when it meets the head, the head
      moves on too. */
  lemma RingPush<T>(cells: seq<T>, head: nat, tail: nat, item: T)
    requires head < |cells| && tail < |cells|
    ensures var n, cells', t := |cells|, cells[tail := item], Step(tail, |cells|);
            var items := Ring(cells, head, Span(head, tail, n));
            && (t != head ==> Ring(cells', head, Span(head, t, n)) == items + [item] && |items| + 1 < n)
            && (t == head ==> |items| + 1 == n)
            && (t == head ==>
                 Ring(cells', Step(head, n), Span(Step(head, n), t, n)) == (items + [item])[1..])
  {
    hide Ring, Around, Span, Step;
    var n := |cells|;
    Spans(head, tail, n);
    RingAppend(cells, head, tail, item);
    RingRest(cells[tail := item], head, Span(head, tail, n) + 1);
  }

  lemma RingPop<T>(cells: seq<T>, head: nat, tail: nat)
    requires head < |cells| && tail < |cells| && head != tail
    ensures var n := |cells|;
            var items := Ring(cells, head, Span(head, tail, n));
            && Ring(cells, Step(head, n), Span(Step(head, n), tail, n)) == items[1..]
            && |items| > 0 && items[0] == cells[head]
  {
  }

  class CircularQ<T(0)> {
    var maxItems: nat
    var head: nat
    var tail: nat
    var overrunCounter: nat
    var v: array<T>

    ghost predicate Valid()
      reads this
    {
      && v.Length == maxItems <= VECTOR_LIMIT && overrunCounter < SIZE_LIMIT
      && (maxItems == 0 ==> head == 0 && tail == 0)
      && (maxItems > 0 ==> head < maxItems && tail < maxItems)
    }

    /** The items in the queue, oldest first. */
    ghost function Contents(): (s: seq<T>)
      requires Valid()
      reads this, v
      ensures |s| == Size()
    {
      Ring(v[..], head, Span(head, tail, maxItems))
    }

    /** How many items fit; a disabled queue holds none. */
    function Capacity(): nat
      reads this
    {
      if maxItems == 0 then 0 else maxItems - 1
    }

    /** A queue disabled from the start. */
    constructor Disabled()
      ensures Valid() && maxItems == 0 && Contents() == [] && overrunCounter == 0 && fresh(v)
    {
      maxItems, head, tail, overrunCounter := 0, 0, 0, 0;
      v := new T[0];
    }

    /** A queue for `n` items. One slot more is reserved; for the largest `n` that sum wraps,
        and the queue is disabled. */
    constructor (n: nat)
      requires n < SIZE_LIMIT && (n + 1) % SIZE_LIMIT <= VECTOR_LIMIT
      ensures Valid() && Contents() == [] && overrunCounter == 0 && fresh(v)
      ensures n + 1 < SIZE_LIMIT ==> maxItems == n + 1 && Capacity() == n
      ensures n + 1 == SIZE_LIMIT ==> maxItems == 0
    {
      var m := (n + 1) % SIZE_LIMIT;
      maxItems, head, tail, overrunCounter := m, 0, 0, 0;
      v := new T[m];
    }

    /** `size`. */
    function Size(): (n: nat)
      requires Valid()
      reads this
      ensures n == Span(head, tail, maxItems) <= Capacity()
    {
      if tail >= head then tail - head else maxItems - (head - tail)
    }

    /** `empty`. */
    predicate Empty()
      requires Valid()
      reads this
      ensures Empty() <==> Size() == 0
    {
      tail == head
    }

    /** `full`; a disabled queue is never full. */
    predicate Full()
      requires Valid()
      reads this
      ensures Full() <==> maxItems > 0 && Size() == Capacity()
    {
      if maxItems > 0 then Step(tail, maxItems) == head else false
    }

    /** `front`. */
    function Front(): (x: T)
      requires Valid() && !Empty()
      reads this, v
      ensures x == Contents()[0]
    {
      v[head]
    }

    /** `at`. */
    function At(i: nat): (x: T)
      requires Valid() && i < Size()
      reads this, v
      ensures x == Contents()[i]
    {
      RingAt(v[..], head, Size(), i);
      v[Around(head + i, maxItems)]
    }

    method PushBack(item: T)
      requires Valid()
      modifies this`head, this`tail, this`overrunCounter, v
      ensures Valid()
      ensures Contents() == if maxItems == 0 then old(Contents()) else Pushed(old(Contents()), Capacity(), item)
      ensures overrunCounter == (old(overrunCounter) + (if old(Full()) then 1 else 0)) % SIZE_LIMIT
      ensures old(maxItems) == maxItems
      ensures var s, n := old(Contents()), maxItems - 1;
              if maxItems == 0 then Contents() == s && overrunCounter == old(overrunCounter)
              else if |s| < n then Contents() == s + [item] && overrunCounter == old(overrunCounter)
              else Contents() == (s + [item])[1..] && overrunCounter == (old(overrunCounter) + 1) % SIZE_LIMIT
    {
      hide Ring, Around;
      if maxItems > 0 {
        ghost var cells := v[..];
        RingPush(cells, head, tail, item);
        v[tail] := item;
        assert v[..] == cells[tail := item];
        tail := Step(tail, maxItems);
        if tail == head {
          head := Step(head, maxItems);
          overrunCounter := (overrunCounter + 1) % SIZE_LIMIT;
        }
      }
    }

    method PopFront()
      requires Valid() && !Empty()
      modifies this`head
      ensures Valid() && Contents() == old(Contents())[1..]
    {
      RingPop(v[..], head, tail);
      head := Step(head, maxItems);
    }

    method ResetOverrunCounter()
      requires Valid()
      modifies this`overrunCounter
      ensures Valid() && overrunCounter == 0 && Contents() == old(Contents())
    {
      overrunCounter := 0;
    }

    /** `copy_moveable`: this queue takes over the other's items and counter, and the other is
        left disabled and empty. */
    method CopyMoveable(other: CircularQ<T>)
      requires other != this && other.Valid()
      modifies this, other
      ensures Valid() && Contents() == old(other.Contents()) && overrunCounter == old(other.overrunCounter)
      ensures maxItems == old(other.maxItems)
      ensures other.Valid() && other.maxItems == 0 && other.Contents() == [] && other.overrunCounter == 0
    {
      maxItems := other.maxItems;
      head := other.head;
      tail := other.tail;
      overrunCounter := other.overrunCounter;
      v := other.v;
      other.v := new T[0];
      other.maxItems := 0;
      other.head, other.tail := 0, 0;
      other.overrunCounter := 0;
    }
  }
}
