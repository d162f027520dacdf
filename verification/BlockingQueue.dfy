/** spdlog's `mpmc_blocking_queue` over the ring buffer. Each method is one atomic region; the
    waits are its preconditions. */
module BlockingQueue {
  import opened CircularQueue
  import opened QueueSteps

  class MpmcQueue<T(0)> {
    const q: CircularQ<T>
    var discardCounter: nat

    ghost predicate Valid()
      reads this, q
    {
      q.Valid() && discardCounter < SIZE_LIMIT
    }

    /** The queue as the steps see it. */
    ghost function State(): Queue<T>
      requires Valid()
      reads this, q, q.v
    {
      Queue(q.Contents(), q.Capacity(), q.maxItems == 0, q.overrunCounter, discardCounter)
    }

    constructor (maxItems: nat)
      requires maxItems < SIZE_LIMIT && (maxItems + 1) % SIZE_LIMIT <= VECTOR_LIMIT
      ensures Valid() && fresh(q) && fresh(q.v)
      ensures State() == Start<T>(maxItems, maxItems + 1 == SIZE_LIMIT).q
    {
      q := new CircularQ<T>(maxItems);
      discardCounter := 0;
    }

    /** `enqueue`, once its wait is over. */
    method Enqueue(item: T)
      requires Valid() && Ready(State(), Step.Enqueue(item))
      modifies q`head, q`tail, q`overrunCounter, q.v
      ensures Valid() && State() == After(old(State()), Step.Enqueue(item))
      ensures var s := old(State());
              State() == if s.disabled then s else Queue(s.items + [item], s.capacity, false, s.overruns, s.discards)
    {
      hide Ring, Span;
      q.PushBack(item);
    }

    method EnqueueNowait(item: T)
      requires Valid()
      modifies q`head, q`tail, q`overrunCounter, q.v
      ensures Valid() && State() == After(old(State()), Step.EnqueueNowait(item))
      ensures var s := old(State());
              State() == if s.disabled then s
                         else if |s.items| < s.capacity then
                           Queue(s.items + [item], s.capacity, false, s.overruns, s.discards)
                         else
                           Queue((s.items + [item])[1..], s.capacity, false, (s.overruns + 1) % SIZE_LIMIT, s.discards)
    {
      hide Ring, Span;
      q.PushBack(item);
    }

    /** The locked part of `enqueue_if_have_room`. */
    method PushIfRoom(item: T) returns (pushed: bool)
      requires Valid()
      modifies q`head, q`tail, q`overrunCounter, q.v
      ensures Valid() && State() == After(old(State()), Step.EnqueueIfHaveRoom(item))
      ensures pushed <==> !old(State()).Full()
    {
      pushed := false;
      if !q.Full() {
        q.PushBack(item);
        pushed := true;
      }
    }

    /** The rest of `enqueue_if_have_room` for an item turned away. */
    method CountDiscard()
      requires Valid()
      modifies this`discardCounter
      ensures Valid() && State() == After(old(State()), Step.CountDiscard)
    {
      discardCounter := (discardCounter + 1) % SIZE_LIMIT;
    }

    /** Both parts, when no other thread comes between. */
    method EnqueueIfHaveRoom(item: T)
      requires Valid()
      modifies this`discardCounter, q`head, q`tail, q`overrunCounter, q.v
      ensures Valid()
      ensures var refused := After(old(State()), Step.EnqueueIfHaveRoom(item));
              State() == if old(State()).Full() then After(refused, Step.CountDiscard) else refused
      ensures var s := old(State());
              State() == if s.disabled then s
                         else if |s.items| < s.capacity then
                           Queue(s.items + [item], s.capacity, false, s.overruns, s.discards)
                         else Queue(s.items, s.capacity, false, s.overruns, (s.discards + 1) % SIZE_LIMIT)
    {
      var pushed := PushIfRoom(item);
      if !pushed {
        CountDiscard();
      }
    }

    /** `dequeue`, once its wait is over. */
    method Dequeue() returns (item: T)
      requires Valid() && Ready(State(), Step<T>.Dequeue)
      modifies q`head
      ensures Valid() && State() == After(old(State()), Step<T>.Dequeue) && item == old(State()).items[0]
      ensures var s := old(State());
              [item] + State().items == s.items
              && State() == Queue(s.items[1..], s.capacity, s.disabled, s.overruns, s.discards)
    {
      item := q.Front();
      q.PopFront();
    }

    /** `dequeue_for`, when its wait ends: by then there is an item, or time has run out. */
    method DequeueFor() returns (item: Popped<T>)
      requires Valid()
      modifies q`head
      ensures Valid() && (item.Nothing? <==> old(State()).items == [])
      ensures State() == After(old(State()), if item.Nothing? then Step<T>.DequeueTimesOut else Step<T>.Dequeue)
      ensures item.Item? ==> item.x == old(State()).items[0]
    {
      if q.Empty() {
        return Nothing;
      }
      var x := Dequeue();
      return Item(x);
    }

    method OverrunCounter() returns (n: nat)
      requires Valid()
      ensures n == State().overruns
    {
      n := q.overrunCounter;
    }

    method DiscardCounter() returns (n: nat)
      requires Valid()
      ensures n == State().discards
    {
      n := discardCounter;
    }

    method Size() returns (n: nat)
      requires Valid()
      ensures n == |State().items|
    {
      n := q.Size();
    }

    method ResetOverrunCounter()
      requires Valid()
      modifies q`overrunCounter
      ensures Valid() && State() == After(old(State()), Step<T>.ResetOverruns)
    {
      q.ResetOverrunCounter();
    }

    method ResetDiscardCounter()
      requires Valid()
      modifies this`discardCounter
      ensures Valid() && State() == After(old(State()), Step<T>.ResetDiscards)
    {
      discardCounter := 0;
    }
  }

  datatype Popped<T> = Nothing | Item(x: T)
}
