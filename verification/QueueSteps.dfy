/** The blocking queue as the interleaving of its steps. Every method is one region under the
    queue's mutex, except that a refused item is counted after the mutex is released. Any
    number of threads may take these steps in any order in which their waits let them. */
module QueueSteps {
  import opened CircularQueue

  datatype Queue<T> = Queue(items: seq<T>, capacity: nat, disabled: bool, overruns: nat, discards: nat) {
    predicate Full() {
      !disabled && |items| == capacity
    }

    function Push(x: T): Queue<T> {
      if disabled then this
      else this.(items := Pushed(items, capacity, x),
                 overruns := (overruns + if Full() then 1 else 0) % SIZE_LIMIT)
    }
  }

  datatype Step<T> =
    | Enqueue(x: T)
    | EnqueueNowait(x: T)
    | EnqueueIfHaveRoom(x: T)
    | CountDiscard
    | Dequeue
    | DequeueTimesOut
    | ResetOverruns
    | ResetDiscards

  /** What the condition variables wait for. */
  predicate Ready<T>(q: Queue<T>, step: Step<T>) {
    match step
    case Enqueue(_) => !q.Full()
    case Dequeue => |q.items| > 0
    case DequeueTimesOut => |q.items| == 0
    case _ => true
  }

  function After<T>(q: Queue<T>, step: Step<T>): Queue<T>
    requires Ready(q, step)
  {
    match step
    case Enqueue(x) => q.Push(x)
    case EnqueueNowait(x) => q.Push(x)
    case EnqueueIfHaveRoom(x) => if q.Full() then q else q.Push(x)
    case CountDiscard => q.(discards := (q.discards + 1) % SIZE_LIMIT)
    case Dequeue => q.(items := q.items[1..])
    case DequeueTimesOut => q
    case ResetOverruns => q.(overruns := 0)
    case ResetDiscards => q.(discards := 0)
  }

  /** What has happened so far. An item the queue accepted is known by its number. `lost` are
      the items dropped again; `refused` counts the items turned away, of which `pending` are
      not counted yet. */
  datatype History<T> = History(
    accepted: seq<T>, delivered: seq<T>, taken: seq<nat>, queued: seq<nat>, lost: set<nat>,
    refused: nat, pending: nat, lostAtReset: nat, countedAtReset: nat)

  datatype System<T> = System(q: Queue<T>, h: History<T>) {
    predicate Aligned() {
      |h.queued| == |q.items| && h.pending <= h.refused
    }
  }

  function Start<T>(capacity: nat, disabled: bool): System<T> {
    System(Queue([], if disabled then 0 else capacity, disabled, 0, 0), History([], [], [], [], {}, 0, 0, 0, 0))
  }

  predicate CanStep<T>(s: System<T>, step: Step<T>) {
    Ready(s.q, step) && (step.CountDiscard? ==> s.h.pending > 0)
  }

  function RecordPush<T>(q: Queue<T>, h: History<T>, x: T): History<T>
    requires |h.queued| == |q.items|
  {
    var n := |h.accepted|;
    var all := h.queued + [n];
    if q.disabled then h.(accepted := h.accepted + [x], lost := h.lost + {n})
    else if |q.items| < q.capacity then h.(accepted := h.accepted + [x], queued := all)
    else h.(accepted := h.accepted + [x], queued := all[1..], lost := h.lost + {all[0]})
  }

  function Record<T>(q: Queue<T>, h: History<T>, step: Step<T>): History<T>
    requires |h.queued| == |q.items| && h.pending <= h.refused
    requires Ready(q, step) && (step.CountDiscard? ==> h.pending > 0)
  {
    match step
    case Enqueue(x) => RecordPush(q, h, x)
    case EnqueueNowait(x) => RecordPush(q, h, x)
    case EnqueueIfHaveRoom(x) =>
      if q.Full() then h.(refused := h.refused + 1, pending := h.pending + 1) else RecordPush(q, h, x)
    case CountDiscard => h.(pending := h.pending - 1)
    case Dequeue =>
      h.(delivered := h.delivered + [q.items[0]], taken := h.taken + [h.queued[0]], queued := h.queued[1..])
    case DequeueTimesOut => h
    case ResetOverruns => h.(lostAtReset := |h.lost|)
    case ResetDiscards => h.(countedAtReset := h.refused - h.pending)
  }

  function Next<T>(s: System<T>, step: Step<T>): (s': System<T>)
    requires s.Aligned() && CanStep(s, step)
    ensures s'.Aligned()
  {
    System(After(s.q, step), Record(s.q, s.h, step))
  }

  /** The steps, taken from the start, lead to `s`. */
  ghost predicate Leads<T(!new)>(capacity: nat, disabled: bool, steps: seq<Step<T>>, s: System<T>): (b: bool)
    ensures b ==> s.Aligned()
    decreases |steps|
  {
    if steps == [] then s == Start(capacity, disabled)
    else
      var k := |steps| - 1;
      exists p :: Leads(capacity, disabled, steps[..k], p) && CanStep(p, steps[k]) && s == Next(p, steps[k])
  }

  predicate Increasing(s: seq<nat>) {
    forall i, j :: 0 <= i < j < |s| ==> s[i] < s[j]
  }

  /** `xs` are the items with these numbers, in order. */
  predicate Are<T(==)>(xs: seq<T>, numbers: seq<nat>, accepted: seq<T>) {
    |xs| == |numbers| && forall i :: 0 <= i < |xs| ==> numbers[i] < |accepted| && xs[i] == accepted[numbers[i]]
  }

  /** Every accepted item was either lost, or delivered or still queued: the delivered items
      followed by the queued ones are the accepted items in order, minus the lost ones. */
  predicate InOrder<T(==)>(h: History<T>, items: seq<T>) {
    && Are(h.delivered, h.taken, h.accepted) && Are(items, h.queued, h.accepted)
    && Increasing(h.taken + h.queued)
    && (forall i: nat :: i in h.taken + h.queued ==> i !in h.lost)
    && (forall i: nat :: i in h.lost ==> i < |h.accepted|)
    && (forall i: nat :: i < |h.accepted| ==> i in h.lost || i in h.taken + h.queued)
  }

  /** The counters tell exactly what was dropped and what was turned away since their last
      reset, modulo the width of `size_t`. A disabled queue counts nothing. */
  predicate Counted<T>(s: System<T>) {
    && s.h.lostAtReset <= |s.h.lost| && s.h.countedAtReset + s.h.pending <= s.h.refused
    && s.q.overruns == (if s.q.disabled then 0 else (|s.h.lost| - s.h.lostAtReset) % SIZE_LIMIT)
    && s.q.discards == (s.h.refused - s.h.pending - s.h.countedAtReset) % SIZE_LIMIT
  }

  predicate Accounted<T(==)>(s: System<T>) {
    && InOrder(s.h, s.q.items) && Counted(s) && |s.q.items| <= s.q.capacity
    && (s.q.disabled ==> s.q.items == [] && |s.h.taken| == 0 && |s.h.lost| == |s.h.accepted|)
  }

  lemma PushInOrder<T>(q: Queue<T>, h: History<T>, x: T)
    requires InOrder(h, q.items) && |q.items| <= q.capacity && (q.disabled ==> q.items == [])
    ensures InOrder(RecordPush(q, h, x), q.Push(x).items)
  {
    var h2, n := RecordPush(q, h, x), |h.accepted|;
    var order, order2 := h.taken + h.queued, h2.taken + h2.queued;
    var all := h.queued + [n];
    assert forall i :: 0 <= i < |order| ==> order[i] < n by {
      forall i | 0 <= i < |order| ensures order[i] < n {
        assert order[i] in order;
        assert i < |h.taken| ==> order[i] == h.taken[i];
        assert i >= |h.taken| ==> order[i] == h.queued[i - |h.taken|];
      }
    }
    assert h2.accepted == h.accepted + [x];
    if q.disabled {
      assert order2 == order;
    } else if |q.items| < q.capacity {
      assert order2 == order + [n];
    } else {
      DropOldest(h, n);
    }
  }

  lemma DropOldest<T>(h: History<T>, n: nat)
    requires Increasing(h.taken + h.queued)
    requires forall i :: 0 <= i < |h.taken + h.queued| ==> (h.taken + h.queued)[i] < n
    ensures var all := h.queued + [n];
            var order := h.taken + all[1..];
            && Increasing(order)
            && (forall i :: i in order <==> (i in h.taken + h.queued || i == n) && i != all[0])
  {
    var all := h.queued + [n];
    var full, order, k := h.taken + all, h.taken + all[1..], |h.taken|;
    assert full == h.taken + h.queued + [n];
    assert order == full[..k] + full[k + 1..];
    assert full[k] == all[0];
    AppendLargest(h.taken + h.queued, n);
    assert forall i :: i in full <==> i in h.taken + h.queued || i == n;
    Without(full, k);
  }

  lemma AppendLargest(s: seq<nat>, n: nat)
    requires Increasing(s) && forall i :: 0 <= i < |s| ==> s[i] < n
    ensures Increasing(s + [n]) && forall i :: i in s + [n] <==> i in s || i == n
  {
  }

  lemma Without(s: seq<nat>, k: nat)
    requires Increasing(s) && k < |s|
    ensures Increasing(s[..k] + s[k + 1..])
    ensures forall i :: i in s[..k] + s[k + 1..] <==> i in s && i != s[k]
  {
    var order := s[..k] + s[k + 1..];
    assert forall j :: 0 <= j < |order| ==> order[j] == if j < k then s[j] else s[j + 1];
    forall i | i in s && i != s[k] ensures i in order {
      var j :| 0 <= j < |s| && s[j] == i;
      assert i == if j < k then order[j] else order[j - 1];
    }
  }

  lemma DequeueInOrder<T>(q: Queue<T>, h: History<T>, h2: History<T>)
    requires InOrder(h, q.items) && |q.items| > 0
    requires h2.accepted == h.accepted && h2.lost == h.lost && h2.delivered == h.delivered + [q.items[0]]
    requires h2.taken == h.taken + [h.queued[0]] && h2.queued == h.queued[1..]
    ensures InOrder(h2, q.items[1..])
  {
    assert h2.taken + h2.queued == h.taken + h.queued;
  }

  lemma StillInOrder<T>(items: seq<T>, h: History<T>, h2: History<T>)
    requires InOrder(h, items)
    requires h2.accepted == h.accepted && h2.lost == h.lost && h2.delivered == h.delivered
    requires h2.taken == h.taken && h2.queued == h.queued
    ensures InOrder(h2, items)
  {
  }

  lemma LostOne<T>(q: Queue<T>, h: History<T>, x: T)
    requires InOrder(h, q.items) && |q.items| <= q.capacity && (q.disabled ==> q.items == [])
    ensures |RecordPush(q, h, x).lost| == |h.lost| + if q.disabled || q.Full() then 1 else 0
  {
    var n, all := |h.accepted|, h.queued + [|h.accepted|];
    assert n !in h.lost;
    if |h.queued| > 0 {
      assert all[0] == h.queued[0] && h.queued[0] in h.taken + h.queued;
    }
  }

  lemma OneMore(x: nat, y: nat)
    requires x == y % SIZE_LIMIT
    ensures (x + 1) % SIZE_LIMIT == (y + 1) % SIZE_LIMIT
  {
  }

  lemma PushAccounted<T>(s: System<T>, x: T)
    requires s.Aligned() && Accounted(s)
    ensures Accounted(System(s.q.Push(x), RecordPush(s.q, s.h, x)))
  {
    PushInOrder(s.q, s.h, x);
    LostOne(s.q, s.h, x);
    if !s.q.disabled && s.q.Full() {
      OneMore(s.q.overruns, |s.h.lost| - s.h.lostAtReset);
    }
  }

  lemma StepAccounted<T>(s: System<T>, step: Step<T>)
    requires s.Aligned() && CanStep(s, step) && Accounted(s)
    ensures Accounted(Next(s, step))
  {
    hide InOrder, Pushed;
    var s2 := Next(s, step);
    match step
    case Enqueue(x) => PushAccounted(s, x);
    case EnqueueNowait(x) => PushAccounted(s, x);
    case EnqueueIfHaveRoom(x) =>
      if s.q.Full() {
        StillInOrder(s.q.items, s.h, s2.h);
      } else {
        PushAccounted(s, x);
      }
    case Dequeue => DequeueInOrder(s.q, s.h, s2.h);
    case CountDiscard =>
      OneMore(s.q.discards, s.h.refused - s.h.pending - s.h.countedAtReset);
      StillInOrder(s.q.items, s.h, s2.h);
    case _ => StillInOrder(s.q.items, s.h, s2.h);
  }

  /** Conservation, over every interleaving of any threads' steps. */
  lemma {:induction false} Conservation<T(!new)>(capacity: nat, disabled: bool, steps: seq<Step<T>>, s: System<T>)
    requires Leads(capacity, disabled, steps, s)
    ensures Accounted(s)
    decreases |steps|
  {
    if |steps| > 0 {
      var k := |steps| - 1;
      var p :| Leads(capacity, disabled, steps[..k], p) && CanStep(p, steps[k]) && s == Next(p, steps[k]);
      Conservation(capacity, disabled, steps[..k], p);
      StepAccounted(p, steps[k]);
    }
  }

  /** In an enabled queue only an `enqueue_nowait` that finds it full loses an item, and it
      loses one. */
  lemma OnlyNowaitLoses<T>(s: System<T>, step: Step<T>)
    requires s.Aligned() && CanStep(s, step) && Accounted(s) && !s.q.disabled
    ensures Next(s, step).q.disabled == s.q.disabled && Next(s, step).q.capacity == s.q.capacity
    ensures if step.EnqueueNowait? && s.q.Full() then |Next(s, step).h.lost| == |s.h.lost| + 1
            else Next(s, step).h.lost == s.h.lost
  {
    match step
    case EnqueueNowait(x) => LostOne(s.q, s.h, x);
    case _ =>
  }

  /** The number of `enqueue_nowait` calls. */
  function Nowaits<T>(steps: seq<Step<T>>): nat {
    if steps == [] then 0
    else Nowaits(steps[..|steps| - 1]) + if steps[|steps| - 1].EnqueueNowait? then 1 else 0
  }

  /** So in any run that mixes the policies no more items are lost than that. */
  lemma {:induction false} LostByNowait<T(!new)>(capacity: nat, steps: seq<Step<T>>, s: System<T>)
    requires Leads(capacity, false, steps, s)
    ensures !s.q.disabled && |s.h.lost| <= Nowaits(steps)
    decreases |steps|
  {
    hide Accounted;
    if |steps| > 0 {
      var k := |steps| - 1;
      var p :| Leads(capacity, false, steps[..k], p) && CanStep(p, steps[k]) && s == Next(p, steps[k]);
      hide Next, CanStep;
      LostByNowait(capacity, steps[..k], p);
      Conservation(capacity, false, steps[..k], p);
      OnlyNowaitLoses(p, steps[k]);
    }
  }

  lemma {:induction false} NoNowaits<T>(steps: seq<Step<T>>)
    requires forall i :: 0 <= i < |steps| ==> !steps[i].EnqueueNowait?
    ensures Nowaits(steps) == 0
  {
    if steps != [] {
      NoNowaits(steps[..|steps| - 1]);
    }
  }

  /** Without `enqueue_nowait`, nothing is lost. */
  lemma BlockingLosesNothing<T(!new)>(capacity: nat, steps: seq<Step<T>>, s: System<T>)
    requires Leads(capacity, false, steps, s)
    requires forall i :: 0 <= i < |steps| ==> !steps[i].EnqueueNowait?
    ensures !s.q.disabled && s.h.lost == {}
  {
    LostByNowait(capacity, steps, s);
    NoNowaits(steps);
  }

  lemma {:induction false} Enumerates(order: seq<nat>, n: nat, i: nat)
    requires Increasing(order) && i < |order|
    requires forall j :: 0 <= j < |order| ==> order[j] < n
    requires forall j: nat :: j < n ==> j in order
    ensures order[i] == i
    decreases i
  {
    if i > 0 {
      Enumerates(order, n, i - 1);
    }
    if order[i] > i {
      assert i in order;
      var j :| 0 <= j < |order| && order[j] == i;
    }
  }

  lemma EnumeratesAll(order: seq<nat>, n: nat)
    requires Increasing(order)
    requires forall j :: 0 <= j < |order| ==> order[j] < n
    requires forall j: nat :: j < n ==> j in order
    ensures |order| == n && forall i :: 0 <= i < n ==> order[i] == i
  {
    forall i | 0 <= i < |order| ensures order[i] == i {
      Enumerates(order, n, i);
    }
    if |order| > 0 {
      assert order[|order| - 1] < n;
    }
    if n > 0 {
      assert n - 1 in order;
    }
  }

  /** So what came out, followed by what is queued, is what went in. */
  lemma FirstInFirstOut<T(!new)>(capacity: nat, steps: seq<Step<T>>, s: System<T>)
    requires Leads(capacity, false, steps, s)
    requires forall i :: 0 <= i < |steps| ==> !steps[i].EnqueueNowait?
    ensures s.h.delivered + s.q.items == s.h.accepted
  {
    BlockingLosesNothing(capacity, steps, s);
    Conservation(capacity, false, steps, s);
    Complete(s.h, s.q.items);
  }

  lemma Complete<T>(h: History<T>, items: seq<T>)
    requires InOrder(h, items) && h.lost == {}
    ensures h.delivered + items == h.accepted
  {
    var order, out := h.taken + h.queued, h.delivered + items;
    forall i | 0 <= i < |order| ensures order[i] < |h.accepted| && out[i] == h.accepted[order[i]] {
      assert i >= |h.taken| ==> order[i] == h.queued[i - |h.taken|];
    }
    EnumeratesAll(order, |h.accepted|);
  }

  /** A disabled queue, which is what the largest `max_items` asks for, delivers nothing and
      counts nothing. */
  lemma DisabledLosesAll<T(!new)>(capacity: nat, steps: seq<Step<T>>, s: System<T>)
    requires Leads(capacity, true, steps, s)
    ensures s.q.disabled && s.h.delivered == [] && s.q.items == [] && |s.h.lost| == |s.h.accepted| && s.q.overruns == 0
  {
    Conservation(capacity, true, steps, s);
    Same(capacity, true, steps, s);
  }

  lemma {:induction false} Same<T(!new)>(capacity: nat, disabled: bool, steps: seq<Step<T>>, s: System<T>)
    requires Leads(capacity, disabled, steps, s)
    ensures s.q.disabled == disabled && s.q.capacity == if disabled then 0 else capacity
    decreases |steps|
  {
    if |steps| > 0 {
      var k := |steps| - 1;
      var p :| Leads(capacity, disabled, steps[..k], p) && CanStep(p, steps[k]) && s == Next(p, steps[k]);
      Same(capacity, disabled, steps[..k], p);
    }
  }
}
