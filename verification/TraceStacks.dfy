/** Call stacks of a Chrome trace: which event is open under which other one. */
module TraceStacks {

  class Event {
    const name: string
    const timestamp: real
    const duration: real
    var totalDuration: real

    constructor (name: string, timestamp: real, duration: real)
      ensures this.name == name && this.timestamp == timestamp
      ensures this.duration == totalDuration == duration
    {
      this.name, this.timestamp, this.duration, this.totalDuration := name, timestamp, duration, duration;
    }

    function GetStopTimestamp(): real {
      timestamp + duration
    }
  }

  /** Open events by number, the innermost on top. */
  datatype Stack = Empty | Push(top: nat, below: Stack)

  /** The numbers on the stack are below `n` and descend. */
  predicate Descends(s: Stack, n: nat) {
    s.Push? ==> s.top < n && Descends(s.below, s.top)
  }

  predicate In(s: Stack, j: nat) {
    s.Push? && (s.top == j || In(s.below, j))
  }

  lemma DescendsFurther(s: Stack, m: nat, n: nat)
    requires Descends(s, m) && m <= n
    ensures Descends(s, n)
  {
  }

  function Height(s: Stack): nat {
    if s.Push? then s.top + 1 else 0
  }

  /** What is left of a stack at time `t`: events that have stopped are taken off the top. */
  function Kept(es: seq<Event>, s: Stack, t: real): (kept: Stack)
    requires Descends(s, |es|)
    ensures Descends(kept, |es|) && Height(kept) <= Height(s)
  {
    if s.Push? && es[s.top].timestamp + es[s.top].duration <= t then
      DescendsFurther(s.below, s.top, |es|);
      Kept(es, s.below, t)
    else s
  }

  /** The open events after the first `i`. */
  function StackAt(es: seq<Event>, i: nat): (s: Stack)
    requires i <= |es|
    ensures Descends(s, i)
    ensures i > 0 ==> s.Push? && s.top == i - 1
  {
    if i == 0 then Empty
    else
      var before := StackAt(es, i - 1);
      DescendsFurther(before, i - 1, |es|);
      Push(i - 1, Kept(es, before, es[i - 1].timestamp))
  }

  predicate HasParent(es: seq<Event>, k: nat)
    requires k < |es|
  {
    StackAt(es, k + 1).below.Push?
  }

  /** The event under which event `k` is open. */
  function Parent(es: seq<Event>, k: nat): (j: nat)
    requires k < |es| && HasParent(es, k)
    ensures j < k
  {
    StackAt(es, k + 1).below.top
  }

  /** The time that the first `m` events spend directly under event `j`. */
  function Children(es: seq<Event>, j: nat, m: nat): real
    requires m <= |es|
  {
    if m == 0 then 0.0
    else Children(es, j, m - 1) + if HasParent(es, m - 1) && Parent(es, m - 1) == j then es[m - 1].duration else 0.0
  }

  /** The time an event spends itself. */
  function SelfTime(es: seq<Event>, j: nat): real
    requires j < |es|
  {
    es[j].duration - Children(es, j, |es|)
  }

  /** The names from the outermost event on. */
  function Path(es: seq<Event>, s: Stack): string
    requires Descends(s, |es|) && s.Push?
  {
    DescendsFurther(s.below, s.top, |es|);
    (if s.below.Push? then Path(es, s.below) + ";" else "") + es[s.top].name
  }

  /** The label of event `k`: the names of the events open when it starts, and its own. */
  function Label(es: seq<Event>, k: nat): string
    requires k < |es|
  {
    DescendsFurther(StackAt(es, k + 1), k + 1, |es|);
    Path(es, StackAt(es, k + 1))
  }

  /** The stack from some event down is the stack at that event. */
  predicate Genuine(es: seq<Event>, s: Stack)
    requires Descends(s, |es|)
  {
    s.Push? ==> s == StackAt(es, s.top + 1)
  }

  lemma {:induction false} KeptGenuine(es: seq<Event>, s: Stack, t: real)
    requires Descends(s, |es|) && Genuine(es, s)
    ensures Genuine(es, Kept(es, s, t))
    decreases Height(s), 1
  {
    if s.Push? && es[s.top].timestamp + es[s.top].duration <= t {
      BelowGenuine(es, s);
      KeptGenuine(es, s.below, t);
    }
  }

  lemma {:induction false} BelowGenuine(es: seq<Event>, s: Stack)
    requires Descends(s, |es|) && s.Push? && Genuine(es, s)
    ensures Descends(s.below, |es|) && Genuine(es, s.below)
    decreases Height(s), 0
  {
    DescendsFurther(s.below, s.top, |es|);
    DescendsFurther(StackAt(es, s.top), s.top, |es|);
    KeptGenuine(es, StackAt(es, s.top), es[s.top].timestamp);
  }

  lemma {:induction false} KeptIn(es: seq<Event>, s: Stack, t: real, j: nat)
    requires Descends(s, |es|) && In(Kept(es, s, t), j)
    ensures In(s, j)
  {
    if s.Push? && es[s.top].timestamp + es[s.top].duration <= t {
      KeptIn(es, s.below, t, j);
    }
  }

  lemma {:induction false} NotIn(s: Stack, n: nat, j: nat)
    requires Descends(s, n) && n <= j
    ensures !In(s, j)
  {
    if s.Push? {
      NotIn(s.below, s.top, j);
    }
  }

  /** An event taken off the stack has no more children. */
  lemma {:induction false} NoMoreChildren(es: seq<Event>, j: nat, i: nat, m: nat)
    requires j < i <= m <= |es|
    requires Descends(StackAt(es, i), |es|) && (i < m ==> !In(Kept(es, StackAt(es, i), es[i].timestamp), j))
    ensures Children(es, j, m) == Children(es, j, i) && (m > i ==> !In(StackAt(es, m), j))
    decreases m
  {
    if m > i {
      NoMoreChildren(es, j, i, m - 1);
      DescendsFurther(StackAt(es, m - 1), m - 1, |es|);
      if In(Kept(es, StackAt(es, m - 1), es[m - 1].timestamp), j) {
        KeptIn(es, StackAt(es, m - 1), es[m - 1].timestamp, j);
      }
    }
  }

  /** Sorted by start, parents first: of two events the later one ends before the earlier one
      does, or starts after it has. */
  predicate WellNested(es: seq<Event>) {
    && (forall k :: 0 <= k < |es| ==> es[k].duration >= 0.0)
    && (forall j, k :: 0 <= j < k < |es| ==> Nest(es[j], es[k]))
  }

  predicate Nest(e: Event, f: Event) {
    && e.timestamp <= f.timestamp
    && (e.timestamp + e.duration <= f.timestamp || f.timestamp + f.duration <= e.timestamp + e.duration)
  }

  /** Of the first `n` events, those still running at time `t`. */
  function Running(es: seq<Event>, n: nat, t: real): Stack
    requires n <= |es|
  {
    if n == 0 then Empty
    else if es[n - 1].timestamp + es[n - 1].duration > t then Push(n - 1, Running(es, n - 1, t))
    else Running(es, n - 1, t)
  }

  lemma {:induction false} KeptTwice(es: seq<Event>, s: Stack, t: real, u: real)
    requires Descends(s, |es|) && t <= u
    ensures Descends(Kept(es, s, t), |es|) && Kept(es, Kept(es, s, t), u) == Kept(es, s, u)
  {
    if s.Push? && es[s.top].timestamp + es[s.top].duration <= t {
      KeptTwice(es, s.below, t, u);
    }
  }

  /** What runs when event `m` starts still runs when it stops. */
  lemma {:induction false} RunsOn(es: seq<Event>, n: nat, m: nat, t: real)
    requires WellNested(es) && n <= m < |es| && es[m].timestamp <= t < es[m].timestamp + es[m].duration
    ensures Running(es, n, es[m].timestamp) == Running(es, n, t)
  {
    if n > 0 {
      RunsOn(es, n - 1, m, t);
      assert Nest(es[n - 1], es[m]);
    }
  }

  lemma {:induction false} KeptAreRunning(es: seq<Event>, m: nat, t: real)
    requires WellNested(es) && m <= |es| && (m > 0 ==> es[m - 1].timestamp <= t)
    ensures Descends(StackAt(es, m), |es|) && Kept(es, StackAt(es, m), t) == Running(es, m, t)
    decreases m
  {
    DescendsFurther(StackAt(es, m), m, |es|);
    if m > 0 {
      var e := es[m - 1];
      assert m > 1 ==> Nest(es[m - 2], e);
      if e.timestamp + e.duration > t {
        KeptAreRunning(es, m - 1, e.timestamp);
        RunsOn(es, m - 1, m - 1, t);
      } else {
        KeptAreRunning(es, m - 1, t);
        KeptTwice(es, StackAt(es, m - 1), e.timestamp, t);
      }
    }
  }

  /** In a well-nested trace the stack at an event is the chain of the events around it. */
  lemma StackIsEnclosing(es: seq<Event>, k: nat)
    requires WellNested(es) && k < |es|
    ensures StackAt(es, k + 1) == Push(k, Running(es, k, es[k].timestamp))
  {
    assert k > 0 ==> Nest(es[k - 1], es[k]);
    KeptAreRunning(es, k, es[k].timestamp);
  }

  /** The event on top of `j` on a stack: its child that is still open. */
  function Above(s: Stack, j: nat): (k: nat)
    requires In(s, j) && s.top != j
    ensures In(s, k)
  {
    assert In(s.below, j);
    if s.below.top == j then s.top else Above(s.below, j)
  }

  lemma {:induction false} InHeight(s: Stack, n: nat, j: nat)
    requires Descends(s, n) && In(s, j)
    ensures j < n && (s.top != j ==> j < Above(s, j))
  {
    if s.top != j {
      InHeight(s.below, s.top, j);
    }
  }

  /** When `kept` ends at `j`, what was on top of `j` has stopped. */
  lemma {:induction false} PoppedAbove(es: seq<Event>, s: Stack, t: real, j: nat)
    requires Descends(s, |es|) && In(Kept(es, s, t), j)
    ensures In(s, j)
    ensures var kept := Kept(es, s, t);
            if kept.top != j then s.top != j && Above(s, j) == Above(kept, j)
            else s.top != j ==> Above(s, j) < |es| && es[Above(s, j)].timestamp + es[Above(s, j)].duration <= t
  {
    if es[s.top].timestamp + es[s.top].duration <= t {
      PoppedAbove(es, s.below, t, j);
      NotIn(s.below, s.top, s.top);
    }
  }

  /** How much time an event has left, when part of it has been given to its children. */
  ghost predicate Left(es: seq<Event>, j: nat, m: nat)
    requires j < m <= |es|
  {
    var left := es[j].duration - Children(es, j, m);
    var s := StackAt(es, m);
    && left >= 0.0
    && (In(s, j) ==>
          if s.top == j then left == es[j].duration
          else Above(s, j) < |es| &&
               left >= es[j].timestamp + es[j].duration - (es[Above(s, j)].timestamp + es[Above(s, j)].duration))
  }

  lemma AbovePush(t: nat, s: Stack, j: nat)
    requires t != j
    ensures In(Push(t, s), j) <==> In(s, j)
    ensures In(s, j) ==> Above(Push(t, s), j) == if s.top == j then t else Above(s, j)
  {
  }

  lemma StackStep(es: seq<Event>, m: nat)
    requires 0 < m <= |es|
    ensures Descends(StackAt(es, m - 1), |es|)
    ensures var kept := Kept(es, StackAt(es, m - 1), es[m - 1].timestamp);
            && StackAt(es, m) == Push(m - 1, kept) && (HasParent(es, m - 1) <==> kept.Push?)
            && (kept.Push? ==>
                  Parent(es, m - 1) == kept.top
                  && es[kept.top].timestamp + es[kept.top].duration > es[m - 1].timestamp)
  {
    DescendsFurther(StackAt(es, m - 1), m - 1, |es|);
    KeptRuns(es, StackAt(es, m - 1), es[m - 1].timestamp);
  }

  lemma LeftAfter(es: seq<Event>, j: nat, m: nat)
    requires WellNested(es) && j < m - 1 && m <= |es| && Left(es, j, m - 1)
    ensures Left(es, j, m)
  {
    StackStep(es, m);
    assert Nest(es[j], es[m - 1]);
    hide StackAt, Kept, HasParent, Parent, WellNested, In, Above;
    var before, e := StackAt(es, m - 1), es[m - 1];
    AbovePush(m - 1, Kept(es, before, e.timestamp), j);
    if In(Kept(es, before, e.timestamp), j) {
      PoppedAbove(es, before, e.timestamp, j);
    }
  }

  lemma {:induction false} EnoughLeft(es: seq<Event>, j: nat, m: nat)
    requires WellNested(es) && j < m <= |es|
    ensures Left(es, j, m)
    decreases m
  {
    if m == j + 1 {
      NoChildrenYet(es, j, m);
    } else {
      hide Left, WellNested;
      EnoughLeft(es, j, m - 1);
      LeftAfter(es, j, m);
    }
  }

  lemma KeptRuns(es: seq<Event>, s: Stack, t: real)
    requires Descends(s, |es|)
    ensures var kept := Kept(es, s, t); kept.Push? ==> es[kept.top].timestamp + es[kept.top].duration > t
  {
  }

  lemma {:induction false} NoChildrenYet(es: seq<Event>, j: nat, m: nat)
    requires m <= |es| && m <= j + 1
    ensures Children(es, j, m) == 0.0
  {
    if m > 0 {
      NoChildrenYet(es, j, m - 1);
    }
  }

  /** In a well-nested trace no event's own time is negative. */
  lemma SelfTimeNonNegative(es: seq<Event>, j: nat)
    requires WellNested(es) && j < |es|
    ensures SelfTime(es, j) >= 0.0
  {
    EnoughLeft(es, j, |es|);
  }

  /** The time of the first `m` events that are opened under no other event. */
  function RootTime(es: seq<Event>, m: nat): real
    requires m <= |es|
  {
    if m == 0 then 0.0
    else RootTime(es, m - 1) + if HasParent(es, m - 1) then 0.0 else es[m - 1].duration
  }

  function TotalTime(es: seq<Event>, m: nat): real
    requires m <= |es|
  {
    if m == 0 then 0.0 else TotalTime(es, m - 1) + es[m - 1].duration
  }

  function SelfTimes(es: seq<Event>, n: nat): real
    requires n <= |es|
  {
    if n == 0 then 0.0 else SelfTimes(es, n - 1) + SelfTime(es, n - 1)
  }

  /** The time the first `m` events spend under the first `n`. */
  function ChildTimes(es: seq<Event>, n: nat, m: nat): real
    requires n <= |es| && m <= |es|
  {
    if n == 0 then 0.0 else ChildTimes(es, n - 1, m) + Children(es, n - 1, m)
  }

  lemma {:induction false} NextChild(es: seq<Event>, n: nat, m: nat)
    requires n <= |es| && m < |es|
    ensures ChildTimes(es, n, m + 1) ==
            ChildTimes(es, n, m) + if HasParent(es, m) && Parent(es, m) < n then es[m].duration else 0.0
  {
    if n > 0 {
      NextChild(es, n - 1, m);
    }
  }

  lemma {:induction false} EveryChildOnce(es: seq<Event>, m: nat)
    requires m <= |es|
    ensures ChildTimes(es, |es|, m) == TotalTime(es, m) - RootTime(es, m)
  {
    if m > 0 {
      EveryChildOnce(es, m - 1);
      NextChild(es, |es|, m - 1);
    } else {
      NoChildTimes(es, |es|);
    }
  }

  lemma {:induction false} NoChildTimes(es: seq<Event>, n: nat)
    requires n <= |es|
    ensures ChildTimes(es, n, 0) == 0.0
  {
    if n > 0 {
      NoChildTimes(es, n - 1);
    }
  }

  lemma {:induction false} SelfTimesSplit(es: seq<Event>, n: nat)
    requires n <= |es|
    ensures SelfTimes(es, n) == TotalTime(es, n) - ChildTimes(es, n, |es|)
  {
    if n > 0 {
      SelfTimesSplit(es, n - 1);
    }
  }

  /** The own times of all events add up to the time of the outermost ones. */
  lemma SelfTimesAddUp(es: seq<Event>)
    ensures SelfTimes(es, |es|) == RootTime(es, |es|)
  {
    SelfTimesSplit(es, |es|);
    EveryChildOnce(es, |es|);
  }

  // ---- without nesting ----

  /** What the caller's sort by start leaves. */
  predicate Sorted(es: seq<Event>) {
    forall j, k :: 0 <= j < k < |es| ==> es[j].timestamp <= es[k].timestamp
  }

  /** The last of the first `n` events that is still running at time `t`, or -1. */
  function LastRunning(es: seq<Event>, n: nat, t: real): (j: int)
    requires n <= |es|
    ensures -1 <= j < n
    ensures j >= 0 ==> es[j].timestamp + es[j].duration > t
    ensures forall i :: j < i < n ==> es[i].timestamp + es[i].duration <= t
  {
    if n == 0 then -1
    else if es[n - 1].timestamp + es[n - 1].duration > t then n - 1
    else LastRunning(es, n - 1, t)
  }

  function TopOf(s: Stack): int {
    if s.Push? then s.top else -1
  }

  /** In a sorted trace, what is left on the stack at a later time ends with the last event
      still running: what has been taken off has stopped by then. */
  lemma {:induction false} TopIsLastRunning(es: seq<Event>, m: nat, t: real)
    requires Sorted(es) && m <= |es| && (m > 0 ==> es[m - 1].timestamp <= t)
    ensures Descends(StackAt(es, m), |es|) && TopOf(Kept(es, StackAt(es, m), t)) == LastRunning(es, m, t)
    decreases m
  {
    DescendsFurther(StackAt(es, m), m, |es|);
    if m > 0 && es[m - 1].timestamp + es[m - 1].duration <= t {
      assert m > 1 ==> es[m - 2].timestamp <= es[m - 1].timestamp;
      TopIsLastRunning(es, m - 1, t);
      KeptTwice(es, StackAt(es, m - 1), es[m - 1].timestamp, t);
    }
  }

  /** The parent of an event of a sorted trace: the last event before it that is still running
      when it starts. */
  lemma ParentIsLastRunning(es: seq<Event>, k: nat)
    requires Sorted(es) && k < |es|
    ensures var j := LastRunning(es, k, es[k].timestamp); if HasParent(es, k) then Parent(es, k) == j else j == -1
  {
    assert k > 0 ==> es[k - 1].timestamp <= es[k].timestamp;
    TopIsLastRunning(es, k, es[k].timestamp);
  }

  /** The durations of the events among the first `m` for which `j` is the last one running
      when they start. */
  function StartedUnder(es: seq<Event>, j: nat, m: nat): real
    requires m <= |es|
  {
    if m == 0 then 0.0
    else
      StartedUnder(es, j, m - 1) +
        if LastRunning(es, m - 1, es[m - 1].timestamp) == j then es[m - 1].duration else 0.0
  }

  lemma {:induction false} ChildrenStartUnder(es: seq<Event>, j: nat, m: nat)
    requires Sorted(es) && m <= |es|
    ensures Children(es, j, m) == StartedUnder(es, j, m)
  {
    hide StackAt, LastRunning, HasParent, Parent;
    if m > 0 {
      ChildrenStartUnder(es, j, m - 1);
      ParentIsLastRunning(es, m - 1);
    }
  }

  /** Exactly when no own time of a sorted trace is negative: no event is shorter than the
      events that start while it is the last one running are together. */
  lemma NonNegativeIff(es: seq<Event>)
    requires Sorted(es)
    ensures (forall j :: 0 <= j < |es| ==> SelfTime(es, j) >= 0.0)
       <==> (forall j :: 0 <= j < |es| ==> StartedUnder(es, j, |es|) <= es[j].duration)
  {
    forall j | 0 <= j < |es|
      ensures SelfTime(es, j) >= 0.0 <==> StartedUnder(es, j, |es|) <= es[j].duration
    {
      ChildrenStartUnder(es, j, |es|);
    }
  }

  /** An event is open under another only while that one runs. */
  lemma ParentRuns(es: seq<Event>, k: nat)
    requires k < |es| && HasParent(es, k)
    ensures es[k].timestamp < es[Parent(es, k)].timestamp + es[Parent(es, k)].duration
  {
    DescendsFurther(StackAt(es, k), k, |es|);
    KeptRuns(es, StackAt(es, k), es[k].timestamp);
  }

  /** Two events: the second is open under the first exactly if the first has not stopped when it
      starts. */
  lemma TwoEvents(e: Event, f: Event)
    requires e.timestamp <= f.timestamp
    ensures var es, under := [e, f], f.timestamp < e.timestamp + e.duration;
            && Label(es, 0) == e.name && Label(es, 1) == (if under then e.name + ";" + f.name else f.name)
            && SelfTime(es, 0) == e.duration - (if under then f.duration else 0.0) && SelfTime(es, 1) == f.duration
  {
    var es, under := [e, f], f.timestamp < e.timestamp + e.duration;
    assert StackAt(es, 1) == Push(0, Empty);
    assert StackAt(es, 2) == Push(1, if under then Push(0, Empty) else Empty);
    assert Children(es, 0, 1) == 0.0 == Children(es, 1, 1);
    assert Path(es, Push(0, Empty)) == e.name;
  }

  /** For two events: the first one's own time is negative if and only if it is still running
      when the other one starts, which is longer. */
  lemma OverlapCanBeNegative(e: Event, f: Event)
    requires e.timestamp <= f.timestamp && e.duration >= 0.0
    ensures SelfTime([e, f], 0) < 0.0 <==> f.timestamp < e.timestamp + e.duration && f.duration > e.duration
    ensures SelfTime([e, f], 0) < 0.0 ==> !WellNested([e, f])
  {
    var es := [e, f];
    assert StackAt(es, 1) == Push(0, Empty);
    assert StackAt(es, 2) == Push(1, if e.timestamp + e.duration > f.timestamp then Push(0, Empty) else Empty);
    assert Children(es, 0, 1) == 0.0;
    assert Nest(es[0], es[1]) <==> Nest(e, f);
  }
}
