/** The table that the trace collapser prints: the own time of every chain of events. */
module StackCollapse {
  import opened TraceStacks

  /** How a thread and its process are made one key, in integers; the division is exact. */
  function CantorPairing(a: int, b: int): int {
    var s := a + b;
    s * (s + 1) / 2 + b
  }

  lemma TriangleStep(s: nat)
    ensures (s + 1) * (s + 2) / 2 == s * (s + 1) / 2 + s + 1
  {
    assert (s + 1) * (s + 2) == s * (s + 1) + 2 * (s + 1);
  }

  lemma {:induction false} TriangleGrows(s: nat, t: nat)
    requires s < t
    ensures s * (s + 1) / 2 + s < t * (t + 1) / 2
    decreases t
  {
    TriangleStep(t - 1);
    if s < t - 1 {
      TriangleGrows(s, t - 1);
    }
  }

  /** In integers, events of different threads never share a key. */
  lemma CantorPairingInjective(a: nat, b: nat, c: nat, d: nat)
    requires CantorPairing(a, b) == CantorPairing(c, d)
    ensures a == c && b == d
  {
    if a + b < c + d {
      TriangleGrows(a + b, c + d);
    } else if a + b > c + d {
      TriangleGrows(c + d, a + b);
    }
  }

  const FLOAT_EXACT := 0x20_0000_0000_0000

  /** The float nearest to an integer below 2^54; of two, the one with the even last digit. */
  function Rounded(x: nat): nat
    requires x < 2 * FLOAT_EXACT
  {
    if x <= FLOAT_EXACT || x % 2 == 0 then x else if x % 4 == 1 then x - 1 else x + 1
  }

  /** The key as Python 3 computes it, where `/` gives a float. */
  function FloatKey(a: nat, b: nat): nat
    requires CantorPairing(a, b) < 2 * FLOAT_EXACT - 1
  {
    var s := a + b;
    NotNegative(s);
    Rounded(Rounded(s * (s + 1) / 2) + b)
  }

  lemma NotNegative(s: nat)
    ensures s * (s + 1) / 2 >= 0
  {
  }

  /** No two of the pairs with keys up to `n` in integers share their key in floats. */
  ghost predicate KeysDiffer(n: nat)
    requires n < 2 * FLOAT_EXACT - 1
  {
    forall a: nat, b: nat, c: nat, d: nat {:trigger FloatKey(a, b), FloatKey(c, d)} ::
      CantorPairing(a, b) <= n && CantorPairing(c, d) <= n && FloatKey(a, b) == FloatKey(c, d) ==> a == c && b == d
  }

  /** Up to 2^53 floats are exact, and the keys are as good as in integers. */
  lemma FloatKeyInjective(a: nat, b: nat, c: nat, d: nat)
    requires CantorPairing(a, b) <= FLOAT_EXACT && CantorPairing(c, d) <= FLOAT_EXACT
    requires FloatKey(a, b) == FloatKey(c, d)
    ensures a == c && b == d
  {
    NotNegative(a + b);
    NotNegative(c + d);
    CantorPairingInjective(a, b, c, d);
  }

  /** The first keys that collide: 2^53 and 2^53 + 1 in integers, 2^53 in floats. */
  lemma FirstCollision()
    ensures CantorPairing(0x3FF_FFFF, 0x400_0000) == FLOAT_EXACT
    ensures CantorPairing(0x3FF_FFFE, 0x400_0001) == FLOAT_EXACT + 1
    ensures FloatKey(0x3FF_FFFF, 0x400_0000) == FloatKey(0x3FF_FFFE, 0x400_0001) == FLOAT_EXACT
  {
  }

  /** So the keys of the source tell the threads apart exactly as long as they stay within 2^53. */
  lemma FloatKeysDifferIff(n: nat)
    requires n < 2 * FLOAT_EXACT - 1
    ensures KeysDiffer(n) <==> n <= FLOAT_EXACT
  {
    if n <= FLOAT_EXACT {
      forall a: nat, b: nat, c: nat, d: nat {:trigger FloatKey(a, b), FloatKey(c, d)} |
        CantorPairing(a, b) <= n && CantorPairing(c, d) <= n && FloatKey(a, b) == FloatKey(c, d)
        ensures a == c && b == d
      {
        FloatKeyInjective(a, b, c, d);
      }
    } else {
      FirstCollision();
      assert FloatKey(0x3FF_FFFF, 0x400_0000) == FloatKey(0x3FF_FFFE, 0x400_0001);
    }
  }

  type Table = map<string, real>

  function Entry(table: Table, id: string): real {
    if id in table then table[id] else 0.0
  }

  /** The sum over a table. */
  ghost function Total(table: Table): real {
    if table == map[] then 0.0
    else
      var id :| id in table;
      table[id] + Total(table - {id})
  }

  lemma {:induction false} TotalWithout(table: Table, id: string)
    requires id in table
    ensures Total(table) == table[id] + Total(table - {id})
    decreases |table|
  {
    var first :| first in table && Total(table) == table[first] + Total(table - {first});
    if first != id {
      TotalWithout(table - {first}, id);
      TotalWithout(table - {id}, first);
      assert table - {first} - {id} == table - {id} - {first};
    }
  }

  lemma TotalAdd(table: Table, id: string, time: real)
    ensures Total(table[id := Entry(table, id) + time]) == Total(table) + time
  {
    var table2 := table[id := Entry(table, id) + time];
    TotalWithout(table2, id);
    assert table2 - {id} == table - {id};
    if id in table {
      TotalWithout(table, id);
    } else {
      assert table - {id} == table;
    }
  }

  /** The events on a stack, outermost first. */
  function Elements(es: seq<Event>, s: Stack): seq<Event>
    requires Descends(s, |es|)
  {
    if s.Empty? then []
    else
      DescendsFurther(s.below, s.top, |es|);
      Elements(es, s.below) + [es[s.top]]
  }

  /** The identifier `save_stack` builds. */
  function Identifier(stack: seq<Event>): string {
    if stack == [] then ""
    else if |stack| == 1 then stack[0].name
    else Identifier(stack[..|stack| - 1]) + ";" + stack[|stack| - 1].name
  }

  lemma {:induction false} IdentifierIsPath(es: seq<Event>, s: Stack)
    requires Descends(s, |es|) && s.Push?
    ensures Identifier(Elements(es, s)) == Path(es, s)
  {
    DescendsFurther(s.below, s.top, |es|);
    var below := Elements(es, s.below);
    assert (below + [es[s.top]])[..|below|] == below;
    if s.below.Push? {
      assert below != [];
      IdentifierIsPath(es, s.below);
    }
  }

  /** The own times of the events among the first `n` that have left the stack, under one
      label. */
  function TimeAt(es: seq<Event>, s: Stack, n: nat, id: string): real
    requires n <= |es|
  {
    if n == 0 then 0.0
    else TimeAt(es, s, n - 1, id) + if !In(s, n - 1) && Label(es, n - 1) == id then SelfTime(es, n - 1) else 0.0
  }

  function TimeSaved(es: seq<Event>, s: Stack, n: nat): real
    requires n <= |es|
  {
    if n == 0 then 0.0
    else TimeSaved(es, s, n - 1) + if !In(s, n - 1) then SelfTime(es, n - 1) else 0.0
  }

  lemma {:induction false} TimesAfterPop(es: seq<Event>, s: Stack, n: nat, id: string)
    requires n <= |es| && Descends(s, |es|) && s.Push?
    ensures TimeAt(es, s.below, n, id) ==
            TimeAt(es, s, n, id) + if s.top < n && Label(es, s.top) == id then SelfTime(es, s.top) else 0.0
    ensures TimeSaved(es, s.below, n) == TimeSaved(es, s, n) + if s.top < n then SelfTime(es, s.top) else 0.0
  {
    if n > 0 {
      TimesAfterPop(es, s, n - 1, id);
      if n - 1 == s.top {
        NotIn(s.below, s.top, s.top);
      }
    }
  }

  lemma {:induction false} TimesAfterPush(es: seq<Event>, s: Stack, k: nat, n: nat, id: string)
    requires n <= k < |es|
    ensures TimeAt(es, Push(k, s), n, id) == TimeAt(es, s, n, id)
    ensures TimeSaved(es, Push(k, s), n) == TimeSaved(es, s, n)
  {
    if n > 0 {
      TimesAfterPush(es, s, k, n - 1, id);
    }
  }

  predicate Labelled(es: seq<Event>, s: Stack, n: nat, id: string)
    requires n <= |es|
  {
    exists k: nat :: k < n && !In(s, k) && Label(es, k) == id
  }

  predicate EntryHolds(table: Table, was: Table, es: seq<Event>, s: Stack, n: nat, id: string)
    requires n <= |es|
  {
    && Entry(table, id) == Entry(was, id) + TimeAt(es, s, n, id)
    && (id in table <==> id in was || Labelled(es, s, n, id))
  }

  /** The table holds, on top of what it held, the own time of every event that has left the
      stack, once, under the event's label. */
  ghost predicate Tabulated(table: Table, was: Table, es: seq<Event>, s: Stack, n: nat)
    requires n <= |es|
  {
    && (forall id :: EntryHolds(table, was, es, s, n, id))
    && Total(table) == Total(was) + TimeSaved(es, s, n)
  }

  lemma NothingTabulated(table: Table, es: seq<Event>)
    ensures Tabulated(table, table, es, Empty, 0)
  {
  }

  lemma EntryAfterPush(table: Table, was: Table, es: seq<Event>, s: Stack, n: nat, id: string)
    requires n < |es| && EntryHolds(table, was, es, s, n, id)
    ensures EntryHolds(table, was, es, Push(n, s), n + 1, id)
    ensures TimeSaved(es, Push(n, s), n + 1) == TimeSaved(es, s, n)
  {
    TimesAfterPush(es, s, n, n, id);
    LabelledAfterPush(es, s, n, id);
  }

  lemma TabulatedAfterPush(table: Table, was: Table, es: seq<Event>, s: Stack, n: nat)
    requires n < |es| && Tabulated(table, was, es, s, n)
    ensures Tabulated(table, was, es, Push(n, s), n + 1)
  {
    hide EntryHolds;
    EntryAfterPush(table, was, es, s, n, "");
    var s2, n2 := Push(n, s), n + 1;
    forall id ensures EntryHolds(table, was, es, s2, n2, id) {
      EntryAfterPush(table, was, es, s, n, id);
    }
  }

  lemma LabelledAfterPush(es: seq<Event>, s: Stack, n: nat, id: string)
    requires n < |es|
    ensures Labelled(es, Push(n, s), n + 1, id) <==> Labelled(es, s, n, id)
  {
    if Labelled(es, s, n, id) {
      var k: nat :| k < n && !In(s, k) && Label(es, k) == id;
      assert !In(Push(n, s), k);
    }
  }

  lemma LabelledAfterPop(es: seq<Event>, s: Stack, n: nat, id: string)
    requires n <= |es| && Descends(s, n) && s.Push?
    ensures Labelled(es, s.below, n, id) <==> Labelled(es, s, n, id) || Label(es, s.top) == id
  {
    NotIn(s.below, s.top, s.top);
    if Labelled(es, s.below, n, id) {
      var k: nat :| k < n && !In(s.below, k) && Label(es, k) == id;
      assert k != s.top ==> !In(s, k);
    }
    if Labelled(es, s, n, id) {
      var k: nat :| k < n && !In(s, k) && Label(es, k) == id;
      assert !In(s.below, k);
    }
  }

  lemma EntryAfterSave(table: Table, was: Table, es: seq<Event>, s: Stack, n: nat, id: string)
    requires n <= |es| && Descends(s, n) && s.Push? && EntryHolds(table, was, es, s, n, id)
    ensures var top := Label(es, s.top);
            EntryHolds(table[top := Entry(table, top) + SelfTime(es, s.top)], was, es, s.below, n, id)
    ensures TimeSaved(es, s.below, n) == TimeSaved(es, s, n) + SelfTime(es, s.top)
  {
    hide Labelled, TimeAt, Label, SelfTime;
    DescendsFurther(s, n, |es|);
    TimesAfterPop(es, s, n, id);
    LabelledAfterPop(es, s, n, id);
  }

  lemma TabulatedAfterSave(table: Table, was: Table, es: seq<Event>, s: Stack, n: nat)
    requires n <= |es| && Descends(s, n) && s.Push? && Tabulated(table, was, es, s, n)
    ensures var top := Label(es, s.top);
            Tabulated(table[top := Entry(table, top) + SelfTime(es, s.top)], was, es, s.below, n)
  {
    hide EntryHolds, Entry, Label, SelfTime;
    var top := Label(es, s.top);
    var table2 := table[top := Entry(table, top) + SelfTime(es, s.top)];
    TotalAdd(table, top, SelfTime(es, s.top));
    EntryAfterSave(table, was, es, s, n, "");
    forall id ensures EntryHolds(table2, was, es, s.below, n, id) {
      EntryAfterSave(table, was, es, s, n, id);
    }
  }

  lemma {:induction false} AllSaved(es: seq<Event>, n: nat)
    requires n <= |es|
    ensures TimeSaved(es, Empty, n) == SelfTimes(es, n)
  {
    if n > 0 {
      AllSaved(es, n - 1);
    }
  }

  class StackCollapser {
    var stackIdentifiers: Table

    method SaveStack(stack: seq<Event>)
      modifies this
      ensures var id, was := Identifier(stack), old(stackIdentifiers);
              stackIdentifiers == if stack == [] then was
                                  else was[id := Entry(was, id) + stack[|stack| - 1].totalDuration]
    {
      var first, event, identifier := true, None, "";
      var i := 0;
      while i < |stack|
        invariant 0 <= i <= |stack| && identifier == Identifier(stack[..i])
        invariant first <==> i == 0
        invariant event == if i == 0 then None else Some(stack[i - 1])
      {
        event := Some(stack[i]);
        if first {
          first := false;
        } else {
          identifier := identifier + ";";
        }
        identifier := identifier + stack[i].name;
        assert stack[..i + 1][..i] == stack[..i];
        i := i + 1;
      }
      assert stack[..i] == stack;
      if event.None? {
        return;
      }
      if identifier in stackIdentifiers {
        stackIdentifiers := stackIdentifiers[identifier := stackIdentifiers[identifier] + event.value.totalDuration];
      } else {
        stackIdentifiers := stackIdentifiers[identifier := event.value.totalDuration];
      }
    }

    /** Every event still has its duration, less that of its children so far. */
    ghost predicate Times(events: seq<Event>, i: nat)
      requires i <= |events|
      reads events
    {
      forall j :: 0 <= j < |events| ==> Time(events, j, i)
    }

    ghost predicate Time(events: seq<Event>, j: nat, i: nat)
      requires i <= |events| && j < |events|
      reads events[j]
    {
      events[j].totalDuration == events[j].duration - Children(events, j, i)
    }

    /** The top of the stack is saved and taken off, at a time when it gets no more children. */
    method SaveTop(stack: seq<Event>, events: seq<Event>, ghost open: Stack, ghost was: Table, ghost i: nat)
      requires i <= |events| && Times(events, i) && Descends(open, i) && open.Push?
      requires Descends(open, |events|) && stack == Elements(events, open) && Genuine(events, open)
      requires SelfTime(events, open.top) == events[open.top].duration - Children(events, open.top, i)
      requires Tabulated(stackIdentifiers, was, events, open, i)
      modifies this
      ensures Tabulated(stackIdentifiers, was, events, open.below, i)
      ensures Descends(open.below, i) && Descends(open.below, |events|) && Genuine(events, open.below)
    {
      hide Tabulated, Identifier, SelfTime, Children;
      assert Time(events, open.top, i);
      IdentifierIsPath(events, open);
      TabulatedAfterSave(stackIdentifiers, was, events, open, i);
      BelowGenuine(events, open);
      DescendsFurther(open.below, open.top, i);
      SaveStack(stack);
    }

    /** The inner loop: what has stopped by the start of event `i` is saved and taken off. */
    method PopStopped(events: seq<Event>, stack: seq<Event>, i: nat, ghost open: Stack, ghost was: Table)
      returns (eventStack: seq<Event>, ghost left: Stack)
      requires i < |events| && Times(events, i) && open == StackAt(events, i)
      requires Descends(open, |events|) && stack == Elements(events, open)
      requires Tabulated(stackIdentifiers, was, events, open, i)
      modifies this
      ensures left == Kept(events, open, events[i].timestamp) && Descends(left, i) && Descends(left, |events|)
      ensures eventStack == Elements(events, left)
      ensures Tabulated(stackIdentifiers, was, events, left, i)
    {
      hide Tabulated, SelfTime, StackAt, Label, Children;
      eventStack, left := stack, open;
      var e := events[i];
      AtGenuine(events, i);
      while eventStack != [] && eventStack[|eventStack| - 1].GetStopTimestamp() <= e.timestamp
        invariant Descends(left, i) && Descends(left, |events|) && Genuine(events, left)
        invariant eventStack == Elements(events, left)
        invariant Kept(events, left, e.timestamp) == Kept(events, open, e.timestamp)
        invariant Tabulated(stackIdentifiers, was, events, left, i)
      {
        PoppedForGood(events, i, left);
        SaveTop(eventStack, events, left, was, i);
        eventStack, left := eventStack[..|eventStack| - 1], left.below;
      }
    }

    /** Event `i` goes on top of the stack, and its parent gives it its time. */
    method PushEvent(events: seq<Event>, stack: seq<Event>, i: nat, ghost open: Stack)
      returns (eventStack: seq<Event>)
      requires forall j, k :: 0 <= j < k < |events| ==> events[j] != events[k]
      requires i < |events| && Times(events, i) && Descends(open, i) && Descends(open, |events|)
      requires StackAt(events, i + 1) == Push(i, open) && stack == Elements(events, open)
      modifies events
      ensures Times(events, i + 1) && eventStack == Elements(events, StackAt(events, i + 1))
    {
      hide StackAt;
      if stack != [] {
        var parent := stack[|stack| - 1];
        ghost var i2 := i + 1;
        assert Time(events, open.top, i);
        parent.totalDuration := parent.totalDuration - events[i].duration;
        forall j | 0 <= j < |events| ensures Time(events, j, i2) {
          assert old(Time(events, j, i));
        }
      } else {
        ghost var i2 := i + 1;
        forall j | 0 <= j < |events| ensures Time(events, j, i2) {
          assert Time(events, j, i);
        }
      }
      eventStack := stack + [events[i]];
    }

    /** Every event's own time goes to its label, once: to the chain of events that
        `StackIsEnclosing` describes. In total, the table gains the time of the outermost
        events. */
    method LoadStackIdentifiers(events: seq<Event>)
      requires forall j, k :: 0 <= j < k < |events| ==> events[j] != events[k]
      requires forall j :: 0 <= j < |events| ==> events[j].totalDuration == events[j].duration
      modifies this, events
      ensures Tabulated(stackIdentifiers, old(stackIdentifiers), events, Empty, |events|)
      ensures Total(stackIdentifiers) == Total(old(stackIdentifiers)) + RootTime(events, |events|)
    {
      hide Kept, SelfTime, Label, Children, HasParent, Parent, EntryHolds, Total, RootTime;
      var eventStack: seq<Event> := [];
      ghost var open, was := Empty, stackIdentifiers;
      NothingTabulated(was, events);
      StartTimes(events);
      var i := 0;
      while i < |events|
        invariant 0 <= i <= |events| && Times(events, i)
        invariant Descends(open, i) && Descends(open, |events|) && open == StackAt(events, i)
        invariant eventStack == Elements(events, open)
        invariant Tabulated(stackIdentifiers, was, events, open, i)
      {
        ghost var left;
        eventStack, left := PopStopped(events, eventStack, i, open, was);
        eventStack := PushEvent(events, eventStack, i, left);
        TabulatedAfterPush(stackIdentifiers, was, events, left, i);
        open := Push(i, left);
        DescendsFurther(open, i + 1, |events|);
        i := i + 1;
      }
      AtGenuine(events, i);
      while eventStack != []
        invariant Descends(open, i) && Descends(open, |events|) && Genuine(events, open) && Times(events, i)
        invariant eventStack == Elements(events, open)
        invariant Tabulated(stackIdentifiers, was, events, open, i)
        decreases |eventStack|
      {
        OwnTimeAtEnd(events, open.top);
        SaveTop(eventStack, events, open, was, i);
        eventStack, open := eventStack[..|eventStack| - 1], open.below;
      }
      AllSaved(events, |events|);
      SelfTimesAddUp(events);
    }
  }

  lemma StartTimes(events: seq<Event>)
    ensures forall j :: 0 <= j < |events| ==> Children(events, j, 0) == 0.0
  {
  }

  lemma OwnTimeAtEnd(events: seq<Event>, j: nat)
    requires j < |events|
    ensures SelfTime(events, j) == events[j].duration - Children(events, j, |events|)
  {
  }

  lemma AtGenuine(events: seq<Event>, i: nat)
    requires i <= |events|
    ensures Descends(StackAt(events, i), |events|) && Genuine(events, StackAt(events, i))
  {
    DescendsFurther(StackAt(events, i), i, |events|);
  }

  lemma PoppedForGood(events: seq<Event>, i: nat, open: Stack)
    requires i < |events| && Descends(open, i) && Descends(open, |events|) && open.Push?
    requires events[open.top].timestamp + events[open.top].duration <= events[i].timestamp
    requires Descends(StackAt(events, i), |events|)
    requires Kept(events, open, events[i].timestamp) == Kept(events, StackAt(events, i), events[i].timestamp)
    ensures SelfTime(events, open.top) == events[open.top].duration - Children(events, open.top, i)
  {
    var t, j := events[i].timestamp, open.top;
    NotIn(open.below, j, j);
    if In(Kept(events, open, t), j) {
      KeptIn(events, open.below, t, j);
    }
    NoMoreChildren(events, j, i, |events|);
  }

  datatype Option<T> = None | Some(value: T)
}
