/** Whole runs: any sequence of allocation, release, resizing and use of memory by a caller
    that passes only the pointers it holds. The heap invariant holds at every moment, and
    every word the caller reads back is the one it last wrote to that object, wherever the
    object has been moved: each object behaves like private memory. */
module Runs {
  import opened Words
  import opened Rings
  import opened BinHistory
  import opened MallocState
  import opened Boundaries
  import opened Invariant
  import opened Freeing
  import opened Malloc
  import opened Resizing
  import opened Realloc
  import opened Payloads
  import opened Moving
  import opened WordBits
  import opened Memalign
  import opened Ialloc
  import opened Checks

  // ---- the caller's program ----

  /** One operation; objects are named by their place in the caller's list. `grows` is the
      system's answer if it is asked for memory. */
  datatype Op =
    | Malloc(bytes: nat, grows: bool)
    | Memalign(alignment: nat, bytes: nat, grows: bool)
    | Ialloc(n: nat, sizes: seq<nat>, same: bool, clear: bool, given: bool, grows: bool)
    | Free(i: nat)
    | Realloc(i: nat, bytes: nat, grows: bool)
    | Write(i: nat, k: nat, v: int)
    | Read(i: nat, k: nat)

  /** What an operation did: `at` is the address that was returned. */
  datatype Event =
    | Got(at: int, bytes: nat)
    | GotMany(news: seq<Object>)
    | Released(i: nat)
    | Resize(i: nat, at: int, bytes: nat)
    | Stored(i: nat, k: nat, v: int)
    | Loaded(i: nat, k: nat, v: int)
    | Nothing

  // ---- objects as private memory ----

  /** An object: its address, its size in bytes, and the words the caller has written to it. */
  datatype Object = Object(at: int, bytes: nat, words: map<nat, int>)

  function Keep(words: map<nat, int>, bytes: nat): map<nat, int> {
    map k | k in words && 8 * k + 8 <= bytes :: words[k]
  }

  /** The objects after one more event. */
  function After(objs: seq<Object>, e: Event): seq<Object> {
    match e
    case Got(at, bytes) => objs + [Object(at, bytes, map[])]
    case GotMany(news) => objs + news
    case Released(i) => if i < |objs| then Without(objs, i) else objs
    case Resize(i, at, bytes) => if i < |objs| then objs[i := Object(at, bytes, Keep(objs[i].words, bytes))] else objs
    case Stored(i, k, v) => if i < |objs| then objs[i := objs[i].(words := objs[i].words[k := v])] else objs
    case Loaded(_, _, _) => objs
    case Nothing => objs
  }

  function Objects(events: seq<Event>): seq<Object> {
    if events == [] then [] else After(Objects(events[..|events| - 1]), events[|events| - 1])
  }

  /** A word read back is the one last written. */
  predicate Agrees(objs: seq<Object>, e: Event) {
    e.Loaded? && e.i < |objs| && e.k in objs[e.i].words ==> e.v == objs[e.i].words[e.k]
  }

  predicate AllAgree(events: seq<Event>) {
    forall n {:trigger events[n]} :: 0 <= n < |events| ==> Agrees(Objects(events[..n]), events[n])
  }

  ghost predicate MallocAnswer(t: Snapshot, bytes: nat, grows: bool, e: Event) {
    if bytes >= MAX_REQUEST || OutOfMemory(t, RequestToSize(bytes), grows) then e == Event.Nothing
    else e.Got? && e.bytes == bytes && e.at - 16 !in Live(t.chunks) && Chooses(t, bytes, e.at - 16)
  }

  /** The least power of two that is at least `alignment` and the size of a chunk. */
  ghost predicate RoundedUp(a: nat, alignment: nat) {
    && IsPowerOfTwo(a) && a >= alignment && MIN_CHUNK_SIZE <= a <= TOP_POWER
    && forall b: nat :: IsPowerOfTwo(b) && b >= alignment && b >= MIN_CHUNK_SIZE ==> a <= b
  }

  ghost predicate MemalignAnswer(t: Snapshot, a: nat, bytes: nat, grows: bool, e: Event)
    requires a > 0
  {
    if || bytes >= MAX_REQUEST - a || PaddedRequest(bytes, a) >= MAX_REQUEST
       || OutOfMemory(t, RequestToSize(PaddedRequest(bytes, a)), grows)
    then e == Event.Nothing
    else e.Got? && e.bytes == bytes && e.at - 16 !in Live(t.chunks) && IsAligned(e.at, a)
  }

  /** What was asked for element `j`. */
  function Requested(sizes: seq<nat>, same: bool, j: nat): nat
    requires if same then |sizes| > 0 else j < |sizes|
  {
    if same then sizes[0] else sizes[j]
  }

  /** An object's first words. */
  function FirstWords(values: seq<int>): map<nat, int> {
    map k: nat | k < |values| :: values[k]
  }

  function NewElement(at: int, bytes: nat, clear: bool): Object {
    Object(at, bytes, if clear then FirstWords(seq(bytes / 8, _ => 0)) else map[])
  }

  /** The objects of `ialloc`: the elements, and the array unless it was given. */
  function NewObjects(elems: seq<int>, marray: int, sizes: seq<nat>, same: bool, clear: bool, given: bool): seq<Object>
    requires if same then |sizes| > 0 else |elems| <= |sizes|
  {
    seq(|elems|, j requires 0 <= j < |elems| => NewElement(elems[j], Requested(sizes, same, j), clear))
    + if given then [] else [Object(marray, 8 * |elems|, FirstWords(elems))]
  }

  /** A call that does not wrap. */
  predicate FitsWord(n: nat, sizes: seq<nat>, same: bool, given: bool) {
    n == 0 || (Sized(sizes, same, n) && SumsFit(sizes, same, n, given))
  }

  /** No elements: an array for no pointers, if it is not given. */
  ghost predicate EmptyAnswer(t: Snapshot, given: bool, grows: bool, e: Event) {
    if given then e == GotMany([])
    else if OutOfMemory(t, MIN_CHUNK_SIZE, grows) then e == Event.Nothing
    else e.GotMany? && |e.news| == 1 && e.news[0] == Object(e.news[0].at, 0, map[])
         && e.news[0].at - 16 !in Live(t.chunks)
  }

  /** New addresses, one element behind the other, and the array behind them. */
  ghost predicate InARow(s: Snapshot, elems: seq<int>, marray: int, sizes: seq<nat>, same: bool, given: bool)
    requires if same then |sizes| > 0 else |elems| <= |sizes|
  {
    && (forall j :: 0 <= j < |elems| ==> elems[j] - 16 !in Live(s.chunks))
    && (forall j :: 0 <= j < |elems| - 1 ==> elems[j + 1] == elems[j] + ElementSize(sizes, same, j))
    && (!given ==> marray - 16 !in Live(s.chunks) && forall j :: 0 <= j < |elems| ==> elems[j] < marray)
  }

  /** New objects of the sizes asked for, and the array, which holds their addresses. */
  ghost predicate ManyAnswer(t: Snapshot, n: nat, sizes: seq<nat>, same: bool, clear: bool, given: bool, e: Event)
    requires Sized(sizes, same, n)
  {
    exists elems, marray {:trigger NewObjects(elems, marray, sizes, same, clear, given)} ::
      |elems| == n && e == GotMany(NewObjects(elems, marray, sizes, same, clear, given))
      && InARow(t, elems, marray, sizes, same, given)
  }

  ghost predicate IallocAnswer(t: Snapshot, n: nat, sizes: seq<nat>, same: bool, clear: bool, given: bool, grows: bool,
                               e: Event)
    requires FitsWord(n, sizes, same, given)
  {
    if n == 0 then EmptyAnswer(t, given, grows, e)
    else if Refused(t, sizes, same, n, given, grows) then e == Event.Nothing
    else ManyAnswer(t, n, sizes, same, clear, given, e)
  }

  /** Whether the chunk at `p` can be resized where it is. */
  ghost predicate InPlace(t: Snapshot, p: int, bytes: nat) {
    p in t.chunks && CanResize(t, p, RequestToSize(bytes))
  }

  ghost predicate ReallocAnswer(t: Snapshot, objs: seq<Object>, i: nat, bytes: nat, grows: bool, e: Event)
    requires i < |objs|
  {
    var p := objs[i].at - 16;
    if bytes >= MAX_REQUEST || (!InPlace(t, p, bytes) && OutOfMemory(t, RequestToSize(bytes), grows)) then
      e == Event.Nothing
    else
      && e.Resize? && e.i == i && e.bytes == bytes
      && if InPlace(t, p, bytes) then e.at == objs[i].at else e.at - 16 !in Live(t.chunks)
  }

  /** The event is the answer to the operation in state `t`: memory is refused exactly when it
      must be, and otherwise the right chunk is got, aligned as asked; what names an object
      and a word of it is done, and nothing else is. */
  ghost predicate Answers(objs: seq<Object>, op: Op, e: Event, t: Snapshot) {
    match op
    case Malloc(bytes, grows) => MallocAnswer(t, bytes, grows, e)
    case Memalign(alignment, bytes, grows) =>
      if alignment > TOP_POWER then e == Event.Nothing
      else exists a: nat :: a > 0 && RoundedUp(a, alignment) && MemalignAnswer(t, a, bytes, grows, e)
    case Ialloc(n, sizes, same, clear, given, grows) =>
      if FitsWord(n, sizes, same, given) then IallocAnswer(t, n, sizes, same, clear, given, grows, e)
      else e == Event.Nothing
    case Free(i) => e == if i < |objs| then Released(i) else Event.Nothing
    case Realloc(i, bytes, grows) =>
      if i >= |objs| then e == Event.Nothing else ReallocAnswer(t, objs, i, bytes, grows, e)
    case Write(i, k, v) => e == if i < |objs| && 8 * k + 8 <= objs[i].bytes then Stored(i, k, v) else Event.Nothing
    case Read(i, k) =>
      if i < |objs| && 8 * k + 8 <= objs[i].bytes then e.Loaded? && e.i == i && e.k == k else e == Event.Nothing
  }

  // ---- the free space from one moment to the next ----

  ghost predicate MallocFollows(t: Snapshot, t2: Snapshot, bytes: nat, e: Event) {
    if e.Got? then ShelfOf(t2) == AfterTake(t, e.at - 16, RequestToSize(bytes)) else t2 == t
  }

  ghost predicate MemalignFollows(t: Snapshot, t2: Snapshot, a: nat, bytes: nat, e: Event)
    requires a > 0
  {
    if e.Got? then AlignedSomehow(t, ShelfOf(t2), e.at - 16, bytes, a)
    else t2 == t
  }

  ghost predicate IallocFollows(t: Snapshot, t2: Snapshot, n: nat, sizes: seq<nat>, same: bool, given: bool, e: Event)
    requires FitsWord(n, sizes, same, given)
  {
    if e.GotMany? && e.news != [] then
      TakenFor(t, ShelfOf(t2), e.news[0].at - 16, if n == 0 then 0 else AskedBytes(sizes, same, n, given))
    else t2 == t
  }

  ghost predicate FreeFollows(t: Snapshot, t2: Snapshot, p: int) {
    p in t.chunks && ShelfOf(t2) == AfterFree(t, p)
  }

  ghost predicate ReallocFollows(t: Snapshot, t2: Snapshot, p: int, bytes: nat, e: Event) {
    if e.Resize? then
      p in t.chunks
      && if CanResize(t, p, RequestToSize(bytes)) then ShelfOf(t2) == AfterResize(t, p, RequestToSize(bytes))
         else MovedSomehow(t, ShelfOf(t2), p, e.at - 16, bytes)
    else t2 == t
  }

  /** What an operation with this outcome does to the designated victim, `top` and the bins, and
      that nothing happens when nothing is done. */
  ghost predicate Follows(objs: seq<Object>, op: Op, e: Event, t: Snapshot, t2: Snapshot) {
    match op
    case Malloc(bytes, _) => MallocFollows(t, t2, bytes, e)
    case Memalign(alignment, bytes, _) =>
      if alignment > TOP_POWER then t2 == t
      else exists a: nat :: a > 0 && RoundedUp(a, alignment) && MemalignFollows(t, t2, a, bytes, e)
    case Ialloc(n, sizes, same, _, given, _) =>
      if FitsWord(n, sizes, same, given) then IallocFollows(t, t2, n, sizes, same, given, e) else t2 == t
    case Free(i) => if i < |objs| then FreeFollows(t, t2, objs[i].at - 16) else t2 == t
    case Realloc(i, bytes, _) => if i < |objs| then ReallocFollows(t, t2, objs[i].at - 16, bytes, e) else t2 == t
    case Write(_, _, _) => ShelfOf(t2) == ShelfOf(t)
    case Read(_, _) => t2 == t
  }

  ghost predicate AnsweredAt(ops: seq<Op>, events: seq<Event>, moments: seq<Snapshot>, j: nat)
    requires j < |events| && j < |ops| && j + 1 < |moments|
  {
    && Answers(Objects(events[..j]), ops[j], events[j], moments[j])
    && Follows(Objects(events[..j]), ops[j], events[j], moments[j], moments[j + 1])
  }

  /** Every event is the answer to its operation, and every moment follows from the one before. */
  ghost predicate Answered(ops: seq<Op>, events: seq<Event>, moments: seq<Snapshot>, n: nat)
    requires n <= |events| && n <= |ops| && n < |moments|
  {
    forall j: nat {:trigger AnsweredAt(ops, events, moments, j)} :: j < n ==> AnsweredAt(ops, events, moments, j)
  }

  /** The history of the bins at every moment: it only grows, and the bins hold, for every size,
      the queue that it describes. */
  ghost predicate Chronicles(moments: seq<Snapshot>) {
    && (forall n {:trigger moments[n]} :: 0 <= n < |moments| ==>
          Chronicle(moments[n].trace, moments[n].small, moments[n].tree, moments[n].sizes))
    && (forall k, n {:trigger moments[k], moments[n]} :: 0 <= k <= n < |moments| ==>
         moments[k].trace <= moments[n].trace)
  }

  lemma ChroniclesMore(moments: seq<Snapshot>, t: Snapshot)
    requires Chronicles(moments) && |moments| > 0 && Chronicle(t.trace, t.small, t.tree, t.sizes)
    requires moments[|moments| - 1].trace <= t.trace
    ensures Chronicles(moments + [t])
  {
    hide Chronicle;
    var more := moments + [t];
    forall k, n {:trigger more[k], more[n]} | 0 <= k <= n < |more|
      ensures more[k].trace <= more[n].trace
    {
      if k < n == |moments| {
        assert moments[k].trace <= moments[|moments| - 1].trace;
      }
    }
    forall n {:trigger more[n]} | 0 <= n < |more|
      ensures Chronicle(more[n].trace, more[n].small, more[n].tree, more[n].sizes)
    {
      assert n < |moments| ==> more[n] == moments[n];
    }
  }

  /** At every moment of a run the bins are one queue for each size: the tree node of a size,
      where a best-fit search stops, is the chunk of that size which has been waiting longest,
      and the first chunk of a small bin the one that came last. */
  lemma OldestServed(moments: seq<Snapshot>, n: nat, s: nat, k: nat)
    requires Chronicles(moments) && n < |moments|
    requires 0 < k < |Waiting(moments[n].small, moments[n].tree, moments[n].sizes, s)|
    ensures var r, trace := Waiting(moments[n].small, moments[n].tree, moments[n].sizes, s), moments[n].trace;
            && r == Queue(trace, s) && Arrival(trace, r[0]) < Arrival(trace, r[k])
            && Arrival(trace, r[k - 1]) < Arrival(trace, r[|r| - 1])
  {
    hide Chronicle, Waiting;
    var t := moments[n];
    ChainIsQueue(t.trace, t.small, t.tree, t.sizes, s);
    OldestIsNode(t.trace, t.small, t.tree, t.sizes, s, k);
  }

  lemma AnsweredMore(ops: seq<Op>, events: seq<Event>, e: Event, moments: seq<Snapshot>, t: Snapshot)
    requires |events| < |ops| && |moments| == |events| + 1 && Answered(ops, events, moments, |events|)
    requires Answers(Objects(events), ops[|events|], e, moments[|events|])
    requires Follows(Objects(events), ops[|events|], e, moments[|events|], t)
    ensures Answered(ops, events + [e], moments + [t], |events| + 1)
  {
    var more, moments2 := events + [e], moments + [t];
    forall j: nat {:trigger AnsweredAt(ops, more, moments2, j)} | j < |more|
      ensures AnsweredAt(ops, more, moments2, j)
    {
      if j < |events| {
        assert AnsweredAt(ops, events, moments, j);
        StillAnswered(ops, events, e, moments, t, j);
      } else {
        LastAnswered(ops, events, e, moments, t);
      }
    }
  }

  lemma StillAnswered(ops: seq<Op>, events: seq<Event>, e: Event, moments: seq<Snapshot>, t: Snapshot, j: nat)
    requires j < |events| < |ops| && |moments| == |events| + 1 && AnsweredAt(ops, events, moments, j)
    ensures AnsweredAt(ops, events + [e], moments + [t], j)
  {
    hide Answers, Follows, Objects;
    assert (events + [e])[..j] == events[..j];
  }

  lemma LastAnswered(ops: seq<Op>, events: seq<Event>, e: Event, moments: seq<Snapshot>, t: Snapshot)
    requires |events| < |ops| && |moments| == |events| + 1
    requires Answers(Objects(events), ops[|events|], e, moments[|events|])
    requires Follows(Objects(events), ops[|events|], e, moments[|events|], t)
    ensures AnsweredAt(ops, events + [e], moments + [t], |events|)
  {
    hide Answers, Follows, Objects;
    assert (events + [e])[..|events|] == events;
  }

  lemma EventMore(events: seq<Event>, e: Event)
    ensures Objects(events + [e]) == After(Objects(events), e)
    ensures AllAgree(events) && Agrees(Objects(events), e) ==> AllAgree(events + [e])
  {
    var more := events + [e];
    assert more[..|more| - 1] == events;
    if AllAgree(events) && Agrees(Objects(events), e) {
      forall n | 0 <= n < |more|
        ensures Agrees(Objects(more[..n]), more[n])
      {
        assert more[..n] == events[..n];
        assert n < |events| ==> more[n] == events[n];
      }
    }
  }

  // ---- objects in the heap ----

  /** Object `o` is held at payload address `a`. */
  ghost predicate HeldAt(mem: Memory, live: map<int, nat>, a: int, o: Object) {
    && o.at == a && a - 16 in live && o.bytes + CHUNK_OVERHEAD <= live[a - 16] && a > 16
    && forall k {:trigger k in o.words} :: k in o.words ==> 8 * k + 8 <= o.bytes && Peek(mem, a + 8 * k) == o.words[k]
  }

  ghost predicate Held(mem: Memory, live: map<int, nat>, held: seq<int>, objs: seq<Object>) {
    && |held| == |objs|
    && (forall i {:trigger HeldAt(mem, live, held[i], objs[i])} :: 0 <= i < |held| ==>
         HeldAt(mem, live, held[i], objs[i]))
    && (forall i, j {:trigger held[i], held[j]} :: 0 <= i < j < |held| ==> held[i] != held[j])
  }

  ghost predicate Running(m: State, held: seq<int>, events: seq<Event>)
    reads m
  {
    Valid(m) && Held(m.mem, Live(m.chunks), held, Objects(events)) && AllAgree(events)
  }

  /** An object whose chunk and payload stay is still held. */
  lemma StillHeld(mem: Memory, mem': Memory, live: map<int, nat>, live': map<int, nat>, a: int, o: Object,
                  keep: map<int, nat>)
    requires HeldAt(mem, live, a, o) && Untouched(mem, mem', keep)
    requires a - 16 in keep && keep[a - 16] == live[a - 16] && a - 16 in live' && live'[a - 16] >= live[a - 16]
    ensures HeldAt(mem', live', a, o)
  {
    forall k | k in o.words
      ensures 8 * k + 8 <= o.bytes && Peek(mem', a + 8 * k) == o.words[k]
    {
      assert PayloadWord(a - 16, keep[a - 16], a + 8 * k);
    }
  }

  /** All objects are held on when their chunks and payloads stay. */
  lemma AllStillHeld(mem: Memory, mem': Memory, live: map<int, nat>, live': map<int, nat>, held: seq<int>,
                     objs: seq<Object>)
    requires Held(mem, live, held, objs) && Untouched(mem, mem', live)
    requires forall x :: x in live ==> x in live' && live'[x] == live[x]
    ensures Held(mem', live', held, objs)
  {
    hide HeldAt, Untouched;
    forall i | 0 <= i < |held|
      ensures HeldAt(mem', live', held[i], objs[i])
    {
      assert HeldAt(mem, live, held[i], objs[i]);
      HeldLive(mem, live, held[i], objs[i]);
      StillHeld(mem, mem', live, live', held[i], objs[i], live);
    }
  }

  lemma HeldLive(mem: Memory, live: map<int, nat>, a: int, o: Object)
    requires HeldAt(mem, live, a, o)
    ensures a - 16 in live && o.bytes + CHUNK_OVERHEAD <= live[a - 16] && a > 16
  {
  }

  // ---- a new object ----

  lemma OneMoreHeld(mem: Memory, mem': Memory, live: map<int, nat>, live': map<int, nat>, held: seq<int>,
                    objs: seq<Object>, p: int, bytes: nat)
    requires Held(mem, live, held, objs) && Untouched(mem, mem', live)
    requires p !in live && p in live' && live' == live[p := live'[p]] && bytes + CHUNK_OVERHEAD <= live'[p] && p > 0
    ensures Held(mem', live', held + [p + 16], objs + [Object(p + 16, bytes, map[])])
  {
    hide HeldAt, Untouched;
    AllStillHeld(mem, mem', live, live', held, objs);
    var held', objs' := held + [p + 16], objs + [Object(p + 16, bytes, map[])];
    NewHeld(mem', live', p, bytes);
    forall i | 0 <= i < |held'|
      ensures HeldAt(mem', live', held'[i], objs'[i])
      ensures i < |held| ==> held'[i] != p + 16
    {
      if i < |held| {
        assert HeldAt(mem', live', held[i], objs[i]);
        assert HeldAt(mem, live, held[i], objs[i]);
        HeldLive(mem, live, held[i], objs[i]);
      }
    }
  }

  lemma NewHeld(mem: Memory, live: map<int, nat>, p: int, bytes: nat)
    requires p in live && bytes + CHUNK_OVERHEAD <= live[p] && p > 0
    ensures HeldAt(mem, live, p + 16, Object(p + 16, bytes, map[]))
  {
  }

  // ---- one object changed, dropped or moved ----

  /** Everything but object `i`, whose chunk may be gone or changed, is held on. */
  lemma OthersHeld(mem: Memory, mem': Memory, live: map<int, nat>, live': map<int, nat>, held: seq<int>,
                   objs: seq<Object>, i: nat, j: nat)
    requires Held(mem, live, held, objs) && i < |held| && j < |held| && i != j
    requires Untouched(mem, mem', live - {held[i] - 16})
    requires forall x :: x in live && x != held[i] - 16 ==> x in live' && live'[x] == live[x]
    ensures HeldAt(mem', live', held[j], objs[j]) && held[j] != held[i] && held[j] - 16 in live
  {
    hide HeldAt, Untouched;
    assert HeldAt(mem, live, held[j], objs[j]);
    HeldLive(mem, live, held[j], objs[j]);
    Distinct(held, i, j);
    StillHeld(mem, mem', live, live', held[j], objs[j], live - {held[i] - 16});
  }

  lemma Distinct(held: seq<int>, i: nat, j: nat)
    requires i < |held| && j < |held| && i != j
    requires forall i, j {:trigger held[i], held[j]} :: 0 <= i < j < |held| ==> held[i] != held[j]
    ensures held[i] != held[j]
  {
  }

  /** Place `j` of a list without its place `i`, in the whole list. */
  function Skip(j: nat, i: nat): nat {
    if j < i then j else j + 1
  }

  lemma OneLessHeld(mem: Memory, mem': Memory, live: map<int, nat>, live': map<int, nat>, held: seq<int>,
                    objs: seq<Object>, i: nat)
    requires Held(mem, live, held, objs) && i < |held| && live' == live - {held[i] - 16}
    requires Untouched(mem, mem', live - {held[i] - 16})
    ensures Held(mem', live', Without(held, i), Without(objs, i))
  {
    hide HeldAt, Untouched;
    var held', objs' := Without(held, i), Without(objs, i);
    forall j | 0 <= j < |held'|
      ensures HeldAt(mem', live', held'[j], objs'[j])
    {
      var n := Skip(j, i);
      assert held'[j] == held[n] && objs'[j] == objs[n];
      OthersHeld(mem, mem', live, live', held, objs, i, n);
    }
    forall j, k | 0 <= j < k < |held'|
      ensures held'[j] != held'[k]
    {
      assert held'[j] == held[Skip(j, i)] && held'[k] == held[Skip(k, i)];
      Distinct(held, Skip(j, i), Skip(k, i));
    }
  }

  /** Object `i` becomes `o`, at `a`. */
  lemma OneChanged(mem: Memory, mem': Memory, live: map<int, nat>, live': map<int, nat>, held: seq<int>,
                   objs: seq<Object>,
                   i: nat, a: int, o: Object)
    requires Held(mem, live, held, objs) && i < |held| && Untouched(mem, mem', live - {held[i] - 16})
    requires forall x :: x in live && x != held[i] - 16 ==> x in live' && live'[x] == live[x]
    requires a == held[i] || a - 16 !in live
    requires HeldAt(mem', live', a, o)
    ensures Held(mem', live', held[i := a], objs[i := o])
  {
    hide HeldAt, Untouched;
    var held', objs' := held[i := a], objs[i := o];
    forall j | 0 <= j < |held'|
      ensures HeldAt(mem', live', held'[j], objs'[j])
      ensures j != i ==> held'[j] != a
    {
      if j != i {
        OthersHeld(mem, mem', live, live', held, objs, i, j);
      }
    }
    forall j, k | 0 <= j < k < |held'|
      ensures held'[j] != held'[k]
    {
      Distinct(held, j, k);
    }
  }

  // ---- the operations ----

  lemma GotOne(m: State, s: Snapshot, held: seq<int>, objs: seq<Object>, p: int, bytes: nat)
    requires Held(s.mem, Live(s.chunks), held, objs)
    requires NewAt(m, s, p) && bytes + CHUNK_OVERHEAD <= Live(m.chunks)[p]
    ensures Valid(m) && Held(m.mem, Live(m.chunks), held + [p + 16], objs + [Object(p + 16, bytes, map[])])
  {
    hide Valid, Live, Held, Untouched;
    NewPositive(m, s, p);
    OneMoreHeld(s.mem, m.mem, Live(s.chunks), Live(m.chunks), held, objs, p, bytes);
  }

  /** `malloc`; a null result gives no object. */
  method DoMalloc(m: State, held: seq<int>, ghost events: seq<Event>, bytes: nat, grows: bool)
    returns (held': seq<int>, e: Event)
    requires Running(m, held, events)
    modifies m
    ensures old(m.trace) <= m.trace && (old(m.Chronicled()) ==> m.Chronicled())
    ensures Running(m, held', events + [e]) && MallocAnswer(old(Snap(m)), bytes, grows, e)
    ensures MallocFollows(old(Snap(m)), Snap(m), bytes, e)
  {
    hide *;
    ghost var s, t := Snap(m), Snap(m);
    MomentIs(m);
    RunParts(m, held, events);
    var mem := DlMalloc(m, bytes, grows);
    if mem != 0 {
      RequestSize(bytes);
      AllocatedIsNew(m, s, mem - 16, RequestToSize(bytes));
      GotOne(m, s, held, Objects(events), mem - 16, bytes);
      held', e := held + [mem], Got(mem, bytes);
      assert mem - 16 + 16 == mem;
      AfterGot(Objects(events), mem, bytes);
      IsNew(m, s, mem - 16);
    } else {
      held', e := held, Event.Nothing;
      AfterNothing(Objects(events));
    }
    MallocAnswered(s, t, bytes, grows, mem, e);
    MallocFollowed(t, Snap(m), bytes, mem, e);
    RunMore(m, held, held', events, e);
  }

  lemma IsNew(m: State, s: Snapshot, p: int)
    requires NewAt(m, s, p)
    ensures p !in Live(s.chunks)
  {
    hide Valid, Live, Untouched;
  }

  lemma MallocAnswered(s: Snapshot, t: Snapshot, bytes: nat, grows: bool, mem: int, e: Event)
    requires t == s && (mem == 0 <==> bytes >= MAX_REQUEST || OutOfMemory(s, RequestToSize(bytes), grows))
    requires e == if mem == 0 then Event.Nothing else Got(mem, bytes)
    requires mem != 0 ==> mem - 16 !in Live(s.chunks)
    requires mem != 0 ==> Chooses(s, bytes, mem - 16)
    ensures MallocAnswer(t, bytes, grows, e)
  {
    hide OutOfMemory, Chooses, Live, RequestToSize;
  }

  lemma MallocFollowed(t: Snapshot, t2: Snapshot, bytes: nat, mem: int, e: Event)
    requires e == if mem == 0 then Event.Nothing else Got(mem, bytes)
    requires if mem == 0 then t2 == t else ShelfOf(t2) == AfterTake(t, mem - 16, RequestToSize(bytes))
    ensures MallocFollows(t, t2, bytes, e)
  {
  }

  lemma MomentIs(m: State)
    ensures Snap(m).tree == m.tree && Snap(m).trace == m.trace
  {
  }

  lemma RunParts(m: State, held: seq<int>, events: seq<Event>)
    requires Running(m, held, events)
    ensures Valid(m) && Held(m.mem, Live(m.chunks), held, Objects(events)) && |held| == |Objects(events)|
    ensures Snap(m).mem == m.mem && Snap(m).chunks == m.chunks && AllAgree(events)
  {
    hide Valid, HeldAt, AllAgree;
  }

  /** A run goes on with an event that leaves the objects as they are held. */
  lemma RunMore(m: State, held: seq<int>, held': seq<int>, events: seq<Event>, e: Event)
    requires Valid(m) && AllAgree(events) && Held(m.mem, Live(m.chunks), held', After(Objects(events), e)) && !e.Loaded?
    ensures Running(m, held', events + [e])
  {
    hide Valid, HeldAt, AllAgree, Objects;
    EventMore(events, e);
  }

  lemma AfterGot(objs: seq<Object>, at: int, bytes: nat)
    ensures After(objs, Got(at, bytes)) == objs + [Object(at, bytes, map[])] && !Got(at, bytes).Loaded?
  {
  }

  lemma AfterNothing(objs: seq<Object>)
    ensures After(objs, Event.Nothing) == objs && !Event.Nothing.Loaded?
  {
  }

  /** `memalign`. */
  method DoMemalign(m: State, held: seq<int>, ghost events: seq<Event>, alignment: nat, bytes: nat, grows: bool)
    returns (held': seq<int>, e: Event, ghost a: nat)
    requires Running(m, held, events) && alignment <= TOP_POWER
    modifies m
    ensures old(m.trace) <= m.trace && (old(m.Chronicled()) ==> m.Chronicled())
    ensures Running(m, held', events + [e])
    ensures a > 0 && RoundedUp(a, alignment) && MemalignAnswer(old(Snap(m)), a, bytes, grows, e)
    ensures MemalignFollows(old(Snap(m)), Snap(m), a, bytes, e)
  {
    hide *;
    ghost var s, t := Snap(m), Snap(m);
    MomentIs(m);
    RunParts(m, held, events);
    var mem: int;
    ghost var p0, mid, mid2;
    mem, a, p0, mid, mid2 := InternalMemalign(m, alignment, bytes, grows);
    PowerPositive(a, alignment);
    if mem != 0 {
      BelowMax(bytes, a);
      AlignedIsNew(m, s, mem - 16, bytes, a);
      GotOne(m, s, held, Objects(events), mem - 16, bytes);
      held', e := held + [mem], Got(mem, bytes);
      assert mem - 16 + 16 == mem;
      AfterGot(Objects(events), mem, bytes);
      IsNew(m, s, mem - 16);
    } else {
      held', e := held, Event.Nothing;
      AfterNothing(Objects(events));
    }
    MemalignAnswered(s, t, a, bytes, grows, mem, e);
    MemalignFollowed(t, Snap(m), a, bytes, mem, e, p0, mid, mid2);
    RunMore(m, held, held', events, e);
  }

  lemma PowerPositive(a: nat, alignment: nat)
    requires IsPowerOfTwo(a) && a >= alignment && MIN_CHUNK_SIZE <= a <= TOP_POWER
    requires forall b: nat :: IsPowerOfTwo(b) && b >= alignment && b >= MIN_CHUNK_SIZE ==> a <= b
    ensures a > 0 && RoundedUp(a, alignment)
  {
    hide IsPowerOfTwo;
  }

  lemma MemalignFollowed(t: Snapshot, t2: Snapshot, a: nat, bytes: nat, mem: int, e: Event, p0: int, mid: Snapshot,
                         mid2: Snapshot)
    requires a > 0 && e == if mem == 0 then Event.Nothing else Got(mem, bytes)
    requires if mem == 0 then t2 == t else AlignedVia(t, mid, mid2, ShelfOf(t2), p0, mem - 16, bytes, a)
    ensures MemalignFollows(t, t2, a, bytes, e)
  {
    hide AlignedVia;
    assert mem != 0 ==> AlignedSomehow(t, ShelfOf(t2), mem - 16, bytes, a);
  }

  lemma MemalignAnswered(s: Snapshot, t: Snapshot, a: nat, bytes: nat, grows: bool, mem: int, e: Event)
    requires a > 0 && t == s
    requires mem == 0 <==> bytes >= MAX_REQUEST - a || PaddedRequest(bytes, a) >= MAX_REQUEST
                           || OutOfMemory(s, RequestToSize(PaddedRequest(bytes, a)), grows)
    requires e == if mem == 0 then Event.Nothing else Got(mem, bytes)
    requires mem != 0 ==> mem - 16 !in Live(s.chunks) && IsAligned(mem, a)
    ensures MemalignAnswer(t, a, bytes, grows, e)
  {
    hide OutOfMemory, Live, RequestToSize, PaddedRequest, IsAligned;
  }

  lemma AlignedIsNew(m: State, s: Snapshot, p: int, bytes: nat, a: nat)
    requires a > 0 && AlignedAt(m, s, p, RequestToSize(bytes), a) && bytes < MAX_REQUEST
    ensures NewAt(m, s, p) && bytes + CHUNK_OVERHEAD <= Live(m.chunks)[p] && IsAligned(p + 16, a)
  {
    hide NewAt, IsAligned;
    RequestSize(bytes);
  }

  // ---- ialloc ----

  /** New objects join those that are held. */
  lemma ManyMoreHeld(mem: Memory, mem': Memory, live: map<int, nat>, live': map<int, nat>, held: seq<int>,
                     objs: seq<Object>, addresses: seq<int>, news: seq<Object>)
    requires Held(mem, live, held, objs) && Untouched(mem, mem', live) && Held(mem', live', addresses, news)
    requires forall x :: x in live ==> x in live' && live'[x] == live[x]
    requires forall j :: 0 <= j < |addresses| ==> addresses[j] - 16 !in live
    ensures Held(mem', live', held + addresses, objs + news)
  {
    hide HeldAt, Untouched;
    AllStillHeld(mem, mem', live, live', held, objs);
    var held', objs' := held + addresses, objs + news;
    forall i | 0 <= i < |held'|
      ensures HeldAt(mem', live', held'[i], objs'[i])
      ensures i < |held| ==> held'[i] - 16 in live
    {
      if i < |held| {
        assert HeldAt(mem', live', held[i], objs[i]);
        assert HeldAt(mem, live, held[i], objs[i]);
        HeldLive(mem, live, held[i], objs[i]);
      } else {
        assert HeldAt(mem', live', addresses[i - |held|], news[i - |held|]);
      }
    }
  }

  lemma ElementHeld(m: State, s: Snapshot, pl: Plan, news: Chunks, elems: seq<int>, marray: int, clear: bool, j: nat)
    requires Carved(m, s, pl, news, elems, marray) && (clear ==> AllClear(m.mem, pl, news)) && j < pl.n
    ensures HeldAt(m.mem, Live(m.chunks), elems[j], NewElement(elems[j], Requested(pl.sizes, pl.same, j), clear))
  {
    hide Valid, Untouched, Live, Tiles, Laid, Pointers, Elements, NoneLive, Offset, ArraySize, ElementSize, AllClear;
    var bytes := Requested(pl.sizes, pl.same, j);
    CarvedElement(m, s, pl, news, elems, marray, j);
    ElementHolds(pl.sizes, pl.same, j);
    CarvedNew(m, s, pl, news, elems, marray);
    LivePositive(m, elems[j] - 16);
    if clear {
      forall k: nat | k < bytes / 8 ensures 8 * k + 8 <= bytes && Peek(m.mem, elems[j] + 8 * k) == 0 {
        ElementClear(m, s, pl, news, elems, marray, j, k);
      }
    }
  }

  lemma ArrayHeld(m: State, s: Snapshot, pl: Plan, news: Chunks, elems: seq<int>, marray: int)
    requires Carved(m, s, pl, news, elems, marray) && !pl.given && 8 * pl.n < WORD_LIMIT && pl.n > 0
    ensures HeldAt(m.mem, Live(m.chunks), marray, Object(marray, 8 * |elems|, FirstWords(elems)))
  {
    hide Valid, Untouched, Live, Tiles, Laid, Pointers, Elements, NoneLive, Offset, ArraySize, ElementSize;
    CarvedElement(m, s, pl, news, elems, marray, pl.n - 1);
    ArrayHolds(pl.n);
    CarvedNew(m, s, pl, news, elems, marray);
    LivePositive(m, marray - 16);
    PointersRead(m, s, pl, news, elems, marray);
  }

  lemma PointersRead(m: State, s: Snapshot, pl: Plan, news: Chunks, elems: seq<int>, marray: int)
    requires Carved(m, s, pl, news, elems, marray) && !pl.given
    ensures forall k: nat :: k < |elems| ==> Peek(m.mem, marray + 8 * k) == elems[k]
  {
    hide Valid, Untouched, Live, Tiles;
    forall k: nat | k < |elems| ensures Peek(m.mem, marray + 8 * k) == elems[k] {
      assert PointerAt(m.mem, marray, elems, k);
    }
  }

  function Addresses(elems: seq<int>, marray: int, given: bool): seq<int> {
    elems + if given then [] else [marray]
  }

  lemma ObjectAt(elems: seq<int>, marray: int, sizes: seq<nat>, same: bool, clear: bool, given: bool, j: nat)
    requires if same then |sizes| > 0 else |elems| <= |sizes|
    requires j < |elems| || (j == |elems| && !given)
    ensures var objs := NewObjects(elems, marray, sizes, same, clear, given);
            && |objs| == |Addresses(elems, marray, given)| == |elems| + (if given then 0 else 1)
            && Addresses(elems, marray, given)[j] == (if j < |elems| then elems[j] else marray)
            && objs[j] == if j < |elems| then NewElement(elems[j], Requested(sizes, same, j), clear)
                          else Object(marray, 8 * |elems|, FirstWords(elems))
  {
    hide NewElement, FirstWords;
  }

  lemma NewAddress(m: State, s: Snapshot, pl: Plan, news: Chunks, elems: seq<int>, marray: int, i: nat, j: nat)
    requires Carved(m, s, pl, news, elems, marray) && i < j < pl.n + (if pl.given then 0 else 1)
    ensures |elems| == pl.n && Addresses(elems, marray, pl.given)[i] != Addresses(elems, marray, pl.given)[j]
  {
    ElementsApart(m, s, pl, news, elems, marray, i, j);
    hide Valid, Untouched, Live, Tiles, Laid, Pointers, Elements, NoneLive, Offset, ArraySize, ElementSize;
  }

  lemma PlanSized(m: State, s: Snapshot, pl: Plan, news: Chunks, elems: seq<int>, marray: int)
    requires Carved(m, s, pl, news, elems, marray)
    ensures Sized(pl.sizes, pl.same, pl.n) && |elems| == pl.n > 0 && 8 * pl.n < WORD_LIMIT
    ensures if pl.same then |pl.sizes| > 0 else |elems| <= |pl.sizes|
  {
    hide Valid, Untouched, Live, Tiles, Laid, Pointers, Elements, NoneLive, Offset, ArraySize, ElementSize;
  }

  /** The elements and the array are held. */
  lemma ManyHeld(m: State, s: Snapshot, pl: Plan, news: Chunks, elems: seq<int>, marray: int, clear: bool)
    requires Carved(m, s, pl, news, elems, marray) && (clear ==> AllClear(m.mem, pl, news))
    requires if pl.same then |pl.sizes| > 0 else |elems| <= |pl.sizes|
    ensures Held(m.mem, Live(m.chunks), Addresses(elems, marray, pl.given),
                 NewObjects(elems, marray, pl.sizes, pl.same, clear, pl.given))
  {
    PlanSized(m, s, pl, news, elems, marray);
    hide Carved, AllClear, Live, Addresses, NewObjects, HeldAt, NewElement;
    var addresses, objs := Addresses(elems, marray, pl.given),
      NewObjects(elems, marray, pl.sizes, pl.same, clear, pl.given);
    ObjectAt(elems, marray, pl.sizes, pl.same, clear, pl.given, 0);
    forall i | 0 <= i < |addresses|
      ensures HeldAt(m.mem, Live(m.chunks), addresses[i], objs[i])
    {
      ObjectAt(elems, marray, pl.sizes, pl.same, clear, pl.given, i);
      if i < pl.n {
        ElementHeld(m, s, pl, news, elems, marray, clear, i);
      } else {
        ArrayHeld(m, s, pl, news, elems, marray);
      }
    }
    forall i, j {:trigger addresses[i], addresses[j]} | 0 <= i < j < |addresses| ensures addresses[i] != addresses[j] {
      NewAddress(m, s, pl, news, elems, marray, i, j);
    }
  }

  lemma GotAll(m: State, s: Snapshot, held: seq<int>, objs: seq<Object>, pl: Plan, news: Chunks, elems: seq<int>,
               marray: int, clear: bool)
    requires Held(s.mem, Live(s.chunks), held, objs)
    requires Carved(m, s, pl, news, elems, marray) && (clear ==> AllClear(m.mem, pl, news))
    requires if pl.same then |pl.sizes| > 0 else |elems| <= |pl.sizes|
    ensures Valid(m) && Held(m.mem, Live(m.chunks), held + Addresses(elems, marray, pl.given),
                             objs + NewObjects(elems, marray, pl.sizes, pl.same, clear, pl.given))
  {
    PlanSized(m, s, pl, news, elems, marray);
    CarvedNew(m, s, pl, news, elems, marray);
    ManyHeld(m, s, pl, news, elems, marray, clear);
    hide Carved, AllClear, Live, Valid, Untouched, NewObjects, Held;
    ManyMoreHeld(s.mem, m.mem, Live(s.chunks), Live(m.chunks), held, objs, Addresses(elems, marray, pl.given),
                 NewObjects(elems, marray, pl.sizes, pl.same, clear, pl.given));
  }

  lemma CarvedRow(m: State, s: Snapshot, pl: Plan, news: Chunks, elems: seq<int>, marray: int)
    requires Carved(m, s, pl, news, elems, marray)
    requires if pl.same then |pl.sizes| > 0 else |elems| <= |pl.sizes|
    ensures InARow(s, elems, marray, pl.sizes, pl.same, pl.given)
  {
    PlanSized(m, s, pl, news, elems, marray);
    CarvedNew(m, s, pl, news, elems, marray);
    hide Carved, Live, Valid, Untouched, ElementSize, Offset, ArraySize, Sized;
    forall j | 0 <= j < |elems| - 1 ensures elems[j + 1] == elems[j] + ElementSize(pl.sizes, pl.same, j) {
      NextElement(m, s, pl, news, elems, marray, j);
    }
    if !pl.given {
      forall j | 0 <= j < |elems| ensures elems[j] < marray {
        ArrayIsLast(m, s, pl, news, elems, marray, j);
      }
    }
  }

  lemma NextElement(m: State, s: Snapshot, pl: Plan, news: Chunks, elems: seq<int>, marray: int, j: nat)
    requires Carved(m, s, pl, news, elems, marray) && j + 1 < |elems|
    requires if pl.same then |pl.sizes| > 0 else |elems| <= |pl.sizes|
    ensures elems[j + 1] == elems[j] + ElementSize(pl.sizes, pl.same, j)
  {
    PlanSized(m, s, pl, news, elems, marray);
    CarvedElement(m, s, pl, news, elems, marray, j);
    hide Carved, Live, ElementSize, ArraySize;
  }

  lemma ManyAnswered(m: State, s: Snapshot, t: Snapshot, pl: Plan, news: Chunks, elems: seq<int>, marray: int,
                     clear: bool)
    requires Carved(m, s, pl, news, elems, marray) && t == s
    requires if pl.same then |pl.sizes| > 0 else |elems| <= |pl.sizes|
    ensures Sized(pl.sizes, pl.same, pl.n)
    ensures ManyAnswer(t, pl.n, pl.sizes, pl.same, clear, pl.given,
                       GotMany(NewObjects(elems, marray, pl.sizes, pl.same, clear, pl.given)))
  {
    PlanSized(m, s, pl, news, elems, marray);
    hide Carved, NewObjects, InARow, Sized;
    CarvedRow(m, s, pl, news, elems, marray);
  }

  lemma ArrayIsLast(m: State, s: Snapshot, pl: Plan, news: Chunks, elems: seq<int>, marray: int, j: nat)
    requires Carved(m, s, pl, news, elems, marray) && !pl.given && j < |elems|
    ensures elems[j] < marray
  {
    PlanSized(m, s, pl, news, elems, marray);
    ElementsApart(m, s, pl, news, elems, marray, j, pl.n);
    hide Valid, Untouched, Live, Tiles, Laid, Pointers, Elements, NoneLive;
  }

  /** `independent_calloc` and `independent_comalloc`, for calls that do not wrap. */
  method DoIalloc(m: State, held: seq<int>, ghost events: seq<Event>, n: nat, sizes: seq<nat>, same: bool,
                  clear: bool, given: bool, grows: bool) returns (held': seq<int>, e: Event)
    requires Running(m, held, events) && n > 0 && FitsWord(n, sizes, same, given)
    modifies m
    ensures old(m.trace) <= m.trace && (old(m.Chronicled()) ==> m.Chronicled())
    ensures Running(m, held', events + [e]) && IallocAnswer(old(Snap(m)), n, sizes, same, clear, given, grows, e)
    ensures IallocFollows(old(Snap(m)), Snap(m), n, sizes, same, given, e)
  {
    hide *;
    ghost var s, t := Snap(m), Snap(m);
    MomentIs(m);
    RunParts(m, held, events);
    WordFits(n, sizes, same, given);
    var r, marray, elems, pl, news := IallocAny(m, n, sizes, same, clear, given, grows);
    if r.Cut? {
      PlanSized(m, s, pl, news, elems, marray);
      GotAll(m, s, held, Objects(events), pl, news, elems, marray, clear);
      ManyAnswered(m, s, t, pl, news, elems, marray, clear);
      held' := held + Addresses(elems, marray, given);
      e := GotMany(NewObjects(elems, marray, sizes, same, clear, given));
      AfterMany(Objects(events), e.news);
      FirstElement(m, s, pl, news, elems, marray, clear);
    } else {
      held', e := held, Event.Nothing;
      AfterNothing(Objects(events));
    }
    IallocFollowed(t, Snap(m), n, sizes, same, given, e);
    IallocAnswered(t, n, sizes, same, clear, given, grows, e);
    RunMore(m, held, held', events, e);
  }

  lemma FirstElement(m: State, s: Snapshot, pl: Plan, news: Chunks, elems: seq<int>, marray: int, clear: bool)
    requires Carved(m, s, pl, news, elems, marray)
    requires if pl.same then |pl.sizes| > 0 else |elems| <= |pl.sizes|
    ensures var objs := NewObjects(elems, marray, pl.sizes, pl.same, clear, pl.given);
            objs != [] && objs[0].at - 16 == pl.p
  {
    hide Valid, Untouched, Live, Tiles, Laid, Pointers, NoneLive, ArraySize, ElementSize;
  }

  lemma IallocFollowed(t: Snapshot, t2: Snapshot, n: nat, sizes: seq<nat>, same: bool, given: bool, e: Event)
    requires n > 0 && FitsWord(n, sizes, same, given)
    requires if e.GotMany? then
               e.news != [] && TakenFor(t, ShelfOf(t2), e.news[0].at - 16, AskedBytes(sizes, same, n, given))
             else t2 == t
    ensures IallocFollows(t, t2, n, sizes, same, given, e)
  {
    hide TakenFor, SumsFit, Sized;
  }

  lemma WordFits(n: nat, sizes: seq<nat>, same: bool, given: bool)
    requires n > 0 && FitsWord(n, sizes, same, given)
    ensures Sized(sizes, same, n) && SumsFit(sizes, same, n, given)
  {
  }

  lemma AfterMany(objs: seq<Object>, news: seq<Object>)
    ensures After(objs, GotMany(news)) == objs + news && !GotMany(news).Loaded?
  {
  }

  lemma IallocAnswered(t: Snapshot, n: nat, sizes: seq<nat>, same: bool, clear: bool, given: bool, grows: bool,
                       e: Event)
    requires n > 0 && FitsWord(n, sizes, same, given) && Sized(sizes, same, n)
    requires Refused(t, sizes, same, n, given, grows) ==> e == Event.Nothing
    requires !Refused(t, sizes, same, n, given, grows) ==> ManyAnswer(t, n, sizes, same, clear, given, e)
    ensures IallocAnswer(t, n, sizes, same, clear, given, grows, e)
  {
    hide Refused, ManyAnswer, SumsFit;
  }

  /** The same for no elements. */
  method DoEmptyIalloc(m: State, held: seq<int>, ghost events: seq<Event>, sizes: seq<nat>, same: bool, clear: bool,
                       given: bool, grows: bool) returns (held': seq<int>, e: Event)
    requires Running(m, held, events)
    modifies m
    ensures old(m.trace) <= m.trace && (old(m.Chronicled()) ==> m.Chronicled())
    ensures Running(m, held', events + [e]) && EmptyAnswer(old(Snap(m)), given, grows, e)
    ensures FitsWord(0, sizes, same, given) && IallocFollows(old(Snap(m)), Snap(m), 0, sizes, same, given, e)
  {
    hide *;
    ghost var s, t := Snap(m), Snap(m);
    MomentIs(m);
    RunParts(m, held, events);
    var r, marray, elems, pl, news := IallocAny(m, 0, sizes, same, clear, given, grows);
    if given {
      held', e := held, GotMany([]);
      AfterMany(Objects(events), []);
      assert Objects(events) + [] == Objects(events);
    } else if r.Cut? {
      AllocatedIsNew(m, s, marray - 16, MIN_CHUNK_SIZE);
      HeadFits();
      GotOne(m, s, held, Objects(events), marray - 16, 0);
      held', e := held + [marray], GotMany([Object(marray, 0, map[])]);
      assert marray - 16 + 16 == marray;
      AfterMany(Objects(events), e.news);
      IsNew(m, s, marray - 16);
    } else {
      held', e := held, Event.Nothing;
      AfterNothing(Objects(events));
    }
    EmptyAnswered(t, given, grows, e, marray);
    EmptyFollowed(t, Snap(m), sizes, same, given, e);
    RunMore(m, held, held', events, e);
  }

  lemma EmptyFollowed(t: Snapshot, t2: Snapshot, sizes: seq<nat>, same: bool, given: bool, e: Event)
    requires if e.GotMany? && e.news != [] then TakenFor(t, ShelfOf(t2), e.news[0].at - 16, 0) else t2 == t
    ensures FitsWord(0, sizes, same, given) && IallocFollows(t, t2, 0, sizes, same, given, e)
  {
    hide TakenFor, SumsFit, Sized;
  }

  lemma HeadFits()
    ensures 0 + CHUNK_OVERHEAD <= MIN_CHUNK_SIZE
  {
  }

  lemma EmptyAnswered(t: Snapshot, given: bool, grows: bool, e: Event, marray: int)
    requires given ==> e == GotMany([])
    requires !given ==> if OutOfMemory(t, MIN_CHUNK_SIZE, grows) then e == Event.Nothing
                        else e == GotMany([Object(marray, 0, map[])]) && marray - 16 !in Live(t.chunks)
    ensures EmptyAnswer(t, given, grows, e)
  {
    hide OutOfMemory, Live;
  }

  /** `free`. */
  method DoFree(m: State, held: seq<int>, ghost events: seq<Event>, i: nat) returns (held': seq<int>, e: Event)
    requires Running(m, held, events) && i < |held| && |Objects(events)| == |held|
    modifies m
    ensures old(m.trace) <= m.trace && (old(m.Chronicled()) ==> m.Chronicled())
    ensures Running(m, held', events + [e]) && e == Released(i)
    ensures FreeFollows(old(Snap(m)), Snap(m), Objects(events)[i].at - 16)
  {
    hide *;
    ghost var s := Snap(m);
    RunParts(m, held, events);
    HeldOne(m, held, Objects(events), i);
    DlFree(m, held[i]);
    FreeFollowed(s, Snap(m), held[i] - 16);
    FreedParts(m, s, held[i] - 16);
    OneLessHeld(s.mem, m.mem, Live(s.chunks), Live(m.chunks), held, Objects(events), i);
    held', e := Without(held, i), Released(i);
    AfterReleased(Objects(events), i);
    RunMore(m, held, held', events, e);
  }

  lemma FreeFollowed(t: Snapshot, t2: Snapshot, p: int)
    requires p in t.chunks && ShelfOf(t2) == AfterFree(t, p)
    ensures FreeFollows(t, t2, p)
  {
  }

  lemma HeldOne(m: State, held: seq<int>, objs: seq<Object>, i: nat)
    requires Held(m.mem, Live(m.chunks), held, objs) && i < |held|
    ensures HeldAt(m.mem, Live(m.chunks), held[i], objs[i]) && |objs| == |held|
    ensures held[i] == objs[i].at && held[i] - 16 in Live(m.chunks) && held[i] > 0
    ensures objs[i].bytes + CHUNK_OVERHEAD <= Live(m.chunks)[held[i] - 16]
  {
    hide Live;
    assert HeldAt(m.mem, Live(m.chunks), held[i], objs[i]);
  }

  lemma AfterReleased(objs: seq<Object>, i: nat)
    requires i < |objs|
    ensures After(objs, Released(i)) == Without(objs, i) && !Released(i).Loaded?
  {
  }

  /** `realloc`; a null result leaves the object as it was. */
  method DoRealloc(m: State, held: seq<int>, ghost events: seq<Event>, i: nat, bytes: nat, grows: bool)
    returns (held': seq<int>, e: Event)
    requires Running(m, held, events) && i < |held| && |Objects(events)| == |held|
    modifies m
    ensures old(m.trace) <= m.trace && (old(m.Chronicled()) ==> m.Chronicled())
    ensures Running(m, held', events + [e]) && ReallocAnswer(old(Snap(m)), Objects(events), i, bytes, grows, e)
    ensures ReallocFollows(old(Snap(m)), Snap(m), Objects(events)[i].at - 16, bytes, e)
  {
    hide *;
    ghost var s, t, objs := Snap(m), Snap(m), Objects(events);
    MomentIs(m);
    RunParts(m, held, events);
    HeldOne(m, held, objs, i);
    LiveChunk(m, held[i] - 16);
    var mem, mid := DlRealloc(m, held[i], bytes, grows);
    if mem != 0 {
      RequestSize(bytes);
      AfterResized(objs, i, mem, bytes);
      if CanResize(s, held[i] - 16, RequestToSize(bytes)) {
        ResizedHeld(m, s, held, objs, i, bytes);
      } else {
        MovedHeld(m, s, held, objs, i, mem, bytes);
      }
      held', e := held[i := mem], Resize(i, mem, bytes);
    } else {
      held', e := held, Event.Nothing;
      AfterNothing(objs);
    }
    ReallocAnswered(s, t, objs, i, bytes, grows, mem, e);
    ReallocFollowed(t, Snap(m), objs[i].at - 16, i, bytes, mem, e, mid);
    RunMore(m, held, held', events, e);
  }

  lemma ReallocAnswered(s: Snapshot, t: Snapshot, objs: seq<Object>, i: nat, bytes: nat, grows: bool, mem: int,
                        e: Event)
    requires i < |objs| && t == s && objs[i].at - 16 in s.chunks && objs[i].at != 0
    requires mem == 0 <==>
             || bytes >= MAX_REQUEST
             || (!CanResize(s, objs[i].at - 16, RequestToSize(bytes)) && OutOfMemory(s, RequestToSize(bytes), grows))
    requires e == if mem == 0 then Event.Nothing else Resize(i, mem, bytes)
    requires mem != 0 ==>
             if CanResize(s, objs[i].at - 16, RequestToSize(bytes)) then mem == objs[i].at
             else mem - 16 !in Live(s.chunks)
    ensures ReallocAnswer(t, objs, i, bytes, grows, e)
  {
    hide OutOfMemory, Live, RequestToSize, CanResize;
  }

  lemma ReallocFollowed(t: Snapshot, t2: Snapshot, p: int, i: nat, bytes: nat, mem: int, e: Event, mid: Snapshot)
    requires p in t.chunks && e == if mem == 0 then Event.Nothing else Resize(i, mem, bytes)
    requires if mem == 0 then t2 == t
             else if CanResize(t, p, RequestToSize(bytes)) then ShelfOf(t2) == AfterResize(t, p, RequestToSize(bytes))
             else MovedVia(t, mid, ShelfOf(t2), p, mem - 16, bytes)
    ensures ReallocFollows(t, t2, p, bytes, e)
  {
    hide MovedVia, CanResize, AfterResize;
    assert mem != 0 && !CanResize(t, p, RequestToSize(bytes)) ==> MovedSomehow(t, ShelfOf(t2), p, mem - 16, bytes);
  }

  lemma AfterResized(objs: seq<Object>, i: nat, at: int, bytes: nat)
    requires i < |objs|
    ensures After(objs, Resize(i, at, bytes)) == objs[i := Object(at, bytes, Keep(objs[i].words, bytes))]
    ensures !Resize(i, at, bytes).Loaded?
  {
  }

  /** Resized in place: the words that fit the new size are where they were. */
  lemma ResizedHeld(m: State, s: Snapshot, held: seq<int>, objs: seq<Object>, i: nat, bytes: nat)
    requires Held(s.mem, Live(s.chunks), held, objs) && i < |held| && |objs| == |held|
    requires Fitted(m, s, held[i] - 16, RequestToSize(bytes)) && bytes < MAX_REQUEST
    ensures Valid(m)
    ensures Held(m.mem, Live(m.chunks), held[i := held[i]],
                 objs[i := Object(held[i], bytes, Keep(objs[i].words, bytes))])
  {
    hide Valid, Untouched, Live, Held, HeldAt, Keep;
    RequestSize(bytes);
    var q, live, live' := held[i] - 16, Live(s.chunks), Live(m.chunks);
    var n := live'[q];
    HeldIs(s.mem, live, held, objs, i);
    HeldLive(s.mem, live, held[i], objs[i]);
    var kept := live[q := if n < live[q] then n else live[q]];
    UntouchedFewer(s.mem, m.mem, kept, live - {q});
    KeptHeld(s.mem, m.mem, live, live', held[i], objs[i], bytes, kept);
    OneChanged(s.mem, m.mem, live, live', held, objs, i, held[i], Object(held[i], bytes, Keep(objs[i].words, bytes)));
  }

  lemma HeldIs(mem: Memory, live: map<int, nat>, held: seq<int>, objs: seq<Object>, i: nat)
    requires Held(mem, live, held, objs) && i < |held|
    ensures |objs| == |held| && HeldAt(mem, live, held[i], objs[i])
  {
    hide HeldAt;
    assert HeldAt(mem, live, held[i], objs[i]);
  }

  lemma UntouchedFewer(mem: Memory, mem': Memory, live: map<int, nat>, fewer: map<int, nat>)
    requires Untouched(mem, mem', live) && forall x :: x in fewer ==> x in live && fewer[x] == live[x]
    ensures Untouched(mem, mem', fewer)
  {
    forall x, a | x in fewer && PayloadWord(x, fewer[x], a)
      ensures Peek(mem', a) == Peek(mem, a)
    {
      assert PayloadWord(x, live[x], a);
    }
  }

  lemma KeptHeld(mem: Memory, mem': Memory, live: map<int, nat>, live': map<int, nat>, a: int, o: Object, bytes: nat,
                 kept: map<int, nat>)
    requires HeldAt(mem, live, a, o) && a - 16 in live' && bytes + CHUNK_OVERHEAD <= live'[a - 16]
    requires a - 16 in kept && kept[a - 16] == (if live'[a - 16] < live[a - 16] then live'[a - 16] else live[a - 16])
    requires Untouched(mem, mem', kept)
    ensures HeldAt(mem', live', a, Object(a, bytes, Keep(o.words, bytes)))
  {
    var words := Keep(o.words, bytes);
    forall k | k in words
      ensures 8 * k + 8 <= bytes && Peek(mem', a + 8 * k) == words[k]
    {
      assert k in o.words;
      assert PayloadWord(a - 16, kept[a - 16], a + 8 * k);
    }
  }

  /** Moved: the words that fit the new size have been copied. */
  lemma MovedHeld(m: State, s: Snapshot, held: seq<int>, objs: seq<Object>, i: nat, mem: int, bytes: nat)
    requires Held(s.mem, Live(s.chunks), held, objs) && i < |held| && |objs| == |held|
    requires Moved(m, s, held[i] - 16, mem - 16, RequestToSize(bytes), bytes) && bytes < MAX_REQUEST
    ensures Valid(m)
    ensures Held(m.mem, Live(m.chunks), held[i := mem], objs[i := Object(mem, bytes, Keep(objs[i].words, bytes))])
    ensures mem - 16 !in Live(s.chunks)
  {
    hide Valid, Untouched, Live, Held, HeldAt, Keep, Copied;
    RequestSize(bytes);
    var q, p, live, live' := held[i] - 16, mem - 16, Live(s.chunks), Live(m.chunks);
    HeldIs(s.mem, live, held, objs, i);
    HeldLive(s.mem, live, held[i], objs[i]);
    LivePositive(m, p);
    CopiedHeld(s.mem, m.mem, live, live', held[i], mem, objs[i], bytes);
    OneChanged(s.mem, m.mem, live, live', held, objs, i, mem, Object(mem, bytes, Keep(objs[i].words, bytes)));
  }

  lemma LivePositive(m: State, p: int)
    requires Valid(m) && p in Live(m.chunks)
    ensures p > 0
  {
    hide Flags, Tags, State.Bins, Placed;
    ChunkBelowTop(m.chunks, m.segBase, m.top, p);
  }

  lemma CopiedHeld(mem: Memory, mem': Memory, live: map<int, nat>, live': map<int, nat>, a: int, b: int, o: Object,
                   bytes: nat)
    requires HeldAt(mem, live, a, o) && b - 16 in live' && bytes + CHUNK_OVERHEAD <= live'[b - 16] && b > 16
    requires Copied(mem, mem', a, b, Lesser(live[a - 16] - CHUNK_OVERHEAD, bytes))
    ensures HeldAt(mem', live', b, Object(b, bytes, Keep(o.words, bytes)))
  {
    hide CopiedPart, Pow256;
    var words := Keep(o.words, bytes);
    forall k | k in words
      ensures 8 * k + 8 <= bytes && Peek(mem', b + 8 * k) == words[k]
    {
      assert k in o.words;
      assert CopiedWord(mem, mem', a, b, k);
    }
  }

  /** A store of the caller's. */
  method DoWrite(m: State, held: seq<int>, ghost events: seq<Event>, i: nat, k: nat, v: int) returns (e: Event)
    requires Running(m, held, events) && i < |held| && 8 * k + 8 <= Objects(events)[i].bytes
    modifies m`mem
    ensures Running(m, held, events + [e]) && e == Stored(i, k, v) && ShelfOf(Snap(m)) == old(ShelfOf(Snap(m)))
  {
    hide *;
    ghost var s, objs := Snap(m), Objects(events);
    RunParts(m, held, events);
    HeldOne(m, held, objs, i);
    WordInside(m, held[i], objs[i], k);
    ShelfIs(m);
    WriteHeld(m.mem, Live(m.chunks), held[i], objs[i], k, v);
    Store(m, held[i] - 16, held[i] + 8 * k, v);
    OneChanged(s.mem, m.mem, Live(m.chunks), Live(m.chunks), held, objs, i, held[i],
               objs[i].(words := objs[i].words[k := v]));
    assert held[i := held[i]] == held;
    e := Stored(i, k, v);
    ShelfIs(m);
    AfterStored(objs, i, k, v);
    RunMore(m, held, held, events, e);
  }

  lemma WordInside(m: State, a: int, o: Object, k: nat)
    requires Valid(m) && HeldAt(m.mem, Live(m.chunks), a, o) && 8 * k + 8 <= o.bytes
    ensures PayloadWord(a - 16, Live(m.chunks)[a - 16], a + 8 * k) && (a + 8 * k) % 8 == 0 && m.Mapped(a + 8 * k)
  {
    hide Valid, Live;
    HeldAligned(m, a - 16);
    PayloadMapped(m, a - 16, a + 8 * k);
  }

  lemma HeldAligned(m: State, p: int)
    requires Valid(m) && p in Live(m.chunks)
    ensures p % 8 == 0
  {
    hide Flags, Tags, State.Bins, Placed;
    assert ChunkFits(m.chunks, m.segBase, m.top, p);
  }

  lemma WriteHeld(mem: Memory, live: map<int, nat>, a: int, o: Object, k: nat, v: int)
    requires HeldAt(mem, live, a, o) && 8 * k + 8 <= o.bytes
    ensures HeldAt(mem[a + 8 * k := v], live, a, o.(words := o.words[k := v]))
  {
  }

  lemma AfterStored(objs: seq<Object>, i: nat, k: nat, v: int)
    requires i < |objs|
    ensures After(objs, Stored(i, k, v)) == objs[i := objs[i].(words := objs[i].words[k := v])]
    ensures !Stored(i, k, v).Loaded?
  {
  }

  /** A load of the caller's. */
  method DoRead(m: State, held: seq<int>, ghost events: seq<Event>, i: nat, k: nat) returns (v: int, e: Event)
    requires Running(m, held, events) && i < |held| && 8 * k + 8 <= Objects(events)[i].bytes
    ensures e == Loaded(i, k, v) && Running(m, held, events + [e])
  {
    hide *;
    ghost var objs := Objects(events);
    RunParts(m, held, events);
    HeldOne(m, held, objs, i);
    WordInside(m, held[i], objs[i], k);
    v := m.At(held[i] + 8 * k);
    e := Loaded(i, k, v);
    ReadAgrees(m, held[i], objs, i, k);
    RunRead(m, held, events, e);
  }

  lemma ReadAgrees(m: State, a: int, objs: seq<Object>, i: nat, k: nat)
    requires i < |objs| && HeldAt(m.mem, Live(m.chunks), a, objs[i]) && m.Mapped(a + 8 * k)
    ensures Agrees(objs, Loaded(i, k, m.At(a + 8 * k)))
  {
    hide Live;
  }

  lemma RunRead(m: State, held: seq<int>, events: seq<Event>, e: Event)
    requires Running(m, held, events) && e.Loaded? && Agrees(Objects(events), e)
    ensures Running(m, held, events + [e])
  {
    hide Valid, HeldAt, AllAgree, Objects, Agrees, Held;
    EventMore(events, e);
  }

  // ---- runs ----

  /** Carries out any list of operations. Those that name no object, or a word outside it,
      or an alignment that cannot be rounded, or sizes whose sum wraps, are what a caller must
      not ask for and are skipped. After every operation the allocator's own checks are made:
      `checks` has their verdicts. */
  method Run(m: State, ops: seq<Op>)
    returns (events: seq<Event>, held: seq<int>, checks: seq<bool>, ghost moments: seq<Snapshot>)
    requires Valid(m)
    modifies m
    ensures Running(m, held, events) && |events| == |ops|
    ensures |moments| == |ops| + 1 && moments[0] == old(Snap(m)) && moments[|ops|] == Snap(m)
    ensures Answered(ops, events, moments, |ops|)
    ensures |checks| == |ops| && forall ok :: ok in checks ==> ok
    ensures old(m.Chronicled()) ==> Chronicles(moments)
  {
    hide Answers, Follows, Running, Answered, Snap, Chronicles, State.Chronicled;
    events, held, checks, moments := [], [], [], [Snap(m)];
    NoneAnswered(ops, moments);
    EmptyRun(m);
    FirstMoment(m);
    ghost var chronicled := m.Chronicled();
    for n := 0 to |ops|
      invariant Running(m, held, events) && |events| == n == |checks| && |moments| == n + 1
      invariant moments[0] == old(Snap(m)) && moments[n] == Snap(m) && Answered(ops, events, moments, n)
      invariant forall ok :: ok in checks ==> ok
      invariant chronicled ==> m.Chronicled() && Chronicles(moments)
    {
      var e: Event;
      MomentIs(m);
      held, e := DoOne(m, held, events, ops[n]);
      AnsweredMore(ops, events, e, moments, Snap(m));
      events := events + [e];
      MomentIs(m);
      if chronicled {
        NextMoment(m, moments);
      }
      moments := moments + [Snap(m)];
      RunValid(m, held, events);
      var ok, _ := CheckMallocState(m);
      checks := checks + [ok];
    }
  }

  lemma FirstMoment(m: State)
    ensures m.Chronicled() ==> Chronicles([Snap(m)])
  {
    hide Chronicle;
  }

  lemma NextMoment(m: State, moments: seq<Snapshot>)
    requires |moments| > 0 && Chronicles(moments) && m.Chronicled() && moments[|moments| - 1].trace <= m.trace
    ensures Chronicles(moments + [Snap(m)])
  {
    hide Chronicle, Chronicles;
    ChroniclesMore(moments, Snap(m));
  }

  lemma NoneAnswered(ops: seq<Op>, moments: seq<Snapshot>)
    requires |moments| > 0
    ensures Answered(ops, [], moments, 0)
  {
  }

  lemma RunValid(m: State, held: seq<int>, events: seq<Event>)
    requires Running(m, held, events)
    ensures Valid(m)
  {
    hide Valid, Held, AllAgree;
  }

  lemma EmptyRun(m: State)
    requires Valid(m)
    ensures Running(m, [], [])
  {
    hide Valid;
  }

  /** One operation of a run. */
  method DoOne(m: State, held: seq<int>, events: seq<Event>, op: Op) returns (held': seq<int>, e: Event)
    requires Running(m, held, events)
    modifies m
    ensures old(m.trace) <= m.trace && (old(m.Chronicled()) ==> m.Chronicled())
    ensures Running(m, held', events + [e]) && Answers(Objects(events), op, e, old(Snap(m)))
    ensures Follows(Objects(events), op, e, old(Snap(m)), Snap(m))
  {
    hide Running, Valid, Objects, Snap, MallocAnswer, MemalignAnswer, ReallocAnswer, RoundedUp, State.Chronicled;
    hide EmptyAnswer, ManyAnswer, Refused, SumsFit, Sized;
    hide MallocFollows, MemalignFollows, IallocFollows, FreeFollows, ReallocFollows, ShelfOf;
    RunParts(m, held, events);
    held', e := held, Event.Nothing;
    var objs := Objects(events);
    match op
    case Malloc(bytes, grows) =>
      held', e := DoMalloc(m, held, events, bytes, grows);
    case Memalign(alignment, bytes, grows) =>
      if alignment <= TOP_POWER {
        ghost var a;
        held', e, a := DoMemalign(m, held, events, alignment, bytes, grows);
      } else {
        Skipped(m, held, events);
      }
    case Ialloc(n, sizes, same, clear, given, grows) =>
      if n == 0 {
        held', e := DoEmptyIalloc(m, held, events, sizes, same, clear, given, grows);
      } else if FitsWord(n, sizes, same, given) {
        held', e := DoIalloc(m, held, events, n, sizes, same, clear, given, grows);
      } else {
        Skipped(m, held, events);
      }
    case Free(i) =>
      if i < |held| {
        held', e := DoFree(m, held, events, i);
      } else {
        Skipped(m, held, events);
      }
    case Realloc(i, bytes, grows) =>
      if i < |held| {
        held', e := DoRealloc(m, held, events, i, bytes, grows);
      } else {
        Skipped(m, held, events);
      }
    case Write(i, k, v) =>
      if i < |held| && 8 * k + 8 <= objs[i].bytes {
        e := DoWrite(m, held, events, i, k, v);
      } else {
        Skipped(m, held, events);
      }
    case Read(i, k) =>
      if i < |held| && 8 * k + 8 <= objs[i].bytes {
        var v: int;
        v, e := DoRead(m, held, events, i, k);
      } else {
        Skipped(m, held, events);
      }
  }

  lemma Skipped(m: State, held: seq<int>, events: seq<Event>)
    requires Running(m, held, events)
    ensures Running(m, held, events + [Event.Nothing])
  {
    hide *;
    RunParts(m, held, events);
    AfterNothing(Objects(events));
    RunMore(m, held, held, events, Event.Nothing);
  }
}
