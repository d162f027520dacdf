/** The shutdown of spdlog's thread pool as the interleaving of the steps of its destructor and
    its workers, after a life in which any producers posted under any overflow policy. */
module PoolSteps {
  import opened CircularQueue
  import opened QueueSteps
  import opened Tallies

  datatype Msg = Log(id: nat) | Flush(id: nat) | Terminate

  datatype Policy = Block | OverrunOldest | DiscardNew

  datatype Worker = Waiting | Handling(msg: Msg) | Exited

  /** `posted` counts the terminate messages the destructor has enqueued. */
  datatype Pool = Pool(q: Queue<Msg>, workers: seq<Worker>, closing: bool, posted: nat, handled: seq<Msg>) {
    /** Whether the queue can hold a message at all. */
    predicate Works() {
      !q.disabled && q.capacity >= 1
    }

    /** The destructor has posted its messages and joined every worker. */
    predicate Done() {
      closing && posted == |workers| && forall w :: 0 <= w < |workers| ==> workers[w].Exited?
    }
  }

  datatype PoolStep =
    | Post(msg: Msg, policy: Policy)
    | CountDiscarded
    | Close
    | PostTerminate
    | Take(w: nat)
    | Finish(w: nat)

  function PostStep(msg: Msg, policy: Policy): Step<Msg> {
    match policy
    case Block => Enqueue(msg)
    case OverrunOldest => EnqueueNowait(msg)
    case DiscardNew => EnqueueIfHaveRoom(msg)
  }

  /** Steps of the threads that log: they are over when the destructor starts. */
  predicate ByProducer(step: PoolStep) {
    step.Post? || step.CountDiscarded?
  }

  predicate CanDo(p: Pool, step: PoolStep) {
    match step
    case Post(m, policy) => !p.closing && !m.Terminate? && Ready(p.q, PostStep(m, policy))
    case CountDiscarded => !p.closing
    case Close => !p.closing
    case PostTerminate => p.closing && p.posted < |p.workers| && Ready(p.q, Enqueue(Terminate))
    case Take(w) => w < |p.workers| && p.workers[w].Waiting? && Ready(p.q, Dequeue)
    case Finish(w) => w < |p.workers| && p.workers[w].Handling?
  }

  function Do(p: Pool, step: PoolStep): Pool
    requires CanDo(p, step)
  {
    match step
    case Post(m, policy) => p.(q := After(p.q, PostStep(m, policy)))
    case CountDiscarded => p.(q := After(p.q, CountDiscard))
    case Close => p.(closing := true)
    case PostTerminate => p.(q := After(p.q, Enqueue(Terminate)), posted := p.posted + 1)
    case Take(w) =>
      var m := p.q.items[0];
      p.(q := After(p.q, Dequeue), workers := p.workers[w := if m.Terminate? then Exited else Handling(m)])
    case Finish(w) => p.(workers := p.workers[w := Waiting], handled := p.handled + [p.workers[w].msg])
  }

  function Ended(w: Worker): nat {
    if w.Exited? then 1 else 0
  }

  function Occupied(w: Worker): nat {
    if w.Handling? then 1 else 0
  }

  function Exits(ws: seq<Worker>): nat {
    Tally(ws, Ended)
  }

  function Busy(ws: seq<Worker>): nat {
    Tally(ws, Occupied)
  }

  function Held(w: Worker): multiset<Msg> {
    if w.Handling? then multiset{w.msg} else multiset{}
  }

  lemma CountsChange(ws: seq<Worker>, w: nat, x: Worker)
    requires w < |ws|
    ensures Exits(ws[w := x]) == Exits(ws) - (if ws[w].Exited? then 1 else 0) + (if x.Exited? then 1 else 0)
    ensures Busy(ws[w := x]) == Busy(ws) - (if ws[w].Handling? then 1 else 0) + (if x.Handling? then 1 else 0)
  {
    TallyChange(ws, w, x, Ended);
    TallyChange(ws, w, x, Occupied);
  }

  lemma AllExited(ws: seq<Worker>)
    ensures Exits(ws) <= |ws|
    ensures Exits(ws) == |ws| <==> forall w :: 0 <= w < |ws| ==> ws[w].Exited?
    ensures Exits(ws) == |ws| ==> InHand(ws, Held) == multiset{}
  {
    TallyAll(ws, Ended);
    if Exits(ws) == |ws| {
      NothingInHand(ws, Held);
    }
  }

  lemma NoneExited(n: nat)
    ensures Exits(seq(n, _ => Waiting)) == 0 == Busy(seq(n, _ => Waiting))
  {
    TallyZero(seq(n, _ => Waiting), Ended);
    TallyZero(seq(n, _ => Waiting), Occupied);
  }

  /** The terminate messages in the queue. */
  function Stops(p: Pool): int {
    p.posted - Exits(p.workers)
  }

  /** In a pool whose queue works: the queue holds the posted terminate messages no worker has
      taken, behind all other messages, and as soon as a worker has exited nothing else. In
      one whose queue does not work, no worker ever takes a message. */
  predicate Sound(p: Pool) {
    && p.posted <= |p.workers| && (!p.closing ==> p.posted == 0)
    && |p.q.items| <= p.q.capacity && (p.q.disabled ==> p.q.capacity == 0)
    && (forall w :: 0 <= w < |p.workers| && p.workers[w].Handling? ==> !p.workers[w].msg.Terminate?)
    && if p.Works() then
         && 0 <= Stops(p) <= |p.q.items|
         && (forall i :: 0 <= i < |p.q.items| ==> (p.q.items[i].Terminate? <==> i >= |p.q.items| - Stops(p)))
         && (Exits(p.workers) > 0 ==> |p.q.items| == Stops(p))
       else Exits(p.workers) == 0
  }

  /** The messages in the queue that are not terminates. */
  function Others(p: Pool): seq<Msg>
    requires Sound(p)
  {
    if p.Works() then p.q.items[..|p.q.items| - Stops(p)] else p.q.items
  }

  /** Every message other than a terminate: handled, in hand, or queued. */
  function Work(p: Pool): multiset<Msg>
    requires Sound(p)
  {
    multiset(p.handled) + InHand(p.workers, Held) + multiset(Others(p))
  }

  function Fresh(capacity: nat, disabled: bool, n: nat): Pool {
    Pool(Start<Msg>(capacity, disabled).q, seq(n, _ => Waiting), false, 0, [])
  }

  lemma FreshSound(capacity: nat, disabled: bool, n: nat)
    ensures Sound(Fresh(capacity, disabled, n))
  {
    NoneExited(n);
  }

  lemma PostSound(p: Pool, m: Msg, policy: Policy)
    requires Sound(p) && CanDo(p, Post(m, policy))
    ensures Sound(Do(p, Post(m, policy)))
  {
  }

  lemma PostTerminateSound(p: Pool)
    requires Sound(p) && CanDo(p, PostTerminate)
    ensures Sound(Do(p, PostTerminate)) && Work(Do(p, PostTerminate)) == Work(p)
  {
    var p2 := Do(p, PostTerminate);
    if p.Works() {
      assert p2.q.items == p.q.items + [Terminate];
      assert Others(p2) == Others(p);
    } else {
      assert p2.q.items == p.q.items;
    }
  }

  lemma TakeSound(p: Pool, w: nat)
    requires Sound(p) && CanDo(p, Take(w))
    ensures Sound(Do(p, Take(w)))
  {
    CountsChange(p.workers, w, Do(p, Take(w)).workers[w]);
  }

  /** The message in front is a terminate exactly when there is no other. */
  lemma FrontMessage(p: Pool)
    requires Sound(p) && |p.q.items| > 0
    ensures p.Works() && 0 <= |p.q.items| - Stops(p) && (p.q.items[0].Terminate? <==> |p.q.items| == Stops(p))
    ensures Others(p) == p.q.items[..|p.q.items| - Stops(p)]
  {
  }

  lemma StopsTaken(p: Pool, w: nat)
    requires CanDo(p, Take(w))
    ensures var p2 := Do(p, Take(w));
            && p2.q.items == p.q.items[1..] && p2.Works() == p.Works()
            && Stops(p2) == Stops(p) - if p.q.items[0].Terminate? then 1 else 0
  {
    CountsChange(p.workers, w, Do(p, Take(w)).workers[w]);
  }

  lemma OthersTaken(p: Pool, w: nat)
    requires Sound(p) && CanDo(p, Take(w)) && Sound(Do(p, Take(w)))
    ensures var m := p.q.items[0];
            Others(p) == (if m.Terminate? then [] else [m]) + Others(Do(p, Take(w)))
  {
    var p2, items := Do(p, Take(w)), p.q.items;
    FrontMessage(p);
    StopsTaken(p, w);
    hide Sound, Exits;
    var k := |items| - Stops(p);
    assert !items[0].Terminate? ==> items[..k] == [items[0]] + items[1..][..k - 1];
  }

  lemma TakeWork(p: Pool, w: nat)
    requires Sound(p) && CanDo(p, Take(w)) && Sound(Do(p, Take(w)))
    ensures Work(Do(p, Take(w))) == Work(p)
  {
    OthersTaken(p, w);
    hide Sound, Others, InHand;
    var p2, m := Do(p, Take(w)), p.q.items[0];
    HandsChange(p.workers, w, p2.workers[w], Held);
    assert p2.workers == p.workers[w := p2.workers[w]];
    if m.Terminate? {
      assert Others(p) == Others(p2);
      EmptyHands(InHand(p2.workers, Held), InHand(p.workers, Held));
    } else {
      Moves(multiset(p.handled), InHand(p.workers, Held), InHand(p2.workers, Held), Others(p), Others(p2), m);
    }
  }

  lemma Moves(done: multiset<Msg>, hands: multiset<Msg>, hands2: multiset<Msg>, queue: seq<Msg>, queue2: seq<Msg>,
              m: Msg)
    requires queue == [m] + queue2 && hands2 == hands + multiset{m}
    ensures done + hands2 + multiset(queue2) == done + hands + multiset(queue)
  {
  }

  lemma FinishSound(p: Pool, w: nat)
    requires Sound(p) && CanDo(p, Finish(w))
    ensures Sound(Do(p, Finish(w)))
  {
    CountsChange(p.workers, w, Waiting);
  }

  lemma OthersStay(p: Pool, w: nat)
    requires Sound(p) && CanDo(p, Finish(w)) && Sound(Do(p, Finish(w)))
    ensures Others(p) == Others(Do(p, Finish(w)))
  {
    CountsChange(p.workers, w, Waiting);
  }

  lemma FinishWork(p: Pool, w: nat)
    requires Sound(p) && CanDo(p, Finish(w)) && Sound(Do(p, Finish(w)))
    ensures Work(Do(p, Finish(w))) == Work(p)
  {
    OthersStay(p, w);
    hide Sound, Others, InHand;
    var p2 := Do(p, Finish(w));
    HandsChange(p.workers, w, Waiting, Held);
    Settles(p.handled, InHand(p.workers, Held), InHand(p2.workers, Held), p.workers[w].msg);
  }

  lemma Settles(done: seq<Msg>, hands: multiset<Msg>, hands2: multiset<Msg>, m: Msg)
    requires hands2 + multiset{m} == hands
    ensures multiset(done + [m]) + hands2 == multiset(done) + hands
  {
  }

  lemma CountSound(p: Pool)
    requires Sound(p) && CanDo(p, CountDiscarded)
    ensures Sound(Do(p, CountDiscarded))
  {
  }

  lemma CloseSound(p: Pool)
    requires Sound(p) && CanDo(p, Close)
    ensures Sound(Do(p, Close)) && Work(Do(p, Close)) == Work(p)
  {
  }

  lemma StepKeepsShape(p: Pool, step: PoolStep)
    requires CanDo(p, step)
    ensures Do(p, step).Works() == p.Works() && |Do(p, step).workers| == |p.workers|
  {
  }

  lemma StepSound(p: Pool, step: PoolStep)
    requires Sound(p) && CanDo(p, step)
    ensures Sound(Do(p, step))
    ensures !ByProducer(step) ==> Work(Do(p, step)) == Work(p)
  {
    hide Sound, Work, Do, CanDo;
    match step
    case Post(m, policy) => PostSound(p, m, policy);
    case CountDiscarded => CountSound(p);
    case Close => CloseSound(p);
    case PostTerminate => PostTerminateSound(p);
    case Take(w) =>
      TakeSound(p, w);
      TakeWork(p, w);
    case Finish(w) =>
      FinishSound(p, w);
      FinishWork(p, w);
  }

  /** What is left to do before the destructor returns. */
  function Measure(p: Pool): int {
    3 * (|p.workers| - p.posted) + 2 * |p.q.items| + Busy(p.workers) + if p.closing then 0 else 1
  }

  lemma StepProgresses(p: Pool, step: PoolStep)
    requires Sound(p) && CanDo(p, step) && !ByProducer(step)
    ensures 0 <= Measure(Do(p, step)) < Measure(p)
  {
    match step
    case Take(w) => CountsChange(p.workers, w, Do(p, step).workers[w]);
    case Finish(w) => CountsChange(p.workers, w, Waiting);
    case _ =>
  }

  lemma SomeoneLives(ws: seq<Worker>) returns (w: nat)
    requires Exits(ws) < |ws|
    ensures w < |ws| && !ws[w].Exited?
  {
    AllExited(ws);
    w :| w < |ws| && !ws[w].Exited?;
  }

  /** No deadlock: until the destructor returns, it or some worker has a step. When the queue
      is full, that is a worker, and a live one there is. */
  lemma Progress(p: Pool) returns (step: PoolStep)
    requires Sound(p) && p.Works() && p.closing && !p.Done()
    ensures !ByProducer(step) && CanDo(p, step)
  {
    AllExited(p.workers);
    if p.posted < |p.workers| && !p.q.Full() {
      step := PostTerminate;
    } else {
      var w := SomeoneLives(p.workers);
      step := if p.workers[w].Handling? then Finish(w) else Take(w);
    }
  }

  /** When it returns, every worker has taken one terminate message, the queue is empty, and
      each message queued or in hand at the start has been handled, once. */
  lemma WhenDone(p: Pool)
    requires Sound(p) && p.Done() && |p.workers| >= 1
    ensures p.Works() && p.q.items == [] && Exits(p.workers) == p.posted == |p.workers|
    ensures Work(p) == multiset(p.handled)
  {
    AllExited(p.workers);
  }

  /** Before a worker exits, all other messages have been taken from the queue. */
  lemma TakenBeforeExit(p: Pool, w: nat)
    requires Sound(p) && w < |p.workers| && p.workers[w].Exited?
    ensures p.Works() && p.closing && forall i :: 0 <= i < |p.q.items| ==> p.q.items[i].Terminate?
  {
    TallyZero(p.workers, Ended);
    assert Ended(p.workers[w]) == 1;
  }

  /** Steps of the destructor and the workers. */
  ghost predicate Runs(p: Pool, steps: seq<PoolStep>, p2: Pool)
    decreases |steps|
  {
    if steps == [] then p2 == p
    else CanDo(p, steps[0]) && !ByProducer(steps[0]) && Runs(Do(p, steps[0]), steps[1..], p2)
  }

  lemma {:induction false} RunKeeps(p: Pool, steps: seq<PoolStep>, p2: Pool)
    requires Sound(p) && Runs(p, steps, p2)
    ensures Sound(p2) && Work(p2) == Work(p) && p2.Works() == p.Works() && |p2.workers| == |p.workers|
    ensures |steps| + Measure(p2) <= Measure(p)
    decreases |steps|
  {
    hide Sound, Work, Measure, Do, CanDo;
    if |steps| > 0 {
      StepSound(p, steps[0]);
      StepKeepsShape(p, steps[0]);
      StepProgresses(p, steps[0]);
      RunKeeps(Do(p, steps[0]), steps[1..], p2);
    }
  }

  /** So the destructor handles, exactly once, every message queued or in hand when it starts. */
  lemma HandlesAll(p: Pool, steps: seq<PoolStep>, p2: Pool)
    requires Sound(p) && |p.workers| >= 1 && Runs(p, steps, p2) && p2.Done()
    ensures multiset(p2.handled) == Work(p) && |steps| <= Measure(p)
  {
    RunKeeps(p, steps, p2);
    WhenDone(p2);
  }

  /** Steps of any kind, of producers, destructor and workers. */
  ghost predicate Life(p: Pool, steps: seq<PoolStep>, p2: Pool)
    decreases |steps|
  {
    if steps == [] then p2 == p else CanDo(p, steps[0]) && Life(Do(p, steps[0]), steps[1..], p2)
  }

  lemma {:induction false} LifeSound(p: Pool, steps: seq<PoolStep>, p2: Pool)
    requires Sound(p) && Life(p, steps, p2)
    ensures Sound(p2)
    decreases |steps|
  {
    if |steps| > 0 {
      StepSound(p, steps[0]);
      LifeSound(Do(p, steps[0]), steps[1..], p2);
    }
  }

  lemma {:induction false} RunToEnd(p: Pool) returns (steps: seq<PoolStep>, p2: Pool)
    requires Sound(p) && p.Works() && p.closing
    ensures Runs(p, steps, p2) && p2.Done()
    decreases Measure(p)
  {
    if p.Done() {
      steps, p2 := [], p;
    } else {
      var step := Progress(p);
      StepSound(p, step);
      StepProgresses(p, step);
      var rest;
      rest, p2 := RunToEnd(Do(p, step));
      steps := [step] + rest;
      assert steps[1..] == rest;
    }
  }

  /** The destructor can return exactly when the queue can hold a message: for a capacity of
      0, and for the largest one, which disables the queue, it blocks for ever. */
  lemma Returns(p: Pool)
    requires Sound(p) && p.closing && |p.workers| >= 1
    ensures p.Works() <==> CanReturn(p)
  {
    hide Sound, Runs;
    if p.Works() {
      var steps, p2 := RunToEnd(p);
    }
    if CanReturn(p) {
      var steps, p2 :| Runs(p, steps, p2) && p2.Done();
      RunKeeps(p, steps, p2);
      WhenDone(p2);
    }
  }

  /** A new pool with a queue for no messages, and one with a queue for the largest number of
      them, cannot be destroyed. */
  lemma BlocksForEver(n: nat)
    requires n >= 1
    ensures !CanReturn(Do(Fresh(0, false, n), Close)) && !CanReturn(Do(Fresh(SIZE_LIMIT - 1, true, n), Close))
  {
    FreshSound(0, false, n);
    FreshSound(SIZE_LIMIT - 1, true, n);
    CloseSound(Fresh(0, false, n));
    CloseSound(Fresh(SIZE_LIMIT - 1, true, n));
    Returns(Do(Fresh(0, false, n), Close));
    Returns(Do(Fresh(SIZE_LIMIT - 1, true, n), Close));
  }

  ghost predicate CanReturn(p: Pool) {
    exists steps, p2 :: Runs(p, steps, p2) && p2.Done()
  }
}
