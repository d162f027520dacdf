/** spdlog's `thread_pool` over the blocking queue: its atomic steps as methods, and its
    destructor under any scheduling of the workers. */
module AsyncPool {
  import opened CircularQueue
  import opened QueueSteps
  import opened BlockingQueue
  import opened PoolSteps

  datatype Created = Pool(pool: ThreadPool) | InvalidThreads

  /** The constructor, which throws unless it is asked for 1 to 1000 threads. */
  method Create(maxItems: nat, threads: nat) returns (r: Created)
    requires maxItems < SIZE_LIMIT && (maxItems + 1) % SIZE_LIMIT <= VECTOR_LIMIT
    ensures r.Pool? <==> 1 <= threads <= 1000
    ensures r.Pool? ==> r.pool.Valid() && r.pool.State() == Fresh(maxItems, maxItems + 1 == SIZE_LIMIT, threads)
    ensures r.Pool? ==>
              && |r.pool.workers| == threads && (forall w :: 0 <= w < threads ==> r.pool.workers[w].Waiting?)
              && r.pool.State().q.items == [] && !r.pool.closing
              && (maxItems + 1 < SIZE_LIMIT ==> !r.pool.State().q.disabled && r.pool.State().q.capacity == maxItems)
              && (maxItems + 1 == SIZE_LIMIT ==> r.pool.State().q.disabled)
  {
    if threads == 0 || threads > 1000 {
      return InvalidThreads;
    }
    var pool := new ThreadPool(maxItems, threads);
    return Created.Pool(pool);
  }

  class ThreadPool {
    const q: MpmcQueue<Msg>
    var workers: seq<Worker>
    var closing: bool
    ghost var posted: nat
    ghost var handled: seq<Msg>

    ghost predicate Valid()
      reads this, q, q.q
    {
      q.Valid()
    }

    ghost function State(): Pool
      requires Valid()
      reads this, q, q.q, q.q.v
    {
      PoolSteps.Pool(q.State(), workers, closing, posted, handled)
    }

    constructor (maxItems: nat, threads: nat)
      requires maxItems < SIZE_LIMIT && (maxItems + 1) % SIZE_LIMIT <= VECTOR_LIMIT
      ensures Valid() && State() == Fresh(maxItems, maxItems + 1 == SIZE_LIMIT, threads)
    {
      q := new MpmcQueue<Msg>(maxItems);
      workers := seq(threads, _ => Waiting);
      closing, posted, handled := false, 0, [];
    }

    /** `post_async_msg_`, when no other thread comes between: a message turned away is
        counted. */
    method PostAsyncMsg(m: Msg, policy: Policy)
      requires Valid() && CanDo(State(), Post(m, policy))
      modifies q`discardCounter, q.q`head, q.q`tail, q.q`overrunCounter, q.q.v
      ensures Valid()
      ensures var posted := Do(old(State()), Post(m, policy));
              State() == if policy == DiscardNew && old(State()).q.Full() then Do(posted, CountDiscarded) else posted
      ensures workers == old(workers) && closing == old(closing) && posted == old(posted) && handled == old(handled)
      ensures var s := old(State()).q;
              State().q ==
              if s.disabled then s
              else if |s.items| < s.capacity then Queue(s.items + [m], s.capacity, false, s.overruns, s.discards)
              else if policy == OverrunOldest then
                Queue((s.items + [m])[1..], s.capacity, false, (s.overruns + 1) % SIZE_LIMIT, s.discards)
              else Queue(s.items, s.capacity, false, s.overruns, (s.discards + 1) % SIZE_LIMIT)
      ensures policy == Block && !old(State()).q.disabled ==> |old(State()).q.items| < old(State()).q.capacity
    {
      if policy == Block {
        q.Enqueue(m);
      } else if policy == OverrunOldest {
        q.EnqueueNowait(m);
      } else {
        q.EnqueueIfHaveRoom(m);
      }
    }

    /** The first part of `process_next_msg_` in worker `w`: it takes a message, and a
        terminate message ends its loop. */
    method TakeMsg(w: nat) returns (active: bool)
      requires Valid() && CanDo(State(), Take(w))
      modifies this`workers, q.q`head
      ensures Valid() && State() == Do(old(State()), Take(w)) && (active <==> !workers[w].Exited?)
      ensures var front := old(State()).q.items[0];
              && [front] + State().q.items == old(State()).q.items && (active <==> !front.Terminate?)
              && workers == old(workers)[w := if front.Terminate? then Exited else Handling(front)]
    {
      var m := q.Dequeue();
      active := !m.Terminate?;
      workers := workers[w := if active then Handling(m) else Exited];
    }

    /** The rest: the message goes to its logger's sinks. */
    method HandleMsg(w: nat)
      requires Valid() && CanDo(State(), Finish(w))
      modifies this`workers, this`handled
      ensures Valid() && State() == Do(old(State()), Finish(w))
      ensures workers == old(workers)[w := Waiting] && handled == old(handled + [workers[w].msg])
    {
      handled := handled + [workers[w].msg];
      workers := workers[w := Waiting];
    }

    /** `process_next_msg_`, run by worker `w` without interruption. */
    method ProcessNextMsg(w: nat) returns (active: bool)
      requires Valid() && CanDo(State(), Take(w)) && Sound(State())
      modifies this`workers, this`handled, q.q`head
      ensures Valid() && Sound(State()) && Work(State()) == old(Work(State()))
      ensures active <==> !old(State()).q.items[0].Terminate?
      ensures workers == old(workers)[w := if active then Waiting else Exited]
      ensures active ==> handled == old(handled + [State().q.items[0]])
    {
      hide Sound, Work;
      ghost var before := State();
      StepSound(before, Take(w));
      active := TakeMsg(w);
      if active {
        StepSound(State(), Finish(w));
        HandleMsg(w);
      }
    }

    /** One terminate message of the destructor. */
    method PostTerminateMsg()
      requires Valid() && CanDo(State(), PostTerminate)
      modifies this`posted, q.q`head, q.q`tail, q.q`overrunCounter, q.q.v
      ensures Valid() && State() == Do(old(State()), PostTerminate) && posted == old(posted) + 1
      ensures !State().q.disabled ==> State().q.items == old(State()).q.items + [Terminate]
    {
      q.Enqueue(Terminate);
      posted := posted + 1;
    }

    ghost predicate Closing(was: Pool)
      requires Valid()
      reads this, q, q.q, q.q.v
    {
      && Sound(State()) && Sound(was) && Work(State()) == Work(was)
      && closing && State().Works() && |workers| == |was.workers|
    }

    /** The destructor, while the workers run in any order. It returns after a bounded number
        of steps, with every message handled. */
    method Destroy()
      requires Valid() && Sound(State()) && !closing && |workers| >= 1 && State().Works()
      modifies this, q.q`head, q.q`tail, q.q`overrunCounter, q.q.v
      ensures Valid() && State().Done() && State().q.items == [] && |workers| == old(|workers|)
      ensures multiset(handled) == old(Work(State()))
    {
      hide Sound, Work, Measure, Do;
      ghost var was := State();
      closing := true;
      Closed(was, State());
      var i := 0;
      while i < |workers| || exists w :: 0 <= w < |workers| && !workers[w].Exited?
        invariant Valid() && Closing(was) && i == posted <= |workers|
        decreases Measure(State())
      {
        ghost var p := State();
        ghost var step := NextStep(p, i);
        if
        case i < |workers| && !q.q.Full() =>
          Stepping(p, PostTerminate);
          PostTerminateMsg();
          i := i + 1;
        case w: nat :| w < |workers| && workers[w].Waiting? && !q.q.Empty() =>
          Stepping(p, Take(w));
          var _ := TakeMsg(w);
        case w: nat :| w < |workers| && workers[w].Handling? =>
          Stepping(p, Finish(w));
          HandleMsg(w);
      }
      WhenDone(State());
    }
  }

  lemma Stepping(p: Pool, step: PoolStep)
    requires Sound(p) && CanDo(p, step) && !ByProducer(step)
    ensures Sound(Do(p, step)) && Work(Do(p, step)) == Work(p) && 0 <= Measure(Do(p, step)) < Measure(p)
    ensures Do(p, step).Works() == p.Works() && |Do(p, step).workers| == |p.workers|
  {
    StepSound(p, step);
    StepProgresses(p, step);
    StepKeepsShape(p, step);
  }

  lemma Closed(p: Pool, p2: Pool)
    requires Sound(p) && !p.closing && p2 == p.(closing := true)
    ensures Sound(p2) && Work(p2) == Work(p) && p2.Works() == p.Works() && p2.posted == 0
  {
    CloseSound(p);
  }

  lemma NextStep(p: Pool, i: nat) returns (step: PoolStep)
    requires Sound(p) && p.Works() && p.closing && i == p.posted
    requires i < |p.workers| || exists w :: 0 <= w < |p.workers| && !p.workers[w].Exited?
    ensures CanDo(p, step) && (step.PostTerminate? || step.Take? || step.Finish?)
  {
    step := Progress(p);
  }
}
