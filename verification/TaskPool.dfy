/** The thread pool of the server demo: its locked regions as methods, and `stop` and `resize`
    under any scheduling of the workers. */
module TaskPool {
  import opened TaskSteps

  datatype Submitted = Accepted(task: nat) | Stopped

  class ThreadPool {
    var tasks: seq<nat>
    var workers: seq<Worker>
    var stop: bool
    ghost var control: Control
    ghost var started: seq<nat>
    ghost var finished: seq<nat>
    var accepted: nat

    ghost function State(): Pool
      reads this
    {
      Pool(tasks, workers, stop, control, accepted, started, finished)
    }

    constructor (numThreads: nat)
      ensures State() == Fresh(numThreads) && Sound(State())
      ensures workers == seq(numThreads, _ => Waiting) && tasks == [] && !stop && accepted == 0 && control == Idle
    {
      tasks, workers, stop, accepted := [], seq(numThreads, _ => Waiting), false, 0;
      control, started, finished := Idle, [], [];
      new;
      FreshSound(numThreads);
    }

    /** `enqueue`, which throws when the pool is stopped. */
    method Enqueue() returns (r: Submitted)
      requires Sound(State())
      modifies this`tasks, this`accepted
      ensures Sound(State()) && State() == Do(old(State()), Step.Enqueue)
      ensures r == if stop then Stopped else Accepted(old(accepted))
      ensures stop ==> tasks == old(tasks) && accepted == old(accepted)
      ensures !stop ==> tasks == old(tasks) + [old(accepted)] && accepted == old(accepted) + 1
    {
      hide Sound;
      StepSound(State(), Step.Enqueue);
      if stop {
        return Stopped;
      }
      r := Accepted(accepted);
      tasks := tasks + [accepted];
      accepted := accepted + 1;
    }

    /** A worker takes what is at the front of the queue. */
    method TakeTask(w: nat)
      requires Sound(State()) && CanDo(State(), Take(w))
      modifies this`tasks, this`workers, this`started
      ensures Sound(State()) && State() == Do(old(State()), Take(w))
      ensures [old(tasks)[0]] + tasks == old(tasks) && workers == old(workers)[w := Running(old(tasks)[0])]
      ensures started == old(started) + [old(tasks)[0]]
    {
      hide Sound;
      StepSound(State(), Take(w));
      var task := tasks[0];
      tasks := tasks[1..];
      workers := workers[w := Running(task)];
      started := started + [task];
    }

    /** It has run its task, outside the lock. */
    method FinishTask(w: nat)
      requires Sound(State()) && CanDo(State(), Finish(w))
      modifies this`workers, this`finished
      ensures Sound(State()) && State() == Do(old(State()), Finish(w))
      ensures workers == old(workers)[w := Waiting] && finished == old(finished + [workers[w].task])
    {
      hide Sound;
      StepSound(State(), Finish(w));
      finished := finished + [workers[w].task];
      workers := workers[w := Waiting];
    }

    /** It finds the pool stopped and nothing left to do. */
    method EndWorker(w: nat)
      requires Sound(State()) && CanDo(State(), Exit(w))
      modifies this`workers
      ensures Sound(State()) && State() == Do(old(State()), Exit(w))
      ensures old(stop) && old(tasks) == [] && workers == old(workers)[w := Exited]
    {
      hide Sound;
      StepSound(State(), Exit(w));
      workers := workers[w := Exited];
    }

    method JoinWorker(k: nat)
      requires Sound(State()) && CanDo(State(), Step.Join) && Joining(control) && control.k == k
      requires control.Destroying? ==> workers[k].Exited?
      modifies this`workers, this`control
      ensures Sound(State()) && State() == Do(old(State()), Step.Join)
    {
      hide Sound;
      StepSound(State(), Step.Join);
      workers := workers[k := Joined];
      control := Onward(control);
    }

    /** Joining every worker, while the workers run in any order. */
    method JoinAll()
      requires Sound(State()) && Joining(control) && !control.Destroying? && control.k == 0 && stop
      modifies this`tasks, this`workers, this`started, this`finished, this`control
      ensures Sound(State()) && Joining(control) && control.k == |workers| == old(|workers|)
      ensures old(control).Stopping? ==> control == Stopping(|workers|)
      ensures !old(control).Stopping? ==> control == ResizeJoins(old(control).n, |workers|)
      ensures |tasks| <= old(|tasks|)
    {
      hide Sound, Do, Measure;
      var k := 0;
      while k < |workers|
        invariant 0 <= k <= |workers| && Sound(State()) && |workers| == old(|workers|)
        invariant control == (if old(control).Stopping? then Stopping(k) else ResizeJoins(old(control).n, k))
        invariant |tasks| <= old(|tasks|)
        decreases Measure(State())
      {
        ghost var p := State();
        ghost var step := JoiningGoesOn(p);
        if
        case w: nat :| w < |workers| && workers[w].Waiting? && |tasks| > 0 =>
          JoiningProgresses(p, Take(w));
          TakeTask(w);
        case w: nat :| w < |workers| && workers[w].Running? =>
          JoiningProgresses(p, Finish(w));
          FinishTask(w);
        case w: nat :| w < |workers| && workers[w].Waiting? && stop && |tasks| == 0 =>
          JoiningProgresses(p, Exit(w));
          EndWorker(w);
        case workers[k].Exited? || workers[k].Joined? =>
          JoiningProgresses(p, Step.Join);
          JoinWorker(k);
          k := k + 1;
      }
    }

    /** `stop`. It returns; every worker has ended then, and if there was one, every task
        accepted so far has been run exactly once. */
    method Stop()
      requires Sound(State()) && control == Idle
      modifies this`tasks, this`workers, this`started, this`finished, this`control, this`stop
      ensures Sound(State()) && control == Idle && stop && |workers| == old(|workers|)
      ensures forall w :: 0 <= w < |workers| ==> workers[w].Joined?
      ensures EachOnce(finished, accepted) <==> workers != [] || tasks == []
    {
      hide Sound;
      StepSound(State(), CallStop);
      stop, control := true, Stopping(0);
      JoinAll();
      WhenStopped(State());
      StepSound(State(), StopReturns);
      control := Idle;
    }

    /** The destructor. Unlike `stop`, it joins every thread without looking whether it can: it
        returns if and only if no thread had been joined. Then every worker has ended, and if
        there was one, every task accepted has been run exactly once. */
    method Destroy() returns (returned: bool)
      requires Sound(State()) && control == Idle
      modifies this`tasks, this`workers, this`started, this`finished, this`control, this`stop
      ensures Sound(State()) && control == (if returned then Destroyed else Crashed)
      ensures returned <==> NoneJoined(old(workers))
      ensures returned ==> |workers| == old(|workers|) && forall w :: 0 <= w < |workers| ==> workers[w].Joined?
      ensures returned ==> (EachOnce(finished, accepted) <==> old(workers) != [] || old(tasks) == [])
    {
      hide Sound, Do, Measure, Undone, EachOnce, NoneJoined;
      ghost var was := State();
      CallUndone(was);
      Called(was);
      stop, control := true, Destroying(0);
      var k := 0;
      while k < |workers|
        invariant 0 <= k <= |workers| && Sound(State()) && control == Destroying(k) && Undone(was, State()) && stop
        decreases Measure(State())
      {
        ghost var p := State();
        ghost var step := JoiningGoesOn(p);
        if
        case w: nat :| w < |workers| && workers[w].Waiting? && |tasks| > 0 =>
          Undoing(was, p, Take(w));
          TakeTask(w);
        case w: nat :| w < |workers| && workers[w].Running? =>
          Undoing(was, p, Finish(w));
          FinishTask(w);
        case w: nat :| w < |workers| && workers[w].Waiting? && stop && |tasks| == 0 =>
          Undoing(was, p, Exit(w));
          EndWorker(w);
        case workers[k].Exited? =>
          Undoing(was, p, Step.Join);
          JoinWorker(k);
          k := k + 1;
        case workers[k].Joined? =>
          StepSound(p, Step.Join);
          StepUndone(was, p, Step.Join);
          JoinFails(p);
          control := Crashed;
          UndoneEnds(was, State());
          return false;
      }
      Returning(was, State());
      control := Destroyed;
      return true;
    }

    /** The new workers of `resize`. */
    method SpawnAll(numThreads: nat)
      requires Sound(State()) && control == ResizeSpawns(numThreads) && workers == [] && !stop
      modifies this`workers
      ensures Sound(State()) && workers == seq(numThreads, _ => Waiting)
    {
      hide Sound;
      var i := 0;
      while i < numThreads
        invariant 0 <= i <= numThreads && Sound(State())
        invariant workers == seq(i, _ => Waiting)
      {
        StepSound(State(), Spawn);
        workers := workers + [Waiting];
        i := i + 1;
      }
    }

    /** `resize`, once its wait for an empty queue is over. The old workers end and new ones
        start; no task is lost, and the pool accepts tasks again. */
    method Resize(numThreads: nat)
      requires Sound(State()) && control == Idle && tasks == []
      modifies this`tasks, this`workers, this`started, this`finished, this`control, this`stop
      ensures Sound(State()) && control == Idle && !stop && tasks == []
      ensures workers == seq(numThreads, _ => Waiting) && EachOnce(finished, accepted)
    {
      hide Sound, EachOnce;
      ResizeBegins(State(), numThreads);
      stop, control := true, ResizeJoins(numThreads, 0);
      JoinAll();
      ResizeClearsAll(State());
      workers, stop, control := [], false, ResizeSpawns(numThreads);
      SpawnAll(numThreads);
      ResizeEnds(State());
      control := Idle;
    }
  }

  /** A pool with workers whose owner calls `stop` before its destructor ends the program. */
  method StopThenDestroy(numThreads: nat) returns (returned: bool)
    requires numThreads >= 1
    ensures !returned
  {
    var pool := new ThreadPool(numThreads);
    pool.Stop();
    assert pool.workers[0].Joined?;
    returned := pool.Destroy();
  }

  lemma Undoing(was: Pool, p: Pool, step: Step)
    requires Sound(p) && Undone(was, p) && p.control.Destroying? && CanDo(p, step) && Ends(step) && !Crashes(p, step)
    ensures var p2 := Do(p, step);
            && Undone(was, p2) && p2.stop && |p2.workers| == |p.workers| && 0 <= Measure(p2) < Measure(p)
            && p2.control == if step.Join? then Destroying(p.control.k + 1) else p.control
  {
    hide Sound, Undone, Measure;
    JoiningProgresses(p, step);
    StepUndone(was, p, step);
  }

  lemma Called(p: Pool)
    requires p.control == Idle
    ensures Do(p, CallDestructor) == p.(stop := true, control := Destroying(0))
  {
  }

  lemma JoinFails(p: Pool)
    requires p.control.Destroying? && p.control.k < |p.workers| && p.workers[p.control.k].Joined?
    ensures CanDo(p, Step.Join) && Do(p, Step.Join) == p.(control := Crashed)
  {
  }

  lemma UndoneEnds(was: Pool, p: Pool)
    requires Undone(was, p) && p.control == Crashed
    ensures !NoneJoined(was.workers)
  {
  }

  lemma Returning(was: Pool, p: Pool)
    requires Sound(p) && Undone(was, p) && p.control.Destroying? && p.control.k >= |p.workers|
    ensures var p2 := p.(control := Destroyed);
            && Sound(p2) && NoneJoined(was.workers) && |p2.workers| == |was.workers|
            && (forall w :: 0 <= w < |p2.workers| ==> p2.workers[w].Joined?)
            && (EachOnce(p2.finished, p2.accepted) <==> was.workers != [] || was.tasks == [])
  {
    StepSound(p, DestructorReturns);
    StepUndone(was, p, DestructorReturns);
    AllOver(p.(control := Destroyed));
  }

  lemma ResizeBegins(p: Pool, n: nat)
    requires Sound(p) && p.control == Idle && p.tasks == []
    ensures Sound(p.(stop := true, control := ResizeJoins(n, 0)))
  {
    hide Sound;
    StepSound(p, CallResize(n));
    StepSound(p.(control := ResizeWaits(n)), ResizeStops);
  }

  lemma ResizeClearsAll(p: Pool)
    requires Sound(p) && p.control.ResizeJoins? && p.control.k >= |p.workers| && p.tasks == []
    ensures Sound(p.(workers := [], stop := false, control := ResizeSpawns(p.control.n)))
    ensures EachOnce(p.finished, p.accepted)
  {
    hide Sound, EachOnce;
    StepSound(p, ResizeClears);
    var cleared := p.(workers := [], control := ResizeCleared(p.control.n));
    AllRun(cleared);
    StepSound(cleared, ResizeResets);
  }

  lemma ResizeEnds(p: Pool)
    requires Sound(p) && p.control.ResizeSpawns? && |p.workers| >= p.control.n
    ensures Sound(p.(control := Idle))
  {
    hide Sound;
    StepSound(p, ResizeReturns);
  }

  lemma AllRun(p: Pool)
    requires Sound(p) && p.workers == [] && p.tasks == []
    ensures EachOnce(p.finished, p.accepted)
  {
    assert p.started + p.tasks == p.started;
    assert multiset(p.finished) + multiset{} == multiset(p.finished);
    forall t: nat ensures multiset(p.finished)[t] == if t < p.accepted then 1 else 0 {
      CountsOne(p.started, p.accepted, t);
    }
  }
}
