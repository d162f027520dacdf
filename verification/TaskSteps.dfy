/** The thread pool of the server demo as the interleaving of its locked regions: any threads
    submit tasks, the workers run them, and one thread calls `stop`, `resize` and the
    destructor in any order. */
module TaskSteps {
  import opened Tallies

  /** A worker thread; `Joined` once it has been waited for. Tasks are known by number. */
  datatype Worker = Waiting | Running(task: nat) | Exited | Joined

  /** Where the controlling thread is: outside, or in one of its calls. */
  datatype Control =
    | Idle
    | Stopping(k: nat)
    | ResizeWaits(n: nat)
    | ResizeJoins(n: nat, k: nat)
    | ResizeCleared(n: nat)
    | ResizeSpawns(n: nat)
    | Destroying(k: nat)
    | Destroyed
    | Crashed

  /** `accepted` tasks are 0, 1, ..., in the order of their submission; `started` and
      `finished` say which have been run. */
  datatype Pool = Pool(
    tasks: seq<nat>, workers: seq<Worker>, stop: bool, control: Control,
    accepted: nat, started: seq<nat>, finished: seq<nat>)

  datatype Step =
    | Enqueue
    | Take(w: nat)
    | Finish(w: nat)
    | Exit(w: nat)
    | CallStop
    | Join
    | StopReturns
    | CallResize(n: nat)
    | ResizeStops
    | ResizeClears
    | ResizeResets
    | Spawn
    | ResizeReturns
    | CallDestructor
    | DestructorReturns

  /** Which thread the controlling thread waits for. */
  function Waited(c: Control): int {
    match c
    case Stopping(k) => k
    case ResizeJoins(_, k) => k
    case Destroying(k) => k
    case _ => -1
  }

  function Onward(c: Control): Control {
    match c
    case Stopping(k) => Stopping(k + 1)
    case ResizeJoins(n, k) => ResizeJoins(n, k + 1)
    case Destroying(k) => Destroying(k + 1)
    case _ => c
  }

  predicate CanDo(p: Pool, step: Step) {
    match step
    case Enqueue => true
    case Take(w) => w < |p.workers| && p.workers[w].Waiting? && |p.tasks| > 0
    case Finish(w) => w < |p.workers| && p.workers[w].Running?
    case Exit(w) => w < |p.workers| && p.workers[w].Waiting? && p.stop && |p.tasks| == 0
    case CallStop => p.control.Idle?
    case Join => 0 <= Waited(p.control) < |p.workers|
      && var x := p.workers[Waited(p.control)]; x.Exited? || x.Joined?
    case StopReturns => p.control.Stopping? && p.control.k >= |p.workers|
    case CallResize(_) => p.control.Idle?
    case ResizeStops => p.control.ResizeWaits? && |p.tasks| == 0
    case ResizeClears => p.control.ResizeJoins? && p.control.k >= |p.workers|
    case ResizeResets => p.control.ResizeCleared?
    case Spawn => p.control.ResizeSpawns? && |p.workers| < p.control.n
    case ResizeReturns => p.control.ResizeSpawns? && |p.workers| >= p.control.n
    case CallDestructor => p.control.Idle?
    case DestructorReturns => p.control.Destroying? && p.control.k >= |p.workers|
  }

  /** `enqueue` throws when the pool is stopped; `stop` and `resize` skip a thread that has
      been joined, and the destructor does not: joining it throws, out of a destructor. */
  function Do(p: Pool, step: Step): Pool
    requires CanDo(p, step)
  {
    match step
    case Enqueue => if p.stop then p else p.(tasks := p.tasks + [p.accepted], accepted := p.accepted + 1)
    case Take(w) =>
      var t := p.tasks[0];
      p.(tasks := p.tasks[1..], workers := p.workers[w := Running(t)], started := p.started + [t])
    case Finish(w) => p.(workers := p.workers[w := Waiting], finished := p.finished + [p.workers[w].task])
    case Exit(w) => p.(workers := p.workers[w := Exited])
    case CallStop => p.(stop := true, control := Stopping(0))
    case Join =>
      var k := Waited(p.control);
      if p.control.Destroying? && p.workers[k].Joined? then p.(control := Crashed)
      else p.(workers := p.workers[k := Joined], control := Onward(p.control))
    case StopReturns => p.(control := Idle)
    case CallResize(n) => p.(control := ResizeWaits(n))
    case ResizeStops => p.(stop := true, control := ResizeJoins(p.control.n, 0))
    case ResizeClears => p.(workers := [], control := ResizeCleared(p.control.n))
    case ResizeResets => p.(stop := false, control := ResizeSpawns(p.control.n))
    case Spawn => p.(workers := p.workers + [Waiting])
    case ResizeReturns => p.(control := Idle)
    case CallDestructor => p.(stop := true, control := Destroying(0))
    case DestructorReturns => p.(control := Destroyed)
  }

  predicate Over(x: Worker) {
    x.Exited? || x.Joined?
  }

  function Held(x: Worker): multiset<nat> {
    if x.Running? then multiset{x.task} else multiset{}
  }

  predicate Numbered(s: seq<nat>, n: nat) {
    |s| == n && forall i :: 0 <= i < n ==> s[i] == i
  }

  /** Tasks start in the order of their submission, each once; what has started has finished
      or is in hand. */
  predicate TasksSound(p: Pool) {
    && Numbered(p.started + p.tasks, p.accepted)
    && multiset(p.finished) + InHand(p.workers, Held) == multiset(p.started)
  }

  /** Once a worker is over, the pool is stopped with no task left; and so it is from when
      `resize` stops the pool until it has cleared the workers away. */
  predicate ThreadsSound(p: Pool) {
    && (forall w :: 0 <= w < |p.workers| && Over(p.workers[w]) ==> p.stop && p.tasks == [])
    && (Waited(p.control) >= 0 ==>
          && p.stop && Waited(p.control) <= |p.workers|
          && forall w :: 0 <= w < Waited(p.control) ==> p.workers[w].Joined?)
    && (p.control.ResizeJoins? || p.control.ResizeCleared? ==> p.stop && p.tasks == [])
    && (p.control.ResizeCleared? ==> p.workers == [])
    && (p.control.ResizeSpawns? ==> !p.stop)
  }

  predicate Sound(p: Pool) {
    TasksSound(p) && ThreadsSound(p)
  }

  function Fresh(n: nat): Pool {
    Pool([], seq(n, _ => Waiting), false, Idle, 0, [], [])
  }

  lemma NoneRunning(ws: seq<Worker>)
    requires forall w :: 0 <= w < |ws| ==> !ws[w].Running?
    ensures InHand(ws, Held) == multiset{}
  {
    NothingInHand(ws, Held);
  }

  lemma FreshSound(n: nat)
    ensures Sound(Fresh(n))
  {
    NoneRunning(Fresh(n).workers);
  }

  lemma HandsStay(ws: seq<Worker>, w: nat, x: Worker)
    requires w < |ws| && !ws[w].Running? && !x.Running?
    ensures InHand(ws[w := x], Held) == InHand(ws, Held)
  {
    HandsChange(ws, w, x, Held);
    EmptyHands(InHand(ws[w := x], Held), InHand(ws, Held));
  }

  lemma TakeSound(p: Pool, w: nat)
    requires TasksSound(p) && CanDo(p, Take(w))
    ensures TasksSound(Do(p, Take(w)))
  {
    hide InHand;
    var p2, t := Do(p, Take(w)), p.tasks[0];
    HandsChange(p.workers, w, Running(t), Held);
    Started(p.finished, InHand(p.workers, Held), InHand(p2.workers, Held), p.started, t);
    assert p2.started + p2.tasks == p.started + p.tasks;
  }

  lemma Started(done: seq<nat>, hands: multiset<nat>, hands2: multiset<nat>, started: seq<nat>, t: nat)
    requires multiset(done) + hands == multiset(started) && hands2 + multiset{} == hands + multiset{t}
    ensures multiset(done) + hands2 == multiset(started + [t])
  {
    assert hands2 == hands + multiset{t};
  }

  lemma FinishSound(p: Pool, w: nat)
    requires TasksSound(p) && CanDo(p, Finish(w))
    ensures TasksSound(Do(p, Finish(w)))
  {
    hide InHand, Numbered;
    var p2, t := Do(p, Finish(w)), p.workers[w].task;
    HandsChange(p.workers, w, Waiting, Held);
    Ended(p.finished, InHand(p.workers, Held), InHand(p2.workers, Held), t);
  }

  lemma Ended(done: seq<nat>, hands: multiset<nat>, hands2: multiset<nat>, t: nat)
    requires hands2 + multiset{t} == hands + multiset{}
    ensures multiset(done + [t]) + hands2 == multiset(done) + hands
  {
    assert hands == hands2 + multiset{t};
  }

  lemma HandsKept(p: Pool, step: Step)
    requires ThreadsSound(p) && CanDo(p, step) && !step.Enqueue? && !step.Take? && !step.Finish?
    ensures InHand(Do(p, step).workers, Held) == InHand(p.workers, Held)
  {
    hide InHand;
    match step
    case Exit(w) => HandsStay(p.workers, w, Exited);
    case Join => HandsStay(p.workers, Waited(p.control), Joined);
    case ResizeClears =>
      NoneRunning(p.workers);
      NoneRunning([]);
    case Spawn => OneMoreHand(p.workers);
    case _ =>
  }

  lemma OneMoreHand(ws: seq<Worker>)
    ensures InHand(ws + [Waiting], Held) == InHand(ws, Held)
  {
    assert (ws + [Waiting])[..|ws|] == ws;
  }

  lemma StepKeepsTasks(p: Pool, step: Step)
    requires Sound(p) && CanDo(p, step)
    ensures TasksSound(Do(p, step))
  {
    hide InHand, ThreadsSound;
    match step
    case Enqueue =>
      var p2 := Do(p, Enqueue);
      assert !p.stop ==> p2.started + p2.tasks == p.started + p.tasks + [p.accepted];
    case Take(w) => TakeSound(p, w);
    case Finish(w) => FinishSound(p, w);
    case _ => HandsKept(p, step);
  }

  lemma StepKeepsThreads(p: Pool, step: Step)
    requires ThreadsSound(p) && CanDo(p, step)
    ensures ThreadsSound(Do(p, step))
  {
  }

  lemma StepSound(p: Pool, step: Step)
    requires Sound(p) && CanDo(p, step)
    ensures Sound(Do(p, step))
  {
    hide ThreadsSound, TasksSound;
    StepKeepsTasks(p, step);
    StepKeepsThreads(p, step);
  }

  /** The steps lead from `p` to `p2`. */
  ghost predicate Leads(p: Pool, steps: seq<Step>, p2: Pool)
    decreases |steps|
  {
    if steps == [] then p2 == p else CanDo(p, steps[0]) && Leads(Do(p, steps[0]), steps[1..], p2)
  }

  lemma {:induction false} RunSound(p: Pool, steps: seq<Step>, p2: Pool)
    requires Sound(p) && Leads(p, steps, p2)
    ensures Sound(p2)
    decreases |steps|
  {
    if |steps| > 0 {
      StepSound(p, steps[0]);
      RunSound(Do(p, steps[0]), steps[1..], p2);
    }
  }

  lemma {:induction false} CountsOne(s: seq<nat>, n: nat, t: nat)
    requires Numbered(s, n)
    ensures multiset(s)[t] == if t < n then 1 else 0
    decreases n
  {
    if n > 0 {
      CountsOne(s[..n - 1], n - 1, t);
      assert s == s[..n - 1] + [s[n - 1]];
    }
  }

  /** Each task is run at most once, whatever happens, and only if it was accepted. */
  lemma RunAtMostOnce(n: nat, steps: seq<Step>, p: Pool, t: nat)
    requires Leads(Fresh(n), steps, p)
    ensures multiset(p.started)[t] <= 1 && multiset(p.finished)[t] <= multiset(p.started)[t]
    ensures t in p.started ==> t < p.accepted
  {
    FreshSound(n);
    RunSound(Fresh(n), steps, p);
    CountsOne(p.started + p.tasks, p.accepted, t);
    assert multiset(p.started + p.tasks) == multiset(p.started) + multiset(p.tasks);
  }

  /** Every accepted task is among these, once, and no other. */
  ghost predicate EachOnce(finished: seq<nat>, accepted: nat) {
    forall t: nat :: multiset(finished)[t] == if t < accepted then 1 else 0
  }

  /** When every worker is over, every task accepted so far has been run exactly once, if and
      only if there was a worker or nothing to run. */
  lemma AllOver(p: Pool)
    requires Sound(p) && forall w :: 0 <= w < |p.workers| ==> p.workers[w].Joined?
    ensures EachOnce(p.finished, p.accepted) <==> p.workers != [] || p.tasks == []
  {
    NoneRunning(p.workers);
    assert multiset(p.finished) == multiset(p.started);
    if p.workers != [] {
      assert Over(p.workers[0]);
    }
    if p.tasks == [] {
      assert p.started + p.tasks == p.started;
      forall t: nat ensures multiset(p.finished)[t] == if t < p.accepted then 1 else 0 {
        CountsOne(p.started, p.accepted, t);
      }
    } else {
      LastNotRun(p);
    }
  }

  /** When `stop` returns, every worker has ended, and the tasks have been run as above. */
  lemma WhenStopped(p: Pool)
    requires Sound(p) && CanDo(p, StopReturns)
    ensures forall w :: 0 <= w < |p.workers| ==> p.workers[w].Joined?
    ensures EachOnce(p.finished, p.accepted) <==> p.workers != [] || p.tasks == []
  {
    AllOver(p);
  }

  lemma LastNotRun(p: Pool)
    requires Sound(p) && p.tasks != []
    ensures p.accepted > 0 && multiset(p.started)[p.accepted - 1] == 0
  {
    var all, t := p.started + p.tasks, p.accepted - 1;
    assert all[t] == t;
    CountsOne(all, p.accepted, t);
    assert multiset(all) == multiset(p.started) + multiset(p.tasks);
    assert p.tasks[|p.tasks| - 1] == t;
  }

  function Weight(x: Worker): nat {
    match x
    case Running(_) => 3
    case Waiting => 2
    case Exited => 1
    case Joined => 0
  }

  function Weights(ws: seq<Worker>): nat {
    Tally(ws, Weight)
  }

  /** What is left to do before every worker has been joined. */
  function Measure(p: Pool): int {
    3 * |p.tasks| + Weights(p.workers) + if Waited(p.control) >= 0 then |p.workers| - Waited(p.control) + 1 else 0
  }

  /** `stop`, `resize` or the destructor waits for the workers to end. */
  predicate Joining(c: Control) {
    c.Stopping? || c.ResizeJoins? || c.Destroying?
  }

  /** The steps that the workers and the joining thread have then. */
  predicate Ends(step: Step) {
    step.Take? || step.Finish? || step.Exit? || step.Join?
  }

  /** Joining a thread that has been joined: an error for the destructor only. */
  predicate Crashes(p: Pool, step: Step) {
    step.Join? && p.control.Destroying? && p.control.k < |p.workers| && p.workers[p.control.k].Joined?
  }

  lemma JoiningProgresses(p: Pool, step: Step)
    requires Sound(p) && Joining(p.control) && CanDo(p, step) && Ends(step)
    ensures var p2 := Do(p, step);
            && p2.control == (if Crashes(p, step) then Crashed else if step.Join? then Onward(p.control) else p.control)
            && p2.stop && |p2.workers| == |p.workers| && p2.accepted == p.accepted && |p2.tasks| <= |p.tasks|
    ensures 0 <= Measure(Do(p, step)) < Measure(p)
  {
    var p2 := Do(p, step);
    if step.Join? {
      TallyChange(p.workers, Waited(p.control), Joined, Weight);
    } else {
      TallyChange(p.workers, step.w, p2.workers[step.w], Weight);
    }
  }

  /** While it waits, a worker can go on, or the thread it waits for is over; and a task
      submitted meanwhile is refused. */
  lemma JoiningGoesOn(p: Pool) returns (step: Step)
    requires Sound(p) && Joining(p.control) && p.control.k < |p.workers|
    ensures CanDo(p, step) && Ends(step) && Do(p, Enqueue) == p
  {
    var k := p.control.k;
    match p.workers[k]
    case Running(_) => step := Finish(k);
    case Waiting => step := if |p.tasks| > 0 then Take(k) else Exit(k);
    case _ => step := Join;
  }

  // ---- the destructor ----

  /** No thread has been joined before. */
  predicate NoneJoined(ws: seq<Worker>) {
    forall w :: 0 <= w < |ws| ==> !ws[w].Joined?
  }

  /** How far the destructor called in state `was` has got. */
  predicate Undone(was: Pool, p: Pool) {
    && |p.workers| == |was.workers| && p.accepted == was.accepted
    && (was.tasks == [] ==> p.tasks == []) && (was.workers == [] ==> p.tasks == was.tasks)
    && (p.control.Destroying? || p.control.Destroyed? || p.control.Crashed?)
    && (p.control.Destroying? ==>
          && p.control.k <= |p.workers| && NoneJoined(was.workers[..p.control.k])
          && (forall w :: p.control.k <= w < |p.workers| ==> (p.workers[w].Joined? <==> was.workers[w].Joined?)))
    && (p.control.Destroyed? ==>
          NoneJoined(was.workers) && forall w :: 0 <= w < |p.workers| ==> p.workers[w].Joined?)
    && (p.control.Crashed? ==> !NoneJoined(was.workers))
  }

  /** Steps of the workers and of the destructor, until it returns or fails. */
  ghost predicate Destroys(p: Pool, steps: seq<Step>, p2: Pool)
    decreases |steps|
  {
    if steps == [] then p2 == p
    else
      && p.control.Destroying? && CanDo(p, steps[0]) && (Ends(steps[0]) || steps[0].DestructorReturns?)
      && Destroys(Do(p, steps[0]), steps[1..], p2)
  }

  lemma CallUndone(p: Pool)
    requires Sound(p) && p.control.Idle?
    ensures var d := Do(p, CallDestructor); Sound(d) && d.control == Destroying(0) && Undone(p, d)
  {
    StepSound(p, CallDestructor);
  }

  lemma StepUndone(was: Pool, p: Pool, step: Step)
    requires Sound(p) && Undone(was, p) && p.control.Destroying? && CanDo(p, step)
    requires Ends(step) || step.DestructorReturns?
    ensures Undone(was, Do(p, step))
  {
    if step.Join? {
      var k := p.control.k;
      assert !was.workers[k].Joined? ==> was.workers[..k + 1] == was.workers[..k] + [was.workers[k]];
    } else if step.DestructorReturns? {
      assert was.workers[..p.control.k] == was.workers;
    }
  }

  lemma ReturnProgresses(p: Pool)
    requires Sound(p) && CanDo(p, DestructorReturns)
    ensures 0 <= Measure(Do(p, DestructorReturns)) < Measure(p)
  {
  }

  lemma {:induction false} DestroysKeeps(was: Pool, p: Pool, steps: seq<Step>, p2: Pool)
    requires Sound(p) && Undone(was, p) && Destroys(p, steps, p2)
    ensures Sound(p2) && Undone(was, p2) && |steps| + Measure(p2) <= Measure(p)
    decreases |steps|
  {
    hide Sound, Undone, Measure, Do, CanDo;
    if |steps| > 0 {
      StepSound(p, steps[0]);
      StepUndone(was, p, steps[0]);
      if steps[0].DestructorReturns? {
        ReturnProgresses(p);
      } else {
        DestroyingJoins(p);
        JoiningProgresses(p, steps[0]);
      }
      DestroysKeeps(was, Do(p, steps[0]), steps[1..], p2);
    }
  }

  lemma DestroyingJoins(p: Pool)
    requires p.control.Destroying?
    ensures Joining(p.control)
  {
  }

  /** The destructor, under every scheduling: it is never stuck and takes a bounded number of
      steps; it returns if and only if no thread had been joined when it was called, and it
      fails otherwise. */
  lemma DestructorOutcome(p: Pool, steps: seq<Step>, p2: Pool) returns (next: Step)
    requires Sound(p) && p.control.Idle? && Destroys(Do(p, CallDestructor), steps, p2)
    ensures |steps| <= Measure(Do(p, CallDestructor))
    ensures p2.control.Destroying? ==> CanDo(p2, next) && (Ends(next) || next.DestructorReturns?)
    ensures !p2.control.Destroying? ==> p2.control == if NoneJoined(p.workers) then Destroyed else Crashed
  {
    var d := Do(p, CallDestructor);
    CallUndone(p);
    DestroysKeeps(p, d, steps, p2);
    MeasureNatural(p2);
    next := DestructorReturns;
    if p2.control.Destroying? && p2.control.k < |p2.workers| {
      next := JoiningGoesOn(p2);
    }
  }

  lemma MeasureNatural(p: Pool)
    requires Sound(p)
    ensures Measure(p) >= 0
  {
  }

  /** When it returns, every accepted task has been run exactly once, if and only if there was
      a worker or nothing to run. */
  lemma WhenDestroyed(p: Pool, steps: seq<Step>, p2: Pool)
    requires Sound(p) && p.control.Idle? && Destroys(Do(p, CallDestructor), steps, p2) && p2.control.Destroyed?
    ensures forall w :: 0 <= w < |p2.workers| ==> p2.workers[w].Joined?
    ensures p2.accepted == p.accepted
    ensures EachOnce(p2.finished, p.accepted) <==> p.workers != [] || p.tasks == []
  {
    CallUndone(p);
    DestroysKeeps(p, Do(p, CallDestructor), steps, p2);
    AllOver(p2);
  }

  /** Whether `stop` has returned since the workers were created. */
  function StoppedSince(steps: seq<Step>, stopped: bool): bool {
    if steps == [] then stopped
    else
      var now := if steps[0].StopReturns? then true else if steps[0].ResizeClears? then false else stopped;
      StoppedSince(steps[1..], now)
  }

  predicate JoinedIf(p: Pool, stopped: bool) {
    match p.control
    case Stopping(_) => true
    case ResizeJoins(_, _) => true
    case Destroying(_) => true
    case Destroyed => true
    case Crashed => true
    case ResizeCleared(_) => !stopped && NoneJoined(p.workers)
    case ResizeSpawns(_) => !stopped && NoneJoined(p.workers)
    case _ => if stopped then forall w :: 0 <= w < |p.workers| ==> p.workers[w].Joined? else NoneJoined(p.workers)
  }

  lemma {:induction false} JoinedByStop(p: Pool, steps: seq<Step>, p2: Pool, stopped: bool)
    requires Sound(p) && JoinedIf(p, stopped) && Leads(p, steps, p2)
    ensures JoinedIf(p2, StoppedSince(steps, stopped))
    decreases |steps|
  {
    if |steps| > 0 {
      var step := steps[0];
      var now := if step.StopReturns? then true else if step.ResizeClears? then false else stopped;
      StepSound(p, step);
      StepJoinedIf(p, step, stopped, now);
      JoinedByStop(Do(p, step), steps[1..], p2, now);
    }
  }

  lemma StepJoinedIf(p: Pool, step: Step, stopped: bool, now: bool)
    requires ThreadsSound(p) && JoinedIf(p, stopped) && CanDo(p, step)
    requires now == if step.StopReturns? then true else if step.ResizeClears? then false else stopped
    ensures JoinedIf(Do(p, step), now)
  {
  }

  /** So the destructor returns exactly when `stop` has not been called since the workers were
      created, or there are no workers. */
  lemma DestructorReturnsIff(n: nat, steps: seq<Step>, p: Pool, last: seq<Step>, p2: Pool)
    requires Leads(Fresh(n), steps, p) && p.control.Idle?
    requires Destroys(Do(p, CallDestructor), last, p2) && !p2.control.Destroying?
    ensures p2.control == if StoppedSince(steps, false) && p.workers != [] then Crashed else Destroyed
  {
    FreshSound(n);
    RunSound(Fresh(n), steps, p);
    JoinedByStop(Fresh(n), steps, p, false);
    var _ := DestructorOutcome(p, last, p2);
    if StoppedSince(steps, false) && p.workers != [] {
      assert p.workers[0].Joined?;
    }
  }
}
