/** The condition variable of the server demo's pool. `stop` and the destructor notify every
    sleeper, and so they end. `enqueue` notifies one, and as `resize` sleeps on the same
    condition variable that one may be the wrong one: exactly there a task, and the call of
    `resize` itself, may be left waiting. */
module TaskWaits {
  import opened TaskSteps
  import opened Tallies

  /** A thread that submits: outside, or about to notify. */
  datatype Caller = Outside | Notifying

  /** A worker: about to lock the queue and test it, asleep, or away, running a task or at its
      end. */
  datatype Mode = Testing | Asleep | Away

  /** The controlling thread: going on, about to notify all, or asleep in `resize`. */
  datatype Ruler = Going | NotifiesAll | Sleeps

  datatype Threads = Threads(p: Pool, callers: seq<Caller>, modes: seq<Mode>, ruler: Ruler)

  datatype Target = Worker(w: nat) | Resizer | Nobody

  datatype Move =
    | Submit(c: nat)
    | Notify(c: nat, target: Target)
    | Test(w: nat)
    | EndTask(w: nat)
    | Call(step: Step)
    | NotifyAll
    | TestResize
    | Control(step: Step)
    | WakeWorker(w: nat)
    | WakeResizer

  /** Waking for no reason. */
  predicate Spurious(move: Move) {
    move.WakeWorker? || move.WakeResizer?
  }

  /** What a thread outside the pool may begin. */
  predicate Begins(move: Move) {
    move.Submit? || move.Call?
  }

  predicate NobodyAsleep(s: Threads) {
    !s.ruler.Sleeps? && forall w :: 0 <= w < |s.modes| ==> !s.modes[w].Asleep?
  }

  predicate Sleeper(s: Threads, target: Target) {
    match target
    case Worker(w) => w < |s.modes| && s.modes[w].Asleep?
    case Resizer => s.ruler.Sleeps?
    case Nobody => NobodyAsleep(s)
  }

  /** The steps that begin a call of the controlling thread, and those that go on with it. */
  predicate BeginsCall(step: Step) {
    step.CallStop? || step.CallResize? || step.CallDestructor?
  }

  predicate Continues(step: Step) {
    || step.Join? || step.StopReturns? || step.ResizeClears? || step.ResizeResets? || step.Spawn?
    || step.ResizeReturns? || step.DestructorReturns?
  }

  predicate CanMove(s: Threads, move: Move) {
    match move
    case Submit(c) => c < |s.callers| && s.callers[c].Outside?
    case Notify(c, target) => c < |s.callers| && s.callers[c].Notifying? && Sleeper(s, target)
    case Test(w) => w < |s.modes| && s.modes[w].Testing?
    case EndTask(w) => w < |s.modes| && w < |s.p.workers| && s.modes[w].Away? && s.p.workers[w].Running?
    case Call(step) => s.ruler.Going? && BeginsCall(step) && CanDo(s.p, step)
    case NotifyAll => s.ruler.NotifiesAll?
    case TestResize => s.ruler.Going? && s.p.control.ResizeWaits?
    case Control(step) => s.ruler.Going? && Continues(step) && CanDo(s.p, step)
    case WakeWorker(w) => w < |s.modes| && s.modes[w].Asleep?
    case WakeResizer => s.ruler.Sleeps?
  }

  /** The step of the pool in a move: a thread that only tests, sleeps, wakes or notifies has
      none. */
  function Effect(s: Threads, move: Move): seq<Step> {
    match move
    case Submit(_) => [Enqueue]
    case Test(w) => if s.p.tasks != [] then [Take(w)] else if s.p.stop then [Exit(w)] else []
    case EndTask(w) => [Finish(w)]
    case Call(step) => [step]
    case TestResize => if s.p.tasks == [] then [ResizeStops] else []
    case Control(step) => [step]
    case _ => []
  }

  function Advance(p: Pool, steps: seq<Step>): Pool {
    if |steps| == 1 && CanDo(p, steps[0]) then Do(p, steps[0]) else p
  }

  function WakeMode(modes: seq<Mode>, w: nat): seq<Mode> {
    if w < |modes| && modes[w].Asleep? then modes[w := Testing] else modes
  }

  function WakeAll(modes: seq<Mode>): seq<Mode> {
    seq(|modes|, i requires 0 <= i < |modes| => if modes[i].Asleep? then Testing else modes[i])
  }

  function CallersAfter(s: Threads, move: Move): seq<Caller>
    requires CanMove(s, move)
  {
    match move
    case Submit(c) => if s.p.stop then s.callers else s.callers[c := Notifying]
    case Notify(c, _) => s.callers[c := Outside]
    case _ => s.callers
  }

  function ModesAfter(s: Threads, move: Move): seq<Mode>
    requires CanMove(s, move)
  {
    match move
    case Notify(_, target) => if target.Worker? then WakeMode(s.modes, target.w) else s.modes
    case Test(w) => s.modes[w := if s.p.tasks == [] && !s.p.stop then Asleep else Away]
    case EndTask(w) => s.modes[w := Testing]
    case NotifyAll => WakeAll(s.modes)
    case TestResize => if s.p.tasks == [] then WakeAll(s.modes) else s.modes
    case Control(step) =>
      if step.ResizeClears? then [] else if step.Spawn? then s.modes + [Testing] else s.modes
    case WakeWorker(w) => WakeMode(s.modes, w)
    case _ => s.modes
  }

  /** `stop` and the destructor notify after they have released the lock; `resize` while it
      holds it. */
  function RulerAfter(s: Threads, move: Move): Ruler
    requires CanMove(s, move)
  {
    match move
    case Notify(_, target) => if target.Resizer? then Going else s.ruler
    case Call(step) => if step.CallResize? then Going else NotifiesAll
    case NotifyAll => Going
    case TestResize => if s.p.tasks == [] then Going else Sleeps
    case WakeResizer => Going
    case _ => s.ruler
  }

  function Moved(s: Threads, move: Move): Threads
    requires CanMove(s, move)
  {
    Threads(Advance(s.p, Effect(s, move)), CallersAfter(s, move), ModesAfter(s, move), RulerAfter(s, move))
  }

  // ---- the invariant ----

  predicate ModesMatch(s: Threads) {
    && |s.modes| == |s.p.workers|
    && forall w :: 0 <= w < |s.modes| ==> (s.p.workers[w].Waiting? <==> !s.modes[w].Away?)
  }

  /** Once the pool is stopped and everybody notified, no worker sleeps. */
  predicate RulerMatches(s: Threads) {
    && (s.ruler.Sleeps? ==> s.p.control.ResizeWaits?)
    && (s.ruler.NotifiesAll? ==> s.p.stop && (s.p.control.Stopping? || s.p.control.Destroying?))
    && (s.p.stop && !s.ruler.NotifiesAll? ==> forall w :: 0 <= w < |s.modes| ==> !s.modes[w].Asleep?)
  }

  function ToNotify(c: Caller): nat { if c.Notifying? then 1 else 0 }

  function ToTest(m: Mode): nat { if m.Testing? then 1 else 0 }

  /** If any worker sleeps, there are no more tasks than threads that will notify a worker or
      test the queue; unless `resize` waits, which may take a notification for itself. */
  ghost predicate TasksSeen(s: Threads) {
    forall w :: 0 <= w < |s.modes| && s.modes[w].Asleep? && !s.p.control.ResizeWaits? ==>
      |s.p.tasks| <= Tally(s.callers, ToNotify) + Tally(s.modes, ToTest)
  }

  ghost predicate Kept(s: Threads) {
    Sound(s.p) && ModesMatch(s) && RulerMatches(s) && TasksSeen(s)
  }

  /** The steps of the pool that moves take are its steps. */
  lemma EffectCanDo(s: Threads, move: Move)
    requires Kept(s) && CanMove(s, move)
    ensures |Effect(s, move)| <= 1 && Moved(s, move).p == Advance(s.p, Effect(s, move))
    ensures Effect(s, move) != [] ==> CanDo(s.p, Effect(s, move)[0])
  {
    hide Sound, TasksSeen, RulerMatches;
  }

  lemma EffectIsStep(s: Threads, move: Move)
    requires Kept(s) && CanMove(s, move)
    ensures |Effect(s, move)| <= 1 && Leads(s.p, Effect(s, move), Moved(s, move).p)
    ensures Sound(Moved(s, move).p)
  {
    hide Sound;
    EffectCanDo(s, move);
    hide Kept, CanDo, Do, CanMove, Effect;
    var steps := Effect(s, move);
    if steps != [] {
      assert steps == [steps[0]];
      StepSound(s.p, steps[0]);
    }
  }

  lemma ModesAfterTest(s: Threads, w: nat)
    requires Kept(s) && CanMove(s, Test(w))
    ensures ModesMatch(Moved(s, Test(w))) && RulerMatches(Moved(s, Test(w)))
  {
    EffectCanDo(s, Test(w));
    hide Sound, TasksSeen;
  }

  lemma ModesAfterWake(s: Threads, move: Move)
    requires Kept(s) && CanMove(s, move) && Effect(s, move) == []
    requires !move.Test?
    ensures ModesMatch(Moved(s, move)) && RulerMatches(Moved(s, move))
  {
    EffectCanDo(s, move);
    hide Sound, TasksSeen;
  }

  lemma ModesAfterTask(s: Threads, move: Move)
    requires Kept(s) && CanMove(s, move) && (move.Submit? || move.EndTask?)
    ensures ModesMatch(Moved(s, move)) && RulerMatches(Moved(s, move))
  {
    EffectCanDo(s, move);
    hide Sound, TasksSeen;
  }

  lemma ModesAfterCall(s: Threads, step: Step)
    requires Kept(s) && CanMove(s, Call(step))
    ensures ModesMatch(Moved(s, Call(step))) && RulerMatches(Moved(s, Call(step)))
  {
    EffectCanDo(s, Call(step));
    hide Sound, TasksSeen;
  }

  lemma ModesAfterResize(s: Threads)
    requires Kept(s) && CanMove(s, TestResize)
    ensures ModesMatch(Moved(s, TestResize)) && RulerMatches(Moved(s, TestResize))
  {
    EffectCanDo(s, TestResize);
    hide Sound, TasksSeen;
  }

  lemma ModesAfterControl(s: Threads, step: Step)
    requires Kept(s) && CanMove(s, Control(step))
    ensures ModesMatch(Moved(s, Control(step))) && RulerMatches(Moved(s, Control(step)))
  {
    EffectCanDo(s, Control(step));
    hide TasksSound, TasksSeen;
  }

  /** How many threads will see to the tasks, less the tasks. */
  function Slack(s: Threads): int {
    Tally(s.callers, ToNotify) + Tally(s.modes, ToTest) - |s.p.tasks|
  }

  lemma StillSeen(s: Threads, s2: Threads)
    requires TasksSeen(s) && |s2.modes| == |s.modes| && Slack(s2) >= Slack(s)
    requires s.p.control.ResizeWaits? ==> s2.p.control.ResizeWaits?
    requires forall w :: 0 <= w < |s.modes| && s2.modes[w].Asleep? ==> s.modes[w].Asleep?
    ensures TasksSeen(s2)
  {
    hide Tally;
  }

  lemma NothingToSee(s: Threads)
    requires s.p.tasks == [] || s.p.control.ResizeWaits? || forall w :: 0 <= w < |s.modes| ==> !s.modes[w].Asleep?
    ensures TasksSeen(s)
  {
  }

  lemma SeenAfterSubmit(s: Threads, c: nat)
    requires Kept(s) && CanMove(s, Submit(c))
    ensures TasksSeen(Moved(s, Submit(c)))
  {
    EffectCanDo(s, Submit(c));
    hide Sound, ModesMatch, RulerMatches, TasksSeen, Tally;
    TallyChange(s.callers, c, Notifying, ToNotify);
    StillSeen(s, Moved(s, Submit(c)));
  }

  lemma SeenAfterNotify(s: Threads, c: nat, target: Target)
    requires Kept(s) && CanMove(s, Notify(c, target))
    ensures TasksSeen(Moved(s, Notify(c, target)))
  {
    EffectCanDo(s, Notify(c, target));
    hide Sound, ModesMatch, TasksSeen, Tally;
    TallyChange(s.callers, c, Outside, ToNotify);
    match target {
      case Worker(w) =>
        TallyChange(s.modes, w, Testing, ToTest);
        StillSeen(s, Moved(s, Notify(c, target)));
      case _ => NothingToSee(Moved(s, Notify(c, target)));
    }
  }

  lemma SeenAfterTest(s: Threads, w: nat)
    requires Kept(s) && CanMove(s, Test(w))
    ensures TasksSeen(Moved(s, Test(w)))
  {
    EffectCanDo(s, Test(w));
    hide Sound, ModesMatch, RulerMatches, TasksSeen, Tally;
    var s2 := Moved(s, Test(w));
    if s.p.tasks == [] {
      NothingToSee(s2);
    } else {
      TallyChange(s.modes, w, Away, ToTest);
      StillSeen(s, s2);
    }
  }

  lemma SeenAfterEnd(s: Threads, w: nat)
    requires Kept(s) && CanMove(s, EndTask(w))
    ensures TasksSeen(Moved(s, EndTask(w)))
  {
    EffectCanDo(s, EndTask(w));
    hide Sound, ModesMatch, RulerMatches, TasksSeen, Tally;
    TallyChange(s.modes, w, Testing, ToTest);
    StillSeen(s, Moved(s, EndTask(w)));
  }

  lemma SeenAfterWake(s: Threads, w: nat)
    requires Kept(s) && CanMove(s, WakeWorker(w))
    ensures TasksSeen(Moved(s, WakeWorker(w)))
  {
    EffectCanDo(s, WakeWorker(w));
    hide Sound, ModesMatch, RulerMatches, TasksSeen, Tally;
    TallyChange(s.modes, w, Testing, ToTest);
    StillSeen(s, Moved(s, WakeWorker(w)));
  }

  lemma SeenAfterRuler(s: Threads, move: Move)
    requires Kept(s) && CanMove(s, move)
    requires move.Call? || move.NotifyAll? || move.TestResize? || move.WakeResizer?
    ensures TasksSeen(Moved(s, move))
  {
    EffectCanDo(s, move);
    hide Sound, ModesMatch, TasksSeen, Tally;
    var s2 := Moved(s, move);
    if move.Call? && !move.step.CallResize? {
      StillSeen(s, s2);
    } else {
      NothingToSee(s2);
    }
  }

  lemma SeenAfterControl(s: Threads, step: Step)
    requires Kept(s) && CanMove(s, Control(step))
    ensures TasksSeen(Moved(s, Control(step)))
  {
    EffectCanDo(s, Control(step));
    hide TasksSound, TasksSeen, Tally;
    var s2 := Moved(s, Control(step));
    if step.Spawn? {
      assert (s.modes + [Testing])[..|s.modes|] == s.modes;
      SpawnSeen(s, s2);
    } else if step.ResizeReturns? {
      StillSeen(s, s2);
    } else {
      NothingToSee(s2);
    }
  }

  lemma SpawnSeen(s: Threads, s2: Threads)
    requires TasksSeen(s) && s2.modes == s.modes + [Testing] && s2.callers == s.callers && s2.p.tasks == s.p.tasks
    requires s2.p.control == s.p.control
    ensures TasksSeen(s2)
  {
    assert s2.modes[..|s.modes|] == s.modes;
    forall w | 0 <= w < |s2.modes| && s2.modes[w].Asleep? && !s2.p.control.ResizeWaits?
      ensures |s2.p.tasks| <= Tally(s2.callers, ToNotify) + Tally(s2.modes, ToTest)
    {
      assert s.modes[w].Asleep?;
    }
  }

  /** Every move keeps the account of who will see to the tasks. */
  lemma MoveKeeps(s: Threads, move: Move)
    requires Kept(s) && CanMove(s, move)
    ensures Kept(Moved(s, move))
  {
    EffectIsStep(s, move);
    ShapeKept(s, move);
    hide Sound, ModesMatch, RulerMatches, TasksSeen, Moved, CanMove;
    match move
    case Submit(c) => SeenAfterSubmit(s, c);
    case Notify(c, target) => SeenAfterNotify(s, c, target);
    case Test(w) => SeenAfterTest(s, w);
    case EndTask(w) => SeenAfterEnd(s, w);
    case Control(step) => SeenAfterControl(s, step);
    case WakeWorker(w) => SeenAfterWake(s, w);
    case _ => SeenAfterRuler(s, move);
  }

  lemma ShapeKept(s: Threads, move: Move)
    requires Kept(s) && CanMove(s, move)
    ensures ModesMatch(Moved(s, move)) && RulerMatches(Moved(s, move))
  {
    hide Kept, ModesMatch, RulerMatches, Moved, CanMove;
    match move
    case Test(w) => ModesAfterTest(s, w);
    case Control(step) => ModesAfterControl(s, step);
    case Notify(_, _) => ModesAfterWake(s, move);
    case NotifyAll => ModesAfterWake(s, move);
    case WakeWorker(_) => ModesAfterWake(s, move);
    case WakeResizer => ModesAfterWake(s, move);
    case Call(step) => ModesAfterCall(s, step);
    case TestResize => ModesAfterResize(s);
    case _ => ModesAfterTask(s, move);
  }

  // ---- runs ----

  /** Moves of any threads, in any order. */
  ghost predicate Plays(s: Threads, moves: seq<Move>, s2: Threads)
    decreases |moves|
  {
    if moves == [] then s2 == s else CanMove(s, moves[0]) && Plays(Moved(s, moves[0]), moves[1..], s2)
  }

  /** A new pool, in which every worker is about to test the queue, and any number of threads
      that may submit tasks. */
  function AtStart(workers: nat, callers: nat): Threads {
    Threads(Fresh(workers), seq(callers, _ => Outside), seq(workers, _ => Testing), Going)
  }

  lemma StartKept(workers: nat, callers: nat)
    ensures Kept(AtStart(workers, callers))
  {
    FreshSound(workers);
    hide Sound;
    NothingToSee(AtStart(workers, callers));
  }

  lemma {:induction false} PlayKeeps(s: Threads, moves: seq<Move>, s2: Threads)
    requires Kept(s) && Plays(s, moves, s2)
    ensures Kept(s2)
    decreases |moves|
  {
    hide Kept, CanMove, Moved;
    if moves != [] {
      MoveKeeps(s, moves[0]);
      PlayKeeps(Moved(s, moves[0]), moves[1..], s2);
    }
  }

  lemma {:induction false} RunsJoin(p: Pool, first: seq<Step>, p1: Pool, rest: seq<Step>, p2: Pool)
    requires Leads(p, first, p1) && Leads(p1, rest, p2)
    ensures Leads(p, first + rest, p2)
    decreases |first|
  {
    if first == [] {
      assert first + rest == rest;
    } else {
      RunsJoin(Do(p, first[0]), first[1..], p1, rest, p2);
      assert (first + rest)[1..] == first[1..] + rest;
    }
  }

  /** Sleeping and waking add nothing to what may happen: the moves of the threads take the
      pool through one of the runs of `TaskSteps`. */
  lemma {:induction false} PlayIsRun(s: Threads, moves: seq<Move>, s2: Threads) returns (steps: seq<Step>)
    requires Kept(s) && Plays(s, moves, s2)
    ensures Leads(s.p, steps, s2.p)
    decreases |moves|
  {
    if moves == [] {
      return [];
    }
    EffectIsStep(s, moves[0]);
    MoveKeeps(s, moves[0]);
    hide Kept, CanMove, Moved, Effect, Leads;
    var rest := PlayIsRun(Moved(s, moves[0]), moves[1..], s2);
    RunsJoin(s.p, Effect(s, moves[0]), Moved(s, moves[0]).p, rest, s2.p);
    return Effect(s, moves[0]) + rest;
  }

  /** In every life of a pool, outside the wait of `resize`: no worker sleeps while there are
      tasks, unless a thread is about to notify one or to test the queue itself. */
  lemma NoLostTask(workers: nat, callers: nat, moves: seq<Move>, s: Threads)
    requires Plays(AtStart(workers, callers), moves, s) && !s.p.control.ResizeWaits?
    ensures (exists w :: 0 <= w < |s.modes| && s.modes[w].Asleep?) && s.p.tasks != [] ==>
              || (exists c :: 0 <= c < |s.callers| && s.callers[c].Notifying?)
              || (exists w :: 0 <= w < |s.modes| && s.modes[w].Testing?)
  {
    StartKept(workers, callers);
    PlayKeeps(AtStart(workers, callers), moves, s);
    SomeoneSees(s);
  }

  lemma SomeoneSees(s: Threads)
    requires Kept(s) && !s.p.control.ResizeWaits?
    ensures (exists w :: 0 <= w < |s.modes| && s.modes[w].Asleep?) && s.p.tasks != [] ==>
              || (exists c :: 0 <= c < |s.callers| && s.callers[c].Notifying?)
              || (exists w :: 0 <= w < |s.modes| && s.modes[w].Testing?)
  {
    TallyZero(s.callers, ToNotify);
    TallyZero(s.modes, ToTest);
    hide Tally, Sound;
  }

  // ---- rest ----

  /** No thread inside the pool has a move left: it is asleep or away. */
  ghost predicate AtRest(s: Threads) {
    forall move :: CanMove(s, move) ==> Begins(move) || Spurious(move)
  }

  lemma SomeTarget(s: Threads) returns (target: Target)
    ensures Sleeper(s, target)
  {
    if s.ruler.Sleeps? {
      target := Resizer;
    } else if v: nat :| v < |s.modes| && s.modes[v].Asleep? {
      target := Worker(v);
    } else {
      target := Nobody;
    }
  }

  lemma RestMeans(s: Threads)
    requires Kept(s) && AtRest(s)
    ensures !s.ruler.NotifiesAll? && forall c :: 0 <= c < |s.callers| ==> s.callers[c].Outside?
    ensures forall w :: 0 <= w < |s.modes| ==> s.modes[w].Asleep? || (s.modes[w].Away? && Over(s.p.workers[w]))
  {
    hide Sound, TasksSeen;
    var target := SomeTarget(s);
    assert !CanMove(s, NotifyAll);
    forall c | 0 <= c < |s.callers| ensures s.callers[c].Outside? {
      var notify := Notify(c, target);
      assert !CanMove(s, notify);
    }
    forall w | 0 <= w < |s.modes| ensures s.modes[w].Asleep? || (s.modes[w].Away? && Over(s.p.workers[w])) {
      var test, end := Test(w), EndTask(w);
      assert !CanMove(s, test) && !CanMove(s, end);
    }
  }

  /** Inside a call: the controlling thread has something to return from. */
  predicate InCall(c: Control) {
    !c.Idle? && !c.Destroyed? && !c.Crashed?
  }

  /** What the controlling thread can do next when every worker sleeps or is over, and it does
      not sleep itself. */
  lemma RulerGoesOn(s: Threads) returns (move: Move)
    requires Kept(s) && InCall(s.p.control) && s.ruler.Going?
    requires forall w :: 0 <= w < |s.modes| ==> s.modes[w].Asleep? || Over(s.p.workers[w])
    ensures CanMove(s, move) && (move.TestResize? || move.Control?)
  {
    hide TasksSound, TasksSeen;
    match s.p.control
    case ResizeWaits(_) => move := TestResize;
    case Stopping(k) => move := Control(if k < |s.p.workers| then Join else StopReturns);
    case ResizeJoins(_, k) => move := Control(if k < |s.p.workers| then Join else ResizeClears);
    case Destroying(k) => move := Control(if k < |s.p.workers| then Join else DestructorReturns);
    case ResizeCleared(_) => move := Control(ResizeResets);
    case ResizeSpawns(n) => move := Control(if |s.p.workers| < n then Spawn else ResizeReturns);
  }

  /** Every call has returned, and every accepted task has been taken if there are workers. */
  predicate Served(s: Threads) {
    && !InCall(s.p.control) && (s.p.tasks == [] || s.p.workers == [])
    && forall c :: 0 <= c < |s.callers| ==> s.callers[c].Outside?
  }

  /** When nobody has a move left, all is served if and only if no `resize` sleeps. */
  lemma RestServes(s: Threads)
    requires Kept(s) && AtRest(s)
    ensures Served(s) <==> !s.ruler.Sleeps?
  {
    RestMeans(s);
    if !s.ruler.Sleeps? {
      if InCall(s.p.control) {
        var _ := RulerGoesOn(s);
      }
      RestTakesAll(s);
    }
  }

  lemma RestTakesAll(s: Threads)
    requires Kept(s) && AtRest(s) && !InCall(s.p.control)
    ensures s.p.tasks == [] || s.p.workers == []
  {
    RestMeans(s);
    hide AtRest, TasksSound;
    TallyZero(s.callers, ToNotify);
    TallyZero(s.modes, ToTest);
    hide Tally;
    if s.p.workers != [] {
      assert s.modes[0].Asleep? || Over(s.p.workers[0]);
    }
  }

  /** A `resize` that sleeps does so for ever, unless a task is submitted later or it wakes for
      no reason. */
  lemma {:induction false} ResizeSleepsOn(s: Threads, moves: seq<Move>, s2: Threads)
    requires Plays(s, moves, s2) && s.ruler.Sleeps?
    requires forall c :: 0 <= c < |s.callers| ==> s.callers[c].Outside?
    requires forall i :: 0 <= i < |moves| ==> !moves[i].Submit? && !moves[i].WakeResizer?
    ensures s2.ruler.Sleeps?
    decreases |moves|
  {
    if moves != [] {
      SleepsOn(s, moves[0]);
      hide CanMove, Moved;
      ResizeSleepsOn(Moved(s, moves[0]), moves[1..], s2);
    }
  }

  lemma SleepsOn(s: Threads, move: Move)
    requires CanMove(s, move) && s.ruler.Sleeps? && !move.Submit? && !move.WakeResizer?
    requires forall c :: 0 <= c < |s.callers| ==> s.callers[c].Outside?
    ensures var s2 := Moved(s, move);
            s2.ruler.Sleeps? && forall c :: 0 <= c < |s2.callers| ==> s2.callers[c].Outside?
  {
  }

  lemma {:induction false} OneMore(s: Threads, moves: seq<Move>, s1: Threads, move: Move)
    requires Plays(s, moves, s1) && CanMove(s1, move)
    ensures Plays(s, moves + [move], Moved(s1, move))
    decreases |moves|
  {
    if moves == [] {
      assert moves + [move] == [move];
    } else {
      OneMore(Moved(s, moves[0]), moves[1..], s1, move);
      assert (moves + [move])[1..] == moves[1..] + [move];
    }
  }

  /** One worker, one task in the queue, and `resize` is called before the worker takes it. */
  function Stuck(): Threads {
    Threads(Pool([], [Waiting], false, ResizeWaits(1), 1, [0], [0]), [Outside], [Asleep], Sleeps)
  }

  lemma NoMoves(s: Threads)
    ensures Plays(s, [], s)
  {
  }

  /** The state in which `resize` finds the task. */
  function Called(): Threads {
    Threads(Pool([0], [Waiting], false, ResizeWaits(1), 1, [], []), [Outside], [Testing], Going)
  }

  lemma ResizeCalled() returns (moves: seq<Move>)
    ensures Plays(AtStart(1, 1), moves, Called())
  {
    hide Plays;
    var s := AtStart(1, 1);
    NoMoves(s);
    OneMore(s, [], s, Submit(0));
    var s1 := Threads(Pool([0], [Waiting], false, Idle, 1, [], []), [Notifying], [Testing], Going);
    assert Moved(s, Submit(0)) == s1;
    moves := [] + [Submit(0)];
    OneMore(s, moves, s1, Notify(0, Nobody));
    var s2 := s1.(callers := [Outside]);
    assert Moved(s1, Notify(0, Nobody)) == s2;
    moves := moves + [Notify(0, Nobody)];
    OneMore(s, moves, s2, Call(CallResize(1)));
    moves := moves + [Call(CallResize(1))];
  }

  lemma WorkerSleeps(s: Threads, moves: seq<Move>) returns (more: seq<Move>)
    requires Plays(s, moves, Called().(ruler := Sleeps))
    ensures Plays(s, more, Stuck())
  {
    hide Plays;
    var s4 := Called().(ruler := Sleeps);
    OneMore(s, moves, s4, Test(0));
    var s5 := Threads(Pool([], [Running(0)], false, ResizeWaits(1), 1, [0], []), [Outside], [Away], Sleeps);
    assert Moved(s4, Test(0)) == s5;
    more := moves + [Test(0)];
    OneMore(s, more, s5, EndTask(0));
    var s6 := Stuck().(modes := [Testing]);
    assert Moved(s5, EndTask(0)) == s6;
    more := more + [EndTask(0)];
    OneMore(s, more, s6, Test(0));
    assert Moved(s6, Test(0)) == Stuck();
    more := more + [Test(0)];
  }

  /** The worker runs the task and sleeps; nobody tells `resize` that the queue is empty. */
  lemma ResizeIsStuck() returns (moves: seq<Move>)
    ensures Plays(AtStart(1, 1), moves, Stuck()) && AtRest(Stuck()) && !Served(Stuck())
  {
    hide Plays, AtRest;
    var s := AtStart(1, 1);
    moves := ResizeCalled();
    OneMore(s, moves, Called(), TestResize);
    moves := WorkerSleeps(s, moves + [TestResize]);
    StuckAtRest();
  }

  lemma StuckAtRest()
    ensures AtRest(Stuck())
  {
  }

  /** Then a task is submitted, and its notification wakes `resize`, which sleeps again: the
      task stays in the queue and the worker sleeps. */
  lemma TaskIsLost() returns (moves: seq<Move>, s: Threads)
    ensures Plays(AtStart(1, 1), moves, s) && AtRest(s) && !Served(s)
    ensures s.p.tasks == [1] && s.modes == [Asleep] && s.ruler.Sleeps?
  {
    hide Plays, AtRest;
    var start := AtStart(1, 1);
    moves := ResizeIsStuck();
    OneMore(start, moves, Stuck(), Submit(0));
    var s1 := Stuck().(p := Stuck().p.(tasks := [1], accepted := 2), callers := [Notifying]);
    assert Moved(Stuck(), Submit(0)) == s1;
    moves := moves + [Submit(0)];
    OneMore(start, moves, s1, Notify(0, Resizer));
    var s2 := s1.(callers := [Outside], ruler := Going);
    assert Moved(s1, Notify(0, Resizer)) == s2;
    moves := moves + [Notify(0, Resizer)];
    OneMore(start, moves, s2, TestResize);
    s := s2.(ruler := Sleeps);
    assert Moved(s2, TestResize) == s;
    moves := moves + [TestResize];
    LostAtRest(s);
  }

  lemma LostAtRest(s: Threads)
    requires s.p.tasks == [1] && s.modes == [Asleep] && s.callers == [Outside] && s.ruler.Sleeps?
    requires s.p.control.ResizeWaits? && s.p.workers == [Waiting]
    ensures AtRest(s)
  {
  }

  // ---- stop, resize and the destructor end ----

  function CallerEffort(c: Caller): nat { if c.Notifying? then 2 else 0 }

  function RulerEffort(s: Threads): nat {
    if s.ruler.NotifiesAll? then |s.modes| + 1 else 0
  }

  function Effort(s: Threads): int {
    2 * Measure(s.p) + Tally(s.callers, CallerEffort) + Tally(s.modes, ToTest) + RulerEffort(s)
  }

  /** Moves while the controlling thread waits for the workers, and the one that ends it. */
  ghost predicate Joins(s: Threads, moves: seq<Move>, s2: Threads)
    decreases |moves|
  {
    if moves == [] then s2 == s
    else Joining(s.p.control) && CanMove(s, moves[0]) && Joins(Moved(s, moves[0]), moves[1..], s2)
  }

  /** The moves that bring the end no nearer: waking for no reason, and submitting to a stopped
      pool, which is refused. */
  function Idles(moves: seq<Move>): nat {
    if moves == [] then 0
    else (if Spurious(moves[0]) then 2 else if moves[0].Submit? then 1 else 0) + Idles(moves[1..])
  }

  /** What a move does to the pool meanwhile. */
  lemma EffectProgresses(s: Threads, move: Move)
    requires Kept(s) && CanMove(s, move) && Joining(s.p.control)
    ensures var p2 := Moved(s, move).p;
            && Measure(p2) >= 0
            && (if Effect(s, move) == [] || move.Submit? then p2 == s.p else Measure(p2) < Measure(s.p))
  {
    EffectCanDo(s, move);
    MeasureNatural(s.p);
    EffectJoins(s, move);
    hide CanMove, Effect, Moved, Measure, Do, CanDo;
    var steps := Effect(s, move);
    if steps != [] && !move.Submit? {
      if Ends(steps[0]) {
        JoiningProgresses(s.p, steps[0]);
      } else {
        ReturnProgresses(s.p, steps[0]);
      }
    }
  }

  predicate Returns(step: Step) {
    step.StopReturns? || step.ResizeClears? || step.DestructorReturns?
  }

  lemma EffectJoins(s: Threads, move: Move)
    requires Kept(s) && CanMove(s, move) && Joining(s.p.control)
    ensures s.p.stop && Do(s.p, Enqueue) == s.p && Sound(s.p)
    ensures Effect(s, move) != [] && !move.Submit? ==> Ends(Effect(s, move)[0]) || Returns(Effect(s, move)[0])
  {
    hide TasksSound, TasksSeen, ModesMatch;
  }

  lemma ReturnProgresses(p: Pool, step: Step)
    requires Sound(p) && CanDo(p, step) && Returns(step)
    ensures 0 <= Measure(Do(p, step)) < Measure(p)
  {
    TallyZero([], Weight);
  }

  lemma WakingAll(ms: seq<Mode>)
    ensures Tally(WakeAll(ms), ToTest) <= Tally(ms, ToTest) + |ms|
  {
    TallyAll(WakeAll(ms), ToTest);
  }

  lemma Waking(ms: seq<Mode>, w: nat)
    ensures Tally(WakeMode(ms, w), ToTest) <= Tally(ms, ToTest) + 1
  {
    if w < |ms| && ms[w].Asleep? {
      TallyChange(ms, w, Testing, ToTest);
    }
  }

  lemma EffortOfTask(s: Threads, w: nat, move: Move)
    requires Kept(s) && CanMove(s, move) && Joining(s.p.control) && (move == Test(w) || move == EndTask(w))
    ensures Effort(Moved(s, move)) < Effort(s)
  {
    EffectProgresses(s, move);
    EffectJoins(s, move);
    hide Kept, Measure, Tally, Advance;
    TallyChange(s.modes, w, if move.Test? then Away else Testing, ToTest);
  }

  lemma EffortOfCaller(s: Threads, move: Move)
    requires Kept(s) && CanMove(s, move) && Joining(s.p.control) && (move.Submit? || move.Notify?)
    ensures Effort(Moved(s, move)) <= Effort(s) - if move.Submit? then 0 else 1
  {
    EffectProgresses(s, move);
    EffectJoins(s, move);
    hide Kept, Measure, Tally, Advance, WakeMode;
    if move.Notify? {
      TallyChange(s.callers, move.c, Outside, CallerEffort);
      if move.target.Worker? {
        Waking(s.modes, move.target.w);
      }
    }
  }

  lemma EffortOfRuler(s: Threads, move: Move)
    requires Kept(s) && CanMove(s, move) && Joining(s.p.control) && !move.Submit? && !move.Notify?
    requires !move.Test? && !move.EndTask?
    ensures Effort(Moved(s, move)) <= Effort(s) + if Spurious(move) then 1 else -1
  {
    EffectProgresses(s, move);
    EffectJoins(s, move);
    RulerJoins(s, move);
    hide Kept, Measure, Tally, Advance, WakeMode, WakeAll;
    match move
    case NotifyAll => WakingAll(s.modes);
    case WakeWorker(w) => Waking(s.modes, w);
    case Control(step) => TallyZero([], ToTest);
    case _ =>
  }

  lemma RulerJoins(s: Threads, move: Move)
    requires Kept(s) && CanMove(s, move) && Joining(s.p.control)
    ensures !move.TestResize? && !move.Call? && !s.ruler.Sleeps? && (move.Control? ==> !move.step.Spawn?)
  {
    hide Sound, TasksSeen, ModesMatch;
  }

  lemma MoveProgresses(s: Threads, move: Move)
    requires Kept(s) && CanMove(s, move) && Joining(s.p.control)
    ensures Effort(Moved(s, move)) <= Effort(s) + if Spurious(move) then 1 else if move.Submit? then 0 else -1
  {
    hide Kept, CanMove, Moved, Effort;
    match move
    case Submit(_) => EffortOfCaller(s, move);
    case Notify(_, _) => EffortOfCaller(s, move);
    case Test(w) => EffortOfTask(s, w, move);
    case EndTask(w) => EffortOfTask(s, w, move);
    case _ => EffortOfRuler(s, move);
  }

  lemma {:induction false} JoinsEnd(s: Threads, moves: seq<Move>, s2: Threads)
    requires Kept(s) && Joins(s, moves, s2)
    ensures Kept(s2) && |moves| + Effort(s2) <= Effort(s) + Idles(moves)
    decreases |moves|
  {
    if moves != [] {
      MoveKeeps(s, moves[0]);
      MoveProgresses(s, moves[0]);
      hide Kept, CanMove, Moved, Effort, Joining;
      JoinsEnd(Moved(s, moves[0]), moves[1..], s2);
    }
  }

  lemma EffortNatural(s: Threads)
    requires Kept(s)
    ensures Effort(s) >= 0
  {
    MeasureNatural(s.p);
  }

  /** A move that is neither the start of something nor waking for no reason. */
  lemma JoinGoesOn(s: Threads) returns (move: Move)
    requires Kept(s) && Joining(s.p.control)
    ensures CanMove(s, move) && !Begins(move) && !Spurious(move)
  {
    if s.ruler.NotifiesAll? {
      return NotifyAll;
    }
    if w: nat :| w < |s.modes| && s.modes[w].Testing? {
      return Test(w);
    }
    if w: nat :| w < |s.modes| && w < |s.p.workers| && s.modes[w].Away? && s.p.workers[w].Running? {
      return EndTask(w);
    }
    AllOverOrAsleep(s);
    move := RulerGoesOn(s);
  }

  lemma AllOverOrAsleep(s: Threads)
    requires Kept(s) && Joining(s.p.control)
    requires forall w :: 0 <= w < |s.modes| ==> !s.modes[w].Testing?
    requires forall w :: 0 <= w < |s.modes| && w < |s.p.workers| && s.modes[w].Away? ==> !s.p.workers[w].Running?
    ensures !s.ruler.Sleeps? && forall w :: 0 <= w < |s.modes| ==> s.modes[w].Asleep? || Over(s.p.workers[w])
  {
    hide Sound, TasksSeen;
  }

  /** `stop`, and `resize` once it has stopped the workers: whichever thread is scheduled and
      whichever sleeper is notified, the call takes a bounded number of moves, and some thread
      of the pool has a move until it has returned. */
  lemma StopEnds(s: Threads, moves: seq<Move>, s2: Threads) returns (next: Move)
    requires Kept(s) && Joining(s.p.control) && Joins(s, moves, s2)
    ensures |moves| <= Effort(s) + Idles(moves)
    ensures Joining(s2.p.control) ==> CanMove(s2, next) && !Begins(next) && !Spurious(next)
  {
    JoinsEnd(s, moves, s2);
    EffortNatural(s2);
    hide Kept, CanMove, Joins, Effort, Joining;
    next := NotifyAll;
    if Joining(s2.p.control) {
      next := JoinGoesOn(s2);
    }
  }

  lemma UndoneMove(was: Pool, s: Threads, move: Move)
    requires Kept(s) && CanMove(s, move) && Undone(was, s.p) && s.p.control.Destroying?
    ensures Undone(was, Moved(s, move).p)
    ensures var c := Moved(s, move).p.control; c.Destroying? || c.Destroyed? || c.Crashed?
  {
    EffectCanDo(s, move);
    EffectJoins(s, move);
    DestroyingEffect(s, move);
    hide CanMove, Effect, Moved, Do, CanDo, Sound;
    var steps := Effect(s, move);
    if steps != [] && !move.Submit? {
      StepUndone(was, s.p, steps[0]);
    }
  }

  lemma DestroyingEffect(s: Threads, move: Move)
    requires Kept(s) && CanMove(s, move) && s.p.control.Destroying?
    ensures Joining(s.p.control) && (move.Submit? ==> Effect(s, move) == [Enqueue])
    ensures Effect(s, move) != [] && !move.Submit? ==>
              Ends(Effect(s, move)[0]) || Effect(s, move)[0].DestructorReturns?
  {
    hide Sound, TasksSeen, ModesMatch;
  }

  lemma {:induction false} JoinsUndo(was: Pool, s: Threads, moves: seq<Move>, s2: Threads)
    requires Kept(s) && Undone(was, s.p) && Joins(s, moves, s2)
    ensures Undone(was, s2.p)
    decreases |moves|
  {
    if moves != [] {
      UndoneJoins(was, s);
      MoveKeeps(s, moves[0]);
      UndoneMove(was, s, moves[0]);
      hide Kept, CanMove, Moved, Undone;
      JoinsUndo(was, Moved(s, moves[0]), moves[1..], s2);
    }
  }

  lemma UndoneJoins(was: Pool, s: Threads)
    requires Undone(was, s.p)
    ensures Joining(s.p.control) ==> s.p.control.Destroying?
  {
  }

  /** The destructor, likewise; and it returns if and only if no worker had been joined when it
      was called, and fails otherwise. */
  lemma DestructorEnds(s: Threads, moves: seq<Move>, s2: Threads) returns (next: Move)
    requires Kept(s) && CanMove(s, Call(CallDestructor)) && Joins(Moved(s, Call(CallDestructor)), moves, s2)
    ensures |moves| <= Effort(Moved(s, Call(CallDestructor))) + Idles(moves)
    ensures s2.p.control.Destroying? ==> CanMove(s2, next) && !Begins(next) && !Spurious(next)
    ensures !s2.p.control.Destroying? ==> s2.p.control == if NoneJoined(s.p.workers) then Destroyed else Crashed
  {
    var d := Moved(s, Call(CallDestructor));
    MoveKeeps(s, Call(CallDestructor));
    DestructorCalled(s);
    JoinsUndo(s.p, d, moves, s2);
    UndoneJoins(s.p, s2);
    hide Kept, CanMove, Joins, Effort, Moved;
    next := StopEnds(d, moves, s2);
  }

  lemma DestructorCalled(s: Threads)
    requires Kept(s) && CanMove(s, Call(CallDestructor))
    ensures var d := Moved(s, Call(CallDestructor)); Undone(s.p, d.p) && Joining(d.p.control)
  {
    EffectCanDo(s, Call(CallDestructor));
    hide TasksSeen, ModesMatch;
    CallUndone(s.p);
  }
}
