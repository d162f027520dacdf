/** The condition variables of spdlog's pool. A thread that finds its condition false goes to
    sleep, and goes on only when another thread notifies it, or for no reason at all. What
    `PoolSteps` reads as the guard of a step is proved here of the notifications: no thread
    sleeps through a change it waits for, and the shutdown ends. */
module PoolWaits {
  import opened QueueSteps
  import opened PoolSteps
  import opened Tallies

  /** A thread that posts: about to lock the queue and test it, asleep on `pop_cv`, about to
      notify `push_cv`, or about to count the message it could not post. The first of these
      threads runs the destructor. */
  datatype Caller = Outside | Posting(msg: Msg, policy: Policy) | Blocked(msg: Msg) | Notifying | Counting

  /** A worker: about to lock the queue and test it, asleep on `push_cv`, about to notify
      `pop_cv`, or away with its message. */
  datatype Mode = Testing | Asleep | Notifies | Away

  datatype Threads = Threads(p: Pool, callers: seq<Caller>, modes: seq<Mode>)

  datatype Move =
    | Call(c: nat, msg: Msg, policy: Policy)
    | CallClose
    | CallTerminate
    | Lock(c: nat)
    | Notify(c: nat, w: nat)
    | CountUp(c: nat)
    | Test(w: nat)
    | NotifyRoom(w: nat, c: nat)
    | EndTurn(w: nat)
    | WakeCaller(c: nat)
    | WakeWorker(w: nat)

  /** Waking for no reason. */
  predicate Spurious(move: Move) {
    move.WakeCaller? || move.WakeWorker?
  }

  /** What a thread outside the pool may begin. */
  predicate Begins(move: Move) {
    move.Call? || move.CallClose?
  }

  /** `notify_one` wakes any one of the threads asleep, if there is one. */
  predicate MayWake<M>(modes: seq<M>, asleep: M -> bool, w: nat) {
    (w < |modes| && asleep(modes[w])) || (forall v :: 0 <= v < |modes| ==> !asleep(modes[v]))
  }

  predicate IsAsleep(m: Mode) { m.Asleep? }

  predicate IsBlocked(c: Caller) { c.Blocked? }

  predicate CanMove(s: Threads, move: Move) {
    match move
    case Call(c, m, _) => c < |s.callers| && s.callers[c].Outside? && !s.p.closing && !m.Terminate?
    case CallClose => !s.p.closing && forall c :: 0 <= c < |s.callers| ==> s.callers[c].Outside?
    case CallTerminate =>
      |s.callers| > 0 && s.callers[0].Outside? && s.p.closing && s.p.posted < |s.p.workers|
    case Lock(c) => c < |s.callers| && s.callers[c].Posting?
    case Notify(c, w) => c < |s.callers| && s.callers[c].Notifying? && MayWake(s.modes, IsAsleep, w)
    case CountUp(c) => c < |s.callers| && s.callers[c].Counting?
    case Test(w) => w < |s.modes| && s.modes[w].Testing?
    case NotifyRoom(w, c) => w < |s.modes| && s.modes[w].Notifies? && MayWake(s.callers, IsBlocked, c)
    case EndTurn(w) => w < |s.modes| && w < |s.p.workers| && s.modes[w].Away? && s.p.workers[w].Handling?
    case WakeCaller(c) => c < |s.callers| && s.callers[c].Blocked?
    case WakeWorker(w) => w < |s.modes| && s.modes[w].Asleep?
  }

  /** The step of the pool in a move: a thread that only tests, sleeps, wakes or notifies has
      none. */
  function Effect(s: Threads, move: Move): seq<PoolStep> {
    match move
    case CallClose => [Close]
    case Lock(c) =>
      if c < |s.callers| && s.callers[c].Posting? then
        var m, policy := s.callers[c].msg, s.callers[c].policy;
        if policy == Block && s.p.q.Full() then []
        else [if m.Terminate? then PostTerminate else Post(m, policy)]
      else []
    case CountUp(_) => [CountDiscarded]
    case Test(w) => if s.p.q.items == [] then [] else [Take(w)]
    case EndTurn(w) => [Finish(w)]
    case _ => []
  }

  function WakeMode(modes: seq<Mode>, w: nat): seq<Mode> {
    if w < |modes| && modes[w].Asleep? then modes[w := Testing] else modes
  }

  function Awake(callers: seq<Caller>, c: nat): seq<Caller> {
    if c < |callers| && callers[c].Blocked? then callers[c := Posting(callers[c].msg, Block)] else callers
  }

  /** After the locked part of a call. */
  function Locked(q: Queue<Msg>, c: Caller): Caller
    requires c.Posting?
  {
    if !q.Full() || c.policy == OverrunOldest then Notifying
    else if c.policy == Block then Blocked(c.msg)
    else Counting
  }

  function Advance(p: Pool, steps: seq<PoolStep>): Pool {
    if |steps| == 1 && CanDo(p, steps[0]) then Do(p, steps[0]) else p
  }

  function CallersAfter(s: Threads, move: Move): seq<Caller>
    requires CanMove(s, move)
  {
    match move
    case Call(c, m, policy) => s.callers[c := Posting(m, policy)]
    case CallTerminate => s.callers[0 := Posting(Terminate, Block)]
    case Lock(c) => s.callers[c := Locked(s.p.q, s.callers[c])]
    case Notify(c, _) => s.callers[c := Outside]
    case CountUp(c) => s.callers[c := Outside]
    case NotifyRoom(_, c) => Awake(s.callers, c)
    case WakeCaller(c) => Awake(s.callers, c)
    case _ => s.callers
  }

  function ModesAfter(s: Threads, move: Move): seq<Mode>
    requires CanMove(s, move)
  {
    match move
    case Notify(_, w) => WakeMode(s.modes, w)
    case Test(w) => s.modes[w := if s.p.q.items == [] then Asleep else Notifies]
    case NotifyRoom(w, _) => s.modes[w := Away]
    case EndTurn(w) => s.modes[w := Testing]
    case WakeWorker(w) => WakeMode(s.modes, w)
    case _ => s.modes
  }

  function Moved(s: Threads, move: Move): Threads
    requires CanMove(s, move)
  {
    Threads(Advance(s.p, Effect(s, move)), CallersAfter(s, move), ModesAfter(s, move))
  }

  // ---- the invariant ----

  /** Who is where, and who is asleep only in the pool of `PoolSteps`. */
  predicate ModesMatch(s: Threads) {
    && |s.modes| == |s.p.workers|
    && forall w :: 0 <= w < |s.modes| ==> (s.p.workers[w].Waiting? <==> s.modes[w].Testing? || s.modes[w].Asleep?)
  }

  /** Terminate messages are the destructor's, and once it runs nobody else posts. */
  predicate CallFits(p: Pool, c: nat, x: Caller) {
    match x
    case Outside => true
    case Posting(m, policy) =>
      (m.Terminate? <==> p.closing) && (p.closing ==> c == 0 && policy == Block && p.posted < |p.workers|)
    case Blocked(m) =>
      !p.q.disabled && (m.Terminate? <==> p.closing) && (p.closing ==> c == 0 && p.posted < |p.workers|)
    case Notifying => p.closing ==> c == 0
    case Counting => !p.closing
  }

  predicate CallsMatch(s: Threads) {
    forall c :: 0 <= c < |s.callers| ==> CallFits(s.p, c, s.callers[c])
  }

  function ToNotify(c: Caller): nat { if c.Notifying? then 1 else 0 }

  function ToPost(c: Caller): nat { if c.Posting? && c.policy == Block then 1 else 0 }

  function ToTest(m: Mode): nat { if m.Testing? then 1 else 0 }

  function ToNotifyRoom(m: Mode): nat { if m.Notifies? then 1 else 0 }

  /** If any worker sleeps, there are no more messages than threads that will notify a worker
      or test the queue. */
  ghost predicate MessagesSeen(s: Threads) {
    forall w :: 0 <= w < |s.modes| && s.modes[w].Asleep? ==>
      |s.p.q.items| <= Tally(s.callers, ToNotify) + Tally(s.modes, ToTest)
  }

  /** If any caller sleeps, there is no more room than threads that will notify a caller or
      try to post. */
  ghost predicate RoomSeen(s: Threads) {
    forall c :: 0 <= c < |s.callers| && s.callers[c].Blocked? ==>
      s.p.q.capacity - |s.p.q.items| <= Tally(s.modes, ToNotifyRoom) + Tally(s.callers, ToPost)
  }

  ghost predicate Kept(s: Threads) {
    Sound(s.p) && ModesMatch(s) && CallsMatch(s) && MessagesSeen(s) && RoomSeen(s)
  }

  lemma CallersChange(cs: seq<Caller>, c: nat, x: Caller)
    requires c < |cs|
    ensures Tally(cs[c := x], ToNotify) == Tally(cs, ToNotify) - ToNotify(cs[c]) + ToNotify(x)
    ensures Tally(cs[c := x], ToPost) == Tally(cs, ToPost) - ToPost(cs[c]) + ToPost(x)
  {
    TallyChange(cs, c, x, ToNotify);
    TallyChange(cs, c, x, ToPost);
  }

  lemma ModesChange(ms: seq<Mode>, w: nat, x: Mode)
    requires w < |ms|
    ensures Tally(ms[w := x], ToTest) == Tally(ms, ToTest) - ToTest(ms[w]) + ToTest(x)
    ensures Tally(ms[w := x], ToNotifyRoom) == Tally(ms, ToNotifyRoom) - ToNotifyRoom(ms[w]) + ToNotifyRoom(x)
  {
    TallyChange(ms, w, x, ToTest);
    TallyChange(ms, w, x, ToNotifyRoom);
  }

  /** The steps of the pool that moves take are its steps, and keep its soundness. */
  lemma EffectIsStep(s: Threads, move: Move)
    requires Kept(s) && CanMove(s, move)
    ensures |Effect(s, move)| <= 1 && Life(s.p, Effect(s, move), Moved(s, move).p)
    ensures Sound(Moved(s, move).p)
  {
    hide Sound;
    EffectCanDo(s, move);
    hide Kept, CanDo, Do, CanMove, Effect;
    var steps := Effect(s, move);
    if steps != [] {
      assert steps == [steps[0]];
      StepSound(s.p, steps[0]);
    }
  }

  lemma EffectCanDo(s: Threads, move: Move)
    requires Kept(s) && CanMove(s, move)
    ensures |Effect(s, move)| <= 1 && Moved(s, move).p == Advance(s.p, Effect(s, move))
    ensures Effect(s, move) != [] ==> CanDo(s.p, Effect(s, move)[0])
  {
    hide Sound, MessagesSeen, RoomSeen;
  }

  /** What a call does to the queue in its locked part. */
  lemma LockEffect(s: Threads, c: nat)
    requires Kept(s) && CanMove(s, Lock(c))
    ensures var p2, x := Moved(s, Lock(c)).p, Locked(s.p.q, s.callers[c]);
            && p2.q.capacity == s.p.q.capacity && p2.q.disabled == s.p.q.disabled
            && p2.workers == s.p.workers && p2.closing == s.p.closing
            && |s.p.q.items| <= |p2.q.items| <= |s.p.q.items| + ToNotify(x)
            && (!s.p.q.disabled && |s.p.q.items| < s.p.q.capacity && ToNotify(x) == 1 ==>
                  |p2.q.items| == |s.p.q.items| + 1)
            && p2.posted == s.p.posted + if s.callers[c].msg.Terminate? && ToNotify(x) == 1 then 1 else 0
  {
    EffectCanDo(s, Lock(c));
    hide MessagesSeen, RoomSeen;
  }

  lemma TestEffect(s: Threads, w: nat)
    requires Kept(s) && CanMove(s, Test(w))
    ensures var p2 := Moved(s, Test(w)).p;
            && p2.q.capacity == s.p.q.capacity && p2.q.disabled == s.p.q.disabled
            && p2.closing == s.p.closing && p2.posted == s.p.posted && |p2.workers| == |s.p.workers|
            && (forall v :: 0 <= v < |p2.workers| && v != w ==> p2.workers[v] == s.p.workers[v])
            && (if s.p.q.items == [] then p2 == s.p
                else |p2.q.items| == |s.p.q.items| - 1 && !p2.workers[w].Waiting?)
  {
    EffectCanDo(s, Test(w));
    hide MessagesSeen, RoomSeen;
  }

  /** The other moves leave the queue as it is. */
  lemma OtherEffect(s: Threads, move: Move)
    requires Kept(s) && CanMove(s, move) && !move.Lock? && !move.Test?
    ensures var p2 := Moved(s, move).p;
            && p2.q.capacity == s.p.q.capacity && p2.q.disabled == s.p.q.disabled && p2.q.items == s.p.q.items
            && p2.posted == s.p.posted && p2.closing == (s.p.closing || move.CallClose?)
            && p2.workers == if move.EndTurn? then s.p.workers[move.w := Waiting] else s.p.workers
  {
    EffectCanDo(s, move);
    hide Sound, MessagesSeen, RoomSeen;
  }

  lemma CallsAfterLock(s: Threads, c: nat)
    requires Kept(s) && CanMove(s, Lock(c))
    ensures ModesMatch(Moved(s, Lock(c))) && CallsMatch(Moved(s, Lock(c)))
  {
    LockEffect(s, c);
    hide Sound, MessagesSeen, RoomSeen, Effect, Advance;
  }

  lemma CallsAfterTest(s: Threads, w: nat)
    requires Kept(s) && CanMove(s, Test(w))
    ensures ModesMatch(Moved(s, Test(w))) && CallsMatch(Moved(s, Test(w)))
  {
    TestEffect(s, w);
    hide Sound, MessagesSeen, RoomSeen, Effect, Advance;
  }

  lemma CallsAfterOther(s: Threads, move: Move)
    requires Kept(s) && CanMove(s, move) && !move.Lock? && !move.Test?
    ensures CallsMatch(Moved(s, move))
  {
    OtherEffect(s, move);
    hide Sound, MessagesSeen, RoomSeen, Effect, Advance, ModesMatch;
  }

  lemma ModesAfterOther(s: Threads, move: Move)
    requires Kept(s) && CanMove(s, move) && !move.Lock? && !move.Test?
    ensures ModesMatch(Moved(s, move))
  {
    OtherEffect(s, move);
    hide Sound, MessagesSeen, RoomSeen, Effect, Advance, CallsMatch;
  }

  /** How many threads will see to the messages, less the messages. */
  function MessageSlack(s: Threads): int {
    Tally(s.callers, ToNotify) + Tally(s.modes, ToTest) - |s.p.q.items|
  }

  function RoomSlack(s: Threads): int {
    Tally(s.modes, ToNotifyRoom) + Tally(s.callers, ToPost) - (s.p.q.capacity - |s.p.q.items|)
  }

  lemma MessagesStillSeen(s: Threads, s2: Threads)
    requires MessagesSeen(s) && |s2.modes| == |s.modes| && MessageSlack(s2) >= MessageSlack(s)
    requires forall w :: 0 <= w < |s.modes| && s2.modes[w].Asleep? ==> s.modes[w].Asleep?
    ensures MessagesSeen(s2)
  {
    hide Tally;
  }

  lemma RoomStillSeen(s: Threads, s2: Threads)
    requires RoomSeen(s) && |s2.callers| == |s.callers| && RoomSlack(s2) >= RoomSlack(s)
    requires forall c :: 0 <= c < |s.callers| && s2.callers[c].Blocked? ==> s.callers[c].Blocked?
    ensures RoomSeen(s2)
  {
    hide Tally;
  }

  lemma SeenAfterLock(s: Threads, c: nat)
    requires Kept(s) && CanMove(s, Lock(c))
    ensures MessagesSeen(Moved(s, Lock(c))) && RoomSeen(Moved(s, Lock(c)))
  {
    LockEffect(s, c);
    hide Sound, Effect, Advance, Tally, MessagesSeen, RoomSeen, ModesMatch;
    var s2, x := Moved(s, Lock(c)), Locked(s.p.q, s.callers[c]);
    CallersChange(s.callers, c, x);
    MessagesStillSeen(s, s2);
    RoomAfterLock(s, c);
  }

  lemma RoomAfterLock(s: Threads, c: nat)
    requires Kept(s) && CanMove(s, Lock(c))
    ensures RoomSeen(Moved(s, Lock(c)))
  {
    LockEffect(s, c);
    hide Sound, Effect, Advance, Tally, MessagesSeen, ModesMatch;
    CallersChange(s.callers, c, Locked(s.p.q, s.callers[c]));
  }

  lemma SeenAfterTest(s: Threads, w: nat)
    requires Kept(s) && CanMove(s, Test(w))
    ensures MessagesSeen(Moved(s, Test(w))) && RoomSeen(Moved(s, Test(w)))
  {
    TestEffect(s, w);
    hide Sound, Effect, Advance, Tally, MessagesSeen, RoomSeen, ModesMatch, CallsMatch;
    var s2 := Moved(s, Test(w));
    ModesChange(s.modes, w, s2.modes[w]);
    RoomStillSeen(s, s2);
    if s.p.q.items == [] {
      NothingToSee(s2);
    } else {
      MessagesStillSeen(s, s2);
    }
  }

  lemma NothingToSee(s: Threads)
    requires s.p.q.items == []
    ensures MessagesSeen(s)
  {
  }

  lemma NobodyAsleep(s: Threads)
    ensures (forall w :: 0 <= w < |s.modes| ==> !s.modes[w].Asleep?) ==> MessagesSeen(s)
    ensures (forall c :: 0 <= c < |s.callers| ==> !s.callers[c].Blocked?) ==> RoomSeen(s)
  {
  }

  lemma SeenAfterNotify(s: Threads, c: nat, w: nat)
    requires Kept(s) && CanMove(s, Notify(c, w))
    ensures MessagesSeen(Moved(s, Notify(c, w))) && RoomSeen(Moved(s, Notify(c, w)))
  {
    OtherEffect(s, Notify(c, w));
    hide Sound, Effect, Advance, Tally, MessagesSeen, RoomSeen, ModesMatch, CallsMatch;
    var s2 := Moved(s, Notify(c, w));
    CallersChange(s.callers, c, Outside);
    WakingMode(s.modes, w);
    RoomStillSeen(s, s2);
    if w < |s.modes| && s.modes[w].Asleep? {
      MessagesStillSeen(s, s2);
    } else {
      NobodyAsleep(s2);
    }
  }

  lemma SeenAfterRoom(s: Threads, w: nat, c: nat)
    requires Kept(s) && CanMove(s, NotifyRoom(w, c))
    ensures MessagesSeen(Moved(s, NotifyRoom(w, c))) && RoomSeen(Moved(s, NotifyRoom(w, c)))
  {
    OtherEffect(s, NotifyRoom(w, c));
    hide Sound, Effect, Advance, Tally, MessagesSeen, RoomSeen, ModesMatch, CallsMatch;
    var s2 := Moved(s, NotifyRoom(w, c));
    ModesChange(s.modes, w, Away);
    WakingCaller(s.callers, c);
    MessagesStillSeen(s, s2);
    if c < |s.callers| && s.callers[c].Blocked? {
      RoomStillSeen(s, s2);
    } else {
      NobodyAsleep(s2);
    }
  }

  lemma WakingMode(ms: seq<Mode>, w: nat)
    ensures Tally(WakeMode(ms, w), ToNotifyRoom) == Tally(ms, ToNotifyRoom)
    ensures Tally(WakeMode(ms, w), ToTest) == Tally(ms, ToTest) + if w < |ms| && ms[w].Asleep? then 1 else 0
  {
    if w < |ms| && ms[w].Asleep? {
      ModesChange(ms, w, Testing);
    }
  }

  lemma WakingCaller(cs: seq<Caller>, c: nat)
    ensures Tally(Awake(cs, c), ToNotify) == Tally(cs, ToNotify)
    ensures Tally(Awake(cs, c), ToPost) == Tally(cs, ToPost) + if c < |cs| && cs[c].Blocked? then 1 else 0
  {
    if c < |cs| && cs[c].Blocked? {
      CallersChange(cs, c, Posting(cs[c].msg, Block));
    }
  }

  lemma OtherCallers(s: Threads, move: Move)
    requires CanMove(s, move) && !move.Lock? && !move.Notify?
    ensures var cs := CallersAfter(s, move);
            && |cs| == |s.callers| && Tally(cs, ToNotify) == Tally(s.callers, ToNotify)
            && Tally(cs, ToPost) >= Tally(s.callers, ToPost)
            && forall c :: 0 <= c < |cs| && cs[c].Blocked? ==> s.callers[c].Blocked?
  {
    hide Tally;
    match move
    case Call(c, m, policy) => CallersChange(s.callers, c, Posting(m, policy));
    case CallTerminate => CallersChange(s.callers, 0, Posting(Terminate, Block));
    case CountUp(c) => CallersChange(s.callers, c, Outside);
    case NotifyRoom(w, c) => WakingCaller(s.callers, c);
    case WakeCaller(c) => WakingCaller(s.callers, c);
    case _ =>
  }

  lemma OtherModes(s: Threads, move: Move)
    requires CanMove(s, move) && !move.Test? && !move.NotifyRoom?
    ensures var ms := ModesAfter(s, move);
            && |ms| == |s.modes| && Tally(ms, ToNotifyRoom) == Tally(s.modes, ToNotifyRoom)
            && Tally(ms, ToTest) >= Tally(s.modes, ToTest)
            && forall w :: 0 <= w < |ms| && ms[w].Asleep? ==> s.modes[w].Asleep?
  {
    hide Tally;
    match move
    case Notify(c, w) => WakingMode(s.modes, w);
    case EndTurn(w) => ModesChange(s.modes, w, Testing);
    case WakeWorker(w) => WakingMode(s.modes, w);
    case _ =>
  }

  lemma SeenAfterOther(s: Threads, move: Move)
    requires Kept(s) && CanMove(s, move)
    requires !move.Lock? && !move.Test? && !move.Notify? && !move.NotifyRoom?
    ensures MessagesSeen(Moved(s, move)) && RoomSeen(Moved(s, move))
  {
    OtherEffect(s, move);
    OtherCallers(s, move);
    OtherModes(s, move);
    hide Sound, Effect, Advance, Tally, MessagesSeen, RoomSeen, ModesMatch, CallsMatch, CallersAfter, ModesAfter,
      CanMove;
    MessagesStillSeen(s, Moved(s, move));
    RoomStillSeen(s, Moved(s, move));
  }

  /** No move of any thread makes a sleeper miss what it waits for. */
  lemma MoveKeeps(s: Threads, move: Move)
    requires Kept(s) && CanMove(s, move)
    ensures Kept(Moved(s, move))
  {
    EffectIsStep(s, move);
    hide Sound, ModesMatch, CallsMatch, MessagesSeen, RoomSeen, Moved, CanMove;
    match move
    case Lock(c) =>
      CallsAfterLock(s, c);
      SeenAfterLock(s, c);
    case Test(w) =>
      CallsAfterTest(s, w);
      SeenAfterTest(s, w);
    case _ =>
      ModesAfterOther(s, move);
      CallsAfterOther(s, move);
      match move
      case Notify(c, w) => SeenAfterNotify(s, c, w);
      case NotifyRoom(w, c) => SeenAfterRoom(s, w, c);
      case _ => SeenAfterOther(s, move);
  }

  // ---- runs ----

  /** Moves of any threads, in any order. */
  ghost predicate Plays(s: Threads, moves: seq<Move>, s2: Threads)
    decreases |moves|
  {
    if moves == [] then s2 == s else CanMove(s, moves[0]) && Plays(Moved(s, moves[0]), moves[1..], s2)
  }

  /** A new pool, in which every worker is about to test the queue, and any number of threads
      that may call it. */
  function AtStart(capacity: nat, disabled: bool, workers: nat, callers: nat): Threads {
    Threads(Fresh(capacity, disabled, workers), seq(callers, _ => Outside), seq(workers, _ => Testing))
  }

  lemma StartKept(capacity: nat, disabled: bool, workers: nat, callers: nat)
    ensures Kept(AtStart(capacity, disabled, workers, callers))
  {
    FreshSound(capacity, disabled, workers);
    hide Sound;
    NobodyAsleep(AtStart(capacity, disabled, workers, callers));
  }

  lemma {:induction false} PlayKeeps(s: Threads, moves: seq<Move>, s2: Threads)
    requires Kept(s) && Plays(s, moves, s2)
    ensures Kept(s2)
    decreases |moves|
  {
    hide Kept, CanMove, Moved;
    if moves != [] {
      MoveKeeps(s, moves[0]);
      PlayKeeps(Moved(s, moves[0]), moves[1..], s2);
    }
  }

  lemma {:induction false} LivesJoin(p: Pool, first: seq<PoolStep>, p1: Pool, rest: seq<PoolStep>, p2: Pool)
    requires Life(p, first, p1) && Life(p1, rest, p2)
    ensures Life(p, first + rest, p2)
    decreases |first|
  {
    if first == [] {
      assert first + rest == rest;
    } else {
      LivesJoin(Do(p, first[0]), first[1..], p1, rest, p2);
      assert (first + rest)[1..] == first[1..] + rest;
    }
  }

  /** Sleeping and waking add nothing to what may happen: the moves of the threads take the
      pool through one of the lives of `PoolSteps`. */
  lemma {:induction false} PlayIsLife(s: Threads, moves: seq<Move>, s2: Threads) returns (steps: seq<PoolStep>)
    requires Kept(s) && Plays(s, moves, s2)
    ensures Life(s.p, steps, s2.p)
    decreases |moves|
  {
    if moves == [] {
      return [];
    }
    EffectIsStep(s, moves[0]);
    MoveKeeps(s, moves[0]);
    hide Kept, CanMove, Moved, Effect, Life;
    var rest := PlayIsLife(Moved(s, moves[0]), moves[1..], s2);
    LivesJoin(s.p, Effect(s, moves[0]), Moved(s, moves[0]).p, rest, s2.p);
    return Effect(s, moves[0]) + rest;
  }

  /** In every life of a pool: no worker sleeps while there are messages, and no caller while
      there is room, unless a thread is about to notify one or to test the queue itself. */
  lemma NoLostWakeup(capacity: nat, disabled: bool, workers: nat, callers: nat, moves: seq<Move>, s: Threads)
    requires Plays(AtStart(capacity, disabled, workers, callers), moves, s)
    ensures (exists w :: 0 <= w < |s.modes| && s.modes[w].Asleep?) && s.p.q.items != [] ==>
              || (exists c :: 0 <= c < |s.callers| && s.callers[c].Notifying?)
              || (exists w :: 0 <= w < |s.modes| && s.modes[w].Testing?)
    ensures (exists c :: 0 <= c < |s.callers| && s.callers[c].Blocked?) && !s.p.q.Full() ==>
              || (exists w :: 0 <= w < |s.modes| && s.modes[w].Notifies?)
              || (exists c :: 0 <= c < |s.callers| && s.callers[c].Posting? && s.callers[c].policy == Block)
  {
    StartKept(capacity, disabled, workers, callers);
    PlayKeeps(AtStart(capacity, disabled, workers, callers), moves, s);
    SomeoneSees(s);
  }

  lemma SomeoneSees(s: Threads)
    requires Kept(s)
    ensures (exists w :: 0 <= w < |s.modes| && s.modes[w].Asleep?) && s.p.q.items != [] ==>
              || (exists c :: 0 <= c < |s.callers| && s.callers[c].Notifying?)
              || (exists w :: 0 <= w < |s.modes| && s.modes[w].Testing?)
    ensures (exists c :: 0 <= c < |s.callers| && s.callers[c].Blocked?) && !s.p.q.Full() ==>
              || (exists w :: 0 <= w < |s.modes| && s.modes[w].Notifies?)
              || (exists c :: 0 <= c < |s.callers| && s.callers[c].Posting? && s.callers[c].policy == Block)
  {
    TallyZero(s.callers, ToNotify);
    TallyZero(s.callers, ToPost);
    TallyZero(s.modes, ToTest);
    TallyZero(s.modes, ToNotifyRoom);
    hide Tally;
  }

  // ---- rest ----

  lemma SomeSleeper<M>(modes: seq<M>, asleep: M -> bool) returns (w: nat)
    ensures MayWake(modes, asleep, w)
  {
    if v: nat :| v < |modes| && asleep(modes[v]) {
      w := v;
    } else {
      w := 0;
    }
  }

  /** No thread inside the pool has a move left: it is asleep or away. */
  ghost predicate AtRest(s: Threads) {
    forall move :: CanMove(s, move) ==> Begins(move) || Spurious(move)
  }

  lemma RestMeans(s: Threads)
    requires Kept(s) && AtRest(s)
    ensures forall c :: 0 <= c < |s.callers| ==>
              || (s.callers[c].Outside? && (c == 0 && s.p.closing ==> s.p.posted >= |s.p.workers|))
              || s.callers[c].Blocked?
    ensures forall w :: 0 <= w < |s.modes| ==> s.modes[w].Asleep? || (s.p.workers[w].Exited? && s.modes[w].Away?)
  {
    hide Sound, MessagesSeen, RoomSeen;
    forall c | 0 <= c < |s.callers|
      ensures (s.callers[c].Outside? && (c == 0 && s.p.closing ==> s.p.posted >= |s.p.workers|))
           || s.callers[c].Blocked?
    {
      var w := SomeSleeper(s.modes, IsAsleep);
      var notify := Notify(c, w);
      var lock, count := Lock(c), CountUp(c);
      assert !CanMove(s, notify) && !CanMove(s, lock) && !CanMove(s, count) && !CanMove(s, CallTerminate);
    }
    forall w | 0 <= w < |s.modes|
      ensures s.modes[w].Asleep? || (s.p.workers[w].Exited? && s.modes[w].Away?)
    {
      var c := SomeSleeper(s.callers, IsBlocked);
      var room := NotifyRoom(w, c);
      assert !CanMove(s, room);
      var test, turn := Test(w), EndTurn(w);
      assert !CanMove(s, test) && !CanMove(s, turn);
    }
  }

  /** At rest, a worker sleeps only over an empty queue and a caller only over a full one. */
  lemma RestSees(s: Threads)
    requires Kept(s) && AtRest(s)
    ensures forall w :: 0 <= w < |s.modes| && s.modes[w].Asleep? ==> s.p.q.items == []
    ensures forall c :: 0 <= c < |s.callers| && s.callers[c].Blocked? ==> |s.p.q.items| >= s.p.q.capacity
  {
    RestMeans(s);
    hide AtRest, Sound;
    TallyZero(s.callers, ToNotify);
    TallyZero(s.callers, ToPost);
    TallyZero(s.modes, ToTest);
    TallyZero(s.modes, ToNotifyRoom);
    hide Tally;
  }

  /** Every caller has been served. */
  predicate AllOutside(s: Threads) {
    forall c :: 0 <= c < |s.callers| ==> s.callers[c].Outside?
  }

  lemma NobodyBlocked(s: Threads)
    requires Kept(s) && AtRest(s) && s.p.Works() && |s.p.workers| >= 1
    ensures AllOutside(s)
  {
    RestMeans(s);
    RestSees(s);
    hide AtRest, MessagesSeen, RoomSeen;
    forall c | 0 <= c < |s.callers| ensures s.callers[c].Outside? {
      if s.callers[c].Blocked? {
        assert CallFits(s.p, c, s.callers[c]);
        AllExited(s.p.workers);
      }
    }
  }

  /** In service: when nobody has a move left, every call has returned and every message has
      been handled, by workers that now sleep. */
  lemma RestInService(s: Threads)
    requires Kept(s) && AtRest(s) && s.p.Works() && |s.p.workers| >= 1 && !s.p.closing
    ensures AllOutside(s) && s.p.q.items == [] && multiset(s.p.handled) == Work(s.p)
    ensures forall w :: 0 <= w < |s.modes| ==> s.modes[w].Asleep?
  {
    NobodyBlocked(s);
    RestMeans(s);
    RestSees(s);
    hide AtRest, MessagesSeen, RoomSeen;
    TallyZero(s.p.workers, Ended);
    forall w | 0 <= w < |s.modes| ensures s.modes[w].Asleep? {
      assert Ended(s.p.workers[w]) == 0;
    }
    assert s.modes[0].Asleep?;
    NothingInHand(s.p.workers, Held);
  }

  /** The destructor has posted and joined; no thread is left. */
  predicate Over(s: Threads) {
    s.p.Done() && AllOutside(s) && forall w :: 0 <= w < |s.modes| ==> s.modes[w].Away?
  }

  lemma RestIsOver(s: Threads)
    requires Kept(s) && AtRest(s) && s.p.Works() && |s.p.workers| >= 1 && |s.callers| >= 1 && s.p.closing
    ensures Over(s)
  {
    NobodyBlocked(s);
    RestMeans(s);
    RestSees(s);
    hide AtRest, MessagesSeen, RoomSeen, Exits;
    assert s.callers[0].Outside? && s.p.posted == |s.p.workers|;
    AllExited(s.p.workers);
    forall w | 0 <= w < |s.modes| ensures s.modes[w].Away? && s.p.workers[w].Exited? {
      if s.modes[w].Asleep? {
        assert false;
      }
    }
  }

  lemma OverIsRest(s: Threads)
    requires Kept(s) && Over(s) && s.p.closing
    ensures AtRest(s)
  {
    hide Sound, MessagesSeen, RoomSeen;
  }

  /** In the shutdown: nobody has a move left exactly when it is over. */
  lemma RestAtEnd(s: Threads)
    requires Kept(s) && s.p.Works() && |s.p.workers| >= 1 && |s.callers| >= 1 && s.p.closing
    ensures AtRest(s) <==> Over(s)
  {
    hide Kept, AtRest, Over;
    if AtRest(s) {
      RestIsOver(s);
    } else if Over(s) {
      OverIsRest(s);
    }
  }

  // ---- the shutdown ends ----

  function CallerEffort(c: Caller): nat {
    match c
    case Notifying => 4
    case Outside => 2
    case Posting(_, _) => 1
    case _ => 0
  }

  function ModeEffort(m: Mode): nat {
    match m
    case Notifies => 2
    case Testing => 1
    case _ => 0
  }

  function Effort(s: Threads): int {
    4 * Measure(s.p) + Tally(s.callers, CallerEffort) + Tally(s.modes, ModeEffort)
  }

  function Wakes(moves: seq<Move>): nat {
    if moves == [] then 0 else (if Spurious(moves[0]) then 1 else 0) + Wakes(moves[1..])
  }

  lemma EffectProgresses(s: Threads, move: Move)
    requires Kept(s) && CanMove(s, move) && s.p.closing
    ensures var p2 := Moved(s, move).p;
            && Sound(p2) && Measure(p2) >= 0 && Work(p2) == Work(s.p) && p2.closing && p2.Works() == s.p.Works()
            && |p2.workers| == |s.p.workers|
            && (if Effect(s, move) == [] then p2 == s.p else Measure(p2) < Measure(s.p))
  {
    EffectCanDo(s, move);
    EffectByPool(s, move);
    MeasureNatural(s.p);
    hide Kept, CanMove, Effect, Moved, Sound, Measure, Work, Do, CanDo;
    var steps := Effect(s, move);
    if steps != [] {
      StepSound(s.p, steps[0]);
      StepProgresses(s.p, steps[0]);
      StepKeepsShape(s.p, steps[0]);
      StaysClosing(s.p, steps[0]);
    }
  }

  lemma StaysClosing(p: Pool, step: PoolStep)
    requires CanDo(p, step) && p.closing
    ensures Do(p, step).closing
  {
  }

  lemma MeasureNatural(p: Pool)
    requires Sound(p)
    ensures Measure(p) >= 0
  {
  }

  lemma EffectByPool(s: Threads, move: Move)
    requires Kept(s) && CanMove(s, move) && s.p.closing
    ensures Sound(s.p) && forall i :: 0 <= i < |Effect(s, move)| ==> !ByProducer(Effect(s, move)[i])
  {
    hide Sound, MessagesSeen, RoomSeen, ModesMatch;
  }

  lemma EffortAfterLock(s: Threads, c: nat)
    requires Kept(s) && CanMove(s, Lock(c)) && s.p.closing
    ensures Effort(Moved(s, Lock(c))) < Effort(s)
  {
    EffectProgresses(s, Lock(c));
    EffectCanDo(s, Lock(c));
    hide Sound, MessagesSeen, RoomSeen, ModesMatch, Measure, Tally, Work, Advance;
    TallyChange(s.callers, c, Locked(s.p.q, s.callers[c]), CallerEffort);
  }

  lemma EffortAfterTest(s: Threads, w: nat)
    requires Kept(s) && CanMove(s, Test(w)) && s.p.closing
    ensures Effort(Moved(s, Test(w))) < Effort(s)
  {
    EffectProgresses(s, Test(w));
    TestTakes(s, w);
    hide *;
    EffortIs(s);
    EffortIs(Moved(s, Test(w)));
  }

  lemma EffortIs(s: Threads)
    ensures Effort(s) == 4 * Measure(s.p) + Tally(s.callers, CallerEffort) + Tally(s.modes, ModeEffort)
  {
  }

  lemma TestTakes(s: Threads, w: nat)
    requires CanMove(s, Test(w))
    ensures Effect(s, Test(w)) == [] <==> s.p.q.items == []
    ensures var s2 := Moved(s, Test(w));
            && s2.callers == s.callers
            && Tally(s2.modes, ModeEffort) == Tally(s.modes, ModeEffort) + if s.p.q.items == [] then -1 else 1
  {
    hide Tally;
    TallyChange(s.modes, w, if s.p.q.items == [] then Asleep else Notifies, ModeEffort);
  }

  lemma EffortOfModes(ms: seq<Mode>, w: nat)
    ensures Tally(WakeMode(ms, w), ModeEffort) == Tally(ms, ModeEffort) + if w < |ms| && ms[w].Asleep? then 1 else 0
  {
    if w < |ms| && ms[w].Asleep? {
      TallyChange(ms, w, Testing, ModeEffort);
    }
  }

  lemma EffortOfCallers(cs: seq<Caller>, c: nat)
    ensures Tally(Awake(cs, c), CallerEffort)
         == Tally(cs, CallerEffort) + if c < |cs| && cs[c].Blocked? then 1 else 0
  {
    if c < |cs| && cs[c].Blocked? {
      TallyChange(cs, c, Posting(cs[c].msg, Block), CallerEffort);
    }
  }

  lemma EffortOfCall(s: Threads, move: Move)
    requires CanMove(s, move) && s.p.closing && !move.Lock? && !move.CountUp?
    ensures Tally(CallersAfter(s, move), CallerEffort) <= Tally(s.callers, CallerEffort)
              + (match move
                 case CallTerminate => -1
                 case Notify(_, _) => -2
                 case NotifyRoom(_, _) => 1
                 case WakeCaller(_) => 1
                 case _ => 0)
  {
    hide Tally, Awake, MayWake;
    match move
    case CallTerminate => TallyChange(s.callers, 0, Posting(Terminate, Block), CallerEffort);
    case Notify(c, w) => TallyChange(s.callers, c, Outside, CallerEffort);
    case NotifyRoom(w, c) => EffortOfCallers(s.callers, c);
    case WakeCaller(c) => EffortOfCallers(s.callers, c);
    case _ =>
  }

  lemma EffortOfTurn(s: Threads, move: Move)
    requires CanMove(s, move) && s.p.closing && !move.Test?
    ensures Tally(ModesAfter(s, move), ModeEffort) <= Tally(s.modes, ModeEffort)
              + (match move
                 case Notify(_, _) => 1
                 case NotifyRoom(_, _) => -2
                 case EndTurn(_) => 1
                 case WakeWorker(_) => 1
                 case _ => 0)
  {
    hide Tally, WakeMode, MayWake;
    match move
    case Notify(c, w) => EffortOfModes(s.modes, w);
    case NotifyRoom(w, c) => TallyChange(s.modes, w, Away, ModeEffort);
    case EndTurn(w) => TallyChange(s.modes, w, Testing, ModeEffort);
    case WakeWorker(w) => EffortOfModes(s.modes, w);
    case _ =>
  }

  lemma EffortAfterOther(s: Threads, move: Move)
    requires Kept(s) && CanMove(s, move) && s.p.closing && !move.Lock? && !move.Test?
    ensures Effort(Moved(s, move)) <= Effort(s) + if Spurious(move) then 1 else -1
  {
    EffectProgresses(s, move);
    EffectOfOther(s, move);
    EffortOfCall(s, move);
    EffortOfTurn(s, move);
    hide Kept, Measure, Tally, Work, Advance, Effect, CallersAfter, ModesAfter, CanMove;
  }

  lemma EffectOfOther(s: Threads, move: Move)
    requires Kept(s) && CanMove(s, move) && s.p.closing && !move.Lock? && !move.Test?
    ensures Effect(s, move) != [] <==> move.EndTurn?
    ensures !move.Call? && !move.CallClose? && !move.CountUp?
  {
    hide Sound, MessagesSeen, RoomSeen, ModesMatch;
    assert forall c :: 0 <= c < |s.callers| ==> CallFits(s.p, c, s.callers[c]);
  }

  /** Every move in the shutdown, other than waking for no reason, brings its end nearer. */
  lemma MoveProgresses(s: Threads, move: Move)
    requires Kept(s) && CanMove(s, move) && s.p.closing
    ensures 0 <= Effort(Moved(s, move)) <= Effort(s) + if Spurious(move) then 1 else -1
  {
    EffectProgresses(s, move);
    hide Kept, CanMove, Moved, Effect, Measure, Tally, Work;
    match move
    case Lock(c) => EffortAfterLock(s, c);
    case Test(w) => EffortAfterTest(s, w);
    case _ => EffortAfterOther(s, move);
  }

  lemma {:induction false} ShutdownKeeps(s: Threads, moves: seq<Move>, s2: Threads)
    requires Kept(s) && s.p.closing && Plays(s, moves, s2)
    ensures Kept(s2) && Sound(s.p) && Sound(s2.p) && s2.p.closing && Work(s2.p) == Work(s.p)
    ensures s2.p.Works() == s.p.Works() && |s2.p.workers| == |s.p.workers| && |s2.callers| == |s.callers|
    ensures |moves| + Effort(s2) <= Effort(s) + 2 * Wakes(moves)
    decreases |moves|
  {
    if moves != [] {
      CallersStay(s, moves[0]);
      MoveKeeps(s, moves[0]);
      MoveProgresses(s, moves[0]);
      EffectProgresses(s, moves[0]);
      hide Kept, CanMove, Moved, Effort, Work, Effect, Spurious;
      ShutdownKeeps(Moved(s, moves[0]), moves[1..], s2);
    }
    KeptSound(s);
  }

  lemma KeptSound(s: Threads)
    requires Kept(s)
    ensures Sound(s.p)
  {
  }

  lemma CallersStay(s: Threads, move: Move)
    requires CanMove(s, move)
    ensures |Moved(s, move).callers| == |s.callers|
  {
  }

  lemma EffortNatural(s: Threads)
    requires Kept(s)
    ensures Effort(s) >= 0
  {
    MeasureNatural(s.p);
  }

  /** The destructor, whichever thread is scheduled and whichever sleeper is notified: it takes
      a bounded number of moves, two more for every wake-up without reason; some thread of the
      pool has a move until it is over; and then every message has been handled, once. */
  lemma ShutdownEnds(s: Threads, moves: seq<Move>, s2: Threads)
    requires Kept(s) && s.p.closing && s.p.Works() && |s.p.workers| >= 1 && |s.callers| >= 1
    requires Plays(s, moves, s2)
    ensures |moves| <= Effort(s) + 2 * Wakes(moves)
    ensures AtRest(s2) <==> Over(s2)
    ensures Over(s2) ==> Sound(s.p) && multiset(s2.p.handled) == Work(s.p) && s2.p.q.items == []
  {
    ShutdownKeeps(s, moves, s2);
    hide Kept, Plays, Effort, AtRest, Over, Work, Sound;
    EffortNatural(s2);
    RestAtEnd(s2);
    if Over(s2) {
      OverIsDone(s2);
      WhenDone(s2.p);
    }
  }

  lemma OverIsDone(s: Threads)
    requires Over(s)
    ensures s.p.Done()
  {
  }
}
