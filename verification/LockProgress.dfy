/**
 * Liveness of the folio lock's protocol without signals: a measure that every step of the protocol lowers, and a step
 * to take until every caller is back and every bit clear.
 */
module LockProgress {

  import opened Lists
  import opened Options
  import opened PageLock

  function PhaseRank(phase: Phase): nat {
    match phase
    case Test => 5
    case Take => 4
    case Store(_) => 3
    case Unlink(_) => 2
    case Clear => 1
  }

  /** A bound on the steps a task can still take, with n tasks and q queued entries, if no new call is made. */
  function StepsLeft(p: Task, n: nat, q: nat): nat {
    (if InCall(p.pc) && p.repeats < p.budget then 8 * (p.budget - p.repeats) else 0)
    + match p.pc
      case Idle => 0
      case Walking(idx, _, phase) => PhaseRank(phase) + (if idx < q then 5 * (q - idx) else 0)
      case Waking => 5 * n + 6
      case Returned(_) => 5 * n + 7
      case Finishing => 5 * n + 8
      case Grabbing => 5 * n + 9
      case Sleeping => 5 * n + 10
      case Adding => 5 * n + 11
      case Trying => 5 * n + 12
      case Marking => 5 * n + 13
      case Locking => 5 * n + 14
  }

  function WorkOf(s: State, m: nat): nat
    requires m <= |s.tasks|
    decreases m
  {
    if m == 0 then 0 else WorkOf(s, m - 1) + StepsLeft(s.tasks[m - 1], |s.tasks|, |s.queue|)
  }

  function Work(s: State): nat {
    WorkOf(s, |s.tasks|)
  }

  lemma {:induction false} WorkFrame(s: State, s': State, t: Tid, m: nat)
    requires |s.tasks| == |s'.tasks| && m <= |s.tasks| && t < |s.tasks|
    requires forall u :: 0 <= u < |s.tasks| ==>
               StepsLeft(s'.tasks[u], |s.tasks|, |s'.queue|) <= StepsLeft(s.tasks[u], |s.tasks|, |s.queue|)
    requires StepsLeft(s'.tasks[t], |s.tasks|, |s'.queue|) < StepsLeft(s.tasks[t], |s.tasks|, |s.queue|)
    ensures WorkOf(s', m) <= WorkOf(s, m) && (t < m ==> WorkOf(s', m) < WorkOf(s, m))
    decreases m
  {
    if m > 0 {
      WorkFrame(s, s', t, m - 1);
    }
  }

  /** The step of t: nobody else moves, and the queue keeps its length while somebody else is walking it. */
  lemma {:induction false} WorkShrinks(s: State, s': State, t: Tid)
    requires t < |s.tasks| == |s'.tasks|
    requires forall u :: 0 <= u < |s.tasks| && u != t ==>
               && s'.tasks[u].pc == s.tasks[u].pc && s'.tasks[u].repeats == s.tasks[u].repeats
               && s'.tasks[u].budget == s.tasks[u].budget && (s.tasks[u].pc.Walking? ==> |s'.queue| == |s.queue|)
    requires StepsLeft(s'.tasks[t], |s.tasks|, |s'.queue|) < StepsLeft(s.tasks[t], |s.tasks|, |s.queue|)
    ensures Work(s') < Work(s)
  {
    WorkFrame(s, s', t, |s.tasks|);
  }

  /** A step of t alone that leaves the queue as it is, or is taken while nobody else can be walking it. */
  lemma {:induction false} WorkLocal(s: State, s': State, t: Tid)
    requires t < |s.tasks| == |s'.tasks| && s'.tasks == s.tasks[t := s'.tasks[t]]
    requires s'.queue == s.queue || forall u :: 0 <= u < |s.tasks| && u != t ==> !s.tasks[u].pc.Walking?
    requires StepsLeft(s'.tasks[t], |s.tasks|, |s'.queue|) < StepsLeft(s.tasks[t], |s.tasks|, |s.queue|)
    ensures Work(s') < Work(s)
  {
    WorkShrinks(s, s', t);
  }

  /** Whoever holds the bucket lock, no one else walks. */
  lemma {:induction false} OneWalker(s: State, t: Tid, u: Tid)
    requires Shape(s) && u < |s.tasks| && u != t && s.bucket == Some(t)
    ensures !s.tasks[u].pc.Walking?
  {
  }

  lemma {:induction false} WorkAdd(s: State, t: Tid)
    requires Shape(s) && AtPc(s, t, Adding)
    ensures Work(DoAdd(s, t)) < Work(s)
  {
    forall u | 0 <= u < |s.tasks| && u != t
      ensures !s.tasks[u].pc.Walking?
    {
      OneWalker(s, t, u);
    }
    WorkLocal(s, DoAdd(s, t), t);
  }

  lemma {:induction false} WorkGrab(s: State, t: Tid)
    requires Shape(s) && AtPc(s, t, Grabbing)
    ensures Work(DoGrab(s, t)) < Work(s)
  {
    assert TaskOk(s.tasks[t]);
    WorkLocal(s, DoGrab(s, t), t);
  }

  lemma {:induction false} WorkFinish(s: State, t: Tid)
    requires Shape(s) && CanFinish(s, t)
    ensures Work(DoFinish(s, t)) < Work(s)
  {
    if t !in s.queue {
      WithoutAbsent(s.queue, t);
    } else {
      assert forall u :: 0 <= u < |s.tasks| ==> !HoldsBucket(s.tasks[u].pc);
    }
    WorkLocal(s, DoFinish(s, t), t);
  }

  lemma {:induction false} WorkLockToWake(s: State, t: Tid)
    requires Shape(s) && AtPc(s, t, Waking) && s.bucket.None?
    ensures Work(DoLockToWake(s, t)) < Work(s)
  {
    DistinctBelow(s.queue, |s.tasks|);
    WorkLocal(s, DoLockToWake(s, t), t);
  }

  lemma {:induction false} WorkWalkStore(s: State, t: Tid)
    requires Shape(s) && CanWalkStore(s, t)
    ensures Work(DoWalkStore(s, t)) < Work(s)
  {
    OffQueue(s, t);
    WorkShrinks(s, DoWalkStore(s, t), t);
  }

  lemma {:induction false} WorkWalkUnlink(s: State, t: Tid)
    requires Shape(s) && CanWalkUnlink(s, t)
    ensures Work(DoWalkUnlink(s, t)) < Work(s)
  {
    forall u | 0 <= u < |s.tasks| && u != t
      ensures !s.tasks[u].pc.Walking?
    {
      OneWalker(s, t, u);
    }
    WorkLocal(s, DoWalkUnlink(s, t), t);
  }

  lemma {:induction false} WorkStepArriving(s: State, a: Action)
    requires Shape(s) && Enabled(s, a) && Internal(a) && Arriving(a)
    ensures Work(Do(s, a)) < Work(s)
  {
    match a
    case LockToWait(t) => WorkLocal(s, DoLockToWait(s, t), t);
  }

  lemma {:induction false} WorkStepQueueing(s: State, a: Action)
    requires Shape(s) && Enabled(s, a) && Queueing(a)
    ensures Work(Do(s, a)) < Work(s)
  {
    match a
    case Mark(t) => WorkLocal(s, DoMark(s, t), t);
    case TryFlag(t) => WorkLocal(s, DoTryFlag(s, t), t);
    case Add(t) => WorkAdd(s, t);
  }

  lemma {:induction false} WorkStepLooping(s: State, a: Action)
    requires Shape(s) && Enabled(s, a) && Internal(a) && Looping(a)
    ensures Work(Do(s, a)) < Work(s)
  {
    match a
    case Observe(t) => WorkLocal(s, DoObserve(s, t), t);
    case Grab(t) => WorkGrab(s, t);
  }

  lemma {:induction false} WorkStepReturning(s: State, a: Action)
    requires Shape(s) && Enabled(s, a) && Returning(a)
    ensures Work(Do(s, a)) < Work(s)
  {
    match a
    case Finish(t) => WorkFinish(s, t);
    case Leave(t) => WorkLocal(s, DoLeave(s, t), t);
    case Unlock(t) => WorkLocal(s, DoUnlock(s, t), t);
  }

  lemma {:induction false} WorkStepFinding(s: State, a: Action)
    requires Shape(s) && Enabled(s, a) && Finding(a)
    ensures Work(Do(s, a)) < Work(s)
  {
    match a
    case LockToWake(t) => WorkLockToWake(s, t);
    case WalkTest(t) => WorkLocal(s, DoWalkTest(s, t), t);
    case WalkTake(t) => WorkLocal(s, DoWalkTake(s, t), t);
  }

  lemma {:induction false} WorkStepServing(s: State, a: Action)
    requires Shape(s) && Enabled(s, a) && Serving(a)
    ensures Work(Do(s, a)) < Work(s)
  {
    match a
    case WalkStore(t) => WorkWalkStore(s, t);
    case WalkUnlink(t) => WorkWalkUnlink(s, t);
    case WalkClear(t) => WorkLocal(s, DoWalkClear(s, t), t);
  }

  /** Every step but a new call or a signal brings the end nearer. */
  lemma {:induction false} WorkStep(s: State, a: Action)
    requires Inv(s) && Enabled(s, a) && Internal(a)
    ensures Work(Do(s, a)) < Work(s)
  {
    if Arriving(a) {
      WorkStepArriving(s, a);
    } else if Queueing(a) {
      WorkStepQueueing(s, a);
    } else if Looping(a) {
      WorkStepLooping(s, a);
    } else if Returning(a) {
      WorkStepReturning(s, a);
    } else if Finding(a) {
      WorkStepFinding(s, a);
    } else {
      WorkStepServing(s, a);
    }
  }

  /** Everybody is back, no bit is set and nobody is queued. */
  ghost predicate Drained(s: State) {
    (forall t :: 0 <= t < |s.tasks| ==> s.tasks[t].pc.Idle?) && s.locked == {} && s.queue == [] && s.bucket.None?
  }

  lemma {:induction false} TaskMoves(s: State, t: Tid) returns (a: Action)
    requires Reachable(s) && s.eaten == {} && t < |s.tasks| && !s.tasks[t].pc.Idle?
    ensures Internal(a) && Enabled(s, a)
  {
    ReachableInv(s);
    var pc := s.tasks[t].pc;
    if s.bucket.Some? || HoldsBucket(pc) {
      a := BucketHolderMoves(s);
    } else if pc.Locking? {
      a := LockToWait(t);
    } else if pc.Sleeping? && !s.tasks[t].flags.woken {
      assert Unwoken(s, t);
      a := NeverStuck(s, t);
    } else if pc.Sleeping? {
      a := Observe(t);
    } else if pc.Grabbing? {
      a := Grab(t);
    } else if pc.Finishing? {
      a := Finish(t);
    } else if pc.Returned? {
      a := if Holds(s, t) then Unlock(t) else Leave(t);
    } else {
      a := LockToWake(t);
    }
  }

  /** While no signal has carried a wakeup away, the protocol has a step to take until all is drained. */
  lemma {:induction false} MovesUntilDrained(s: State) returns (a: Action)
    requires Reachable(s) && s.eaten == {} && !Drained(s)
    ensures Internal(a) && Enabled(s, a)
  {
    ReachableInv(s);
    if s.bucket.Some? {
      a := BucketHolderMoves(s);
    } else if s.locked != {} {
      var k :| k in s.locked;
      assert Claims(s, s.owner[k]);
      a := TaskMoves(s, s.owner[k]);
    } else if s.queue != [] {
      assert QueuedOk(s, s.queue[0]);
      a := TaskMoves(s, s.queue[0]);
    } else {
      var t :| 0 <= t < |s.tasks| && !s.tasks[t].pc.Idle?;
      a := TaskMoves(s, t);
    }
  }

  lemma {:induction false} InternalRunEnds(s: State, run: seq<Action>)
    requires Inv(s) && IsRun(s, run) && forall i :: 0 <= i < |run| ==> Internal(run[i])
    ensures |run| + Work(Exec(s, run)) <= Work(s)
    decreases run
  {
    if run != [] {
      assert Internal(run[0]);
      InvStep(s, run[0]);
      WorkStep(s, run[0]);
      InternalRunEnds(Do(s, run[0]), run[1..]);
    }
  }

  /** A run without a signal leaves nobody on the way out with a wakeup. */
  lemma {:induction false} SignalFreeIsUndisturbed(s0: State, past: seq<Action>)
    requires Init(s0) && IsRun(s0, past) && forall i :: 0 <= i < |past| ==> !past[i].Signal?
    ensures Reachable(Exec(s0, past)) && Undisturbed(Exec(s0, past))
  {
    InitInv(s0);
    UndisturbedRun(s0, past);
  }

  /** Liveness without signals: from any state that a signal-free past can lead to, whatever the scheduler does, the
      steps of the protocol itself come to an end, and they end only when every caller is back, every bit clear and
      the queue empty. */
  lemma {:induction false} SignalFreeRunsDrain(s: State, run: seq<Action>)
    requires Reachable(s) && Undisturbed(s) && IsRun(s, run) && forall i :: 0 <= i < |run| ==> Internal(run[i])
    ensures |run| <= Work(s)
    ensures Drained(Exec(s, run)) || exists a :: Internal(a) && Enabled(Exec(s, run), a)
  {
    ReachableInv(s);
    InternalRunEnds(s, run);
    UndisturbedRun(s, run);
    ReachableRun(s, run);
    if !Drained(Exec(s, run)) {
      var a := MovesUntilDrained(Exec(s, run));
    }
  }

  lemma {:induction false} ReachableRun(s: State, run: seq<Action>)
    requires Reachable(s) && IsRun(s, run)
    ensures Reachable(Exec(s, run))
  {
    var s0, past :| Init(s0) && IsRun(s0, past) && Exec(s0, past) == s;
    RunJoin(s0, past, run);
  }

  lemma {:induction false} RunJoin(s: State, past: seq<Action>, run: seq<Action>)
    requires IsRun(s, past) && IsRun(Exec(s, past), run)
    ensures IsRun(s, past + run) && Exec(s, past + run) == Exec(Exec(s, past), run)
    decreases past
  {
    if past == [] {
      assert past + run == run;
    } else {
      assert (past + run)[1..] == past[1..] + run;
      RunJoin(Do(s, past[0]), past[1..], run);
    }
  }
}
