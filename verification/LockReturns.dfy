/**
 * What the return value of a wait means, over whole runs of the folio lock's protocol: 0 from a wait that does not
 * take the bit means that the bit was clear, and -EINTR means a signal.
 */
module LockReturns {

  import opened Options
  import opened Lists
  import opened PageLock

  /** At some moment of the run bit k was clear. */
  ghost predicate WasClear(s: State, run: seq<Action>, k: Key)
    requires IsRun(s, run)
    decreases run
  {
    k !in s.locked || (run != [] && WasClear(Do(s, run[0]), run[1..], k))
  }

  /** Somebody has cleared bit k and is about to look for its waiters. */
  ghost predicate WakerOnItsWay(s: State, k: Key) {
    exists u :: 0 <= u < |s.tasks| && s.tasks[u].pc.Waking? && s.tasks[u].key == k
  }

  // ---------------------------------------------------------------- -EINTR

  /** Not on the way to -EINTR. */
  predicate Calm(p: Task) {
    && (InCall(p.pc) || p.pc == Returned(true))
    && (p.pc.Finishing? ==> p.flags.woken && (p.behavior.Exclusive? ==> p.flags.done))
  }

  lemma {:induction false} CalmEntering(s: State, a: Action, t: Tid)
    requires Shape(s) && t < |s.tasks| && Calm(s.tasks[t]) && Enabled(s, a) && (Arriving(a) || Queueing(a))
    ensures t < |Do(s, a).tasks| && Calm(Do(s, a).tasks[t])
  {
  }

  lemma {:induction false} CalmInLoop(s: State, a: Action, t: Tid)
    requires Shape(s) && t < |s.tasks| && Calm(s.tasks[t]) && Enabled(s, a) && (Looping(a) || Returning(a))
    requires a != Signal(t) && a != Leave(t) && a != Unlock(t)
    ensures t < |Do(s, a).tasks| && Calm(Do(s, a).tasks[t])
  {
    assert TaskOk(s.tasks[t]);
  }

  lemma {:induction false} CalmFinding(s: State, a: Action, t: Tid)
    requires Shape(s) && t < |s.tasks| && Calm(s.tasks[t]) && Enabled(s, a) && Finding(a)
    ensures t < |Do(s, a).tasks| && Calm(Do(s, a).tasks[t])
  {
  }

  lemma {:induction false} CalmServing(s: State, a: Action, t: Tid)
    requires Shape(s) && t < |s.tasks| && Calm(s.tasks[t]) && Enabled(s, a) && Serving(a)
    ensures t < |Do(s, a).tasks| && Calm(Do(s, a).tasks[t])
  {
  }

  lemma {:induction false} CalmStep(s: State, a: Action, t: Tid)
    requires Shape(s) && t < |s.tasks| && Calm(s.tasks[t]) && Enabled(s, a)
    requires a != Signal(t) && a != Leave(t) && a != Unlock(t)
    ensures t < |Do(s, a).tasks| && Calm(Do(s, a).tasks[t])
  {
    if Arriving(a) || Queueing(a) {
      CalmEntering(s, a, t);
    } else if Looping(a) || Returning(a) {
      CalmInLoop(s, a, t);
    } else if Finding(a) {
      CalmFinding(s, a, t);
    } else {
      CalmServing(s, a, t);
    }
  }

  lemma {:induction false} CalmRun(s: State, run: seq<Action>, t: Tid)
    requires Inv(s) && t < |s.tasks| && Calm(s.tasks[t]) && IsRun(s, run)
    requires Signal(t) !in run && Leave(t) !in run && Unlock(t) !in run
    ensures t < |Exec(s, run).tasks| && Calm(Exec(s, run).tasks[t])
    decreases run
  {
    if run != [] {
      CalmStep(s, run[0], t);
      InvStep(s, run[0]);
      CalmRun(Do(s, run[0]), run[1..], t);
    }
  }

  /** A call, shared or exclusive, that was not interrupted by a signal of its own does not return -EINTR. */
  lemma {:induction false} UninterruptedReturnsZero(
    s: State, t: Tid, k: Key, b: Behavior, killable: bool, budget: nat, run: seq<Action>)
    requires Reachable(s) && AtPc(s, t, Idle) && IsRun(DoStartWait(s, t, k, b, killable, budget), run)
    requires Leave(t) !in run && Unlock(t) !in run && Signal(t) !in run
    ensures var s' := Exec(DoStartWait(s, t, k, b, killable, budget), run);
            t < |s'.tasks| && (s'.tasks[t].pc.Returned? ==> s'.tasks[t].pc.ok)
  {
    ReachableInv(s);
    InvStep(s, StartWait(t, k, b, killable, budget));
    CalmRun(DoStartWait(s, t, k, b, killable, budget), run, t);
  }

  // ---------------------------------------------------------------- 0 from a shared wait

  /** A call for k that does not take the bit and has not been woken. */
  predicate Unserved(p: Task, k: Key) {
    && p.key == k && !p.behavior.Exclusive? && !p.flags.woken
    && (p.pc == Returned(false) || (InCall(p.pc) && !p.pc.Grabbing?))
  }

  /** Task t waits for k, which is set, without taking it, and no walk will wake it. */
  ghost predicate StillWaiting(s: State, t: Tid, k: Key) {
    && t < |s.tasks| && k in s.locked && Unserved(s.tasks[t], k)
    && forall u :: 0 <= u < |s.tasks| && s.tasks[u].key == k ==>
         !s.tasks[u].pc.Waking? && (s.tasks[u].pc.Walking? ==> s.tasks[t].pc.Locking?)
  }

  lemma {:induction false} StillArriving(s: State, a: Action, t: Tid, k: Key)
    requires Shape(s) && StillWaiting(s, t, k) && Enabled(s, a) && Arriving(a)
    ensures StillWaiting(Do(s, a), t, k)
  {
  }

  lemma {:induction false} StillQueueing(s: State, a: Action, t: Tid, k: Key)
    requires Shape(s) && StillWaiting(s, t, k) && Enabled(s, a) && Queueing(a)
    ensures StillWaiting(Do(s, a), t, k)
  {
  }

  lemma {:induction false} StillLooping(s: State, a: Action, t: Tid, k: Key)
    requires Shape(s) && StillWaiting(s, t, k) && Enabled(s, a) && Looping(a)
    requires a != Leave(t) && k in Do(s, a).locked
    ensures StillWaiting(Do(s, a), t, k)
  {
  }

  lemma {:induction false} StillReturning(s: State, a: Action, t: Tid, k: Key)
    requires Shape(s) && StillWaiting(s, t, k) && Enabled(s, a) && Returning(a)
    requires a != Leave(t) && k in Do(s, a).locked
    ensures StillWaiting(Do(s, a), t, k)
  {
  }

  lemma {:induction false} StillFinding(s: State, a: Action, t: Tid, k: Key)
    requires Shape(s) && StillWaiting(s, t, k) && Enabled(s, a) && Finding(a)
    ensures StillWaiting(Do(s, a), t, k)
  {
  }

  /** A walk that is about to wake an entry is for the entry's key. */
  lemma {:induction false} StillServing(s: State, a: Action, t: Tid, k: Key)
    requires Shape(s) && StillWaiting(s, t, k) && Enabled(s, a) && Serving(a)
    ensures StillWaiting(Do(s, a), t, k)
  {
  }

  lemma {:induction false} StillStep(s: State, a: Action, t: Tid, k: Key)
    requires Shape(s) && StillWaiting(s, t, k) && Enabled(s, a) && a != Leave(t) && k in Do(s, a).locked
    ensures StillWaiting(Do(s, a), t, k)
  {
    if Arriving(a) {
      StillArriving(s, a, t, k);
    } else if Queueing(a) {
      StillQueueing(s, a, t, k);
    } else if Looping(a) {
      StillLooping(s, a, t, k);
    } else if Returning(a) {
      StillReturning(s, a, t, k);
    } else if Finding(a) {
      StillFinding(s, a, t, k);
    } else {
      StillServing(s, a, t, k);
    }
  }

  lemma {:induction false} StillRun(s: State, run: seq<Action>, t: Tid, k: Key)
    requires Inv(s) && StillWaiting(s, t, k) && IsRun(s, run) && Leave(t) !in run && !WasClear(s, run, k)
    ensures StillWaiting(Exec(s, run), t, k)
    decreases run
  {
    if run != [] {
      assert k in Do(s, run[0]).locked;
      StillStep(s, run[0], t, k);
      InvStep(s, run[0]);
      StillRun(Do(s, run[0]), run[1..], t, k);
    }
  }

  lemma {:induction false} StillStarts(s: State, t: Tid, k: Key, b: Behavior, killable: bool, budget: nat)
    requires AtPc(s, t, Idle) && !b.Exclusive? && k in s.locked && !WakerOnItsWay(s, k)
    ensures StillWaiting(DoStartWait(s, t, k, b, killable, budget), t, k)
  {
  }

  /** A shared or drop wait that has returned 0: since the call began its bit was clear at some moment, unless
      somebody who had cleared it before was still on the way to its waiters. */
  lemma {:induction false} ZeroMeansClear(
    s: State, t: Tid, k: Key, b: Behavior, killable: bool, budget: nat, run: seq<Action>)
    requires Reachable(s) && AtPc(s, t, Idle) && !b.Exclusive?
    requires IsRun(DoStartWait(s, t, k, b, killable, budget), run) && Leave(t) !in run
    requires AtPc(Exec(DoStartWait(s, t, k, b, killable, budget), run), t, Returned(true))
    ensures WasClear(DoStartWait(s, t, k, b, killable, budget), run, k) || WakerOnItsWay(s, k)
  {
    var s0 := DoStartWait(s, t, k, b, killable, budget);
    if !WasClear(s0, run, k) && !WakerOnItsWay(s, k) {
      ReachableInv(s);
      InvStep(s, StartWait(t, k, b, killable, budget));
      StillStarts(s, t, k, b, killable, budget);
      StillRun(s0, run, t, k);
    }
  }

  // ---------------------------------------------------------------- the waiters bit

  /** Nobody in the queue waits for a bit of the folio. */
  ghost predicate NobodyFor(s: State, folio: nat) {
    forall w :: w in s.queue && w < |s.tasks| ==> s.tasks[w].key.folio != folio
  }

  /** Task t walks the queue for a folio that nobody in it waits for. */
  ghost predicate Barren(s: State, t: Tid, folio: nat) {
    && t < |s.tasks| && s.bucket == Some(t) && s.tasks[t].key.folio == folio && NobodyFor(s, folio)
    && s.tasks[t].pc.Walking? && !s.tasks[t].pc.matched && (s.tasks[t].pc.phase.Test? || s.tasks[t].pc.phase.Clear?)
  }

  lemma {:induction false} QueuedIsInCall(s: State, w: Tid)
    requires Shape(s) && w in s.queue
    ensures w < |s.tasks| && InCall(s.tasks[w].pc)
  {
    var i :| 0 <= i < |s.queue| && s.queue[i] == w;
    assert QueuedOk(s, s.queue[i]);
  }

  lemma {:induction false} BarrenArriving(s: State, a: Action, t: Tid, folio: nat)
    requires Shape(s) && Barren(s, t, folio) && Enabled(s, a) && Arriving(a)
    ensures Barren(Do(s, a), t, folio)
  {
    forall w | w in s.queue ensures w != a.t {
      QueuedIsInCall(s, w);
    }
  }

  lemma {:induction false} BarrenLooping(s: State, a: Action, t: Tid, folio: nat)
    requires Shape(s) && Barren(s, t, folio) && Enabled(s, a) && Looping(a)
    ensures Barren(Do(s, a), t, folio)
  {
  }

  lemma {:induction false} BarrenReturning(s: State, a: Action, t: Tid, folio: nat)
    requires Shape(s) && Barren(s, t, folio) && Enabled(s, a) && Returning(a)
    ensures Barren(Do(s, a), t, folio)
  {
    if a.Finish? {
      WithoutAbsent(s.queue, a.t);
    }
  }

  lemma {:induction false} BarrenFinding(s: State, a: Action, t: Tid, folio: nat)
    requires Shape(s) && Barren(s, t, folio) && Enabled(s, a) && Finding(a)
    ensures Barren(Do(s, a), t, folio)
  {
    if a.WalkTest? && a.t == t && OnEntry(s, t) {
      assert Entry(s, t) in s.queue;
    }
  }

  /** The walk holds the bucket lock: nobody else joins the queue or serves it. */
  lemma {:induction false} OthersHeldOff(s: State, a: Action, t: Tid, folio: nat)
    requires Shape(s) && Barren(s, t, folio) && (Queueing(a) || Serving(a)) && a != WalkClear(t)
    ensures !Enabled(s, a)
  {
  }

  lemma {:induction false} BarrenRun(s: State, run: seq<Action>, t: Tid, folio: nat)
    requires Inv(s) && Barren(s, t, folio) && IsRun(s, run) && WalkClear(t) !in run
    ensures Barren(Exec(s, run), t, folio)
    decreases run
  {
    if run != [] {
      var a := run[0];
      if Arriving(a) {
        BarrenArriving(s, a, t, folio);
      } else if Looping(a) {
        BarrenLooping(s, a, t, folio);
      } else if Returning(a) {
        BarrenReturning(s, a, t, folio);
      } else if Finding(a) {
        BarrenFinding(s, a, t, folio);
      } else {
        OthersHeldOff(s, a, t, folio);
        assert false;
      }
      InvStep(s, a);
      BarrenRun(Do(s, a), run[1..], t, folio);
    }
  }

  /** A walk that begins when nobody in the queue waits for its folio clears the waiters bit, whatever others do
      meanwhile. */
  lemma {:induction false} BarrenWalkClears(s: State, t: Tid, run: seq<Action>)
    requires Reachable(s) && AtPc(s, t, Waking) && s.bucket.None? && NobodyFor(s, s.tasks[t].key.folio)
    requires IsRun(DoLockToWake(s, t), run) && WalkClear(t) !in run
    requires InPhase(Exec(DoLockToWake(s, t), run), t, Clear)
    ensures s.tasks[t].key.folio !in DoWalkClear(Exec(DoLockToWake(s, t), run), t).waiters
  {
    ReachableInv(s);
    InvStep(s, LockToWake(t));
    BarrenRun(DoLockToWake(s, t), run, t, s.tasks[t].key.folio);
  }
}
