/**
 * The folio lock's wait/wake protocol: try-lockers, waiters, wakers and signals
 * interleave freely, one shared access at a time.
 *
 * A task is one lock attempt.  Everything that touches shared memory is a step of its
 * own: the flag words change outside the bucket lock, so a step of one task may fall
 * between any two steps of another.
 */
module PageLock {
  import opened Options
  import opened Lists

  type Tid = nat

  /** What is waited for: one bit of one folio.  A bucket serves many of both. */
  datatype Key = Key(folio: nat, bit: nat)

  datatype Behavior = Exclusive | Shared | Drop

  /** wait->flags */
  datatype Flags = Flags(exclusive: bool, custom: bool, woken: bool, done: bool)

  /** Where the wake walk stands on the entry at its index. */
  datatype Phase =
    | Test                     // match the entry, test the bit
    | Take                     // test_and_set_bit on the waiter's behalf
    | Store(done: bool)        // publish WOKEN, and DONE if the bit was taken
    | Unlink(exclusive: bool)  // drop the entry from the queue
    | Clear                    // walk over: maybe clear the waiters bit, unlock

  datatype Pc =
    | Idle
    | Locking                // flags set up, about to take the bucket lock
    | Marking                // bucket lock held, about to set the waiters bit
    | Trying                 // about to call folio_trylock_flag
    | Adding                 // about to join the queue
    | Sleeping               // in the wait loop
    | Grabbing               // woken without DONE, about to test_and_set
    | Finishing              // out of the loop, about to finish_wait
    | Returned(ok: bool)     // 0 or -EINTR
    | Waking                 // bit cleared, waiters seen, about to take the bucket lock
    | Walking(idx: nat, matched: bool, phase: Phase)

  datatype Task = Task(
    pc: Pc,
    key: Key,
    behavior: Behavior,
    killable: bool,
    budget: nat,     // sysctl_page_lock_unfairness as read on entry
    unfairness: int,
    repeats: nat,    // how often this call went back to `repeat'
    flags: Flags)

  datatype State = State(
    tasks: seq<Task>,
    locked: set<Key>,        // the bits themselves
    waiters: set<nat>,       // folios with PG_waiters
    queue: seq<Tid>,         // the bucket's wait queue
    bucket: Option<Tid>,     // holder of the bucket lock
    owner: map<Key, Tid>,    // history: on whose behalf each set bit was set
    eaten: set<Key>)         // history: clear bits whose last wakeup a waiter took along when it returned -EINTR

  datatype Action =
    | TryLock(t: Tid, k: Key)
    | StartWait(t: Tid, k: Key, behavior: Behavior, killable: bool, budget: nat)
    | LockToWait(t: Tid)
    | Mark(t: Tid)
    | TryFlag(t: Tid)
    | Add(t: Tid)
    | Observe(t: Tid)
    | Signal(t: Tid)
    | Grab(t: Tid)
    | Finish(t: Tid)
    | Leave(t: Tid)
    | Unlock(t: Tid)
    | LockToWake(t: Tid)
    | WalkTest(t: Tid)
    | WalkTake(t: Tid)
    | WalkStore(t: Tid)
    | WalkUnlink(t: Tid)
    | WalkClear(t: Tid)

  /** wait->flags as set at `repeat'; `unfairness` is the value after the decrement. */
  function FreshFlags(b: Behavior, unfairness: int): Flags {
    Flags(b.Exclusive?, b.Exclusive? && unfairness < 0, false, false)
  }

  function SetPc(s: State, t: Tid, pc: Pc): State
    requires t < |s.tasks|
  {
    s.(tasks := s.tasks[t := s.tasks[t].(pc := pc)])
  }

  function Without(q: seq<Tid>, t: Tid): seq<Tid> {
    if q == [] then [] else if q[0] == t then q[1..] else [q[0]] + Without(q[1..], t)
  }

  // ---------------------------------------------------------------- the steps

  predicate AtPc(s: State, t: Tid, pc: Pc) {
    t < |s.tasks| && s.tasks[t].pc == pc
  }

  predicate InPhase(s: State, t: Tid, phase: Phase) {
    t < |s.tasks| && s.tasks[t].pc.Walking? && s.tasks[t].pc.phase == phase && s.tasks[t].pc.idx <= |s.queue|
  }

  /** The walk stands on an entry. */
  predicate OnEntry(s: State, t: Tid) {
    && t < |s.tasks| && s.tasks[t].pc.Walking? && s.tasks[t].pc.idx < |s.queue|
    && s.queue[s.tasks[t].pc.idx] < |s.tasks|
  }

  function Entry(s: State, t: Tid): Tid
    requires OnEntry(s, t)
  {
    s.queue[s.tasks[t].pc.idx]
  }

  /** Bit k is set on behalf of t; the next unlock will wake again. */
  function SetBit(s: State, k: Key, t: Tid): State {
    s.(locked := s.locked + {k}, owner := s.owner[k := t], eaten := s.eaten - {k})
  }

  /** folio_trylock */
  function DoTryLock(s: State, t: Tid, k: Key): State
    requires AtPc(s, t, Idle)
  {
    if k in s.locked then s
    else SetBit(s, k, t).(tasks := s.tasks[t := s.tasks[t].(pc := Returned(true), key := k, behavior := Exclusive)])
  }

  /** Entry into folio_wait_bit_common, up to the first `repeat'. */
  function DoStartWait(s: State, t: Tid, k: Key, b: Behavior, killable: bool, budget: nat): State
    requires AtPc(s, t, Idle)
  {
    s.(tasks := s.tasks[t := Task(Locking, k, b, killable, budget, budget - 1, 0, FreshFlags(b, budget - 1))])
  }

  function DoLockToWait(s: State, t: Tid): State
    requires AtPc(s, t, Locking) && s.bucket.None?
  {
    SetPc(s, t, Marking).(bucket := Some(t))
  }

  /** folio_set_waiters */
  function DoMark(s: State, t: Tid): State
    requires AtPc(s, t, Marking)
  {
    SetPc(s, t, Trying).(waiters := s.waiters + {s.tasks[t].key.folio})
  }

  /** folio_trylock_flag; on success the bucket lock is dropped at once. */
  function DoTryFlag(s: State, t: Tid): State
    requires AtPc(s, t, Trying)
  {
    var p := s.tasks[t];
    if p.key in s.locked then SetPc(s, t, Adding)
    else
      var s1 := if p.flags.exclusive then SetBit(s, p.key, t) else s;
      s1.(tasks := s.tasks[t := p.(pc := Sleeping, flags := p.flags.(woken := true, done := true))], bucket := None)
  }

  function DoAdd(s: State, t: Tid): State
    requires AtPc(s, t, Adding)
  {
    SetPc(s, t, Sleeping).(queue := s.queue + [t], bucket := None)
  }

  /** The loop sees WOKEN. */
  predicate CanObserve(s: State, t: Tid) {
    AtPc(s, t, Sleeping) && s.tasks[t].flags.woken
  }

  function DoObserve(s: State, t: Tid): State
    requires CanObserve(s, t)
  {
    SetPc(s, t, if s.tasks[t].behavior.Exclusive? && !s.tasks[t].flags.done then Grabbing else Finishing)
  }

  /** The loop does not see WOKEN, and a signal is pending. */
  predicate CanSignal(s: State, t: Tid) {
    AtPc(s, t, Sleeping) && !s.tasks[t].flags.woken && s.tasks[t].killable
  }

  function DoSignal(s: State, t: Tid): State
    requires CanSignal(s, t)
  {
    SetPc(s, t, Finishing)
  }

  /** The woken waiter's own test_and_set_bit; if the bit was stolen, back to `repeat'. */
  function DoGrab(s: State, t: Tid): State
    requires AtPc(s, t, Grabbing)
  {
    var p := s.tasks[t];
    if p.key in s.locked then
      var u := p.unfairness - 1;
      s.(tasks := s.tasks[t := p.(pc := Locking, unfairness := u, repeats := p.repeats + 1,
                                  flags := FreshFlags(p.behavior, u))])
    else
      SetBit(s, p.key, t).(tasks := s.tasks[t := p.(pc := Finishing, flags := p.flags.(done := true))])
  }

  /** finish_wait takes the bucket lock only if the entry is still queued. */
  predicate CanFinish(s: State, t: Tid) {
    AtPc(s, t, Finishing) && (t in s.queue ==> s.bucket.None?)
  }

  function DoFinish(s: State, t: Tid): State
    requires CanFinish(s, t)
  {
    var p := s.tasks[t];
    var ok := if p.behavior.Exclusive? then p.flags.done else p.flags.woken;
    var takesAlong := p.behavior.Exclusive? && p.flags.woken && !ok && p.key !in s.locked;
    SetPc(s, t, Returned(ok)).(
      queue := Without(s.queue, t),
      eaten := if takesAlong then s.eaten + {p.key} else s.eaten)
  }

  predicate Holds(s: State, t: Tid) {
    AtPc(s, t, Returned(true)) && s.tasks[t].behavior.Exclusive?
  }

  predicate CanLeave(s: State, t: Tid) {
    t < |s.tasks| && s.tasks[t].pc.Returned? && !Holds(s, t)
  }

  function DoLeave(s: State, t: Tid): State
    requires CanLeave(s, t)
  {
    SetPc(s, t, Idle)
  }

  /** folio_unlock: clear the bit and see the waiters bit in one atomic operation. */
  function DoUnlock(s: State, t: Tid): State
    requires Holds(s, t)
  {
    SetPc(s, t, if s.tasks[t].key.folio in s.waiters then Waking else Idle).(
      locked := s.locked - {s.tasks[t].key}, owner := s.owner - {s.tasks[t].key})
  }

  function DoLockToWake(s: State, t: Tid): State
    requires AtPc(s, t, Waking) && s.bucket.None?
  {
    SetPc(s, t, Walking(0, false, Test)).(bucket := Some(t))
  }

  /** wake_page_function up to its first test of the bit. */
  function TestOutcome(p: Task, e: Task, bit: bool): Pc
    requires p.pc.Walking?
  {
    if e.key.folio != p.key.folio then Walking(p.pc.idx + 1, p.pc.matched, Test)
    else if e.key.bit != p.key.bit then Walking(p.pc.idx + 1, true, Test)
    else if e.flags.exclusive && bit then Walking(p.pc.idx, true, Clear)
    else if e.flags.exclusive && e.flags.custom then Walking(p.pc.idx, true, Take)
    else Walking(p.pc.idx, true, Store(false))
  }

  function DoWalkTest(s: State, t: Tid): State
    requires InPhase(s, t, Test)
  {
    var p := s.tasks[t];
    SetPc(s, t, if OnEntry(s, t) then TestOutcome(p, s.tasks[Entry(s, t)], p.key in s.locked)
                else p.pc.(phase := Clear))
  }

  /** The hand-off: test_and_set_bit for the waiter. */
  function DoWalkTake(s: State, t: Tid): State
    requires InPhase(s, t, Take) && OnEntry(s, t)
  {
    var p := s.tasks[t];
    if p.key in s.locked then SetPc(s, t, p.pc.(phase := Clear))
    else SetPc(SetBit(s, p.key, Entry(s, t)), t, p.pc.(phase := Store(true)))
  }

  predicate CanWalkStore(s: State, t: Tid) {
    OnEntry(s, t) && s.tasks[t].pc.phase.Store?
  }

  function DoWalkStore(s: State, t: Tid): State
    requires CanWalkStore(s, t)
  {
    var e, pc := Entry(s, t), s.tasks[t].pc;
    var f := s.tasks[e].flags;
    SetPc(s.(tasks := s.tasks[e := s.tasks[e].(flags := f.(woken := true, done := f.done || pc.phase.done))]),
          t, pc.(phase := Unlink(f.exclusive)))
  }

  predicate CanWalkUnlink(s: State, t: Tid) {
    OnEntry(s, t) && s.tasks[t].pc.phase.Unlink?
  }

  function DoWalkUnlink(s: State, t: Tid): State
    requires CanWalkUnlink(s, t)
  {
    var pc := s.tasks[t].pc;
    SetPc(s, t, pc.(phase := if pc.phase.exclusive then Clear else Test)).(
      queue := s.queue[..pc.idx] + s.queue[pc.idx + 1..])
  }

  /** The end of folio_wake_bit. */
  function DoWalkClear(s: State, t: Tid): State
    requires InPhase(s, t, Clear)
  {
    var p := s.tasks[t];
    SetPc(s, t, Idle).(
      bucket := None,
      waiters := if s.queue == [] || !p.pc.matched then s.waiters - {p.key.folio} else s.waiters)
  }

  // The steps by where the task is: asking for a bit, joining the queue, in the wait loop, on its way out or done,
  // looking for an entry to wake, waking it.

  predicate Arriving(a: Action) {
    a.TryLock? || a.StartWait? || a.LockToWait?
  }

  predicate Queueing(a: Action) {
    a.Mark? || a.TryFlag? || a.Add?
  }

  predicate Looping(a: Action) {
    a.Observe? || a.Signal? || a.Grab?
  }

  predicate Returning(a: Action) {
    a.Finish? || a.Leave? || a.Unlock?
  }

  predicate Finding(a: Action) {
    a.LockToWake? || a.WalkTest? || a.WalkTake?
  }

  predicate Serving(a: Action) {
    a.WalkStore? || a.WalkUnlink? || a.WalkClear?
  }

  /** The steps a task may take now. */
  predicate Enabled(s: State, a: Action) {
    match a
    case TryLock(t, _) => AtPc(s, t, Idle)
    case StartWait(t, _, _, _, _) => AtPc(s, t, Idle)
    case LockToWait(t) => AtPc(s, t, Locking) && s.bucket.None?
    case Mark(t) => AtPc(s, t, Marking)
    case TryFlag(t) => AtPc(s, t, Trying)
    case Add(t) => AtPc(s, t, Adding)
    case Observe(t) => CanObserve(s, t)
    case Signal(t) => CanSignal(s, t)
    case Grab(t) => AtPc(s, t, Grabbing)
    case Finish(t) => CanFinish(s, t)
    case Leave(t) => CanLeave(s, t)
    case Unlock(t) => Holds(s, t)
    case LockToWake(t) => AtPc(s, t, Waking) && s.bucket.None?
    case WalkTest(t) => InPhase(s, t, Test)
    case WalkTake(t) => InPhase(s, t, Take) && OnEntry(s, t)
    case WalkStore(t) => CanWalkStore(s, t)
    case WalkUnlink(t) => CanWalkUnlink(s, t)
    case WalkClear(t) => InPhase(s, t, Clear)
  }

  function Do(s: State, a: Action): State
    requires Enabled(s, a)
  {
    match a
    case TryLock(t, k) => DoTryLock(s, t, k)
    case StartWait(t, k, b, killable, budget) => DoStartWait(s, t, k, b, killable, budget)
    case LockToWait(t) => DoLockToWait(s, t)
    case Mark(t) => DoMark(s, t)
    case TryFlag(t) => DoTryFlag(s, t)
    case Add(t) => DoAdd(s, t)
    case Observe(t) => DoObserve(s, t)
    case Signal(t) => DoSignal(s, t)
    case Grab(t) => DoGrab(s, t)
    case Finish(t) => DoFinish(s, t)
    case Leave(t) => DoLeave(s, t)
    case Unlock(t) => DoUnlock(s, t)
    case LockToWake(t) => DoLockToWake(s, t)
    case WalkTest(t) => DoWalkTest(s, t)
    case WalkTake(t) => DoWalkTake(s, t)
    case WalkStore(t) => DoWalkStore(s, t)
    case WalkUnlink(t) => DoWalkUnlink(s, t)
    case WalkClear(t) => DoWalkClear(s, t)
  }

  predicate Init(s: State) {
    && (forall t :: 0 <= t < |s.tasks| ==> s.tasks[t].pc.Idle?)
    && s.locked == {} && s.waiters == {} && s.queue == [] && s.bucket.None?
    && s.owner == map[] && s.eaten == {}
  }

  /** A run takes only enabled steps; the interleaving is otherwise arbitrary. */
  predicate IsRun(s: State, run: seq<Action>)
    decreases run
  {
    run == [] || (Enabled(s, run[0]) && IsRun(Do(s, run[0]), run[1..]))
  }

  function Exec(s: State, run: seq<Action>): State
    requires IsRun(s, run)
    decreases run
  {
    if run == [] then s else Exec(Do(s, run[0]), run[1..])
  }

  // ---------------------------------------------------------------- invariant

  /** The wake walk in progress has published WOKEN to t and not yet unlinked it. */
  predicate Unlinking(s: State, t: Tid) {
    && s.bucket.Some? && s.bucket.value < |s.tasks|
    && var pc := s.tasks[s.bucket.value].pc;
       pc.Walking? && pc.phase.Unlink? && pc.idx < |s.queue| && s.queue[pc.idx] == t
  }

  /** The wake walk in progress holds t's bit for it and has not yet said so. */
  predicate HandingOver(s: State, t: Tid) {
    && s.bucket.Some? && s.bucket.value < |s.tasks|
    && var pc := s.tasks[s.bucket.value].pc;
       pc.Walking? && pc.phase == Store(true) && pc.idx < |s.queue| && s.queue[pc.idx] == t
  }

  predicate HoldsBucket(pc: Pc) {
    pc.Marking? || pc.Trying? || pc.Adding? || pc.Walking?
  }

  predicate InCall(pc: Pc) {
    !(pc.Idle? || pc.Returned? || pc.Waking? || pc.Walking?)
  }

  /** What a task's own fields satisfy, whatever the others do. */
  predicate TaskOk(p: Task) {
    && (InCall(p.pc) ==>
          && p.flags.exclusive == p.behavior.Exclusive?
          && p.unfairness == p.budget - 1 - p.repeats
          && p.flags.custom == (p.flags.exclusive && p.unfairness < 0)
          && p.repeats <= p.budget
          && (p.flags.custom && p.flags.woken ==> p.flags.done)
          && (p.flags.done ==> p.flags.woken))
    && (p.pc.Locking? || p.pc.Marking? || p.pc.Trying? || p.pc.Adding? ==>
          !p.flags.woken && !p.flags.done)
    && (p.pc.Grabbing? ==> p.flags.exclusive && p.flags.woken && !p.flags.done)
    && (p.pc.Waking? || p.pc.Walking? ==> p.behavior.Exclusive?)
  }

  ghost predicate QueueOk(s: State) {
    && Distinct(s.queue)
    && (forall i :: 0 <= i < |s.queue| ==> s.queue[i] < |s.tasks|)
    && (forall i :: 0 <= i < |s.queue| ==> QueuedOk(s, s.queue[i]))
    && (forall t :: 0 <= t < |s.tasks| && s.tasks[t].pc.Sleeping? && !s.tasks[t].flags.woken ==> t in s.queue)
  }

  /** A queued entry sleeps or is on its way out, unless the walk is about to unlink it. */
  predicate QueuedOk(s: State, t: Tid)
    requires t < |s.tasks|
  {
    var p := s.tasks[t];
    && p.key.folio in s.waiters
    && if Unlinking(s, t) then
         ((p.pc.Sleeping? || p.pc.Finishing?) && p.flags.woken) || p.pc.Grabbing? || p.pc.Locking?
       else (p.pc.Sleeping? || p.pc.Finishing?) && !p.flags.woken
  }

  /** None of the first n entries waits for k. */
  predicate NoEntry(s: State, n: nat, k: Key) {
    forall j :: 0 <= j < n <= |s.queue| && s.queue[j] < |s.tasks| ==> s.tasks[s.queue[j]].key != k
  }

  predicate NoFolio(s: State, n: nat, folio: nat) {
    forall j :: 0 <= j < n <= |s.queue| && s.queue[j] < |s.tasks| ==> s.tasks[s.queue[j]].key.folio != folio
  }

  /** What the walk has established about the entries before its index, and the one at it. */
  ghost predicate WalkOk(s: State) {
    s.bucket.Some? && s.bucket.value < |s.tasks| && s.tasks[s.bucket.value].pc.Walking? ==>
      var w := s.tasks[s.bucket.value];
      var n := w.pc.idx;
      && n <= |s.queue|
      && (w.pc.phase.Take? || w.pc.phase.Store? || w.pc.phase.Unlink? ==>
            && n < |s.queue| && s.queue[n] < |s.tasks| && w.pc.matched
            && var e := s.tasks[s.queue[n]];
               && e.key == w.key
               && (w.pc.phase.Take? || w.pc.phase == Store(true) ==> e.flags.custom)
               && (w.pc.phase == Store(false) ==> !e.flags.custom)
               && (w.pc.phase.Unlink? ==> w.pc.phase.exclusive == e.behavior.Exclusive?))
      && (!w.pc.phase.Clear? ==> NoEntry(s, n, w.key))
      && (!w.pc.matched ==> NoFolio(s, if w.pc.phase.Clear? then |s.queue| else n, w.key.folio))
  }

  ghost predicate Shape(s: State) {
    && (forall t :: 0 <= t < |s.tasks| ==> TaskOk(s.tasks[t]))
    && (forall t :: 0 <= t < |s.tasks| ==> (s.bucket == Some(t) <==> HoldsBucket(s.tasks[t].pc)))
    && (s.bucket.Some? ==> s.bucket.value < |s.tasks|)
    && (forall t :: 0 <= t < |s.tasks| && (s.tasks[t].pc.Trying? || s.tasks[t].pc.Adding?) ==>
          s.tasks[t].key.folio in s.waiters)
    && QueueOk(s)
    && WalkOk(s)
  }

  /** What a task itself, or the walk serving it, takes as "this bit is mine". */
  predicate Claims(s: State, t: Tid)
    requires t < |s.tasks|
  {
    var p := s.tasks[t];
    && p.behavior.Exclusive?
    && (p.pc == Returned(true)
        || ((p.pc.Sleeping? || p.pc.Finishing?) && p.flags.done)
        || HandingOver(s, t))
  }

  ghost predicate Ownership(s: State) {
    && s.owner.Keys == s.locked
    && (forall k :: k in s.owner ==> s.owner[k] < |s.tasks|)
    && (forall t :: 0 <= t < |s.tasks| && Claims(s, t) ==> s.tasks[t].key in s.owner && s.owner[s.tasks[t].key] == t)
    && (forall k :: k in s.owner && s.owner[k] < |s.tasks| ==> Claims(s, s.owner[k]) && s.tasks[s.owner[k]].key == k)
  }

  /** Queued, or committed to queueing, and not yet woken. */
  predicate Unwoken(s: State, t: Tid)
    requires t < |s.tasks|
  {
    var p := s.tasks[t];
    p.pc.Adding? || (t in s.queue && (p.pc.Sleeping? || p.pc.Finishing?) && !p.flags.woken)
  }

  /** The task is going to look at the waiters of k: an unlocker before or inside its walk,
      or a woken exclusive waiter that has yet to try the bit. */
  predicate WillTry(p: Task, k: Key) {
    && p.key == k
    && (p.pc.Waking?
        || (p.pc.Walking? && !p.pc.phase.Clear? && p.pc.phase != Unlink(true))
        || (p.behavior.Exclusive? && p.flags.woken && !p.flags.done && (p.pc.Sleeping? || p.pc.Grabbing?)))
  }

  /** An exclusive waiter that left the loop on a signal and was then chosen as the one to wake: it will
      return -EINTR without trying the bit. */
  predicate Departing(p: Task, k: Key) {
    p.key == k && p.behavior.Exclusive? && p.pc.Finishing? && p.flags.woken && !p.flags.done
  }

  /** The last wakeup for k is in this task's hands. */
  predicate Entrusted(p: Task, k: Key) {
    WillTry(p, k) || Departing(p, k)
  }

  ghost predicate Attended(s: State, k: Key) {
    k in s.locked || k in s.eaten || exists u :: 0 <= u < |s.tasks| && Entrusted(s.tasks[u], k)
  }

  ghost predicate NoLostWakeup(s: State) {
    forall t :: 0 <= t < |s.tasks| && Unwoken(s, t) ==> Attended(s, s.tasks[t].key)
  }

  ghost predicate Inv(s: State) {
    Shape(s) && Ownership(s) && NoLostWakeup(s)
  }

  lemma {:induction false} WithoutElements(q: seq<Tid>, t: Tid)
    requires Distinct(q)
    ensures forall x :: x in Without(q, t) <==> x in q && x != t
    ensures Distinct(Without(q, t))
  {
    if q != [] {
      assert q == [q[0]] + q[1..];
      if q[0] != t {
        WithoutElements(q[1..], t);
        assert q[0] !in q[1..];
      }
    }
  }

  /** Only sleeping, finishing, or just-woken tasks are ever on the queue. */
  lemma {:induction false} OffQueue(s: State, t: Tid)
    requires Shape(s) && t < |s.tasks|
    requires var pc := s.tasks[t].pc;
             !(pc.Sleeping? || pc.Finishing? || pc.Grabbing? || pc.Locking?)
    ensures t !in s.queue
  {
  }

  /** A step of a task that is not walking the queue, and leaves the queue as it is. */
  lemma {:induction false} ShapeFrame(s: State, s': State, t: Tid)
    requires Shape(s) && t < |s.tasks| == |s'.tasks| && s'.queue == s.queue && s.waiters <= s'.waiters
    requires forall u :: 0 <= u < |s.tasks| && u != t ==> s'.tasks[u] == s.tasks[u]
    requires TaskOk(s'.tasks[t]) && !s.tasks[t].pc.Walking? && !s'.tasks[t].pc.Walking?
    requires s'.bucket == s.bucket || (s.bucket in {None, Some(t)} && s'.bucket in {None, Some(t)})
    requires s'.bucket == Some(t) <==> HoldsBucket(s'.tasks[t].pc)
    requires s'.tasks[t].pc.Trying? || s'.tasks[t].pc.Adding? ==> s'.tasks[t].key.folio in s'.waiters
    requires t in s.queue ==>
               && s'.tasks[t].key == s.tasks[t].key && s'.tasks[t].behavior == s.tasks[t].behavior
               && (s'.tasks[t].flags == s.tasks[t].flags || Unlinking(s, t))
               && QueuedOk(s', t)
    requires s'.tasks[t].pc.Sleeping? && !s'.tasks[t].flags.woken ==> t in s.queue
    ensures Shape(s')
  {
    forall i | 0 <= i < |s.queue|
      ensures QueuedOk(s', s'.queue[i])
    {
      assert QueuedOk(s, s.queue[i]);
      assert s.queue[i] != t ==> Unlinking(s, s.queue[i]) == Unlinking(s', s.queue[i]);
    }
  }

  lemma {:induction false} ShapeLocal(s: State, s': State, t: Tid)
    requires Shape(s) && t < |s.tasks| && (s.tasks[t].pc.Idle? || s.tasks[t].pc.Returned?)
    requires s'.queue == s.queue && s'.waiters == s.waiters && s'.bucket == s.bucket
    requires |s'.tasks| == |s.tasks| && s'.tasks == s.tasks[t := s'.tasks[t]] && TaskOk(s'.tasks[t])
    requires var pc := s'.tasks[t].pc; pc.Idle? || pc.Returned? || pc.Locking? || pc.Waking?
    ensures Shape(s')
  {
    OffQueue(s, t);
    ShapeFrame(s, s', t);
  }

  lemma {:induction false} ShapeEnter(s: State, t: Tid)
    requires Shape(s) && t < |s.tasks|
    ensures AtPc(s, t, Locking) && s.bucket.None? ==> Shape(DoLockToWait(s, t))
    ensures AtPc(s, t, Marking) ==> Shape(DoMark(s, t))
    ensures AtPc(s, t, Trying) ==> Shape(DoTryFlag(s, t))
  {
    if AtPc(s, t, Locking) && s.bucket.None? {
      assert t !in s.queue;
      ShapeFrame(s, DoLockToWait(s, t), t);
    }
    if AtPc(s, t, Marking) {
      OffQueue(s, t);
      ShapeFrame(s, DoMark(s, t), t);
    }
    if AtPc(s, t, Trying) {
      OffQueue(s, t);
      ShapeFrame(s, DoTryFlag(s, t), t);
    }
  }

  /** A waiter's step in the loop; its entry may still be queued. */
  lemma {:induction false} ShapeInLoop(s: State, s': State, t: Tid)
    requires Shape(s) && t < |s.tasks| && (s.tasks[t].pc.Sleeping? || s.tasks[t].pc.Grabbing?)
    requires s'.queue == s.queue && s'.waiters == s.waiters && s'.bucket == s.bucket
    requires |s'.tasks| == |s.tasks| && s'.tasks == s.tasks[t := s'.tasks[t]] && TaskOk(s'.tasks[t])
    requires s'.tasks[t].key == s.tasks[t].key && s'.tasks[t].behavior == s.tasks[t].behavior
    requires var pc := s'.tasks[t].pc;
             if s.tasks[t].flags.woken then pc.Locking? || pc.Grabbing? || (pc.Finishing? && s'.tasks[t].flags.woken)
             else pc.Finishing? && s'.tasks[t].flags == s.tasks[t].flags
    ensures Shape(s')
  {
    if t in s.queue {
      var i :| 0 <= i < |s.queue| && s.queue[i] == t;
      assert QueuedOk(s, s.queue[i]);
      assert Unlinking(s, t) == Unlinking(s', t);
    }
    ShapeFrame(s, s', t);
  }

  lemma {:induction false} ShapeAdd(s: State, t: Tid)
    requires Shape(s) && AtPc(s, t, Adding)
    ensures Shape(DoAdd(s, t))
  {
    OffQueue(s, t);
    var s' := DoAdd(s, t);
    forall i | 0 <= i < |s.queue| ensures QueuedOk(s', s.queue[i]) && s.queue[i] in s'.queue {
      assert QueuedOk(s, s.queue[i]);
      assert s'.queue[i] == s.queue[i];
    }
    assert s'.queue[|s.queue|] == t;
  }

  lemma {:induction false} ShapeFinish(s: State, t: Tid)
    requires Shape(s) && CanFinish(s, t)
    ensures Shape(DoFinish(s, t))
  {
    var s' := DoFinish(s, t);
    if t !in s.queue {
      WithoutAbsent(s.queue, t);
      ShapeFrame(s, s', t);
    } else {
      WithoutElements(s.queue, t);
      forall i | 0 <= i < |s'.queue|
        ensures s'.queue[i] < |s'.tasks| && QueuedOk(s', s'.queue[i])
      {
        var u := s'.queue[i];
        assert u in s'.queue;
        var j :| 0 <= j < |s.queue| && s.queue[j] == u;
        assert QueuedOk(s, s.queue[j]);
      }
      assert QueueOk(s');
    }
  }

  lemma {:induction false} WithoutAbsent(q: seq<Tid>, t: Tid)
    requires t !in q
    ensures Without(q, t) == q
  {
    if q != [] {
      assert q == [q[0]] + q[1..];
      WithoutAbsent(q[1..], t);
    }
  }

  /** A step of the walk that leaves the queue as it is and unlinks nothing. */
  lemma {:induction false} ShapeWalkFrame(s: State, s': State, t: Tid)
    requires Shape(s) && t < |s.tasks| && s.tasks[t].pc.Walking? && !s.tasks[t].pc.phase.Unlink?
    requires |s'.tasks| == |s.tasks| && s'.tasks == s.tasks[t := s.tasks[t].(pc := s'.tasks[t].pc)]
    requires s'.queue == s.queue && s'.waiters == s.waiters && s'.bucket == s.bucket
    requires s'.tasks[t].pc.Walking? && !s'.tasks[t].pc.phase.Unlink?
    requires WalkOk(s')
    ensures Shape(s')
  {
    OffQueue(s, t);
    forall i | 0 <= i < |s.queue|
      ensures QueuedOk(s', s'.queue[i])
    {
      assert QueuedOk(s, s.queue[i]);
    }
  }

  /** The walk moves on only past entries for other keys. */
  lemma {:induction false} WalkTestOk(s: State, t: Tid)
    requires InPhase(s, t, Test) && s.bucket == Some(t) && t !in s.queue && WalkOk(s)
    requires forall i :: 0 <= i < |s.queue| ==> s.queue[i] < |s.tasks|
    requires OnEntry(s, t) ==> (s.tasks[Entry(s, t)].flags.custom ==> s.tasks[Entry(s, t)].flags.exclusive)
    ensures WalkOk(DoWalkTest(s, t))
  {
    var s', n, p := DoWalkTest(s, t), s.tasks[t].pc.idx, s.tasks[t];
    assert NoEntry(s, n, p.key) && NoEntry(s', n, p.key);
    assert !p.pc.matched ==> NoFolio(s, n, p.key.folio) && NoFolio(s', n, p.key.folio);
    if OnEntry(s, t) && s.tasks[Entry(s, t)].key != p.key {
      assert s'.tasks[s'.queue[n]].key == s.tasks[Entry(s, t)].key;
      assert NoEntry(s', n + 1, p.key);
    }
  }

  lemma {:induction false} ShapeWalkTest(s: State, t: Tid)
    requires Shape(s) && InPhase(s, t, Test)
    ensures Shape(DoWalkTest(s, t))
  {
    OffQueue(s, t);
    if OnEntry(s, t) {
      assert QueuedOk(s, Entry(s, t)) && TaskOk(s.tasks[Entry(s, t)]);
    }
    WalkTestOk(s, t);
    ShapeWalkFrame(s, DoWalkTest(s, t), t);
  }

  lemma {:induction false} ShapeWalkTake(s: State, t: Tid)
    requires Shape(s) && InPhase(s, t, Take) && OnEntry(s, t)
    ensures Shape(DoWalkTake(s, t))
  {
    OffQueue(s, t);
    ShapeWalkFrame(s, DoWalkTake(s, t), t);
  }

  lemma {:induction false} ShapeWalkBegins(s: State, t: Tid)
    requires Shape(s) && AtPc(s, t, Waking) && s.bucket.None?
    ensures Shape(DoLockToWake(s, t))
  {
    var s' := DoLockToWake(s, t);
    OffQueue(s, t);
    forall i | 0 <= i < |s.queue|
      ensures QueuedOk(s', s'.queue[i])
    {
      assert QueuedOk(s, s.queue[i]);
    }
  }

  lemma {:induction false} ShapeWalkEnds(s: State, t: Tid)
    requires Shape(s) && InPhase(s, t, Clear)
    ensures Shape(DoWalkClear(s, t))
  {
    var s' := DoWalkClear(s, t);
    OffQueue(s, t);
    forall i | 0 <= i < |s.queue|
      ensures QueuedOk(s', s'.queue[i])
    {
      assert QueuedOk(s, s.queue[i]);
    }
  }

  lemma {:induction false} ShapeWalkStore(s: State, t: Tid)
    requires Shape(s) && CanWalkStore(s, t)
    ensures Shape(DoWalkStore(s, t))
  {
    OffQueue(s, t);
    var s', e := DoWalkStore(s, t), Entry(s, t);
    assert QueuedOk(s, e) && TaskOk(s.tasks[e]) && e != t;
    assert Unlinking(s', e);
    forall i | 0 <= i < |s.queue|
      ensures QueuedOk(s', s'.queue[i])
    {
      assert QueuedOk(s, s.queue[i]);
    }
  }

  lemma {:induction false} UnlinkKeepsSleepers(s: State, t: Tid, u: Tid)
    requires Shape(s) && CanWalkUnlink(s, t) && t !in s.queue
    requires u < |s.tasks| && DoWalkUnlink(s, t).tasks[u].pc.Sleeping? && !DoWalkUnlink(s, t).tasks[u].flags.woken
    ensures u in DoWalkUnlink(s, t).queue
  {
    var s', n := DoWalkUnlink(s, t), s.tasks[t].pc.idx;
    var j :| 0 <= j < |s.queue| && s.queue[j] == u;
    assert QueuedOk(s, s.queue[j]);
    assert s'.queue[if j < n then j else j - 1] == u;
  }

  lemma {:induction false} UnlinkQueue(s: State, t: Tid)
    requires Shape(s) && CanWalkUnlink(s, t) && t !in s.queue
    ensures QueueOk(DoWalkUnlink(s, t))
  {
    var s', n := DoWalkUnlink(s, t), s.tasks[t].pc.idx;
    forall u | 0 <= u < |s'.tasks| && s'.tasks[u].pc.Sleeping? && !s'.tasks[u].flags.woken
      ensures u in s'.queue
    {
      UnlinkKeepsSleepers(s, t, u);
    }
    forall i | 0 <= i < |s'.queue|
      ensures s'.queue[i] < |s'.tasks| && QueuedOk(s', s'.queue[i])
    {
      assert s'.queue[i] == s.queue[if i < n then i else i + 1];
      assert QueuedOk(s, s.queue[if i < n then i else i + 1]);
    }
  }

  lemma {:induction false} ShapeWalkUnlink(s: State, t: Tid)
    requires Shape(s) && CanWalkUnlink(s, t)
    ensures Shape(DoWalkUnlink(s, t))
  {
    OffQueue(s, t);
    UnlinkQueue(s, t);
    var s', n := DoWalkUnlink(s, t), s.tasks[t].pc.idx;
    assert forall j :: 0 <= j < n ==> s'.queue[j] == s.queue[j];
    assert NoEntry(s', n, s.tasks[t].key);
  }

  lemma {:induction false} ShapeStepArriving(s: State, a: Action)
    requires Shape(s) && Enabled(s, a) && Arriving(a)
    ensures Shape(Do(s, a))
  {
    match a
    case TryLock(t, k) => if k !in s.locked { ShapeLocal(s, DoTryLock(s, t, k), t); }
    case StartWait(t, k, b, killable, budget) => ShapeLocal(s, DoStartWait(s, t, k, b, killable, budget), t);
    case LockToWait(t) => ShapeEnter(s, t);
  }

  lemma {:induction false} ShapeStepQueueing(s: State, a: Action)
    requires Shape(s) && Enabled(s, a) && Queueing(a)
    ensures Shape(Do(s, a))
  {
    match a
    case Mark(t) => ShapeEnter(s, t);
    case TryFlag(t) => ShapeEnter(s, t);
    case Add(t) => ShapeAdd(s, t);
  }

  lemma {:induction false} ShapeStepLooping(s: State, a: Action)
    requires Shape(s) && Enabled(s, a) && Looping(a)
    ensures Shape(Do(s, a))
  {
    match a
    case Observe(t) => ShapeInLoop(s, DoObserve(s, t), t);
    case Signal(t) => ShapeInLoop(s, DoSignal(s, t), t);
    case Grab(t) => ShapeInLoop(s, DoGrab(s, t), t);
  }

  lemma {:induction false} ShapeStepReturning(s: State, a: Action)
    requires Shape(s) && Enabled(s, a) && Returning(a)
    ensures Shape(Do(s, a))
  {
    match a
    case Finish(t) => ShapeFinish(s, t);
    case Leave(t) => ShapeLocal(s, DoLeave(s, t), t);
    case Unlock(t) => ShapeLocal(s, DoUnlock(s, t), t);
  }

  lemma {:induction false} ShapeStepFinding(s: State, a: Action)
    requires Shape(s) && Enabled(s, a) && Finding(a)
    ensures Shape(Do(s, a))
  {
    match a
    case LockToWake(t) => ShapeWalkBegins(s, t);
    case WalkTest(t) => ShapeWalkTest(s, t);
    case WalkTake(t) => ShapeWalkTake(s, t);
  }

  lemma {:induction false} ShapeStepServing(s: State, a: Action)
    requires Shape(s) && Enabled(s, a) && Serving(a)
    ensures Shape(Do(s, a))
  {
    match a
    case WalkStore(t) => ShapeWalkStore(s, t);
    case WalkUnlink(t) => ShapeWalkUnlink(s, t);
    case WalkClear(t) => ShapeWalkEnds(s, t);
  }

  lemma {:induction false} ShapeStep(s: State, a: Action)
    requires Shape(s) && Enabled(s, a)
    ensures Shape(Do(s, a))
  {
    if Arriving(a) {
      ShapeStepArriving(s, a);
    } else if Queueing(a) {
      ShapeStepQueueing(s, a);
    } else if Looping(a) {
      ShapeStepLooping(s, a);
    } else if Returning(a) {
      ShapeStepReturning(s, a);
    } else if Finding(a) {
      ShapeStepFinding(s, a);
    } else {
      ShapeStepServing(s, a);
    }
  }

  // ---------------------------------------------------------------- ownership

  /** Nobody's claim changes. */
  ghost predicate SameClaims(s: State, s': State) {
    && |s'.tasks| == |s.tasks| && s'.locked == s.locked && s'.owner == s.owner
    && (forall t :: 0 <= t < |s.tasks| ==>
          Claims(s', t) == Claims(s, t) && (Claims(s, t) ==> s'.tasks[t].key == s.tasks[t].key))
  }

  /** Task t, and only t, starts to claim the free bit k. */
  ghost predicate Gains(s: State, s': State, t: Tid, k: Key) {
    && t < |s'.tasks| == |s.tasks|
    && k !in s.locked && s'.locked == s.locked + {k} && s'.owner == s.owner[k := t]
    && !Claims(s, t) && Claims(s', t) && s'.tasks[t].key == k
    && (forall u :: 0 <= u < |s.tasks| && u != t ==>
          Claims(s', u) == Claims(s, u) && (Claims(s, u) ==> s'.tasks[u].key == s.tasks[u].key))
  }

  /** Task t gives up its bit. */
  ghost predicate Releases(s: State, s': State, t: Tid) {
    && t < |s'.tasks| == |s.tasks| && Claims(s, t) && !Claims(s', t)
    && s'.locked == s.locked - {s.tasks[t].key} && s'.owner == s.owner - {s.tasks[t].key}
    && (forall u :: 0 <= u < |s.tasks| && u != t ==>
          Claims(s', u) == Claims(s, u) && (Claims(s, u) ==> s'.tasks[u].key == s.tasks[u].key))
  }

  /** How a step may affect claims. */
  ghost predicate ClaimStep(s: State, s': State) {
    || SameClaims(s, s')
    || (exists t, k :: Gains(s, s', t, k))
    || (exists t :: Releases(s, s', t))
  }

  lemma {:induction false} ClaimStepKeepsOwnership(s: State, s': State)
    requires Ownership(s) && ClaimStep(s, s')
    ensures Ownership(s')
  {
    if SameClaims(s, s') {
    } else if t, k :| Gains(s, s', t, k) {
      GainKeepsOwnership(s, s', t, k);
    } else {
      var t :| Releases(s, s', t);
      ReleaseKeepsOwnership(s, s', t);
    }
  }

  lemma {:induction false} GainKeepsOwnership(s: State, s': State, t: Tid, k: Key)
    requires Ownership(s) && Gains(s, s', t, k)
    ensures Ownership(s')
  {
  }

  lemma {:induction false} ReleaseKeepsOwnership(s: State, s': State, t: Tid)
    requires Ownership(s) && Releases(s, s', t)
    ensures Ownership(s')
  {
  }

  /** Steps that leave the walk alone: only the acting task's own claim can change. */
  lemma {:induction false} ClaimsOfOthers(s: State, s': State, t: Tid)
    requires Shape(s) && t < |s.tasks| && !s.tasks[t].pc.Walking?
    requires |s'.tasks| == |s.tasks| && s'.tasks == s.tasks[t := s'.tasks[t]] && !s'.tasks[t].pc.Walking?
    requires s'.queue == s.queue || s.bucket.None? || s.bucket == Some(t)
    requires s'.bucket == s.bucket || (s.bucket in {None, Some(t)} && s'.bucket in {None, Some(t)})
    ensures forall u :: 0 <= u < |s.tasks| ==> HandingOver(s', u) == HandingOver(s, u)
    ensures forall u :: 0 <= u < |s.tasks| && u != t ==> Claims(s', u) == Claims(s, u)
    ensures HandingOver(s, t) ==> t in s.queue && s.bucket.Some?
  {
  }

  /** A step of a task on its own account. */
  lemma {:induction false} ClaimsLocal(s: State, s': State, t: Tid, k: Key)
    requires Shape(s) && t < |s.tasks| && !s.tasks[t].pc.Walking?
    requires |s'.tasks| == |s.tasks| && s'.tasks == s.tasks[t := s'.tasks[t]] && !s'.tasks[t].pc.Walking?
    requires s'.queue == s.queue || s.bucket.None? || s.bucket == Some(t)
    requires s'.bucket == s.bucket || (s.bucket in {None, Some(t)} && s'.bucket in {None, Some(t)})
    requires Claims(s, t) || (t !in s.queue || !HandingOver(s, t))
    requires if Claims(s, t) == Claims(s', t) then
               s'.locked == s.locked && s'.owner == s.owner && (Claims(s, t) ==> s'.tasks[t].key == s.tasks[t].key)
             else if Claims(s, t) then
               s'.locked == s.locked - {s.tasks[t].key} && s'.owner == s.owner - {s.tasks[t].key}
             else
               k !in s.locked && s'.tasks[t].key == k && s'.locked == s.locked + {k} && s'.owner == s.owner[k := t]
    ensures ClaimStep(s, s')
  {
    ClaimsOfOthers(s, s', t);
    if Claims(s, t) == Claims(s', t) {
      assert SameClaims(s, s');
    } else if Claims(s, t) {
      assert Releases(s, s', t);
    } else {
      assert Gains(s, s', t, k);
    }
  }

  /** Before and after this step of the walk, no hand-over is half done. */
  lemma {:induction false} ClaimsWalk(s: State, s': State, t: Tid)
    requires Shape(s) && t < |s.tasks| && s.tasks[t].behavior.Exclusive?
    requires |s'.tasks| == |s.tasks| && s'.tasks == s.tasks[t := s.tasks[t].(pc := s'.tasks[t].pc)]
    requires s'.locked == s.locked && s'.owner == s.owner
    requires s.bucket in {None, Some(t)} && s'.bucket in {None, Some(t)}
    requires var pc := s.tasks[t].pc; pc.Waking? || (pc.Walking? && !pc.phase.Store?)
    requires var pc := s'.tasks[t].pc; pc.Idle? || (pc.Walking? && pc.phase != Store(true))
    ensures SameClaims(s, s')
  {
    forall u | 0 <= u < |s.tasks| ensures !HandingOver(s, u) && !HandingOver(s', u) {
    }
  }

  lemma {:induction false} ClaimsHandoff(s: State, t: Tid)
    requires Shape(s) && InPhase(s, t, Take) && OnEntry(s, t)
    ensures var s' := DoWalkTake(s, t);
            if s.tasks[t].key in s.locked then SameClaims(s, s') else Gains(s, s', Entry(s, t), s.tasks[t].key)
  {
    OffQueue(s, t);
    var e, s' := Entry(s, t), DoWalkTake(s, t);
    assert QueuedOk(s, e) && TaskOk(s.tasks[e]) && e != t;
    forall u | 0 <= u < |s.tasks|
      ensures !HandingOver(s, u) && (HandingOver(s', u) <==> u == e && s.tasks[t].key !in s.locked)
    {
    }
  }

  lemma {:induction false} ClaimsStore(s: State, t: Tid)
    requires Shape(s) && CanWalkStore(s, t)
    ensures SameClaims(s, DoWalkStore(s, t))
  {
    OffQueue(s, t);
    var e, s' := Entry(s, t), DoWalkStore(s, t);
    assert QueuedOk(s, e) && TaskOk(s.tasks[e]) && e != t;
    forall u | 0 <= u < |s.tasks|
      ensures !HandingOver(s', u) && (HandingOver(s, u) <==> u == e && s.tasks[t].pc.phase.done)
    {
    }
  }

  lemma {:induction false} ClaimsStepArriving(s: State, a: Action)
    requires Shape(s) && Enabled(s, a) && Arriving(a)
    ensures ClaimStep(s, Do(s, a))
  {
    match a
    case TryLock(t, k) =>
      OffQueue(s, t);
      if k !in s.locked { ClaimsLocal(s, DoTryLock(s, t, k), t, k); }
    case StartWait(t, k, b, killable, budget) =>
      OffQueue(s, t);
      ClaimsLocal(s, DoStartWait(s, t, k, b, killable, budget), t, k);
    case LockToWait(t) => ClaimsLocal(s, DoLockToWait(s, t), t, s.tasks[t].key);
  }

  lemma {:induction false} ClaimsStepQueueing(s: State, a: Action)
    requires Shape(s) && Enabled(s, a) && Queueing(a)
    ensures ClaimStep(s, Do(s, a))
  {
    match a
    case Mark(t) =>
      OffQueue(s, t);
      ClaimsLocal(s, DoMark(s, t), t, s.tasks[t].key);
    case TryFlag(t) =>
      OffQueue(s, t);
      ClaimsLocal(s, DoTryFlag(s, t), t, s.tasks[t].key);
    case Add(t) =>
      OffQueue(s, t);
      ClaimsLocal(s, DoAdd(s, t), t, s.tasks[t].key);
  }

  lemma {:induction false} ClaimsStepLooping(s: State, a: Action)
    requires Shape(s) && Enabled(s, a) && Looping(a)
    ensures ClaimStep(s, Do(s, a))
  {
    match a
    case Observe(t) => ClaimsObserve(s, t);
    case Signal(t) => ClaimsOfOthers(s, DoSignal(s, t), t);
    case Grab(t) => ClaimsGrab(s, t);
  }

  lemma {:induction false} ClaimsStepReturning(s: State, a: Action)
    requires Shape(s) && Enabled(s, a) && Returning(a)
    ensures ClaimStep(s, Do(s, a))
  {
    match a
    case Finish(t) => ClaimsFinish(s, t);
    case Leave(t) =>
      OffQueue(s, t);
      ClaimsLocal(s, DoLeave(s, t), t, s.tasks[t].key);
    case Unlock(t) =>
      OffQueue(s, t);
      ClaimsLocal(s, DoUnlock(s, t), t, s.tasks[t].key);
  }

  lemma {:induction false} ClaimsStepFinding(s: State, a: Action)
    requires Shape(s) && Enabled(s, a) && Finding(a)
    ensures ClaimStep(s, Do(s, a))
  {
    match a
    case LockToWake(t) => ClaimsWalk(s, DoLockToWake(s, t), t);
    case WalkTest(t) => ClaimsWalk(s, DoWalkTest(s, t), t);
    case WalkTake(t) => ClaimsHandoff(s, t);
  }

  lemma {:induction false} ClaimsStepServing(s: State, a: Action)
    requires Shape(s) && Enabled(s, a) && Serving(a)
    ensures ClaimStep(s, Do(s, a))
  {
    match a
    case WalkStore(t) => ClaimsStore(s, t);
    case WalkUnlink(t) => ClaimsWalk(s, DoWalkUnlink(s, t), t);
    case WalkClear(t) => ClaimsWalk(s, DoWalkClear(s, t), t);
  }

  lemma {:induction false} ClaimsStep(s: State, a: Action)
    requires Shape(s) && Enabled(s, a)
    ensures ClaimStep(s, Do(s, a))
  {
    if Arriving(a) {
      ClaimsStepArriving(s, a);
    } else if Queueing(a) {
      ClaimsStepQueueing(s, a);
    } else if Looping(a) {
      ClaimsStepLooping(s, a);
    } else if Returning(a) {
      ClaimsStepReturning(s, a);
    } else if Finding(a) {
      ClaimsStepFinding(s, a);
    } else {
      ClaimsStepServing(s, a);
    }
  }

  lemma {:induction false} ClaimsObserve(s: State, t: Tid)
    requires Shape(s) && CanObserve(s, t)
    ensures SameClaims(s, DoObserve(s, t))
  {
    ClaimsOfOthers(s, DoObserve(s, t), t);
  }

  lemma {:induction false} ClaimsGrab(s: State, t: Tid)
    requires Shape(s) && AtPc(s, t, Grabbing)
    ensures var s' := DoGrab(s, t);
            if s.tasks[t].key in s.locked then SameClaims(s, s') else Gains(s, s', t, s.tasks[t].key)
  {
    ClaimsOfOthers(s, DoGrab(s, t), t);
  }

  lemma {:induction false} ClaimsFinish(s: State, t: Tid)
    requires Shape(s) && CanFinish(s, t)
    ensures SameClaims(s, DoFinish(s, t))
  {
    if t !in s.queue {
      WithoutAbsent(s.queue, t);
    }
    ClaimsOfOthers(s, DoFinish(s, t), t);
  }

  // ---------------------------------------------------------------- wakeups

  /** A wakeup that was carried away is forgotten only when its bit is set again. */
  ghost predicate Recalls(s: State, s': State) {
    forall k :: k in s.eaten ==> k in s'.eaten || k in s'.locked
  }

  /** Task t's step keeps every wakeup, provided it passes on what it was itself holding up. */
  lemma {:induction false} WakeupFrame(s: State, s': State, t: Tid)
    requires NoLostWakeup(s) && t < |s.tasks| == |s'.tasks| && Recalls(s, s')
    requires forall u, k :: 0 <= u < |s.tasks| && u != t && Entrusted(s.tasks[u], k) ==> Entrusted(s'.tasks[u], k)
    requires forall u :: 0 <= u < |s.tasks| && Unwoken(s', u) ==>
               s'.tasks[u].key == s.tasks[u].key && (Unwoken(s, u) || s.tasks[u].key in s'.locked)
    requires forall u :: 0 <= u < |s.tasks| && Unwoken(s', u) && Unwoken(s, u)
                         && (s.tasks[u].key in s.locked || Entrusted(s.tasks[t], s.tasks[u].key)) ==>
               Attended(s', s.tasks[u].key)
    ensures NoLostWakeup(s')
  {
    forall u | 0 <= u < |s.tasks| && Unwoken(s', u)
      ensures Attended(s', s'.tasks[u].key)
    {
      var k := s.tasks[u].key;
      if Unwoken(s, u) && k !in s.locked && k !in s.eaten && !Entrusted(s.tasks[t], k) {
        var v :| 0 <= v < |s.tasks| && Entrusted(s.tasks[v], k);
        assert Entrusted(s'.tasks[v], k);
      }
    }
  }

  /** The same for a task that neither clears a bit nor is anybody's hope. */
  lemma {:induction false} WakeupLocal(s: State, s': State, t: Tid)
    requires NoLostWakeup(s) && t < |s.tasks| == |s'.tasks| && Recalls(s, s') && s.locked <= s'.locked
    requires s'.tasks == s.tasks[t := s'.tasks[t]]
    requires forall k :: Entrusted(s.tasks[t], k) ==> Entrusted(s'.tasks[t], k) || k in s'.locked || k in s'.eaten
    requires s'.queue == s.queue || s'.queue == Without(s.queue, t)
             || (s.tasks[t].pc.Adding? && s'.queue == s.queue + [t])
    requires Distinct(s.queue)
    requires Unwoken(s', t) ==> s'.tasks[t].key == s.tasks[t].key && (Unwoken(s, t) || s.tasks[t].key in s'.locked)
    ensures NoLostWakeup(s')
  {
    WithoutElements(s.queue, t);
    forall u | 0 <= u < |s.tasks| && Unwoken(s', u) && Unwoken(s, u)
               && (s.tasks[u].key in s.locked || Entrusted(s.tasks[t], s.tasks[u].key))
      ensures Attended(s', s.tasks[u].key)
    {
      assert Entrusted(s'.tasks[t], s.tasks[u].key) || s.tasks[u].key in s'.locked || s.tasks[u].key in s'.eaten;
    }
    WakeupFrame(s, s', t);
  }

  /** The unlocker sees the waiters bit, so it turns to the queue. */
  lemma {:induction false} WakeupUnlock(s: State, t: Tid)
    requires Inv(s) && Holds(s, t)
    ensures NoLostWakeup(DoUnlock(s, t))
  {
    var s' := DoUnlock(s, t);
    forall u | 0 <= u < |s.tasks| && Unwoken(s', u) && Unwoken(s, u)
               && (s.tasks[u].key in s.locked || Entrusted(s.tasks[t], s.tasks[u].key))
      ensures Attended(s', s.tasks[u].key)
    {
      if s.tasks[u].key == s.tasks[t].key {
        if u in s.queue {
          var i :| 0 <= i < |s.queue| && s.queue[i] == u;
          assert QueuedOk(s, s.queue[i]);
        }
        assert Entrusted(s'.tasks[t], s.tasks[u].key);
      }
    }
    WakeupFrame(s, s', t);
  }

  /** A walk that has passed every entry leaves no waiter for its key behind. */
  lemma {:induction false} WakeupWalkTest(s: State, t: Tid)
    requires Inv(s) && InPhase(s, t, Test)
    ensures NoLostWakeup(DoWalkTest(s, t))
  {
    var s', k := DoWalkTest(s, t), s.tasks[t].key;
    forall u | 0 <= u < |s.tasks| && Unwoken(s', u) && Unwoken(s, u)
               && (s.tasks[u].key in s.locked || Entrusted(s.tasks[t], s.tasks[u].key))
      ensures Attended(s', s.tasks[u].key)
    {
      if s.tasks[u].key == k && k !in s.locked {
        assert s.bucket == Some(t) && u in s.queue;
        assert OnEntry(s, t);
        assert Entrusted(s'.tasks[t], k);
      }
    }
    WakeupFrame(s, s', t);
  }

  /** What the walk publishes is either the bit itself or a waiter that will try it. */
  lemma {:induction false} WakeupWalkStore(s: State, t: Tid)
    requires Inv(s) && CanWalkStore(s, t)
    ensures NoLostWakeup(DoWalkStore(s, t))
  {
    OffQueue(s, t);
    var s', k, e := DoWalkStore(s, t), s.tasks[t].key, Entry(s, t);
    assert QueuedOk(s, e) && TaskOk(s.tasks[e]) && e != t;
    assert s.tasks[t].pc.phase.done ==> HandingOver(s, e) && Claims(s, e);
    assert s.tasks[t].pc.phase.done || Entrusted(s'.tasks[e], k) || Entrusted(s'.tasks[t], k);
    WakeupFrame(s, s', t);
  }

  lemma {:induction false} WakeupWalkUnlink(s: State, t: Tid)
    requires Inv(s) && CanWalkUnlink(s, t)
    ensures NoLostWakeup(DoWalkUnlink(s, t))
  {
    var s', k := DoWalkUnlink(s, t), s.tasks[t].key;
    assert Entrusted(s.tasks[t], k) ==> Entrusted(s'.tasks[t], k);
    forall u | 0 <= u < |s.tasks| && Unwoken(s', u)
      ensures s'.tasks[u].key == s.tasks[u].key && Unwoken(s, u)
    {
    }
    WakeupFrame(s, s', t);
  }

  lemma {:induction false} WakeupStepArriving(s: State, a: Action)
    requires Inv(s) && Enabled(s, a) && Arriving(a)
    ensures NoLostWakeup(Do(s, a))
  {
    match a
    case TryLock(t, k) => if k !in s.locked { WakeupLocal(s, DoTryLock(s, t, k), t); }
    case StartWait(t, k, b, killable, budget) => WakeupLocal(s, DoStartWait(s, t, k, b, killable, budget), t);
    case LockToWait(t) => WakeupLocal(s, DoLockToWait(s, t), t);
  }

  lemma {:induction false} WakeupStepQueueing(s: State, a: Action)
    requires Inv(s) && Enabled(s, a) && Queueing(a)
    ensures NoLostWakeup(Do(s, a))
  {
    match a
    case Mark(t) => WakeupLocal(s, DoMark(s, t), t);
    case TryFlag(t) => WakeupLocal(s, DoTryFlag(s, t), t);
    case Add(t) => WakeupLocal(s, DoAdd(s, t), t);
  }

  lemma {:induction false} WakeupStepLooping(s: State, a: Action)
    requires Inv(s) && Enabled(s, a) && Looping(a)
    ensures NoLostWakeup(Do(s, a))
  {
    match a
    case Observe(t) => WakeupLocal(s, DoObserve(s, t), t);
    case Signal(t) => WakeupLocal(s, DoSignal(s, t), t);
    case Grab(t) => WakeupLocal(s, DoGrab(s, t), t);
  }

  lemma {:induction false} WakeupStepReturning(s: State, a: Action)
    requires Inv(s) && Enabled(s, a) && Returning(a)
    ensures NoLostWakeup(Do(s, a))
  {
    match a
    case Finish(t) => WakeupLocal(s, DoFinish(s, t), t);
    case Leave(t) => WakeupLocal(s, DoLeave(s, t), t);
    case Unlock(t) => WakeupUnlock(s, t);
  }

  lemma {:induction false} WakeupStepFinding(s: State, a: Action)
    requires Inv(s) && Enabled(s, a) && Finding(a)
    ensures NoLostWakeup(Do(s, a))
  {
    match a
    case LockToWake(t) => WakeupLocal(s, DoLockToWake(s, t), t);
    case WalkTest(t) => WakeupWalkTest(s, t);
    case WalkTake(t) => WakeupLocal(s, DoWalkTake(s, t), t);
  }

  lemma {:induction false} WakeupStepServing(s: State, a: Action)
    requires Inv(s) && Enabled(s, a) && Serving(a)
    ensures NoLostWakeup(Do(s, a))
  {
    match a
    case WalkStore(t) => WakeupWalkStore(s, t);
    case WalkUnlink(t) => WakeupWalkUnlink(s, t);
    case WalkClear(t) => WakeupLocal(s, DoWalkClear(s, t), t);
  }

  lemma {:induction false} WakeupStep(s: State, a: Action)
    requires Inv(s) && Enabled(s, a)
    ensures NoLostWakeup(Do(s, a))
  {
    if Arriving(a) {
      WakeupStepArriving(s, a);
    } else if Queueing(a) {
      WakeupStepQueueing(s, a);
    } else if Looping(a) {
      WakeupStepLooping(s, a);
    } else if Returning(a) {
      WakeupStepReturning(s, a);
    } else if Finding(a) {
      WakeupStepFinding(s, a);
    } else {
      WakeupStepServing(s, a);
    }
  }

  // ---------------------------------------------------------------- all runs

  lemma {:induction false} InvStep(s: State, a: Action)
    requires Inv(s) && Enabled(s, a)
    ensures Inv(Do(s, a))
  {
    ShapeStep(s, a);
    ClaimsStep(s, a);
    ClaimStepKeepsOwnership(s, Do(s, a));
    WakeupStep(s, a);
  }

  lemma {:induction false} InvRun(s: State, run: seq<Action>)
    requires Inv(s) && IsRun(s, run)
    ensures Inv(Exec(s, run))
    decreases run
  {
    if run != [] {
      InvStep(s, run[0]);
      InvRun(Do(s, run[0]), run[1..]);
    }
  }

  /** The state a run of the protocol from rest ends in. */
  ghost predicate Reachable(s: State) {
    exists s0, run :: Init(s0) && IsRun(s0, run) && Exec(s0, run) == s
  }

  lemma {:induction false} ReachableInv(s: State)
    requires Reachable(s)
    ensures Inv(s)
  {
    var s0, run :| Init(s0) && IsRun(s0, run) && Exec(s0, run) == s;
    InvRun(s0, run);
  }

  /** Mutual exclusion: two tasks never both come back with the same bit. */
  lemma {:induction false} AtMostOneOwner(s: State, t: Tid, u: Tid)
    requires Reachable(s) && t < |s.tasks| && u < |s.tasks|
    requires s.tasks[t].behavior.Exclusive? && s.tasks[t].pc == Returned(true)
    requires s.tasks[u].behavior.Exclusive? && s.tasks[u].pc == Returned(true)
    requires s.tasks[t].key == s.tasks[u].key
    ensures t == u
  {
    ReachableInv(s);
    assert Claims(s, t) && Claims(s, u);
  }

  /** An exclusive call returns 0 exactly when the bit was set on its behalf and not cleared since:
      a hand-off that races with a signal is kept, and -EINTR never leaves the bit behind. */
  lemma {:induction false} ReturnsZeroIffOwner(s: State, t: Tid)
    requires Reachable(s) && t < |s.tasks| && s.tasks[t].behavior.Exclusive? && s.tasks[t].pc.Returned?
    ensures s.tasks[t].pc.ok <==> s.tasks[t].key in s.owner && s.owner[s.tasks[t].key] == t
    ensures s.tasks[t].pc.ok ==> s.tasks[t].key in s.locked
    ensures !s.tasks[t].pc.ok ==> t !in s.owner.Values
  {
    ReachableInv(s);
    OffQueue(s, t);
    assert Claims(s, t) <==> s.tasks[t].pc.ok;
  }

  /** No set bit is leaked: its one claimant has returned 0, or is bound to. */
  lemma {:induction false} SetBitHasOneClaimant(s: State, k: Key)
    requires Reachable(s) && k in s.locked
    ensures exists t :: 0 <= t < |s.tasks| && Claims(s, t) && s.tasks[t].key == k
    ensures forall t, u ::
              (&& 0 <= t < |s.tasks| && Claims(s, t) && s.tasks[t].key == k
               && 0 <= u < |s.tasks| && Claims(s, u) && s.tasks[u].key == k) ==> t == u
  {
    ReachableInv(s);
    assert Claims(s, s.owner[k]) && s.tasks[s.owner[k]].key == k;
  }

  /** A claim once made ends only in the claimant's own unlock. */
  lemma {:induction false} ClaimIsKept(s: State, a: Action, t: Tid)
    requires Reachable(s) && Enabled(s, a) && t < |s.tasks| && Claims(s, t) && a != Unlock(t)
    ensures t < |Do(s, a).tasks| && Claims(Do(s, a), t) && Do(s, a).tasks[t].key == s.tasks[t].key
  {
    ReachableInv(s);
    if a.Unlock? {
      OffQueue(s, a.t);
      ClaimsOfOthers(s, DoUnlock(s, a.t), a.t);
    } else {
      ClaimsStep(s, a);
      OnlyUnlockReleases(s, a);
      KeptUnlessReleased(s, Do(s, a), t);
    }
  }

  lemma {:induction false} OnlyUnlockReleases(s: State, a: Action)
    requires Enabled(s, a) && !a.Unlock?
    ensures s.owner.Keys <= Do(s, a).owner.Keys
  {
  }

  lemma {:induction false} KeptUnlessReleased(s: State, s': State, t: Tid)
    requires Ownership(s) && ClaimStep(s, s') && s.owner.Keys <= s'.owner.Keys
    requires t < |s.tasks| && Claims(s, t)
    ensures t < |s'.tasks| && Claims(s', t) && s'.tasks[t].key == s.tasks[t].key
  {
  }

  /** Somebody is going to try bit k. */
  ghost predicate Hope(s: State, k: Key) {
    exists u :: 0 <= u < |s.tasks| && WillTry(s.tasks[u], k)
  }

  /** A signal has carried the wakeup for k away, or is about to. */
  ghost predicate CarriedAway(s: State, k: Key) {
    k in s.eaten || exists u :: 0 <= u < |s.tasks| && Departing(s.tasks[u], k)
  }

  /** Some waiter for k is unwoken with the bit clear and nobody going to try it. */
  ghost predicate Stranded(s: State, k: Key) {
    && k !in s.locked && !Hope(s, k)
    && exists t :: 0 <= t < |s.tasks| && Unwoken(s, t) && s.tasks[t].key == k
  }

  lemma {:induction false} UnwokenIsMarked(s: State, t: Tid)
    requires Shape(s) && t < |s.tasks| && Unwoken(s, t)
    ensures s.tasks[t].key.folio in s.waiters
  {
    if t in s.queue {
      var i :| 0 <= i < |s.queue| && s.queue[i] == t;
      assert QueuedOk(s, s.queue[i]);
    }
  }

  /** For every unwoken waiter the waiters bit stands, and its bit is set or somebody is going to try it, unless
      an exclusive waiter that left on a signal was woken in its place since the bit was last set. */
  lemma {:induction false} WakeupsAreNotLost(s: State, t: Tid)
    requires Reachable(s) && t < |s.tasks| && Unwoken(s, t)
    ensures var k := s.tasks[t].key;
            k.folio in s.waiters && (k in s.locked || Hope(s, k) || CarriedAway(s, k))
  {
    ReachableInv(s);
    UnwokenIsMarked(s, t);
    var k := s.tasks[t].key;
    assert Attended(s, k);
    if k !in s.locked && k !in s.eaten {
      var u :| 0 <= u < |s.tasks| && Entrusted(s.tasks[u], k);
      assert WillTry(s.tasks[u], k) || Departing(s.tasks[u], k);
    }
  }

  /** Out of the loop without a signal means woken, and with the bit if it was asked for. */
  ghost predicate Undisturbed(s: State) {
    && s.eaten == {}
    && (forall t :: 0 <= t < |s.tasks| && s.tasks[t].pc.Finishing? ==>
          s.tasks[t].flags.woken && (s.tasks[t].behavior.Exclusive? ==> s.tasks[t].flags.done))
  }

  lemma {:induction false} UndisturbedStep(s: State, a: Action)
    requires Shape(s) && Undisturbed(s) && Enabled(s, a) && !a.Signal?
    ensures Undisturbed(Do(s, a))
  {
    if Arriving(a) || Queueing(a) {
      UndisturbedEntering(s, a);
    } else if Looping(a) || Returning(a) {
      UndisturbedInLoop(s, a);
    } else if Finding(a) {
      UndisturbedFinding(s, a);
    } else {
      UndisturbedServing(s, a);
    }
  }

  lemma {:induction false} UndisturbedEntering(s: State, a: Action)
    requires Shape(s) && Undisturbed(s) && Enabled(s, a) && (Arriving(a) || Queueing(a))
    ensures Undisturbed(Do(s, a))
  {
  }

  lemma {:induction false} UndisturbedInLoop(s: State, a: Action)
    requires Shape(s) && Undisturbed(s) && Enabled(s, a) && (Looping(a) || Returning(a)) && !a.Signal?
    ensures Undisturbed(Do(s, a))
  {
  }

  lemma {:induction false} UndisturbedFinding(s: State, a: Action)
    requires Shape(s) && Undisturbed(s) && Enabled(s, a) && Finding(a)
    ensures Undisturbed(Do(s, a))
  {
  }

  lemma {:induction false} UndisturbedServing(s: State, a: Action)
    requires Shape(s) && Undisturbed(s) && Enabled(s, a) && Serving(a)
    ensures Undisturbed(Do(s, a))
  {
  }

  lemma {:induction false} UndisturbedRun(s: State, run: seq<Action>)
    requires Inv(s) && Undisturbed(s) && IsRun(s, run)
    requires forall i :: 0 <= i < |run| ==> !run[i].Signal?
    ensures Undisturbed(Exec(s, run))
    decreases run
  {
    if run != [] {
      assert !run[0].Signal?;
      InvStep(s, run[0]);
      UndisturbedStep(s, run[0]);
      UndisturbedRun(Do(s, run[0]), run[1..]);
    }
  }

  /** With no waiter interrupted no wakeup is ever lost: the waiters bit stands, and the bit is set or somebody is
      going to try it. */
  lemma {:induction false} NoSignalNoLostWakeup(s0: State, run: seq<Action>, t: Tid)
    requires Init(s0) && IsRun(s0, run)
    requires forall i :: 0 <= i < |run| ==> !run[i].Signal?
    requires t < |Exec(s0, run).tasks| && Unwoken(Exec(s0, run), t)
    ensures var s := Exec(s0, run);
            var k := s.tasks[t].key;
            k.folio in s.waiters && (k in s.locked || Hope(s, k))
  {
    var s := Exec(s0, run);
    InitInv(s0);
    UndisturbedRun(s0, run);
    assert Reachable(s);
    WakeupsAreNotLost(s, t);
  }

  lemma {:induction false} InitInv(s: State)
    requires Init(s)
    ensures Inv(s)
  {
  }

  /** An exclusive waiter goes back to `repeat' at most sysctl_page_lock_unfairness times:
      from then on it waits with CUSTOM set, and whoever wakes it brings the lock along. */
  lemma {:induction false} RequeuesAreBounded(s: State, t: Tid)
    requires Reachable(s) && t < |s.tasks| && InCall(s.tasks[t].pc)
    ensures s.tasks[t].repeats <= s.tasks[t].budget
    ensures s.tasks[t].behavior.Exclusive? && s.tasks[t].repeats == s.tasks[t].budget ==>
              s.tasks[t].flags.custom && (s.tasks[t].flags.woken ==> s.tasks[t].flags.done)
  {
    ReachableInv(s);
    assert TaskOk(s.tasks[t]);
  }

  /** The steps the protocol itself takes, with no new call and no signal. */
  predicate Internal(a: Action) {
    !(a.TryLock? || a.StartWait? || a.Signal?)
  }

  lemma {:induction false} BucketHolderMoves(s: State) returns (a: Action)
    requires Inv(s) && s.bucket.Some?
    ensures Internal(a) && Enabled(s, a)
  {
    var h := s.bucket.value;
    assert HoldsBucket(s.tasks[h].pc);
    match s.tasks[h].pc
    case Marking => a := Mark(h);
    case Trying => a := TryFlag(h);
    case Adding => a := Add(h);
    case Walking(_, _, phase) =>
      match phase {
        case Test => a := WalkTest(h);
        case Take => a := WalkTake(h);
        case Store(_) => a := WalkStore(h);
        case Unlink(_) => a := WalkUnlink(h);
        case Clear => a := WalkClear(h);
      }
  }

  /** A waiter that is not stranded is never stuck: the protocol has a step to take. */
  lemma {:induction false} NeverStuck(s: State, t: Tid) returns (a: Action)
    requires Reachable(s) && t < |s.tasks| && Unwoken(s, t) && s.tasks[t].key !in s.eaten
    ensures Internal(a) && Enabled(s, a)
  {
    ReachableInv(s);
    if s.bucket.Some? {
      a := BucketHolderMoves(s);
    } else {
      var k := s.tasks[t].key;
      assert Attended(s, k);
      var u: Tid;
      if k in s.locked {
        u := s.owner[k];
        assert Claims(s, u) && !HandingOver(s, u) && TaskOk(s.tasks[u]);
      } else {
        u :| 0 <= u < |s.tasks| && Entrusted(s.tasks[u], k);
        assert s.bucket != Some(u);
      }
      match s.tasks[u].pc
      case Sleeping => a := Observe(u);
      case Grabbing => a := Grab(u);
      case Finishing => a := Finish(u);
      case Waking => a := LockToWake(u);
      case Returned(_) => a := Unlock(u);
    }
  }

  lemma {:induction false} RunSnoc(s: State, run: seq<Action>, a: Action)
    requires IsRun(s, run) && Enabled(Exec(s, run), a)
    ensures IsRun(s, run + [a]) && Exec(s, run + [a]) == Do(Exec(s, run), a)
    decreases run
  {
    if run == [] {
      assert run + [a] == [a];
    } else {
      assert (run + [a])[1..] == run[1..] + [a];
      RunSnoc(Do(s, run[0]), run[1..], a);
    }
  }

  /** Reachable states are closed under steps. */
  lemma {:induction false} Then(s: State, a: Action) returns (s': State)
    requires Reachable(s) && Enabled(s, a)
    ensures s' == Do(s, a) && Reachable(s')
  {
    var s0, run :| Init(s0) && IsRun(s0, run) && Exec(s0, run) == s;
    RunSnoc(s0, run, a);
    s' := Do(s, a);
  }

  /** Task t asks for the locked bit k, exclusively, and goes to sleep on the queue. */
  lemma {:induction false} Enqueue(s: State, t: Tid, k: Key) returns (s': State)
    requires Reachable(s) && t < |s.tasks| && s.tasks[t].pc.Idle? && s.bucket.None? && k in s.locked
    ensures Reachable(s')
    ensures s' == s.(
              tasks := s.tasks[t := Task(Sleeping, k, Exclusive, true, 5, 4, 0, FreshFlags(Exclusive, 4))],
              waiters := s.waiters + {k.folio}, queue := s.queue + [t])
  {
    s' := Then(s, StartWait(t, k, Exclusive, true, 5));
    assert s' == DoStartWait(s, t, k, Exclusive, true, 5);
    s' := QueueUp(s', t);
  }

  /** ... from the bucket lock on. */
  lemma {:induction false} QueueUp(s: State, t: Tid) returns (s': State)
    requires Reachable(s) && AtPc(s, t, Locking) && s.bucket.None? && s.tasks[t].key in s.locked
    ensures Reachable(s')
    ensures s' == s.(tasks := s.tasks[t := s.tasks[t].(pc := Sleeping)],
                     waiters := s.waiters + {s.tasks[t].key.folio}, queue := s.queue + [t])
  {
    var s1 := Then(s, LockToWait(t));
    assert s1 == SetPc(s, t, Marking).(bucket := Some(t));
    var s2 := Then(s1, Mark(t));
    assert s2 == SetPc(s1, t, Trying).(waiters := s.waiters + {s.tasks[t].key.folio});
    var s3 := Then(s2, TryFlag(t));
    assert s3 == SetPc(s2, t, Adding);
    s' := Then(s3, Add(t));
    assert s' == SetPc(s3, t, Sleeping).(queue := s.queue + [t], bucket := None);
  }

  /** The unlocker t clears the bit and takes the bucket lock. */
  lemma {:induction false} TurnToQueue(s: State, t: Tid) returns (s': State)
    requires Reachable(s) && Holds(s, t) && s.bucket.None? && s.tasks[t].key.folio in s.waiters
    ensures Reachable(s')
    ensures s' == s.(
              tasks := s.tasks[t := s.tasks[t].(pc := Walking(0, false, Test))], bucket := Some(t),
              locked := s.locked - {s.tasks[t].key}, owner := s.owner - {s.tasks[t].key})
  {
    var s1 := Then(s, Unlock(t));
    assert s1 == DoUnlock(s, t) && s1.tasks[t].pc.Waking?;
    s' := Then(s1, LockToWake(t));
    assert s' == DoLockToWake(s1, t);
  }

  /** The walk finds a waiter for its key, which asked without hand-off, at the front. */
  lemma {:induction false} FindFirst(s: State, t: Tid) returns (s': State)
    requires Reachable(s) && AtPc(s, t, Walking(0, false, Test)) && s.queue != [] && s.tasks[t].key !in s.locked
    requires var e := s.queue[0];
             e < |s.tasks| && e != t && s.tasks[e].key == s.tasks[t].key
             && s.tasks[e].flags == Flags(true, false, false, false)
    ensures Reachable(s') && s' == SetPc(s, t, Walking(0, true, Store(false)))
  {
    s' := Then(s, WalkTest(t));
    assert s' == DoWalkTest(s, t) && OnEntry(s, t) && Entry(s, t) == s.queue[0];
  }

  lemma {:induction false} WakeFound(s: State, t: Tid) returns (s': State)
    requires Reachable(s) && t < |s.tasks| && s.bucket == Some(t) && |s.queue| >= 2
    requires s.tasks[t].pc == Walking(0, true, Store(false))
    requires var e := s.queue[0];
             e < |s.tasks| && e != t && s.tasks[e].flags == Flags(true, false, false, false)
    ensures Reachable(s')
    ensures var e := s.queue[0];
            s' == s.(
              tasks := s.tasks[e := s.tasks[e].(flags := Flags(true, false, true, false))]
                              [t := s.tasks[t].(pc := Walking(0, true, Clear))],
              queue := s.queue[1..])
  {
    s' := Then(s, WalkStore(t));
    assert s' == DoWalkStore(s, t) && s'.tasks[t].pc == Walking(0, true, Unlink(true));
    s' := Then(s', WalkUnlink(t));
    assert s'.queue == s.queue[1..];
  }

  lemma {:induction false} EndWalk(s: State, t: Tid) returns (s': State)
    requires Reachable(s) && t < |s.tasks| && |s.queue| >= 1 && s.tasks[t].pc == Walking(0, true, Clear)
    ensures Reachable(s') && s' == SetPc(s, t, Idle).(bucket := None)
  {
    s' := Then(s, WalkClear(t));
  }

  /** A task that waits for k without hand-off, or is on its way out. */
  predicate Waiter(p: Task, k: Key, pc: Pc, woken: bool) {
    p.key == k && p.behavior.Exclusive? && p.killable && p.flags == Flags(true, false, woken, false) && p.pc == pc
  }

  /** Tasks 1, at pc, and 2 wait for the bit that task 0 holds. */
  predicate TwoWait(s: State, k: Key, pc: Pc) {
    && |s.tasks| == 3 && s.queue == [1, 2] && s.bucket.None? && s.locked == {k} && k.folio in s.waiters
    && Holds(s, 0) && s.tasks[0].key == k && Waiter(s.tasks[1], k, pc, false) && Waiter(s.tasks[2], k, Sleeping, false)
  }

  /** Three tasks, the first of which holds the bit. */
  lemma {:induction false} OneHolds(k: Key) returns (s: State)
    ensures Reachable(s) && |s.tasks| == 3 && s.queue == [] && s.bucket.None? && s.locked == {k}
    ensures s.tasks[0].pc == Returned(true) && s.tasks[0].key == k && s.tasks[0].behavior.Exclusive?
    ensures s.tasks[1].pc.Idle? && s.tasks[2].pc.Idle?
  {
    var idle := Task(Idle, k, Exclusive, false, 0, 0, 0, Flags(false, false, false, false));
    var s0 := State([idle, idle, idle], {}, {}, [], None, map[], {});
    assert IsRun(s0, []) && Exec(s0, []) == s0 && Init(s0);
    s := Then(s0, TryLock(0, k));
    assert s == DoTryLock(s0, 0, k);
  }

  lemma {:induction false} BothWait(k: Key) returns (s: State)
    ensures Reachable(s) && TwoWait(s, k, Sleeping)
  {
    var s1 := OneHolds(k);
    var s2 := Enqueue(s1, 1, k);
    assert s2.queue == [1] && s2.tasks[0] == s1.tasks[0] && s2.tasks[2] == s1.tasks[2];
    s := Enqueue(s2, 2, k);
    assert s.queue == [1, 2] && s.tasks[0] == s1.tasks[0] && s.tasks[1] == s2.tasks[1];
  }

  /** Task 1 sees a signal. */
  lemma {:induction false} Interrupted(k: Key) returns (s: State)
    ensures Reachable(s) && TwoWait(s, k, Finishing)
  {
    var s1 := BothWait(k);
    s := Then(s1, Signal(1));
    assert s == SetPc(s1, 1, Finishing);
  }

  /** The bit is clear, task 1 is on its way out and task 2 sleeps, while task 0 is at pc. */
  predicate Late(s: State, k: Key, q: seq<Tid>, pc: Pc, woken: bool) {
    && |s.tasks| == 3 && s.queue == q && s.locked == {}
    && s.tasks[0].pc == pc && s.tasks[0].key == k && s.tasks[0].behavior.Exclusive?
    && Waiter(s.tasks[1], k, Finishing, woken) && Waiter(s.tasks[2], k, Sleeping, false)
  }

  /** ... and is then found by the walk, */
  lemma {:induction false} FoundTooLate(k: Key) returns (s: State)
    ensures Reachable(s) && Late(s, k, [1, 2], Walking(0, true, Store(false)), false) && s.bucket == Some(0)
  {
    var s1 := Interrupted(k);
    var s2 := TurnToQueue(s1, 0);
    assert Late(s2, k, [1, 2], Walking(0, false, Test), false) && s2.bucket == Some(0);
    s := FindFirst(s2, 0);
  }

  /** ... chosen as the one waiter to wake. */
  lemma {:induction false} ChosenTooLate(k: Key) returns (s: State)
    ensures Reachable(s) && Late(s, k, [2], Idle, true) && s.bucket.None?
  {
    var s1 := FoundTooLate(k);
    var s2 := WakeFound(s1, 0);
    assert s2.queue == [2] && Late(s2, k, [2], Walking(0, true, Clear), true);
    s := EndWalk(s2, 0);
  }

  /** Once task 1 has finished, nobody is left to wake task 2. */
  lemma {:induction false} NobodyLeft(s: State, k: Key)
    requires Late(s, k, [2], Idle, true) && s.bucket.None?
    ensures Stranded(DoFinish(s, 1), k) && DoFinish(s, 1).tasks[1].pc == Returned(false)
  {
    WithoutAbsent(s.queue, 1);
    assert Unwoken(DoFinish(s, 1), 2);
  }

  /** The exception is real: task 1 is interrupted, is then chosen as the one waiter to wake,
      returns -EINTR, and task 2 sleeps on with the bit clear. */
  lemma {:induction false} SignalCanStrand(k: Key) returns (s: State)
    ensures Reachable(s) && Stranded(s, k)
    ensures |s.tasks| == 3 && s.tasks[1].pc == Returned(false)
  {
    var s1 := ChosenTooLate(k);
    NobodyLeft(s1, k);
    s := Then(s1, Finish(1));
    assert s == DoFinish(s1, 1);
  }
}
