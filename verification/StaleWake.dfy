/**
 * When a shared wait can return 0 although its bit was never clear during the call: exactly when somebody who cleared
 * the bit before is still on the way to its waiters, the bit has been set again, and no exclusive waiter that cannot
 * be interrupted stands in the queue to stop the walk.
 */
module StaleWake {

  import opened Options
  import opened Lists
  import opened PageLock
  import opened LockReturns

  /** An exclusive waiter for k that stays asleep until the bit is clear. */
  predicate Blocks(p: Task, k: Key) {
    p.key == k && p.behavior.Exclusive? && p.pc.Sleeping? && !p.killable && !p.flags.woken
  }

  ghost predicate StaleWakePossible(s: State, k: Key) {
    && k in s.locked && WakerOnItsWay(s, k)
    && forall w :: w in s.queue && w < |s.tasks| ==> !Blocks(s.tasks[w], k)
  }

  // ---------------------------------------------------------------- stopped by an exclusive waiter

  /** w is queued, and nothing like t is queued before it. */
  ghost predicate Before(q: seq<Tid>, w: Tid, t: Tid) {
    exists i :: 0 <= i < |q| && q[i] == w && t !in q[..i]
  }

  lemma {:induction false} BeforeAppend(q: seq<Tid>, w: Tid, t: Tid, x: Tid)
    requires Before(q, w, t)
    ensures Before(q + [x], w, t)
  {
    var i :| 0 <= i < |q| && q[i] == w && t !in q[..i];
    assert (q + [x])[i] == w && (q + [x])[..i] == q[..i];
  }

  lemma {:induction false} BeforeUnlink(q: seq<Tid>, w: Tid, t: Tid, n: nat)
    requires Before(q, w, t) && n < |q| && q[n] != w
    ensures Before(q[..n] + q[n + 1..], w, t)
  {
    var i :| 0 <= i < |q| && q[i] == w && t !in q[..i];
    var r := q[..n] + q[n + 1..];
    if n < i {
      assert r[i - 1] == w;
      forall x | x in r[..i - 1] ensures x in q[..i] {
        var j :| 0 <= j < i - 1 && r[j] == x;
        assert q[..i][if j < n then j else j + 1] == x;
      }
    } else {
      assert r[i] == w && r[..i] == q[..i];
    }
  }

  lemma {:induction false} BeforeWithout(q: seq<Tid>, w: Tid, t: Tid, x: Tid)
    requires Before(q, w, t) && x != w
    ensures Before(Without(q, x), w, t)
  {
    if x !in q {
      WithoutAbsent(q, x);
    } else {
      var n := WithoutAt(q, x);
      BeforeUnlink(q, w, t, n);
    }
  }

  lemma {:induction false} WithoutAt(q: seq<Tid>, x: Tid) returns (n: nat)
    requires x in q
    ensures n < |q| && q[n] == x && Without(q, x) == q[..n] + q[n + 1..]
    decreases q
  {
    if q[0] == x {
      n := 0;
    } else {
      var m := WithoutAt(q[1..], x);
      n := m + 1;
      assert q[..n] + q[n + 1..] == [q[0]] + (q[1..][..m] + q[1..][m + 1..]);
    }
  }

  /** Task t waits for k, which is set, behind w, and no walk gets past w. */
  ghost predicate Behind(s: State, t: Tid, w: Tid, k: Key) {
    && t < |s.tasks| && w < |s.tasks| && k in s.locked && Blocks(s.tasks[w], k) && Before(s.queue, w, t)
    && Unserved(s.tasks[t], k)
    && forall u :: 0 <= u < |s.tasks| && OnEntry(s, u) && Entry(s, u) == w ==>
         s.tasks[u].pc.phase.Test? || s.tasks[u].pc.phase.Clear?
  }

  /** A walk that serves an entry has met no waiter for its key before it. */
  lemma {:induction false} NotServed(s: State, t: Tid, w: Tid, k: Key, u: Tid)
    requires Shape(s) && Behind(s, t, w, k) && OnEntry(s, u)
    requires s.tasks[u].pc.phase.Store? || s.tasks[u].pc.phase.Unlink?
    ensures Entry(s, u) != t && Entry(s, u) != w
  {
    assert s.bucket == Some(u);
  }

  /** A step of x that leaves the queue alone and is not part of a walk. */
  lemma {:induction false} BehindLocal(s: State, s': State, x: Tid, t: Tid, w: Tid, k: Key)
    requires Behind(s, t, w, k) && x < |s.tasks| == |s'.tasks| && s'.tasks == s.tasks[x := s'.tasks[x]]
    requires s'.queue == s.queue && k in s'.locked && !s'.tasks[x].pc.Walking?
    requires Blocks(s'.tasks[w], k) && Unserved(s'.tasks[t], k)
    ensures Behind(s', t, w, k)
  {
    forall u | 0 <= u < |s'.tasks| && OnEntry(s', u) && Entry(s', u) == w
      ensures s'.tasks[u].pc.phase.Test? || s'.tasks[u].pc.phase.Clear?
    {
      assert OnEntry(s, u) && Entry(s, u) == w;
    }
  }

  /** Nobody walks. */
  lemma {:induction false} BehindQuiet(s': State, t: Tid, w: Tid, k: Key)
    requires t < |s'.tasks| && w < |s'.tasks| && k in s'.locked && Blocks(s'.tasks[w], k) && Before(s'.queue, w, t)
    requires Unserved(s'.tasks[t], k) && forall u :: 0 <= u < |s'.tasks| ==> !s'.tasks[u].pc.Walking?
    ensures Behind(s', t, w, k)
  {
  }

  lemma {:induction false} BehindArriving(s: State, a: Action, t: Tid, w: Tid, k: Key)
    requires Shape(s) && Behind(s, t, w, k) && Enabled(s, a) && Arriving(a)
    ensures Behind(Do(s, a), t, w, k)
  {
    BehindLocal(s, Do(s, a), a.t, t, w, k);
  }

  lemma {:induction false} BehindQueueing(s: State, a: Action, t: Tid, w: Tid, k: Key)
    requires Shape(s) && Behind(s, t, w, k) && Enabled(s, a) && Queueing(a)
    ensures Behind(Do(s, a), t, w, k)
  {
    if a.Add? {
      assert s.bucket == Some(a.t);
      BeforeAppend(s.queue, w, t, a.t);
      BehindQuiet(Do(s, a), t, w, k);
    } else {
      BehindLocal(s, Do(s, a), a.t, t, w, k);
    }
  }

  lemma {:induction false} BehindLooping(s: State, a: Action, t: Tid, w: Tid, k: Key)
    requires Shape(s) && Behind(s, t, w, k) && Enabled(s, a) && Looping(a)
    requires a != Leave(t) && k in Do(s, a).locked
    ensures Behind(Do(s, a), t, w, k)
  {
    BehindLocal(s, Do(s, a), a.t, t, w, k);
  }

  lemma {:induction false} BehindReturning(s: State, a: Action, t: Tid, w: Tid, k: Key)
    requires Shape(s) && Behind(s, t, w, k) && Enabled(s, a) && Returning(a)
    requires a != Leave(t) && k in Do(s, a).locked
    ensures Behind(Do(s, a), t, w, k)
  {
    if a.Finish? && a.t in s.queue {
      BeforeWithout(s.queue, w, t, a.t);
      BehindQuiet(Do(s, a), t, w, k);
    } else {
      if a.Finish? {
        WithoutAbsent(s.queue, a.t);
      }
      BehindLocal(s, Do(s, a), a.t, t, w, k);
    }
  }

  lemma {:induction false} BehindFinding(s: State, a: Action, t: Tid, w: Tid, k: Key)
    requires Shape(s) && Behind(s, t, w, k) && Enabled(s, a) && Finding(a)
    ensures Behind(Do(s, a), t, w, k)
  {
    assert TaskOk(s.tasks[w]);
  }

  lemma {:induction false} BehindServing(s: State, a: Action, t: Tid, w: Tid, k: Key)
    requires Shape(s) && Behind(s, t, w, k) && Enabled(s, a) && Serving(a)
    ensures Behind(Do(s, a), t, w, k)
  {
    if a.WalkStore? || a.WalkUnlink? {
      NotServed(s, t, w, k, a.t);
    }
    if a.WalkUnlink? {
      BeforeUnlink(s.queue, w, t, s.tasks[a.t].pc.idx);
    }
  }

  lemma {:induction false} BehindStep(s: State, a: Action, t: Tid, w: Tid, k: Key)
    requires Shape(s) && Behind(s, t, w, k) && Enabled(s, a) && a != Leave(t) && k in Do(s, a).locked
    ensures Behind(Do(s, a), t, w, k)
  {
    if Arriving(a) {
      BehindArriving(s, a, t, w, k);
    } else if Queueing(a) {
      BehindQueueing(s, a, t, w, k);
    } else if Looping(a) {
      BehindLooping(s, a, t, w, k);
    } else if Returning(a) {
      BehindReturning(s, a, t, w, k);
    } else if Finding(a) {
      BehindFinding(s, a, t, w, k);
    } else {
      BehindServing(s, a, t, w, k);
    }
  }

  lemma {:induction false} BehindRun(s: State, run: seq<Action>, t: Tid, w: Tid, k: Key)
    requires Inv(s) && Behind(s, t, w, k) && IsRun(s, run) && Leave(t) !in run && !WasClear(s, run, k)
    ensures Behind(Exec(s, run), t, w, k)
    decreases run
  {
    if run != [] {
      assert k in Do(s, run[0]).locked;
      BehindStep(s, run[0], t, w, k);
      InvStep(s, run[0]);
      BehindRun(Do(s, run[0]), run[1..], t, w, k);
    }
  }

  // ---------------------------------------------------------------- and otherwise possible

  /** From s a run that t does not leave its call in, and in which bit k is never clear, leads to s'. */
  ghost predicate Leads(s: State, s': State, t: Tid, k: Key) {
    exists run :: Stays(s, run, t, k) && Exec(s, run) == s'
  }

  ghost predicate Stays(s: State, run: seq<Action>, t: Tid, k: Key) {
    IsRun(s, run) && Leave(t) !in run && !WasClear(s, run, k)
  }

  lemma {:induction false} StaysJoin(s: State, a: seq<Action>, b: seq<Action>, t: Tid, k: Key)
    requires Stays(s, a, t, k) && Stays(Exec(s, a), b, t, k)
    ensures Stays(s, a + b, t, k) && Exec(s, a + b) == Exec(Exec(s, a), b)
    decreases a
  {
    if a == [] {
      assert a + b == b;
    } else {
      assert (a + b)[0] == a[0] && (a + b)[1..] == a[1..] + b;
      StaysJoin(Do(s, a[0]), a[1..], b, t, k);
    }
  }

  lemma {:induction false} LeadsOn(s: State, m: State, s': State, t: Tid, k: Key)
    requires Leads(s, m, t, k) && Leads(m, s', t, k)
    ensures Leads(s, s', t, k)
  {
    var a :| Stays(s, a, t, k) && Exec(s, a) == m;
    var b :| Stays(m, b, t, k) && Exec(m, b) == s';
    StaysJoin(s, a, b, t, k);
  }

  lemma {:induction false} LeadsNowhere(s: State, t: Tid, k: Key)
    requires k in s.locked
    ensures Leads(s, s, t, k)
  {
    assert Stays(s, [], t, k) && Exec(s, []) == s;
  }

  /** One more step. */
  lemma {:induction false} LeadsStep(s: State, m: State, a: Action, t: Tid, k: Key) returns (s': State)
    requires Reachable(m) && Leads(s, m, t, k) && Enabled(m, a) && a != Leave(t)
    requires k in m.locked && k in Do(m, a).locked
    ensures s' == Do(m, a) && Leads(s, s', t, k) && Reachable(s')
  {
    s' := Then(m, a);
    assert [a][1..] == [] && IsRun(s', []) && Exec(s', []) == s' && !WasClear(s', [], k);
    assert Stays(m, [a], t, k) && Exec(m, [a]) == s';
    LeadsOn(s, m, s', t, k);
  }

  /** An exclusive waiter for k. */
  predicate Wants(p: Task, k: Key) {
    p.key == k && p.behavior.Exclusive?
  }

  /** Only queued tasks have changed, and some of them have left. */
  ghost predicate Thinned(s: State, s': State) {
    && |s'.tasks| == |s.tasks| && s'.locked == s.locked && s'.waiters == s.waiters && s'.bucket.None?
    && (forall x :: 0 <= x < |s.tasks| && x !in s.queue ==> s'.tasks[x] == s.tasks[x])
    && (forall x :: x in s'.queue ==> x in s.queue && x < |s.tasks| && s'.tasks[x] == s.tasks[x])
  }

  /** With the bucket lock free, whoever is queued has not been woken, and is asleep or out of the loop. */
  lemma {:induction false} QueuedAtRest(s: State, w: Tid)
    requires Reachable(s) && s.bucket.None? && w in s.queue
    ensures w < |s.tasks| && (s.tasks[w].pc.Sleeping? || s.tasks[w].pc.Finishing?) && !s.tasks[w].flags.woken
  {
    ReachableInv(s);
    var i :| 0 <= i < |s.queue| && s.queue[i] == w;
    assert QueuedOk(s, s.queue[i]);
  }

  /** Signals can take every exclusive waiter for k out of the queue, if none of them is of the kind that stays. */
  lemma {:induction false} ClearTheWay(s0: State, s: State, t: Tid, k: Key) returns (s': State)
    requires Reachable(s) && Leads(s0, s, t, k) && s.bucket.None? && k in s.locked
    requires forall w :: w in s.queue && w < |s.tasks| ==> !Blocks(s.tasks[w], k)
    ensures Leads(s0, s', t, k) && Reachable(s') && Thinned(s, s')
    ensures forall w :: w in s'.queue && w < |s'.tasks| ==> !Wants(s'.tasks[w], k)
    decreases |s.queue|
  {
    if w :| w in s.queue && w < |s.tasks| && Wants(s.tasks[w], k) {
      QueuedAtRest(s, w);
      var m := SendAway(s0, s, t, k, w);
      LeavesQueue(s, m, k, w);
      s' := ClearTheWay(s0, m, t, k);
    } else {
      forall x | x in s.queue ensures x < |s.tasks| {
        QueuedAtRest(s, x);
      }
      s' := s;
    }
  }

  /** One that has left: the rest of the queue is as it was. */
  lemma {:induction false} LeavesQueue(s: State, s': State, k: Key, w: Tid)
    requires Reachable(s) && s.bucket.None? && w in s.queue && s'.queue == Without(s.queue, w)
    requires |s'.tasks| == |s.tasks| && forall x :: 0 <= x < |s.tasks| && x != w ==> s'.tasks[x] == s.tasks[x]
    requires forall x :: x in s.queue && x < |s.tasks| ==> !Blocks(s.tasks[x], k)
    ensures |s'.queue| < |s.queue|
    ensures forall x :: x in s'.queue ==> x in s.queue && x < |s.tasks| && s'.tasks[x] == s.tasks[x]
    ensures forall x :: x in s'.queue && x < |s'.tasks| ==> !Blocks(s'.tasks[x], k)
  {
    var n := WithoutAt(s.queue, w);
    assert Distinct(s.queue) by {
      ReachableInv(s);
    }
    WithoutElements(s.queue, w);
    forall x | x in s.queue ensures x < |s.tasks| {
      QueuedAtRest(s, x);
    }
  }

  /** A waiter that has left the loop, or can be made to, leaves the queue. */
  lemma {:induction false} SendAway(s0: State, s: State, t: Tid, k: Key, w: Tid) returns (s': State)
    requires Reachable(s) && Leads(s0, s, t, k) && s.bucket.None? && k in s.locked && w < |s.tasks|
    requires s.tasks[w].pc.Finishing? || (s.tasks[w].pc.Sleeping? && s.tasks[w].killable)
    requires !s.tasks[w].flags.woken
    ensures Leads(s0, s', t, k) && Reachable(s') && s'.queue == Without(s.queue, w)
    ensures |s'.tasks| == |s.tasks| && s'.locked == s.locked && s'.waiters == s.waiters && s'.bucket.None?
    ensures forall x :: 0 <= x < |s.tasks| && x != w ==> s'.tasks[x] == s.tasks[x]
  {
    var m := s;
    if s.tasks[w].pc.Sleeping? {
      m := LeadsStep(s0, s, Signal(w), t, k);
      assert m == SetPc(s, w, Finishing);
    }
    s' := LeadsStep(s0, m, Finish(w), t, k);
    assert s' == DoFinish(m, w);
  }

  /** Task t takes the bucket lock and marks the folio. */
  lemma {:induction false} Marks(s0: State, s: State, t: Tid, k: Key) returns (s': State)
    requires Reachable(s) && Leads(s0, s, t, k) && AtPc(s, t, Locking) && s.bucket.None? && k in s.locked
    requires s.tasks[t].key == k
    ensures Leads(s0, s', t, k) && Reachable(s')
    ensures s' == s.(tasks := s.tasks[t := s.tasks[t].(pc := Trying)], waiters := s.waiters + {k.folio},
                     bucket := Some(t))
  {
    var s1 := LeadsStep(s0, s, LockToWait(t), t, k);
    assert s1 == SetPc(s, t, Marking).(bucket := Some(t));
    s' := LeadsStep(s0, s1, Mark(t), t, k);
    assert s' == SetPc(s1, t, Trying).(waiters := s.waiters + {k.folio});
  }

  /** Task t joins the queue. */
  lemma {:induction false} Joins(s0: State, s: State, t: Tid, k: Key) returns (s': State)
    requires Reachable(s) && Leads(s0, s, t, k) && AtPc(s, t, Locking) && s.bucket.None? && k in s.locked
    requires s.tasks[t].key == k
    ensures Leads(s0, s', t, k) && Reachable(s')
    ensures s' == s.(tasks := s.tasks[t := s.tasks[t].(pc := Sleeping)],
                     waiters := s.waiters + {k.folio}, queue := s.queue + [t])
  {
    var s2 := Marks(s0, s, t, k);
    var s3 := LeadsStep(s0, s2, TryFlag(t), t, k);
    assert s3 == SetPc(s2, t, Adding);
    s' := LeadsStep(s0, s3, Add(t), t, k);
    assert s' == SetPc(s3, t, Sleeping).(queue := s.queue + [t], bucket := None);
  }

  /** Task u walks for k, and no exclusive waiter for k is left before t, which is last. */
  ghost predicate Coming(s: State, u: Tid, t: Tid, k: Key) {
    && k in s.locked && t < |s.tasks| && u < |s.tasks| && s.bucket == Some(u)
    && s.tasks[u].key == k && s.tasks[u].pc.Walking? && s.tasks[u].pc.phase.Test?
    && s.tasks[u].pc.idx < |s.queue| && s.queue[|s.queue| - 1] == t
    && s.tasks[t].key == k && s.tasks[t].pc.Sleeping? && !s.tasks[t].behavior.Exclusive?
    && forall w :: w in s.queue && w < |s.tasks| ==> !Wants(s.tasks[w], k)
  }

  /** Task t sleeps, off the queue, and has been woken. */
  predicate Served(s: State, t: Tid, k: Key) {
    && k in s.locked && t < |s.tasks| && t !in s.queue
    && s.tasks[t].pc.Sleeping? && !s.tasks[t].behavior.Exclusive? && s.tasks[t].flags.woken
  }

  /** What is known of the entry that the walk stands on. */
  lemma {:induction false} AtEntry(s: State, u: Tid, t: Tid, k: Key)
    requires Reachable(s) && Coming(s, u, t, k)
    ensures OnEntry(s, u) && Entry(s, u) in s.queue && Entry(s, u) != u && t != u && Distinct(s.queue)
    ensures var e := s.tasks[Entry(s, u)];
            e.key == k ==> !e.behavior.Exclusive? && !e.flags.exclusive && !e.flags.done
  {
    ReachableInv(s);
    var n := s.tasks[u].pc.idx;
    assert QueuedOk(s, s.queue[n]);
    assert TaskOk(s.tasks[s.queue[n]]);
  }

  /** The walk steps over an entry for something else. */
  lemma {:induction false} StepOver(s0: State, s: State, u: Tid, t: Tid, k: Key) returns (s': State)
    requires Reachable(s) && Coming(s, u, t, k) && Leads(s0, s, t, k) && OnEntry(s, u) && s.tasks[Entry(s, u)].key != k
    ensures Leads(s0, s', t, k) && Reachable(s') && Coming(s', u, t, k)
    ensures s'.queue == s.queue && s'.tasks[u].pc.idx == s.tasks[u].pc.idx + 1
  {
    AtEntry(s, u, t, k);
    s' := LeadsStep(s0, s, WalkTest(u), t, k);
    var matched := s.tasks[u].pc.matched || s.tasks[Entry(s, u)].key.folio == k.folio;
    assert s' == SetPc(s, u, Walking(s.tasks[u].pc.idx + 1, matched, Test));
    PassedOver(s, s', u, t, k, matched);
  }

  lemma {:induction false} PassedOver(s: State, s': State, u: Tid, t: Tid, k: Key, matched: bool)
    requires Coming(s, u, t, k) && OnEntry(s, u) && t != u && s.tasks[Entry(s, u)].key != k
    requires s' == SetPc(s, u, Walking(s.tasks[u].pc.idx + 1, matched, Test))
    ensures Coming(s', u, t, k)
  {
  }

  /** What waking entry e, the n-th, makes of the state. */
  function AfterWake(s: State, u: Tid, e: Tid, n: nat): State
    requires u < |s.tasks| && e < |s.tasks| && n < |s.queue|
  {
    s.(tasks := s.tasks[e := s.tasks[e].(flags := s.tasks[e].flags.(woken := true))]
                       [u := s.tasks[u].(pc := Walking(n, true, Test))],
       queue := s.queue[..n] + s.queue[n + 1..])
  }

  /** Entry e, the n-th, waits for k, and has not asked for the bit itself. */
  predicate Asks(s: State, u: Tid, e: Tid, n: nat, k: Key) {
    && u < |s.tasks| && e < |s.tasks| && e != u && n < |s.queue| && s.queue[n] == e && k in s.locked
    && s.tasks[e].key == s.tasks[u].key == k && !s.tasks[e].flags.exclusive && !s.tasks[e].flags.done
  }

  /** The walk finds an entry that waits for k ... */
  lemma {:induction false} FindOne(s0: State, s: State, u: Tid, e: Tid, n: nat, t: Tid, k: Key) returns (s': State)
    requires Reachable(s) && Leads(s0, s, t, k) && Asks(s, u, e, n, k)
    requires s.tasks[u].pc.Walking? && s.tasks[u].pc.idx == n && s.tasks[u].pc.phase.Test?
    ensures Leads(s0, s', t, k) && Reachable(s') && s' == SetPc(s, u, Walking(n, true, Store(false)))
  {
    s' := LeadsStep(s0, s, WalkTest(u), t, k);
  }

  /** ... tells it ... */
  lemma {:induction false} TellOne(s0: State, s: State, u: Tid, e: Tid, n: nat, t: Tid, k: Key) returns (s': State)
    requires Reachable(s) && Leads(s0, s, t, k) && Asks(s, u, e, n, k)
    requires s.tasks[u].pc == Walking(n, true, Store(false))
    ensures Leads(s0, s', t, k) && Reachable(s')
    ensures s' == s.(tasks := s.tasks[e := s.tasks[e].(flags := s.tasks[e].flags.(woken := true))]
                                     [u := s.tasks[u].(pc := Walking(n, true, Unlink(false)))])
  {
    s' := LeadsStep(s0, s, WalkStore(u), t, k);
  }

  /** ... and takes it off the queue. */
  lemma {:induction false} WakeOne(s0: State, s: State, u: Tid, e: Tid, n: nat, t: Tid, k: Key) returns (s': State)
    requires Reachable(s) && Leads(s0, s, t, k) && Asks(s, u, e, n, k)
    requires s.tasks[u].pc.Walking? && s.tasks[u].pc.idx == n && s.tasks[u].pc.phase.Test?
    ensures Leads(s0, s', t, k) && Reachable(s') && s' == AfterWake(s, u, e, n)
  {
    var s1 := FindOne(s0, s, u, e, n, t, k);
    var s2 := TellOne(s0, s1, u, e, n, t, k);
    s' := LeadsStep(s0, s2, WalkUnlink(u), t, k);
    assert s' == AfterWake(s, u, e, n);
  }

  lemma {:induction false} Unlinked(q: seq<Tid>, n: nat, x: Tid)
    requires Distinct(q) && n < |q|
    ensures x in q[..n] + q[n + 1..] <==> x in q && x != q[n]
  {
    var r := q[..n] + q[n + 1..];
    if j :| 0 <= j < |q| && q[j] == x && j != n {
      assert r[if j < n then j else j - 1] == x;
    }
    if j :| 0 <= j < |r| && r[j] == x {
      assert q[if j < n then j else j + 1] == x;
    }
  }

  /** Woken is t itself, or somebody before it. */
  lemma {:induction false} OneLess(s: State, u: Tid, t: Tid, k: Key)
    requires Coming(s, u, t, k) && OnEntry(s, u) && Distinct(s.queue) && t != u && Entry(s, u) != u
    ensures var s' := AfterWake(s, u, Entry(s, u), s.tasks[u].pc.idx);
            if Entry(s, u) == t then Served(s', t, k)
            else Coming(s', u, t, k) && |s'.queue| == |s.queue| - 1 && s'.tasks[u].pc.idx == s.tasks[u].pc.idx
  {
    var e, n := Entry(s, u), s.tasks[u].pc.idx;
    var s' := AfterWake(s, u, e, n);
    forall w ensures w in s'.queue <==> w in s.queue && w != e {
      Unlinked(s.queue, n, w);
    }
    if e != t {
      assert n < |s.queue| - 1 && s'.queue[|s'.queue| - 1] == t;
    }
  }

  lemma {:induction false} WalkArrives(s0: State, s: State, u: Tid, t: Tid, k: Key) returns (s': State)
    requires Reachable(s) && Coming(s, u, t, k) && Leads(s0, s, t, k)
    ensures Leads(s0, s', t, k) && Reachable(s') && Served(s', t, k)
    decreases |s.queue| - s.tasks[u].pc.idx
  {
    AtEntry(s, u, t, k);
    if s.tasks[Entry(s, u)].key != k {
      var m := StepOver(s0, s, u, t, k);
      s' := WalkArrives(s0, m, u, t, k);
    } else {
      var m := WakeOne(s0, s, u, Entry(s, u), s.tasks[u].pc.idx, t, k);
      OneLess(s, u, t, k);
      if Entry(s, u) == t {
        s' := m;
      } else {
        s' := WalkArrives(s0, m, u, t, k);
      }
    }
  }

  lemma {:induction false} ComesBack(s0: State, s: State, t: Tid, k: Key) returns (s': State)
    requires Reachable(s) && Served(s, t, k) && Leads(s0, s, t, k)
    ensures Leads(s0, s', t, k) && AtPc(s', t, Returned(true))
  {
    var m := LeadsStep(s0, s, Observe(t), t, k);
    assert m == SetPc(s, t, Finishing);
    s' := LeadsStep(s0, m, Finish(t), t, k);
  }

  lemma {:induction false} OffTheQueue(s: State, x: Tid)
    requires Reachable(s) && s.bucket.None? && x < |s.tasks| && (s.tasks[x].pc.Locking? || s.tasks[x].pc.Waking?)
    ensures x !in s.queue
  {
    if x in s.queue {
      QueuedAtRest(s, x);
    }
  }

  /** The walk sets out. */
  lemma {:induction false} SetsOut(s: State, u: Tid, t: Tid, k: Key)
    requires AtPc(s, u, Waking) && s.bucket.None? && k in s.locked && t < |s.tasks| && t != u && s.tasks[u].key == k
    requires s.tasks[t].key == k && s.tasks[t].pc.Sleeping? && !s.tasks[t].behavior.Exclusive?
    requires s.queue != [] && s.queue[|s.queue| - 1] == t && u !in s.queue
    requires forall w :: w in s.queue && w < |s.tasks| ==> !Wants(s.tasks[w], k)
    ensures Coming(DoLockToWake(s, u), u, t, k)
  {
  }

  /** A waker on its way, and nobody in the queue to stop it: the wait can return 0 without the bit ever being clear. */
  lemma {:induction false} CanBeStale(s: State, t: Tid, k: Key, u: Tid) returns (s': State)
    requires Reachable(s) && AtPc(s, t, Locking) && s.bucket.None? && k in s.locked
    requires s.tasks[t].key == k && !s.tasks[t].behavior.Exclusive?
    requires AtPc(s, u, Waking) && s.tasks[u].key == k
    requires forall w :: w in s.queue && w < |s.tasks| ==> !Blocks(s.tasks[w], k)
    ensures Leads(s, s', t, k) && AtPc(s', t, Returned(true))
  {
    OffTheQueue(s, t);
    OffTheQueue(s, u);
    LeadsNowhere(s, t, k);
    var s1 := ClearTheWay(s, s, t, k);
    var s2 := Joins(s, s1, t, k);
    SetsOut(s2, u, t, k);
    var s3 := LeadsStep(s, s2, LockToWake(u), t, k);
    var s4 := WalkArrives(s, s3, u, t, k);
    s' := ComesBack(s, s4, t, k);
  }

  /** The call begins behind the waiter that stays. */
  lemma {:induction false} BehindStarts(s: State, t: Tid, k: Key, b: Behavior, killable: bool, budget: nat, w: Tid)
    requires Reachable(s) && AtPc(s, t, Idle) && !b.Exclusive? && s.bucket.None? && k in s.locked
    requires w in s.queue && w < |s.tasks| && Blocks(s.tasks[w], k)
    ensures Behind(DoStartWait(s, t, k, b, killable, budget), t, w, k)
  {
    var s0 := DoStartWait(s, t, k, b, killable, budget);
    var i :| 0 <= i < |s.queue| && s.queue[i] == w;
    if t in s.queue {
      QueuedAtRest(s, t);
    }
    assert t !in s0.queue[..i];
    assert Before(s0.queue, w, t);
    forall u | 0 <= u < |s0.tasks| ensures !s0.tasks[u].pc.Walking? {
      ReachableInv(s);
    }
  }

  /** Behind a waiter that stays, a wait does not come back. */
  lemma {:induction false} StaysBehind(s: State, t: Tid, k: Key, b: Behavior, killable: bool, budget: nat, w: Tid,
      run: seq<Action>)
    requires Reachable(s) && AtPc(s, t, Idle) && !b.Exclusive? && s.bucket.None? && k in s.locked
    requires w in s.queue && w < |s.tasks| && Blocks(s.tasks[w], k)
    requires Stays(DoStartWait(s, t, k, b, killable, budget), run, t, k)
    ensures !AtPc(Exec(DoStartWait(s, t, k, b, killable, budget), run), t, Returned(true))
  {
    var s0 := Then(s, StartWait(t, k, b, killable, budget));
    BehindStarts(s, t, k, b, killable, budget, w);
    ReachableInv(s0);
    BehindRun(s0, run, t, w, k);
  }

  /** The call returns 0 with the bit set throughout, in some run. */
  ghost predicate ReturnsStale(s0: State, t: Tid, k: Key) {
    exists run :: Stays(s0, run, t, k) && AtPc(Exec(s0, run), t, Returned(true))
  }

  lemma {:induction false} StaleNeeds(s: State, t: Tid, k: Key, b: Behavior, killable: bool, budget: nat)
    requires Reachable(s) && AtPc(s, t, Idle) && !b.Exclusive? && s.bucket.None?
    requires ReturnsStale(DoStartWait(s, t, k, b, killable, budget), t, k)
    ensures StaleWakePossible(s, k)
  {
    var s0 := DoStartWait(s, t, k, b, killable, budget);
    var run :| Stays(s0, run, t, k) && AtPc(Exec(s0, run), t, Returned(true));
    ZeroMeansClear(s, t, k, b, killable, budget, run);
    forall w | w in s.queue && w < |s.tasks|
      ensures !Blocks(s.tasks[w], k)
    {
      if Blocks(s.tasks[w], k) {
        StaysBehind(s, t, k, b, killable, budget, w, run);
      }
    }
  }

  /**
   * Exactly when a shared or drop wait can come back with 0 although its bit was set during all of the call, in terms
   * of the moment at which it is called, with the bucket lock free.
   */
  lemma {:induction false} StaleWakeIff(s: State, t: Tid, k: Key, b: Behavior, killable: bool, budget: nat)
    requires Reachable(s) && AtPc(s, t, Idle) && !b.Exclusive? && s.bucket.None?
    ensures ReturnsStale(DoStartWait(s, t, k, b, killable, budget), t, k) <==> StaleWakePossible(s, k)
  {
    if ReturnsStale(DoStartWait(s, t, k, b, killable, budget), t, k) {
      StaleNeeds(s, t, k, b, killable, budget);
    }
    if StaleWakePossible(s, k) {
      var s0 := Then(s, StartWait(t, k, b, killable, budget));
      var u :| 0 <= u < |s.tasks| && s.tasks[u].pc.Waking? && s.tasks[u].key == k;
      var s' := CanBeStale(s0, t, k, u);
    }
  }

  /** Task 1 has taken the bucket lock and marked the folio. */
  lemma {:induction false} FolioMarked(k: Key) returns (s: State)
    ensures Reachable(s) && s.bucket == Some(1) && s.queue == [] && s.locked == {} && k.folio in s.waiters
    ensures |s.tasks| == 4 && s.tasks[0].pc.Idle? && s.tasks[2].pc.Idle? && s.tasks[3].pc.Idle?
    ensures AtPc(s, 1, Trying) && s.tasks[1].key == k && !s.tasks[1].flags.exclusive
  {
    var idle := Task(Idle, k, Shared, false, 0, 0, 0, Flags(false, false, false, false));
    var s0 := State([idle, idle, idle, idle], {}, {}, [], None, map[], {});
    assert IsRun(s0, []) && Exec(s0, []) == s0 && Init(s0);
    var s1 := Then(s0, StartWait(1, k, Shared, false, 0));
    assert s1 == DoStartWait(s0, 1, k, Shared, false, 0);
    var s2 := Then(s1, LockToWait(1));
    assert s2 == DoLockToWait(s1, 1);
    s := Then(s2, Mark(1));
    assert s == DoMark(s2, 1);
  }

  /** ... and found the bit clear, so it does not queue; task 0 takes the bit. */
  lemma {:induction false} MarkedAndTaken(k: Key) returns (s: State)
    ensures Reachable(s) && s.bucket.None? && s.queue == [] && s.locked == {k} && k.folio in s.waiters
    ensures |s.tasks| == 4 && Holds(s, 0) && s.tasks[0].key == k && s.tasks[2].pc.Idle? && s.tasks[3].pc.Idle?
  {
    var s1 := FolioMarked(k);
    var s2 := Then(s1, TryFlag(1));
    assert s2 == DoTryFlag(s1, 1);
    s := Then(s2, TryLock(0, k));
    assert s == DoTryLock(s2, 0, k);
  }

  /** There are such moments: task 0 has unlocked, task 2 has locked again, and task 3 is about to ask. */
  lemma {:induction false} StaleMoment(k: Key) returns (s: State)
    ensures Reachable(s) && s.bucket.None? && AtPc(s, 3, Idle) && StaleWakePossible(s, k)
  {
    var s1 := MarkedAndTaken(k);
    var s2 := Then(s1, Unlock(0));
    assert s2 == DoUnlock(s1, 0);
    s := Then(s2, TryLock(2, k));
    assert s == DoTryLock(s2, 2, k);
    assert s.queue == [] && s.tasks[0].pc.Waking? && s.tasks[0].key == k;
  }
}
