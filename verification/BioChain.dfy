/**
 * Completion of chained bios.
 *
 * bio_chain makes a parent wait for a child; completions then arrive in any order, on any
 * CPU, and each climbs from its bio towards the unchained ancestor.  The write of a status
 * and the decrement of a counter are separate steps, so climbs interleave freely.
 */
module BioChain {
  import opened Options

  /** The completion of the bio's own I/O. */
  datatype Own =
    | Pending   // not completed by the driver
    | Arrived   // status recorded, bio_endio entered, counter not yet decremented
    | Counted

  /** What the ended bio still has to do to its parent. */
  datatype Up =
    | Waiting   // bio_remaining_done has not yet said true
    | Testing   // in __bio_chain_endio, about to compare the two statuses
    | Writing   // about to copy the status up
    | Leaving   // back in bio_endio, about to decrement the parent's counter
    | Gone      // that decrement is done
    | Top       // unchained: bi_end_io was reached

  datatype Bio = Bio(
    rank: nat,             // fixed at allocation; a chain always goes to a smaller rank
    parent: Option<nat>,   // bi_private of a chained bio
    hasEndIo: bool,
    status: nat,           // bi_status, 0 for BLK_STS_OK
    chain: bool,           // BIO_CHAIN
    remaining: int,        // __bi_remaining
    own: Own,
    up: Up,
    endCalls: nat,         // calls of bi_end_io
    failed: bool)          // history: some completion of the bio's own I/O carried an error

  type State = seq<Bio>

  datatype Action =
    | Alloc(rank: nat, hasEndIo: bool)
    | Chain(child: nat, parent: nat)
    | Note(b: nat, error: nat)
    | Arrive(b: nat, error: nat)
    | CountOwn(b: nat)
    | Test(b: nat)
    | Write(b: nat)
    | CountUp(b: nat)

  // ---------------------------------------------------------------- the steps

  function DoAlloc(s: State, rank: nat, hasEndIo: bool): State {
    s + [Bio(rank, None, hasEndIo, 0, false, 1, Pending, Waiting, 0, false)]
  }

  /** bio_chain: BUG_ON a child that is spoken for; both bios are still their submitter's. */
  predicate CanChain(s: State, c: nat, p: nat) {
    && c < |s| && p < |s|
    && s[c].parent.None? && !s[c].hasEndIo && s[c].own.Pending? && s[p].own.Pending?
    && s[p].rank < s[c].rank
  }

  function DoChain(s: State, c: nat, p: nat): State
    requires CanChain(s, c, p)
  {
    s[c := s[c].(parent := Some(p))][p := s[p].(chain := true, remaining := s[p].remaining + 1)]
  }

  predicate CanArrive(s: State, b: nat) {
    b < |s| && s[b].own.Pending?
  }

  /** Part of the bio completes with an error, which is recorded at once; the rest of the bio is still to come. */
  function DoNote(s: State, b: nat, error: nat): State
    requires CanArrive(s, b) && error != 0
  {
    s[b := s[b].(status := error, failed := true)]
  }

  /** The driver's verdict on the last of the bio, and the call of bio_endio. */
  function DoArrive(s: State, b: nat, error: nat): State
    requires CanArrive(s, b)
  {
    var x := s[b];
    s[b := x.(own := Arrived, status := if error != 0 then error else x.status, failed := x.failed || error != 0)]
  }

  /** bio_remaining_done and what bio_endio does when it returns true. */
  function RemainingDone(b: Bio): Bio {
    if b.chain && b.remaining != 1 then b.(remaining := b.remaining - 1)
    else
      var e := if b.chain then b.(remaining := 0, chain := false) else b;
      if e.parent.Some? then e.(up := Testing)
      else e.(up := Top, endCalls := if e.hasEndIo then e.endCalls + 1 else e.endCalls)
  }

  predicate CanCountOwn(s: State, b: nat) {
    b < |s| && s[b].own.Arrived?
  }

  function DoCountOwn(s: State, b: nat): State
    requires CanCountOwn(s, b)
  {
    s[b := RemainingDone(s[b].(own := Counted))]
  }

  /** An ended bio on its way to the parent. */
  predicate Climbing(s: State, b: nat, up: Up) {
    b < |s| && s[b].up == up && s[b].parent.Some? && s[b].parent.value < |s| && s[b].parent.value != b
  }

  function DoTest(s: State, b: nat): State
    requires Climbing(s, b, Testing)
  {
    var p := s[b].parent.value;
    s[b := s[b].(up := if s[b].status != 0 && s[p].status == 0 then Writing else Leaving)]
  }

  function DoWrite(s: State, b: nat): State
    requires Climbing(s, b, Writing)
  {
    var p := s[b].parent.value;
    s[b := s[b].(up := Leaving)][p := s[p].(status := s[b].status)]
  }

  function DoCountUp(s: State, b: nat): State
    requires Climbing(s, b, Leaving)
  {
    var p := s[b].parent.value;
    s[b := s[b].(up := Gone)][p := RemainingDone(s[p])]
  }

  predicate Enabled(s: State, a: Action) {
    match a
    case Alloc(_, _) => true
    case Chain(c, p) => CanChain(s, c, p)
    case Note(b, error) => CanArrive(s, b) && error != 0
    case Arrive(b, _) => CanArrive(s, b)
    case CountOwn(b) => CanCountOwn(s, b)
    case Test(b) => Climbing(s, b, Testing)
    case Write(b) => Climbing(s, b, Writing)
    case CountUp(b) => Climbing(s, b, Leaving)
  }

  function Do(s: State, a: Action): State
    requires Enabled(s, a)
  {
    match a
    case Alloc(rank, hasEndIo) => DoAlloc(s, rank, hasEndIo)
    case Chain(c, p) => DoChain(s, c, p)
    case Note(b, error) => DoNote(s, b, error)
    case Arrive(b, error) => DoArrive(s, b, error)
    case CountOwn(b) => DoCountOwn(s, b)
    case Test(b) => DoTest(s, b)
    case Write(b) => DoWrite(s, b)
    case CountUp(b) => DoCountUp(s, b)
  }

  predicate IsRun(s: State, run: seq<Action>)
    decreases run
  {
    run == [] || (Enabled(s, run[0]) && IsRun(Do(s, run[0]), run[1..]))
  }

  function Exec(s: State, run: seq<Action>): State
    requires IsRun(s, run)
    decreases run
  {
    if run == [] then s else Exec(Do(s, run[0]), run[1..])
  }

  // ---------------------------------------------------------------- invariant

  predicate Ended(b: Bio) {
    !b.up.Waiting?
  }

  /** The children whose decrement of b's counter is still to come. */
  ghost function Awaited(s: State, b: nat): set<nat> {
    set c | 0 <= c < |s| && s[c].parent == Some(b) && !s[c].up.Gone?
  }

  ghost predicate BioOk(s: State, b: nat)
    requires b < |s|
  {
    var x := s[b];
    && (x.parent.Some? ==> x.parent.value < |s| && s[x.parent.value].rank < x.rank && !x.hasEndIo)
    && (if Ended(x) then
          && x.own.Counted? && !x.chain && Awaited(s, b) == {}
          && (x.up.Top? <==> x.parent.None?)
          && x.endCalls == (if x.up.Top? && x.hasEndIo then 1 else 0)
        else
          && x.endCalls == 0
          && x.remaining == |Awaited(s, b)| + (if x.own.Counted? then 0 else 1)
          && x.remaining >= 1
          && (!x.chain ==> Awaited(s, b) == {}))
    && (x.failed ==> x.status != 0)
    && (x.up.Writing? ==> x.status != 0)
    && ((x.up.Leaving? || x.up.Gone?) && x.status != 0 ==> s[x.parent.value].status != 0)
    && (x.status != 0 ==> x.failed || exists c :: 0 <= c < |s| && FailedChild(s[c], b))
  }

  predicate FailedChild(c: Bio, b: nat) {
    c.parent == Some(b) && c.status != 0 && Ended(c)
  }

  ghost predicate Inv(s: State) {
    forall b :: 0 <= b < |s| ==> BioOk(s, b)
  }

  /** A step elsewhere: no status is cleared, no bio unended, no awaited child lost. */
  ghost predicate Elsewhere(s: State, s': State, b: nat) {
    && b < |s| <= |s'| && s'[b] == s[b] && Awaited(s', b) == Awaited(s, b)
    && (forall c :: 0 <= c < |s| ==>
          && s'[c].rank == s[c].rank && (s[c].status != 0 ==> s'[c].status != 0)
          && (FailedChild(s[c], b) ==> FailedChild(s'[c], b)))
  }

  lemma {:induction false} ElsewhereKeeps(s: State, s': State, b: nat)
    requires Elsewhere(s, s', b) && BioOk(s, b)
    ensures BioOk(s', b)
  {
    if s[b].status != 0 && !s[b].failed {
      var c :| 0 <= c < |s| && FailedChild(s[c], b);
      assert FailedChild(s'[c], b);
    }
  }

  lemma {:induction false} AllocKeeps(s: State, rank: nat, hasEndIo: bool)
    requires Inv(s)
    ensures Inv(DoAlloc(s, rank, hasEndIo))
  {
    var s' := DoAlloc(s, rank, hasEndIo);
    forall b | 0 <= b < |s'| ensures BioOk(s', b) {
      if b < |s| {
        assert Awaited(s', b) == Awaited(s, b);
        ElsewhereKeeps(s, s', b);
      } else {
        forall c | 0 <= c < |s'| ensures s'[c].parent != Some(b) {
          assert c < |s| ==> BioOk(s, c);
        }
        assert Awaited(s', b) == {};
      }
    }
  }

  lemma {:induction false} ChainKeepsEnds(s: State, c: nat, p: nat, b: nat)
    requires Inv(s) && CanChain(s, c, p) && (b == c || b == p)
    ensures BioOk(DoChain(s, c, p), b)
  {
    var s' := DoChain(s, c, p);
    assert BioOk(s, c) && BioOk(s, p);
    if b == p {
      assert Awaited(s', p) == Awaited(s, p) + {c};
    } else {
      assert Awaited(s', c) == Awaited(s, c);
    }
    if s[b].status != 0 && !s[b].failed {
      var d :| 0 <= d < |s| && FailedChild(s[d], b);
      assert FailedChild(s'[d], b);
    }
  }

  lemma {:induction false} ChainKeeps(s: State, c: nat, p: nat)
    requires Inv(s) && CanChain(s, c, p)
    ensures Inv(DoChain(s, c, p))
  {
    var s' := DoChain(s, c, p);
    ChainKeepsEnds(s, c, p, c);
    ChainKeepsEnds(s, c, p, p);
    forall b | 0 <= b < |s'| && b != p && b != c ensures BioOk(s', b) {
      assert Awaited(s', b) == Awaited(s, b);
      assert BioOk(s, b);
      ElsewhereKeeps(s, s', b);
    }
  }

  lemma {:induction false} NoteKeeps(s: State, x: nat, error: nat)
    requires Inv(s) && CanArrive(s, x) && error != 0
    ensures Inv(DoNote(s, x, error))
  {
    var s' := DoNote(s, x, error);
    assert BioOk(s, x);
    forall b | 0 <= b < |s'| ensures BioOk(s', b) {
      assert Awaited(s', b) == Awaited(s, b);
      if b != x {
        assert BioOk(s, b);
        ElsewhereKeeps(s, s', b);
      }
    }
  }

  lemma {:induction false} ArriveKeeps(s: State, x: nat, error: nat)
    requires Inv(s) && CanArrive(s, x)
    ensures Inv(DoArrive(s, x, error))
  {
    var s' := DoArrive(s, x, error);
    assert BioOk(s, x);
    forall b | 0 <= b < |s'| ensures BioOk(s', b) {
      assert Awaited(s', b) == Awaited(s, b);
      if b != x {
        assert BioOk(s, b);
        ElsewhereKeeps(s, s', b);
      } else if s[b].status != 0 && !s[b].failed {
        var d :| 0 <= d < |s| && FailedChild(s[d], b);
        assert FailedChild(s'[d], b);
      }
    }
  }

  lemma {:induction false} CountOwnKeeps(s: State, x: nat)
    requires Inv(s) && CanCountOwn(s, x)
    ensures Inv(DoCountOwn(s, x))
  {
    var s' := DoCountOwn(s, x);
    assert BioOk(s, x);
    forall b | 0 <= b < |s'| ensures BioOk(s', b) {
      assert Awaited(s', b) == Awaited(s, b);
      if b != x {
        assert BioOk(s, b);
        ElsewhereKeeps(s, s', b);
      } else if s[b].status != 0 && !s[b].failed {
        var d :| 0 <= d < |s| && FailedChild(s[d], b);
        assert BioOk(s, d);
        assert FailedChild(s'[d], b);
      }
    }
  }

  lemma {:induction false} TestKeeps(s: State, x: nat)
    requires Inv(s) && Climbing(s, x, Testing)
    ensures Inv(DoTest(s, x))
  {
    var s' := DoTest(s, x);
    assert BioOk(s, x);
    forall b | 0 <= b < |s'| ensures BioOk(s', b) {
      assert Awaited(s', b) == Awaited(s, b);
      if b != x {
        assert BioOk(s, b);
        ElsewhereKeeps(s, s', b);
      } else if s[b].status != 0 && !s[b].failed {
        var d :| 0 <= d < |s| && FailedChild(s[d], b);
        assert BioOk(s, d);
        assert FailedChild(s'[d], b);
      }
    }
  }

  lemma {:induction false} WriteKeeps(s: State, x: nat)
    requires Inv(s) && Climbing(s, x, Writing)
    ensures Inv(DoWrite(s, x))
  {
    var s', p := DoWrite(s, x), s[x].parent.value;
    assert BioOk(s, x) && BioOk(s, p);
    assert x in Awaited(s, p);
    forall b | 0 <= b < |s'| ensures BioOk(s', b) {
      assert Awaited(s', b) == Awaited(s, b);
      if b == p {
        assert FailedChild(s'[x], p);
      } else if b != x {
        assert BioOk(s, b);
        ElsewhereKeeps(s, s', b);
      } else if !s[b].failed {
        var d :| 0 <= d < |s| && FailedChild(s[d], b);
        assert BioOk(s, d);
        assert FailedChild(s'[d], b);
      }
    }
  }

  /** An error status keeps its justification: the failed child stays one. */
  lemma {:induction false} StillFailed(s: State, s': State, b: nat)
    requires b < |s| && |s| == |s'| && BioOk(s, b) && s[b].status != 0 && !s[b].failed
    requires forall c :: 0 <= c < |s| && FailedChild(s[c], b) ==> FailedChild(s'[c], b)
    ensures exists c :: 0 <= c < |s'| && FailedChild(s'[c], b)
  {
    var d :| 0 <= d < |s| && FailedChild(s[d], b);
    assert FailedChild(s'[d], b);
  }

  lemma {:induction false} CountUpKeepsParent(s: State, x: nat)
    requires Inv(s) && Climbing(s, x, Leaving)
    ensures BioOk(DoCountUp(s, x), s[x].parent.value)
  {
    var s', p := DoCountUp(s, x), s[x].parent.value;
    assert BioOk(s, x) && BioOk(s, p);
    assert x in Awaited(s, p);
    assert Awaited(s', p) == Awaited(s, p) - {x};
    assert |Awaited(s', p)| == |Awaited(s, p)| - 1;
    assert s'[p] == RemainingDone(s[p]) && s[p].chain && s[p].up.Waiting?;
    assert s[p].remaining == 1 ==> s[p].own.Counted? && Awaited(s', p) == {};
    assert s[p].parent.Some? ==> s'[s[p].parent.value].rank == s[s[p].parent.value].rank;
    if s[p].status != 0 && !s[p].failed {
      StillFailed(s, s', p);
    }
  }

  lemma {:induction false} CountUpKeepsChild(s: State, x: nat)
    requires Inv(s) && Climbing(s, x, Leaving)
    ensures BioOk(DoCountUp(s, x), x)
  {
    var s', p := DoCountUp(s, x), s[x].parent.value;
    assert BioOk(s, x) && BioOk(s, p) && x in Awaited(s, p);
    assert s'[x] == s[x].(up := Gone) && s'[p].status == s[p].status && s'[p].rank == s[p].rank;
    forall c | 0 <= c < |s|
      ensures c in Awaited(s', x) <==> c in Awaited(s, x)
      ensures FailedChild(s[c], x) ==> FailedChild(s'[c], x)
    {
    }
    assert Awaited(s', x) == Awaited(s, x);
    if s[x].status != 0 && !s[x].failed {
      StillFailed(s, s', x);
    }
  }

  lemma {:induction false} CountUpKeeps(s: State, x: nat)
    requires Inv(s) && Climbing(s, x, Leaving)
    ensures Inv(DoCountUp(s, x))
  {
    var s', p := DoCountUp(s, x), s[x].parent.value;
    assert BioOk(s, x) && BioOk(s, p) && x in Awaited(s, p);
    CountUpKeepsParent(s, x);
    CountUpKeepsChild(s, x);
    forall b | 0 <= b < |s'| && b != x && b != p ensures BioOk(s', b) {
      assert BioOk(s, b);
      assert Awaited(s', b) == Awaited(s, b);
      ElsewhereKeeps(s, s', b);
    }
  }

  lemma {:induction false} InvStep(s: State, a: Action)
    requires Inv(s) && Enabled(s, a)
    ensures Inv(Do(s, a))
  {
    match a
    case Alloc(rank, hasEndIo) => AllocKeeps(s, rank, hasEndIo);
    case Chain(c, p) => ChainKeeps(s, c, p);
    case Note(b, error) => NoteKeeps(s, b, error);
    case Arrive(b, error) => ArriveKeeps(s, b, error);
    case CountOwn(b) => CountOwnKeeps(s, b);
    case Test(b) => TestKeeps(s, b);
    case Write(b) => WriteKeeps(s, b);
    case CountUp(b) => CountUpKeeps(s, b);
  }

  lemma {:induction false} InvRun(s: State, run: seq<Action>)
    requires Inv(s) && IsRun(s, run)
    ensures Inv(Exec(s, run))
    decreases run
  {
    if run != [] {
      InvStep(s, run[0]);
      InvRun(Do(s, run[0]), run[1..]);
    }
  }

  // ---------------------------------------------------------------- what every run guarantees

  ghost predicate Reachable(s: State) {
    exists run :: IsRun([], run) && Exec([], run) == s
  }

  lemma {:induction false} ReachableInv(s: State)
    requires Reachable(s)
    ensures Inv(s)
  {
    var run :| IsRun([], run) && Exec([], run) == s;
    InvRun([], run);
  }

  lemma {:induction false} ReachableStep(s: State, a: Action)
    requires Reachable(s) && Enabled(s, a)
    ensures Reachable(Do(s, a))
  {
    var run :| IsRun([], run) && Exec([], run) == s;
    ExecSnoc([], run, a);
  }

  /** m is b, or is chained, directly or not, to b. */
  ghost predicate Member(s: State, m: nat, b: nat)
    decreases if m < |s| then s[m].rank else 0
  {
    && m < |s|
    && (m == b
        || (s[m].parent.Some? && s[m].parent.value < |s| && s[s[m].parent.value].rank < s[m].rank
            && Member(s, s[m].parent.value, b)))
  }

  /** BUG_ON(__bi_remaining <= 0) cannot fire, and a child always finds its parent waiting for it. */
  lemma {:induction false} CounterIsPositive(s: State, b: nat)
    requires Reachable(s)
    ensures CanCountOwn(s, b) ==> s[b].remaining >= 1 && s[b].up.Waiting?
    ensures Climbing(s, b, Leaving) ==>
              var p := s[s[b].parent.value]; p.chain && p.remaining >= 1 && p.up.Waiting?
  {
    ReachableInv(s);
    if b < |s| {
      assert BioOk(s, b);
      if Climbing(s, b, Leaving) {
        assert BioOk(s, s[b].parent.value);
        assert b in Awaited(s, s[b].parent.value);
      }
    }
  }

  /** end_io runs at most once, only at an unchained bio, and only after the own I/O of every
      member of its tree has completed and every chained member has reported to its parent. */
  lemma {:induction false} EndsAfterMembers(s: State, m: nat, b: nat)
    requires Reachable(s) && b < |s| && Ended(s[b]) && Member(s, m, b)
    ensures s[b].endCalls <= 1 && (s[b].endCalls == 1 ==> s[b].parent.None?)
    ensures s[m].own.Counted? && Ended(s[m]) && (m != b ==> s[m].up.Gone?)
    decreases s[m].rank
  {
    ReachableInv(s);
    assert BioOk(s, b) && BioOk(s, m);
    if m != b {
      var p := s[m].parent.value;
      EndsAfterMembers(s, p, b);
      assert BioOk(s, p);
      assert !s[m].up.Gone? ==> m in Awaited(s, p);
    }
  }

  lemma {:induction false} FailureReachesTop(s: State, m: nat, b: nat)
    requires Reachable(s) && b < |s| && Ended(s[b]) && Member(s, m, b) && s[m].status != 0
    ensures s[b].status != 0
    decreases s[m].rank
  {
    if m != b {
      EndsAfterMembers(s, m, b);
      ReachableInv(s);
      assert BioOk(s, m);
      FailureReachesTop(s, s[m].parent.value, b);
    }
  }

  lemma {:induction false} MemberTransitive(s: State, m: nat, c: nat, b: nat)
    requires Member(s, m, c) && Member(s, c, b)
    ensures Member(s, m, b)
    decreases if m < |s| then s[m].rank else 0
  {
    if m != c {
      MemberTransitive(s, s[m].parent.value, c, b);
    }
  }

  lemma {:induction false} FailureHasSource(s: State, b: nat, top: nat) returns (m: nat)
    requires Inv(s) && b < |s| && s[b].status != 0
    requires forall i :: 0 <= i < |s| ==> s[i].rank <= top
    ensures Member(s, m, b) && s[m].failed
    decreases top - s[b].rank
  {
    assert BioOk(s, b);
    if s[b].failed {
      m := b;
    } else {
      var c :| 0 <= c < |s| && FailedChild(s[c], b);
      assert BioOk(s, c);
      m := FailureHasSource(s, c, top);
      assert Member(s, b, b) && Member(s, c, b);
      MemberTransitive(s, m, c, b);
    }
  }

  function MaxRank(s: State): (r: nat)
    ensures forall i :: 0 <= i < |s| ==> s[i].rank <= r
  {
    if s == [] then 0
    else
      var r := MaxRank(s[1..]);
      assert forall i :: 1 <= i < |s| ==> s[i] == s[1..][i - 1];
      if s[0].rank > r then s[0].rank else r
  }

  /** The status that end_io sees is an error exactly when some member's own I/O failed. */
  lemma {:induction false} StatusIsExact(s: State, b: nat)
    requires Reachable(s) && b < |s| && Ended(s[b])
    ensures s[b].status != 0 <==> exists m: nat :: Member(s, m, b) && s[m].failed
  {
    ReachableInv(s);
    if s[b].status != 0 {
      var m := FailureHasSource(s, b, MaxRank(s));
    }
    forall m: nat | Member(s, m, b) && s[m].failed ensures s[b].status != 0 {
      assert BioOk(s, m);
      FailureReachesTop(s, m, b);
    }
  }

  // ---------------------------------------------------------------- which error

  /** The status of b, if it is an error, is one that `cause` gives to a member of its tree. */
  ghost predicate HasCause(s: State, b: nat, cause: (nat, nat) -> bool)
    requires b < |s|
  {
    s[b].status != 0 ==> exists m: nat :: Member(s, m, b) && cause(m, s[b].status)
  }

  ghost predicate Sourced(s: State, cause: (nat, nat) -> bool) {
    forall b :: 0 <= b < |s| ==> HasCause(s, b, cause)
  }

  /** The forest has only grown. */
  ghost predicate Grown(s: State, s': State) {
    && |s| <= |s'|
    && forall i :: 0 <= i < |s| ==>
         s'[i].rank == s[i].rank && (s[i].parent.Some? ==> s'[i].parent == s[i].parent)
  }

  lemma {:induction false} MemberGrows(s: State, s': State, m: nat, b: nat)
    requires Grown(s, s') && Member(s, m, b)
    ensures Member(s', m, b)
    decreases if m < |s| then s[m].rank else 0
  {
    if m != b {
      MemberGrows(s, s', s[m].parent.value, b);
    }
  }

  lemma {:induction false} CauseStays(s: State, s': State, b: nat, cause: (nat, nat) -> bool)
    requires Grown(s, s') && b < |s| && s'[b].status == s[b].status && HasCause(s, b, cause)
    ensures HasCause(s', b, cause)
  {
    if s[b].status != 0 {
      var m: nat :| Member(s, m, b) && cause(m, s[b].status);
      MemberGrows(s, s', m, b);
    }
  }

  lemma {:induction false} StepGrows(s: State, a: Action)
    requires Inv(s) && Enabled(s, a)
    ensures Grown(s, Do(s, a))
  {
  }

  /** Only three kinds of steps write the status of a bio that is there. */
  predicate WritesStatus(s: State, a: Action, p: nat) {
    match a
    case Note(b, _) => b == p
    case Arrive(b, error) => b == p && error != 0
    case Write(c) => c < |s| && s[c].parent == Some(p)
    case _ => false
  }

  lemma {:induction false} StatusStep(s: State, a: Action, p: nat)
    requires Inv(s) && Enabled(s, a) && p < |s|
    ensures p < |Do(s, a)|
    ensures if WritesStatus(s, a, p) then Do(s, a)[p].status != 0 else Do(s, a)[p].status == s[p].status
    ensures (a.Note? || a.Arrive?) && WritesStatus(s, a, p) ==> Do(s, a)[p].status == a.error
    ensures a.Write? && WritesStatus(s, a, p) ==> Do(s, a)[p].status == s[a.b].status
  {
    if a.Write? {
      assert BioOk(s, a.b);
    }
  }

  /** A status that is handed up is the child's. */
  lemma {:induction false} WriteHasCause(s: State, x: nat, cause: (nat, nat) -> bool)
    requires Inv(s) && Climbing(s, x, Writing) && Sourced(s, cause)
    ensures HasCause(DoWrite(s, x), s[x].parent.value, cause)
  {
    var s', p := DoWrite(s, x), s[x].parent.value;
    assert BioOk(s, x) && HasCause(s, x, cause);
    var m: nat :| Member(s, m, x) && cause(m, s[x].status);
    assert Member(s, p, p) && Member(s, x, p);
    MemberTransitive(s, m, x, p);
    StepGrows(s, Write(x));
    MemberGrows(s, s', m, p);
  }

  lemma {:induction false} SourcedStep(s: State, a: Action, cause: (nat, nat) -> bool)
    requires Inv(s) && Enabled(s, a) && Sourced(s, cause)
    requires (a.Note? || a.Arrive?) && a.error != 0 ==> cause(a.b, a.error)
    ensures Sourced(Do(s, a), cause)
  {
    var s' := Do(s, a);
    StepGrows(s, a);
    forall b | 0 <= b < |s'|
      ensures HasCause(s', b, cause)
    {
      if b < |s| {
        StatusStep(s, a, b);
        assert HasCause(s, b, cause);
        if !WritesStatus(s, a, b) {
          CauseStays(s, s', b, cause);
        } else if a.Write? {
          WriteHasCause(s, a.b, cause);
        } else {
          assert Member(s', b, b);
        }
      }
    }
  }

  /** The run reports the error e for bio m: part of it, or the last of it, completes with e. */
  predicate Reports(run: seq<Action>, m: nat, e: nat) {
    e != 0 && (Note(m, e) in run || Arrive(m, e) in run)
  }

  lemma {:induction false} SourcedRun(s: State, run: seq<Action>, cause: (nat, nat) -> bool)
    requires Inv(s) && IsRun(s, run) && Sourced(s, cause)
    requires forall m: nat, e: nat :: Reports(run, m, e) ==> cause(m, e)
    ensures Sourced(Exec(s, run), cause)
    decreases run
  {
    if run != [] {
      var a := run[0];
      if (a.Note? || a.Arrive?) && a.error != 0 {
        assert Reports(run, a.b, a.error);
      }
      SourcedStep(s, a, cause);
      InvStep(s, a);
      forall m: nat, e: nat | Reports(run[1..], m, e)
        ensures cause(m, e)
      {
        assert Reports(run, m, e);
      }
      SourcedRun(Do(s, a), run[1..], cause);
    }
  }

  lemma {:induction false} ReportedFails(s: State, run: seq<Action>, m: nat, e: nat)
    requires IsRun(s, run) && Reports(run, m, e)
    ensures m < |Exec(s, run)| && Exec(s, run)[m].failed
    decreases run
  {
    if run[0] == Note(m, e) || run[0] == Arrive(m, e) {
      StaysFailed(Do(s, run[0]), run[1..], m);
    } else {
      ReportedFails(Do(s, run[0]), run[1..], m, e);
    }
  }

  lemma {:induction false} StaysFailed(s: State, run: seq<Action>, m: nat)
    requires IsRun(s, run) && m < |s| && s[m].failed
    ensures m < |Exec(s, run)| && Exec(s, run)[m].failed
    decreases run
  {
    if run != [] {
      StaysFailed(Do(s, run[0]), run[1..], m);
    }
  }

  /** The status an ended bio shows is an error if and only if the run reports one for a member of its tree, and then it
      is one of those it reports. */
  lemma {:induction false} StatusIsReported(run: seq<Action>, b: nat)
    requires IsRun([], run) && b < |Exec([], run)| && Ended(Exec([], run)[b])
    ensures var s := Exec([], run);
            && (s[b].status != 0 ==> exists m: nat :: Member(s, m, b) && Reports(run, m, s[b].status))
            && forall m: nat, e: nat :: Member(s, m, b) && Reports(run, m, e) ==> s[b].status != 0
  {
    var s := Exec([], run);
    var cause := (m: nat, e: nat) => Reports(run, m, e);
    SourcedRun([], run, cause);
    assert HasCause(s, b, cause);
    assert Reachable(s);
    forall m: nat, e: nat | Member(s, m, b) && Reports(run, m, e)
      ensures s[b].status != 0
    {
      ReportedFails([], run, m, e);
      StatusIsExact(s, b);
    }
  }

  /** When the completions that fail in a tree all carry the same error, that is what end_io sees. */
  lemma {:induction false} OneErrorReachesTop(run: seq<Action>, b: nat, m: nat, e: nat)
    requires IsRun([], run) && b < |Exec([], run)| && Ended(Exec([], run)[b])
    requires Member(Exec([], run), m, b) && Reports(run, m, e)
    requires forall x: nat, f: nat :: Member(Exec([], run), x, b) && Reports(run, x, f) ==> f == e
    ensures Exec([], run)[b].status == e
  {
    StatusIsReported(run, b);
  }

  /** Some step of the run writes the status of p. */
  predicate StatusWritten(s: State, run: seq<Action>, p: nat)
    requires IsRun(s, run)
    decreases run
  {
    run != [] && (WritesStatus(s, run[0], p) || StatusWritten(Do(s, run[0]), run[1..], p))
  }

  lemma {:induction false} StatusOverRun(s: State, run: seq<Action>, p: nat)
    requires Inv(s) && IsRun(s, run) && p < |s|
    ensures p < |Exec(s, run)|
    ensures Exec(s, run)[p].status != 0 <==> s[p].status != 0 || StatusWritten(s, run, p)
    ensures !StatusWritten(s, run, p) ==> Exec(s, run)[p].status == s[p].status
    decreases run
  {
    if run != [] {
      StatusStep(s, run[0], p);
      InvStep(s, run[0]);
      StatusOverRun(Do(s, run[0]), run[1..], p);
    }
  }

  /** A child that finds an error in its parent leaves it: it never comes to its write. */
  lemma {:induction false} FoundErrorStays(s: State, b: nat, run: seq<Action>)
    requires Inv(s) && Climbing(s, b, Testing) && s[s[b].parent.value].status != 0 && IsRun(DoTest(s, b), run)
    ensures Write(b) !in run
  {
    TestKeeps(s, b);
    NoWriteAfter(DoTest(s, b), b, run);
  }

  lemma {:induction false} PastWriting(s: State, b: nat, a: Action)
    requires Inv(s) && b < |s| && (s[b].up.Leaving? || s[b].up.Gone?) && Enabled(s, a)
    ensures a != Write(b) && (Do(s, a)[b].up.Leaving? || Do(s, a)[b].up.Gone?)
  {
    assert BioOk(s, b);
    assert forall c: nat :: Climbing(s, c, Leaving) && s[c].parent == Some(b) ==> c in Awaited(s, b);
  }

  lemma {:induction false} NoWriteAfter(s: State, b: nat, run: seq<Action>)
    requires Inv(s) && b < |s| && (s[b].up.Leaving? || s[b].up.Gone?) && IsRun(s, run)
    ensures Write(b) !in run
    decreases run
  {
    if run != [] {
      PastWriting(s, b, run[0]);
      InvStep(s, run[0]);
      NoWriteAfter(Do(s, run[0]), b, run[1..]);
    }
  }

  /** A child that found none writes over an error if and only if the parent's status was written in between. */
  lemma {:induction false} OverwriteIsRace(s: State, b: nat, run: seq<Action>)
    requires Inv(s) && Climbing(s, b, Testing) && s[s[b].parent.value].status == 0
    requires IsRun(DoTest(s, b), run) && Climbing(Exec(DoTest(s, b), run), b, Writing)
    ensures var p := s[b].parent.value;
            && p < |Exec(DoTest(s, b), run)|
            && (Exec(DoTest(s, b), run)[p].status != 0 <==> StatusWritten(DoTest(s, b), run, p))
  {
    TestKeeps(s, b);
    StatusOverRun(DoTest(s, b), run, s[b].parent.value);
  }

  function Child(e: nat, own: Own, up: Up): Bio {
    Bio(1, Some(0), false, e, false, 1, own, up, 0, e != 0)
  }

  function Parent(e: nat): Bio {
    Bio(0, None, true, e, true, 3, Pending, Waiting, 0, false)
  }

  lemma {:induction false} TwoChained()
    ensures Reachable([Parent(0), Child(0, Pending, Waiting), Child(0, Pending, Waiting)])
  {
    var lone := Bio(1, None, false, 0, false, 1, Pending, Waiting, 0, false);
    assert IsRun([], []) && Exec([], []) == [];
    ReachableStep([], Alloc(0, true));
    var s1 := DoAlloc([], 0, true);
    ReachableStep(s1, Alloc(1, false));
    ReachableStep(DoAlloc(s1, 1, false), Alloc(1, false));
    var s3 := DoAlloc(DoAlloc(s1, 1, false), 1, false);
    assert s3 == [Parent(0).(chain := false, remaining := 1), lone, lone];
    ReachableStep(s3, Chain(1, 0));
    ReachableStep(DoChain(s3, 1, 0), Chain(2, 0));
    assert DoChain(DoChain(s3, 1, 0), 2, 0) == [Parent(0), Child(0, Pending, Waiting), Child(0, Pending, Waiting)];
  }

  /** Two children, one failed with 10 and one with 20, both about to look at their parent. */
  lemma {:induction false} TwoFailed()
    ensures Reachable([Parent(0), Child(10, Counted, Testing), Child(20, Counted, Testing)])
  {
    TwoChained();
    var s5 := [Parent(0), Child(0, Pending, Waiting), Child(0, Pending, Waiting)];
    ReachableStep(s5, Arrive(1, 10));
    ReachableStep(DoArrive(s5, 1, 10), Arrive(2, 20));
    var s7 := DoArrive(DoArrive(s5, 1, 10), 2, 20);
    assert s7 == [Parent(0), Child(10, Arrived, Waiting), Child(20, Arrived, Waiting)];
    ReachableStep(s7, CountOwn(1));
    ReachableStep(DoCountOwn(s7, 1), CountOwn(2));
    assert DoCountOwn(DoCountOwn(s7, 1), 2)
        == [Parent(0), Child(10, Counted, Testing), Child(20, Counted, Testing)];
  }

  /** Such a race is real: when both look before either writes, the second error replaces the first. */
  lemma {:induction false} LateWriteOverwrites() returns (s: State)
    ensures Reachable(s) && |s| == 3 && s[0].status == 10 && Climbing(s, 2, Writing) && DoWrite(s, 2)[0].status == 20
  {
    TwoFailed();
    var s0 := [Parent(0), Child(10, Counted, Testing), Child(20, Counted, Testing)];
    ReachableStep(s0, Test(1));
    ReachableStep(DoTest(s0, 1), Test(2));
    var s2 := DoTest(DoTest(s0, 1), 2);
    assert s2 == [Parent(0), Child(10, Counted, Writing), Child(20, Counted, Writing)];
    ReachableStep(s2, Write(1));
    s := DoWrite(s2, 1);
  }

  /** Every I/O has completed and no climb is under way. */
  ghost predicate Quiescent(s: State) {
    forall b :: 0 <= b < |s| ==>
      && !CanArrive(s, b) && !CanCountOwn(s, b)
      && !Climbing(s, b, Testing) && !Climbing(s, b, Writing) && !Climbing(s, b, Leaving)
  }

  lemma {:induction false} QuiescentIsOver(s: State, b: nat, top: nat)
    requires Inv(s) && Quiescent(s) && b < |s|
    requires forall i :: 0 <= i < |s| ==> s[i].rank <= top
    ensures s[b].up.Gone? || s[b].up.Top?
    decreases top - s[b].rank
  {
    assert BioOk(s, b) && !CanArrive(s, b) && !CanCountOwn(s, b);
    assert !Climbing(s, b, Testing) && !Climbing(s, b, Writing) && !Climbing(s, b, Leaving);
    if s[b].up.Waiting? {
      assert |Awaited(s, b)| >= 1;
      var c :| c in Awaited(s, b);
      assert BioOk(s, c);
      QuiescentIsOver(s, c, top);
    }
  }

  /** Exactly once: when the dust has settled every unchained bio with an end_io has had one call. */
  lemma {:induction false} EndsExactlyOnce(s: State, b: nat)
    requires Reachable(s) && Quiescent(s) && b < |s|
    ensures Ended(s[b])
    ensures s[b].parent.None? && s[b].hasEndIo ==> s[b].endCalls == 1
    ensures s[b].parent.Some? ==> s[b].endCalls == 0 && s[b].up.Gone?
  {
    ReachableInv(s);
    QuiescentIsOver(s, b, MaxRank(s));
    assert BioOk(s, b);
  }

  // ---------------------------------------------------------------- termination

  function StepsLeft(b: Bio): nat {
    (match b.own case Pending => 2 case Arrived => 1 case Counted => 0)
    + (match b.up case Waiting => 4 case Testing => 3 case Writing => 2 case Leaving => 1 case Gone => 0 case Top => 0)
  }

  function Work(s: State): (w: nat)
    ensures w <= 6 * |s|
  {
    if s == [] then 0 else StepsLeft(s[0]) + Work(s[1..])
  }

  lemma {:induction false} WorkUpdate(s: State, i: nat, b: Bio)
    requires i < |s|
    ensures Work(s[i := b]) == Work(s) - StepsLeft(s[i]) + StepsLeft(b)
  {
    if i == 0 {
      assert s[0 := b][1..] == s[1..];
    } else {
      assert s[i := b][1..] == s[1..][i - 1 := b];
      WorkUpdate(s[1..], i - 1, b);
    }
  }

  lemma {:induction false} WorkSnoc(s: State, b: Bio)
    ensures Work(s + [b]) == Work(s) + StepsLeft(b)
    decreases |s|
  {
    if s == [] {
      assert s + [b] == [b] && [b][1..] == [];
    } else {
      assert (s + [b])[1..] == s[1..] + [b];
      WorkSnoc(s[1..], b);
    }
  }

  lemma {:induction false} ChainWork(s: State, c: nat, p: nat)
    requires CanChain(s, c, p)
    ensures Work(DoChain(s, c, p)) == Work(s)
  {
    WorkUpdate(s, c, s[c].(parent := Some(p)));
    WorkUpdate(s[c := s[c].(parent := Some(p))], p, s[p].(chain := true, remaining := s[p].remaining + 1));
  }

  lemma {:induction false} CountUpShrinks(s: State, b: nat)
    requires Inv(s) && Climbing(s, b, Leaving)
    ensures Work(DoCountUp(s, b)) < Work(s)
  {
    var p := s[b].parent.value;
    assert BioOk(s, b) && BioOk(s, p) && b in Awaited(s, p);
    WorkUpdate(s, b, s[b].(up := Gone));
    WorkUpdate(s[b := s[b].(up := Gone)], p, RemainingDone(s[p]));
  }

  lemma {:induction false} WriteShrinks(s: State, b: nat)
    requires Inv(s) && Climbing(s, b, Writing)
    ensures Work(DoWrite(s, b)) < Work(s)
  {
    var p := s[b].parent.value;
    WorkUpdate(s, b, s[b].(up := Leaving));
    WorkUpdate(s[b := s[b].(up := Leaving)], p, s[p].(status := s[b].status));
  }

  lemma {:induction false} WorkShrinks(s: State, a: Action)
    requires Inv(s) && Enabled(s, a) && !a.Alloc? && !a.Chain?
    ensures if a.Note? then Work(Do(s, a)) == Work(s) else Work(Do(s, a)) < Work(s)
  {
    assert BioOk(s, a.b);
    match a
    case Note(b, error) => WorkUpdate(s, b, DoNote(s, b, error)[b]);
    case Arrive(b, error) => WorkUpdate(s, b, DoArrive(s, b, error)[b]);
    case CountOwn(b) => WorkUpdate(s, b, DoCountOwn(s, b)[b]);
    case Test(b) => WorkUpdate(s, b, DoTest(s, b)[b]);
    case Write(b) => WriteShrinks(s, b);
    case CountUp(b) => CountUpShrinks(s, b);
  }

  /** How many steps of the run are more than an error noted on a bio that is still under way. */
  function Steps(run: seq<Action>): nat {
    if run == [] then 0 else (if run[0].Note? then 0 else 1) + Steps(run[1..])
  }

  /** Every climb ends: n bios are done with after at most 6n steps, in any order and whatever errors are noted. */
  lemma {:induction false} CompletionTerminates(s: State, run: seq<Action>)
    requires Inv(s) && IsRun(s, run)
    requires forall i :: 0 <= i < |run| ==> !run[i].Alloc? && !run[i].Chain?
    ensures Steps(run) <= Work(s) <= 6 * |s|
    decreases run
  {
    if run != [] {
      assert !run[0].Alloc? && !run[0].Chain?;
      InvStep(s, run[0]);
      WorkShrinks(s, run[0]);
      CompletionTerminates(Do(s, run[0]), run[1..]);
    }
  }

  // ---------------------------------------------------------------- one call of bio_endio

  lemma {:induction false} ExecSnoc(s: State, run: seq<Action>, a: Action)
    requires IsRun(s, run) && Enabled(Exec(s, run), a)
    ensures IsRun(s, run + [a]) && Exec(s, run + [a]) == Do(Exec(s, run), a)
    decreases run
  {
    if run == [] {
      assert run + [a] == [a] && [a][1..] == [];
    } else {
      assert (run + [a])[1..] == run[1..] + [a];
      ExecSnoc(Do(s, run[0]), run[1..], a);
    }
  }

  /** Not between ending and reporting to its parent. */
  predicate AtRest(b: Bio) {
    b.up.Waiting? || b.up.Gone? || b.up.Top?
  }

  ghost predicate SettledBut(s: State, x: nat) {
    forall b :: 0 <= b < |s| && b != x ==> AtRest(s[b])
  }

  /** Between the two states only x and p changed, and nothing that makes the forest. */
  ghost predicate OnlyAt(s: State, s': State, x: nat, p: nat) {
    && |s| == |s'|
    && (forall b :: 0 <= b < |s| ==> s'[b].rank == s[b].rank && s'[b].parent == s[b].parent)
    && (forall b :: 0 <= b < |s| && b != x && b != p ==> s'[b] == s[b])
  }

  class Bios {
    var s: State

    /** Do one step and note it. */
    method Step(a: Action, ghost start: State, ghost run: seq<Action>) returns (ghost run': seq<Action>)
      requires Inv(s) && Enabled(s, a) && IsRun(start, run) && s == Exec(start, run)
      modifies this
      ensures s == Do(old(s), a) && IsRun(start, run') && s == Exec(start, run') && Inv(s)
    {
      InvStep(s, a);
      ExecSnoc(start, run, a);
      run' := run + [a];
      s := Do(s, a);
    }

    /** __bio_chain_endio, undisturbed: an error in the parent stays, and otherwise the child's status goes up. */
    method ChainEndio(x: nat, ghost start: State, ghost run: seq<Action>) returns (ghost run': seq<Action>)
      requires Inv(s) && Climbing(s, x, Testing) && IsRun(start, run) && s == Exec(start, run)
      modifies this
      ensures IsRun(start, run') && s == Exec(start, run') && Inv(s) && Climbing(s, x, Leaving)
      ensures OnlyAt(old(s), s, x, s[x].parent.value) && s[s[x].parent.value].up == old(s)[s[x].parent.value].up
      ensures var p := s[x].parent.value;
              s[p].status == if old(s)[p].status != 0 then old(s)[p].status else old(s)[x].status
    {
      run' := Step(Test(x), start, run);
      if s[x].up.Writing? {
        run' := Step(Write(x), start, run');
      }
    }

    /** One round of `goto again`: from x, which has ended, to its parent. */
    method ClimbOne(x: nat, ghost start: State, ghost run: seq<Action>) returns (p: nat, ghost run': seq<Action>)
      requires Inv(s) && Climbing(s, x, Testing) && IsRun(start, run) && s == Exec(start, run)
      modifies this
      ensures IsRun(start, run') && s == Exec(start, run') && Inv(s)
      ensures OnlyAt(old(s), s, x, p) && Some(p) == s[x].parent && p < |s| && s[p].rank < s[x].rank
      ensures s[x].up.Gone? && (s[p].up.Waiting? || s[p].up.Top? || s[p].up.Testing?)
    {
      assert BioOk(s, x);
      CountUpIsFirst(s, x);
      run' := ChainEndio(x, start, run);
      p := s[x].parent.value;
      run' := Step(CountUp(x), start, run');
    }

    /** bio_endio for a bio whose own I/O has completed, undisturbed: it is one of the runs, it climbs until a counter
        does not reach zero or there is no parent, and it leaves nothing half done. */
    method BioEndio(b: nat) returns (last: nat, ghost run: seq<Action>)
      requires Inv(s) && CanCountOwn(s, b)
      modifies this
      ensures IsRun(old(s), run) && s == Exec(old(s), run) && Inv(s)
      ensures last < |s| && Member(s, b, last) && (s[last].up.Waiting? || s[last].up.Top?)
      ensures SettledBut(old(s), b) ==> forall x :: 0 <= x < |s| ==> AtRest(s[x])
    {
      ghost var start := s;
      assert BioOk(s, b);
      run := Step(CountOwn(b), start, []);
      last := b;
      assert Member(s, b, b);
      while s[last].up.Testing?
        invariant Inv(s) && IsRun(start, run) && s == Exec(start, run) && b < |s| && last < |s| && Member(s, b, last)
        invariant s[last].up.Waiting? || s[last].up.Top? || s[last].up.Testing?
        invariant SettledBut(start, b) ==> SettledBut(s, last)
        decreases s[last].rank
      {
        assert BioOk(s, last);
        ghost var before := s;
        var x := last;
        last, run := ClimbOne(x, start, run);
        ClimbMember(before, s, b, x, last);
      }
    }
  }

  lemma {:induction false} ClimbMember(s: State, s': State, b: nat, x: nat, p: nat)
    requires OnlyAt(s, s', x, p) && Member(s, b, x) && x < |s'| && p < |s'| && s'[x].parent == Some(p)
             && s'[p].rank < s'[x].rank
    ensures Member(s', b, p)
  {
    SameForest(s, s', b, x);
    assert Member(s', p, p) && Member(s', x, p);
    MemberTransitive(s', b, x, p);
  }

  /** A parent with a child still to report is waiting. */
  lemma {:induction false} CountUpIsFirst(s: State, x: nat)
    requires Inv(s) && x < |s| && s[x].parent.Some? && !s[x].up.Gone?
    ensures s[x].parent.value < |s| && s[s[x].parent.value].up.Waiting?
  {
    assert BioOk(s, x) && BioOk(s, s[x].parent.value);
    assert x in Awaited(s, s[x].parent.value);
  }

  lemma {:induction false} SameForest(s: State, s': State, m: nat, b: nat)
    requires |s| == |s'| && Member(s, m, b)
    requires forall i :: 0 <= i < |s| ==> s'[i].rank == s[i].rank && s'[i].parent == s[i].parent
    ensures Member(s', m, b)
    decreases if m < |s| then s[m].rank else 0
  {
    if m != b {
      SameForest(s, s', s[m].parent.value, b);
    }
  }
}
