/**
 * Handing requests to the driver: a list is dispatched, issued directly or sorted into queues, and at
 * every request the driver may accept, refuse or fail it.  Where each request ends up is recorded in order.
 */
module Dispatch {

  import opened Lists

  /** A request as dispatch sees it: its queue, hardware and software context, and its kind. */
  datatype Rq = Rq(id: nat, queue: nat, hctx: nat, ctx: nat, passthrough: bool)

  /** Where a request can wait: hctx->dispatch, the list of a software context, or the scheduler of a queue. */
  datatype Place = OnDispatch(hctx: nat) | OnSoftware(hctx: nat, ctx: nat) | OnElevator(queue: nat)

  /** What happens when a request is offered: the queue is stopped or quiesced; no budget or tag; the answers of
      queue_rq: BLK_STS_OK, BLK_STS_RESOURCE, BLK_STS_DEV_RESOURCE, any other status. */
  datatype Answer = Stopped | NotReady | Accept | Resource | DevResource | Error(status: nat)

  predicate Refuses(a: Answer) {
    a.NotReady? || a.Resource? || a.DevResource?
  }

  // ---------------------------------------------------------------- lists

  lemma {:induction false} OccCut(s: seq<Rq>, n: nat, x: Rq)
    requires n <= |s|
    ensures Occ(s, x) == Occ(s[..n], x) + Occ(s[n..], x)
  {
    assert s == s[..n] + s[n..];
    OccJoin(s[..n], s[n..], x);
  }

  /** Which requests belong together: those of a queue, or of a hardware and software context and a kind. */
  datatype Class = OfQueue(queue: nat) | OfContext(hctx: nat, ctx: nat, passthrough: bool)

  predicate In(r: Rq, c: Class) {
    match c
    case OfQueue(q) => r.queue == q
    case OfContext(h, x, p) => r.hctx == h && r.ctx == x && r.passthrough == p
  }

  /** The requests that are in the class, or those that are not, in their order. */
  function Filter(s: seq<Rq>, c: Class, within: bool): (r: seq<Rq>)
    ensures |r| <= |s|
    decreases |s|
  {
    if s == [] then []
    else
      var r, x := Filter(s[..|s| - 1], c, within), s[|s| - 1];
      if In(x, c) == within then r + [x] else r
  }

  lemma {:induction false} FilterJoin(a: seq<Rq>, b: seq<Rq>, c: Class, within: bool)
    ensures Filter(a + b, c, within) == Filter(a, c, within) + Filter(b, c, within)
    decreases |b|
  {
    if b == [] {
      assert a + b == a;
    } else {
      assert (a + b)[..|a + b| - 1] == a + b[..|b| - 1];
      FilterJoin(a, b[..|b| - 1], c, within);
    }
  }

  lemma {:induction false} FilterSplits(s: seq<Rq>, c: Class, x: Rq)
    ensures Occ(Filter(s, c, true), x) + Occ(Filter(s, c, false), x) == Occ(s, x)
    ensures |Filter(s, c, true)| + |Filter(s, c, false)| == |s|
    decreases |s|
  {
    if s != [] {
      var t := s[..|s| - 1];
      FilterSplits(t, c, x);
      var w := In(s[|s| - 1], c);
      assert (Filter(t, c, w) + [s[|s| - 1]])[..|Filter(t, c, w)|] == Filter(t, c, w);
    }
  }

  lemma {:induction false} FilterAll(s: seq<Rq>, c: Class)
    ensures forall i :: 0 <= i < |Filter(s, c, true)| ==> In(Filter(s, c, true)[i], c)
    decreases |s|
  {
    if s != [] {
      FilterAll(s[..|s| - 1], c);
    }
  }

  /** Sorting out one context changes the order in none: what is in a class d is found in d's order either among
      the requests taken out or among those left. */
  lemma {:induction false} FilterTwice(s: seq<Rq>, c: Class, d: Class)
    requires c.OfContext? && d.OfContext?
    ensures Filter(Filter(s, c, true), d, true) + Filter(Filter(s, c, false), d, true) == Filter(s, d, true)
    ensures Filter(Filter(s, c, c != d), d, true) == []
    decreases |s|
  {
    if s != [] {
      var t, x := s[..|s| - 1], s[|s| - 1];
      FilterTwice(t, c, d);
      var w := In(x, c);
      FilterJoin(Filter(t, c, w), [x], d, true);
      assert Filter([x], d, true) == if In(x, d) then [x] else [] by {
        assert [x][..0] == [];
      }
    }
  }

  // ---------------------------------------------------------------- answers

  datatype Fate = Accepted | Ended | Inserted | Refused

  function FateOf(a: Answer): Fate {
    if Refuses(a) then Refused else if a.Accept? then Accepted else if a.Stopped? then Inserted else Ended
  }

  /** Those of the first n requests that met with the fate f, in their order. */
  function Fated(s: seq<Rq>, said: seq<Answer>, n: nat, f: Fate): seq<Rq>
    requires n <= |s| && n <= |said|
    decreases n
  {
    if n == 0 then []
    else
      var r := Fated(s, said, n - 1, f);
      if FateOf(said[n - 1]) == f then r + [s[n - 1]] else r
  }

  /** How often x is among them. */
  function Met(s: seq<Rq>, said: seq<Answer>, n: nat, f: Fate, x: Rq): nat
    requires n <= |s| && n <= |said|
    decreases n
  {
    if n == 0 then 0 else Met(s, said, n - 1, f, x) + (if FateOf(said[n - 1]) == f && s[n - 1] == x then 1 else 0)
  }

  lemma {:induction false} MetIs(s: seq<Rq>, said: seq<Answer>, n: nat, f: Fate, x: Rq)
    requires n <= |s| && n <= |said|
    ensures Occ(Fated(s, said, n, f), x) == Met(s, said, n, f, x)
    decreases n
  {
    if n > 0 {
      MetIs(s, said, n - 1, f, x);
      OccSnoc(Fated(s, said, n - 1, f), s[n - 1], x);
    }
  }

  lemma {:induction false} MetSplits(s: seq<Rq>, said: seq<Answer>, n: nat, x: Rq)
    requires n <= |s| && n <= |said|
    ensures Met(s, said, n, Accepted, x) + Met(s, said, n, Ended, x) + Met(s, said, n, Inserted, x)
            + Met(s, said, n, Refused, x) == Occ(s[..n], x)
    decreases n
  {
    if n > 0 {
      MetSplits(s, said, n - 1, x);
      assert s[..n] == s[..n - 1] + [s[n - 1]];
      OccSnoc(s[..n - 1], s[n - 1], x);
    }
  }

  /** Every request has one fate. */
  lemma {:induction false} FatedSplits(s: seq<Rq>, said: seq<Answer>, n: nat, x: Rq)
    requires n <= |s| && n <= |said|
    ensures Occ(Fated(s, said, n, Accepted), x) + Occ(Fated(s, said, n, Ended), x)
            + Occ(Fated(s, said, n, Inserted), x) + Occ(Fated(s, said, n, Refused), x) == Occ(s[..n], x)
  {
    MetIs(s, said, n, Accepted, x);
    MetIs(s, said, n, Ended, x);
    MetIs(s, said, n, Inserted, x);
    MetIs(s, said, n, Refused, x);
    MetSplits(s, said, n, x);
  }

  lemma {:induction false} NoneFated(s: seq<Rq>, said: seq<Answer>, n: nat, f: Fate)
    requires n <= |s| && n <= |said| && forall i :: 0 <= i < n ==> FateOf(said[i]) != f
    ensures Fated(s, said, n, f) == []
    decreases n
  {
    if n > 0 {
      NoneFated(s, said, n - 1, f);
    }
  }

  lemma {:induction false} FatedExtend(s: seq<Rq>, said: seq<Answer>, a: Answer, n: nat, f: Fate)
    requires n <= |s| && n <= |said|
    ensures Fated(s, said + [a], n, f) == Fated(s, said, n, f)
    decreases n
  {
    if n > 0 {
      FatedExtend(s, said, a, n - 1, f);
    }
  }

  /** One more answer. */
  lemma {:induction false} FatedNext(s: seq<Rq>, said: seq<Answer>, a: Answer, f: Fate)
    requires |said| < |s|
    ensures Fated(s, said + [a], |said|, f) == Fated(s, said, |said|, f)
    ensures Fated(s, said + [a], |said| + 1, f)
            == Fated(s, said, |said|, f) + (if FateOf(a) == f then [s[|said|]] else [])
  {
    FatedExtend(s, said, a, |said|, f);
  }

  /** A dispatch goes on until a request is refused or none is left. */
  predicate Legal(said: seq<Answer>, len: nat) {
    && |said| <= len && (forall i :: 0 <= i < |said| - 1 ==> !Refuses(said[i]))
    && (|said| < len ==> said != [] && Refuses(said[|said| - 1]))
  }

  /** How many requests it got rid of. */
  function Done(said: seq<Answer>): (n: nat)
    ensures n <= |said|
  {
    if said != [] && Refuses(said[|said| - 1]) then |said| - 1 else |said|
  }

  /** The request that stopped it, if one did. */
  function Stopper(s: seq<Rq>, said: seq<Answer>): seq<Rq>
    requires |said| <= |s|
  {
    s[Done(said)..|said|]
  }

  lemma {:induction false} StopperIsLast(s: seq<Rq>, said: seq<Answer>, a: Answer)
    requires |said| < |s| && Refuses(a)
    ensures Done(said + [a]) == |said| && Stopper(s, said + [a]) == [s[|said|]]
  {
    assert (said + [a])[|said|] == a;
  }

  lemma {:induction false} OccCutTwice(s: seq<Rq>, n: nat, m: nat, x: Rq)
    requires n <= m <= |s|
    ensures Occ(s[..n], x) + Occ(s[n..m], x) + Occ(s[m..], x) == Occ(s, x)
  {
    OccCut(s, m, x);
    OccCut(s[..m], n, x);
    assert s[..m][..n] == s[..n] && s[..m][n..] == s[n..m];
  }

  lemma {:induction false} FatesConserve(s: seq<Rq>, said: seq<Answer>, x: Rq)
    requires Legal(said, |s|)
    ensures var n := Done(said);
            Occ(Fated(s, said, n, Accepted), x) + Occ(Fated(s, said, n, Ended), x) + Occ(Fated(s, said, n, Inserted), x)
            == Occ(s[..n], x)
  {
    FatedSplits(s, said, Done(said), x);
    NoneFated(s, said, Done(said), Refused);
  }

  /** List dispatch: what it accepts, ends and leaves make up the list. */
  lemma {:induction false} ListConserves(acc: seq<Rq>, end: seq<Rq>, par: seq<Rq>, s: seq<Rq>, said: seq<Answer>, x: Rq)
    requires Legal(said, |s|) && forall i :: 0 <= i < |said| ==> !said[i].Stopped?
    ensures var n := Done(said);
            Occ(acc + Fated(s, said, n, Accepted), x) + Occ(end + Fated(s, said, n, Ended), x) + Occ(par + s[n..], x)
            == Occ(acc, x) + Occ(end, x) + Occ(par, x) + Occ(s, x)
  {
    var n := Done(said);
    FatesConserve(s, said, x);
    NoneFated(s, said, n, Inserted);
    OccCut(s, n, x);
    OccJoin(acc, Fated(s, said, n, Accepted), x);
    OccJoin(end, Fated(s, said, n, Ended), x);
    OccJoin(par, s[n..], x);
  }

  /** Direct issue: what it accepts, ends, inserts and puts aside, and what it leaves, make up the list. */
  lemma {:induction false} DirectConserves(acc: seq<Rq>, end: seq<Rq>, par: seq<Rq>, s: seq<Rq>, said: seq<Answer>,
      x: Rq)
    requires Legal(said, |s|)
    ensures var n := Done(said);
            Occ(acc + Fated(s, said, n, Accepted), x) + Occ(end + Fated(s, said, n, Ended), x)
            + Occ(par + Fated(s, said, n, Inserted) + Stopper(s, said), x) + Occ(s[|said|..], x)
            == Occ(acc, x) + Occ(end, x) + Occ(par, x) + Occ(s, x)
  {
    var n := Done(said);
    FatesConserve(s, said, x);
    OccCutTwice(s, n, |said|, x);
    OccJoin(acc, Fated(s, said, n, Accepted), x);
    OccJoin(end, Fated(s, said, n, Ended), x);
    OccJoin(par + Fated(s, said, n, Inserted), Stopper(s, said), x);
    OccJoin(par, Fated(s, said, n, Inserted), x);
  }

  // ---------------------------------------------------------------- answer by answer

  // At which of the first n offers x was taken, failed, found its queue stopped, or had to wait for room.

  ghost function Yes(s: seq<Rq>, said: seq<Answer>, n: nat, x: Rq): set<int>
    requires n <= |s| && n <= |said|
  {
    set i | 0 <= i < n && s[i] == x && said[i].Accept?
  }

  ghost function Failing(s: seq<Rq>, said: seq<Answer>, n: nat, x: Rq): set<int>
    requires n <= |s| && n <= |said|
  {
    set i | 0 <= i < n && s[i] == x && said[i].Error?
  }

  ghost function Halted(s: seq<Rq>, said: seq<Answer>, n: nat, x: Rq): set<int>
    requires n <= |s| && n <= |said|
  {
    set i | 0 <= i < n && s[i] == x && said[i].Stopped?
  }

  ghost function NoRoom(s: seq<Rq>, said: seq<Answer>, n: nat, x: Rq): set<int>
    requires n <= |s| && n <= |said|
  {
    set i | 0 <= i < n && s[i] == x && (said[i].NotReady? || said[i].Resource? || said[i].DevResource?)
  }

  /** The offers stop at the first request that there is no room for, and nowhere else. */
  ghost predicate StopsForRoom(said: seq<Answer>, len: nat) {
    && |said| <= len
    && (forall i :: 0 <= i < |said| && (said[i].NotReady? || said[i].Resource? || said[i].DevResource?) ==>
          i == |said| - 1)
    && (|said| < len ==> said != [] && (said[|said| - 1].NotReady? || said[|said| - 1].Resource?
                                        || said[|said| - 1].DevResource?))
  }

  lemma {:induction false} AcceptedIs(s: seq<Rq>, said: seq<Answer>, n: nat, x: Rq)
    requires n <= |s| && n <= |said|
    ensures Met(s, said, n, Accepted, x) == |Yes(s, said, n, x)|
    decreases n
  {
    if n > 0 {
      AcceptedIs(s, said, n - 1, x);
      var before, after := Yes(s, said, n - 1, x), Yes(s, said, n, x);
      assert after == if n - 1 in after then before + {n - 1} else before;
    }
  }

  lemma {:induction false} EndedIs(s: seq<Rq>, said: seq<Answer>, n: nat, x: Rq)
    requires n <= |s| && n <= |said|
    ensures Met(s, said, n, Ended, x) == |Failing(s, said, n, x)|
    decreases n
  {
    if n > 0 {
      EndedIs(s, said, n - 1, x);
      var before, after := Failing(s, said, n - 1, x), Failing(s, said, n, x);
      assert after == if n - 1 in after then before + {n - 1} else before;
    }
  }

  lemma {:induction false} InsertedIs(s: seq<Rq>, said: seq<Answer>, n: nat, x: Rq)
    requires n <= |s| && n <= |said|
    ensures Met(s, said, n, Inserted, x) == |Halted(s, said, n, x)|
    decreases n
  {
    if n > 0 {
      InsertedIs(s, said, n - 1, x);
      var before, after := Halted(s, said, n - 1, x), Halted(s, said, n, x);
      assert after == if n - 1 in after then before + {n - 1} else before;
    }
  }

  lemma {:induction false} RefusedIs(s: seq<Rq>, said: seq<Answer>, n: nat, x: Rq)
    requires n <= |s| && n <= |said|
    ensures Met(s, said, n, Refused, x) == |NoRoom(s, said, n, x)|
    decreases n
  {
    if n > 0 {
      RefusedIs(s, said, n - 1, x);
      var before, after := NoRoom(s, said, n - 1, x), NoRoom(s, said, n, x);
      assert after == if n - 1 in after then before + {n - 1} else before;
    }
  }

  lemma {:induction false} MetByAnswer(s: seq<Rq>, said: seq<Answer>, n: nat, x: Rq)
    requires n <= |s| && n <= |said|
    ensures Met(s, said, n, Accepted, x) == |Yes(s, said, n, x)|
    ensures Met(s, said, n, Ended, x) == |Failing(s, said, n, x)|
    ensures Met(s, said, n, Inserted, x) == |Halted(s, said, n, x)|
    ensures Met(s, said, n, Refused, x) == |NoRoom(s, said, n, x)|
  {
    AcceptedIs(s, said, n, x);
    EndedIs(s, said, n, x);
    InsertedIs(s, said, n, x);
    RefusedIs(s, said, n, x);
  }

  /** Where the requests of an offer went, by the answers themselves. */
  lemma {:induction false} ByAnswer(s: seq<Rq>, said: seq<Answer>, x: Rq)
    requires Legal(said, |s|)
    ensures StopsForRoom(said, |s|)
    ensures Occ(Fated(s, said, Done(said), Accepted), x) == |Yes(s, said, |said|, x)|
    ensures Occ(Fated(s, said, Done(said), Ended), x) == |Failing(s, said, |said|, x)|
    ensures Occ(Fated(s, said, Done(said), Inserted), x) == |Halted(s, said, |said|, x)|
    ensures Occ(Stopper(s, said), x) == |NoRoom(s, said, |said|, x)|
  {
    var n := Done(said);
    MetIs(s, said, n, Accepted, x);
    MetIs(s, said, n, Ended, x);
    MetIs(s, said, n, Inserted, x);
    NoneFated(s, said, n, Refused);
    MetIs(s, said, n, Refused, x);
    MetByAnswer(s, said, n, x);
    MetByAnswer(s, said, |said|, x);
    if n < |said| {
      assert Stopper(s, said) == [s[n]] && [s[n]][..0] == [];
    }
  }

  lemma {:induction false} RestByAnswer(s: seq<Rq>, said: seq<Answer>, x: Rq)
    requires Legal(said, |s|)
    ensures Occ(s[Done(said)..], x) == Occ(Stopper(s, said), x) + Occ(s[|said|..], x)
  {
    assert s[Done(said)..] == Stopper(s, said) + s[|said|..];
    OccJoin(Stopper(s, said), s[|said|..], x);
  }

  lemma {:induction false} LastIsAside(s: seq<Rq>, said: seq<Answer>)
    requires Legal(said, |s|)
    ensures said != [] && (said[|said| - 1].NotReady? || said[|said| - 1].Resource? || said[|said| - 1].DevResource?)
            ==> Stopper(s, said) == [s[|said| - 1]]
  {
  }

  // ---------------------------------------------------------------- the layer

  /** blk_mq_insert_request, for anything but a flush. */
  function InsertPlace(r: Rq, elevators: set<nat>): Place {
    if r.passthrough then OnDispatch(r.hctx)
    else if r.queue in elevators then OnElevator(r.queue)
    else OnSoftware(r.hctx, r.ctx)
  }

  function InsertPlaces(s: seq<Rq>, elevators: set<nat>): seq<Place> {
    seq(|s|, i requires 0 <= i < |s| => InsertPlace(s[i], elevators))
  }

  function DispatchPlaces(s: seq<Rq>): seq<Place> {
    seq(|s|, i requires 0 <= i < |s| => OnDispatch(s[i].hctx))
  }

  function Copies(n: nat, p: Place): seq<Place> {
    seq(n, i => p)
  }

  /** What the layer has recorded at some moment. */
  datatype Record = Record(accepted: seq<Rq>, ended: seq<Rq>, parked: seq<Rq>, places: seq<Place>)

  /** Of `all`, the driver has what it took and what it failed is over. */
  ghost predicate Answered(all: seq<Rq>, said: seq<Answer>, was: Record, now: Record) {
    && StopsForRoom(said, |all|)
    && forall x :: && Occ(now.accepted, x) == Occ(was.accepted, x) + |Yes(all, said, |said|, x)|
                   && Occ(now.ended, x) == Occ(was.ended, x) + |Failing(all, said, |said|, x)|
  }

  lemma {:induction false} AnsweredIs(all: seq<Rq>, said: seq<Answer>, was: Record, now: Record)
    requires Legal(said, |all|)
    requires now.accepted == was.accepted + Fated(all, said, Done(said), Accepted)
    requires now.ended == was.ended + Fated(all, said, Done(said), Ended)
    ensures Answered(all, said, was, now)
  {
    forall x
      ensures StopsForRoom(said, |all|)
      ensures Occ(now.accepted, x) == Occ(was.accepted, x) + |Yes(all, said, |said|, x)|
      ensures Occ(now.ended, x) == Occ(was.ended, x) + |Failing(all, said, |said|, x)|
    {
      ByAnswer(all, said, x);
      OccJoin(was.accepted, Fated(all, said, Done(said), Accepted), x);
      OccJoin(was.ended, Fated(all, said, Done(said), Ended), x);
    }
  }

  /** Those of `all` that were offered have gone where the answers sent them; the rest waits at p, in order. */
  ghost predicate Placed(all: seq<Rq>, said: seq<Answer>, p: Place, elevators: set<nat>, was: Record, now: Record) {
    && (said == [] || Legal(said, |all|))
    && now.accepted == was.accepted + Fated(all, said, Done(said), Accepted)
    && now.ended == was.ended + Fated(all, said, Done(said), Ended)
    && now.parked == was.parked + Fated(all, said, Done(said), Inserted) + Stopper(all, said) + all[|said|..]
    && now.places == was.places + InsertPlaces(Fated(all, said, Done(said), Inserted), elevators)
                     + DispatchPlaces(Stopper(all, said)) + Copies(|all| - |said|, p)
  }

  lemma {:induction false} NothingBetween<T>(a: seq<T>, e: seq<T>, f: seq<T>, b: seq<T>)
    requires e == f == []
    ensures a + e == a && a + e + f + b == a + b
  {
  }

  /** When none was offered, all of them wait. */
  lemma {:induction false} PlacedWhole(all: seq<Rq>, p: Place, elevators: set<nat>, was: Record, now: Record)
    ensures Placed(all, [], p, elevators, was, now) <==>
            && now.accepted == was.accepted && now.ended == was.ended && now.parked == was.parked + all
            && now.places == was.places + Copies(|all|, p)
  {
    var none := Fated(all, [], 0, Inserted);
    var waits, aside := InsertPlaces(none, elevators), DispatchPlaces(none);
    assert Stopper(all, []) == none && all[0..] == all;
    NothingBetween(was.accepted, none, none, none);
    NothingBetween(was.ended, none, none, none);
    NothingBetween(was.parked, none, none, all);
    NothingBetween(was.places, waits, aside, Copies(|all|, p));
  }

  /** The place is one for this request: passthrough requests wait on hctx->dispatch only, never with a scheduler or in
      a software context, and every request waits with its own contexts. */
  predicate Suits(r: Rq, p: Place) {
    match p
    case OnDispatch(hctx) => hctx == r.hctx
    case OnSoftware(hctx, ctx) => hctx == r.hctx && ctx == r.ctx && !r.passthrough
    case OnElevator(_) => !r.passthrough
  }

  /** The record has only been added to, and what was added waits where it may. */
  ghost predicate Grows(was: Record, now: Record) {
    && was.accepted <= now.accepted && was.ended <= now.ended && was.parked <= now.parked && was.places <= now.places
    && |was.parked| == |was.places| && |now.parked| == |now.places|
    && forall k :: |was.parked| <= k < |now.parked| ==> Suits(now.parked[k], now.places[k])
  }

  lemma {:induction false} GrowsTwice(was: Record, mid: Record, now: Record)
    requires Grows(was, mid) && Grows(mid, now)
    ensures Grows(was, now)
  {
    forall k | |was.parked| <= k < |now.parked|
      ensures Suits(now.parked[k], now.places[k])
    {
      if k < |mid.parked| {
        assert now.parked[k] == mid.parked[k] && now.places[k] == mid.places[k];
      }
    }
  }

  lemma {:induction false} IssuedGrows(inserted: seq<Rq>, aside: seq<Rq>, elevators: set<nat>, was: Record, now: Record)
    requires |was.parked| == |was.places| && was.accepted <= now.accepted && was.ended <= now.ended
    requires now.parked == was.parked + inserted + aside
    requires now.places == was.places + InsertPlaces(inserted, elevators) + DispatchPlaces(aside)
    ensures Grows(was, now)
  {
  }

  lemma {:induction false} PlacedGrows(
    all: seq<Rq>, said: seq<Answer>, p: Place, elevators: set<nat>, was: Record, now: Record)
    requires Placed(all, said, p, elevators, was, now) && |was.parked| == |was.places|
    requires forall i :: 0 <= i < |all| ==> Suits(all[i], p)
    ensures Grows(was, now)
  {
    var inserted, aside := Fated(all, said, Done(said), Inserted), Stopper(all, said);
    var mid := now.(parked := was.parked + inserted + aside,
                    places := was.places + InsertPlaces(inserted, elevators) + DispatchPlaces(aside));
    IssuedGrows(inserted, aside, elevators, was, mid);
    GrowsTwice(was, mid, now);
  }

  class RqList {
    var items: seq<Rq>

    constructor (s: seq<Rq>)
      ensures items == s
    {
      items := s;
    }
  }

  class Layer {
    /** The queues with a scheduler, and those whose driver takes lists (queue_rqs). */
    const elevators: set<nat>
    const batching: set<nat>
    /** The requests the driver has, those that were ended, and those that wait, each in order, with their places. */
    var accepted: seq<Rq>
    var ended: seq<Rq>
    var parked: seq<Rq>
    var places: seq<Place>

    predicate Valid()
      reads this
    {
      |parked| == |places|
    }

    constructor (elevators: set<nat>, batching: set<nat>)
      ensures Valid() && this.elevators == elevators && this.batching == batching && forall x :: Count(x) == 0
    {
      this.elevators, this.batching := elevators, batching;
      accepted, ended, parked, places := [], [], [], [];
    }

    /** How often x is with the driver, over, or waiting. */
    function Count(x: Rq): nat
      reads this
    {
      Occ(accepted, x) + Occ(ended, x) + Occ(parked, x)
    }

    /** The record as it stands. */
    ghost function Now(): Record
      reads this
    {
      Record(accepted, ended, parked, places)
    }

    method Park(s: seq<Rq>, p: seq<Place>)
      requires Valid() && |s| == |p|
      modifies this`parked, this`places
      ensures Valid() && parked == old(parked) + s && places == old(places) + p
    {
      parked, places := parked + s, places + p;
    }

    /** The loop of blk_mq_dispatch_rq_list: the driver is offered the requests in order, until it refuses one, which
        goes back to the head of the list.  `said` are the answers it happened to give. */
    method OfferEach(list: RqList) returns (said: seq<Answer>)
      requires Valid()
      modifies this`accepted, this`ended, list
      ensures Legal(said, |old(list.items)|) && list.items == old(list.items)[Done(said)..]
      ensures forall i :: 0 <= i < |said| ==> !said[i].Stopped?
      ensures accepted == old(accepted) + Fated(old(list.items), said, Done(said), Accepted)
      ensures ended == old(ended) + Fated(old(list.items), said, Done(said), Ended)
    {
      ghost var all := list.items;
      said := [];
      while list.items != []
        invariant |said| <= |all| && list.items == all[|said|..]
        invariant forall i :: 0 <= i < |said| ==> !Refuses(said[i]) && !said[i].Stopped?
        invariant accepted == old(accepted) + Fated(all, said, |said|, Accepted)
        invariant ended == old(ended) + Fated(all, said, |said|, Ended)
        decreases |list.items|
      {
        var rq := list.items[0];
        var a: Answer :| !a.Stopped? by { assert !Accept.Stopped?; }
        FatedNext(all, said, a, Accepted);
        FatedNext(all, said, a, Ended);
        said := said + [a];
        if Refuses(a) {
          return;
        }
        list.items := list.items[1..];
        if a.Accept? {
          accepted := accepted + [rq];
        } else {
          ended := ended + [rq];
        }
      }
    }

    /** What the loop of blk_mq_dispatch_rq_list does with a list, by the answers themselves. */
    method OfferAll(list: RqList) returns (said: seq<Answer>)
      requires Valid()
      modifies this`accepted, this`ended, list
      ensures Legal(said, |old(list.items)|) && list.items == old(list.items)[Done(said)..]
      ensures forall i :: 0 <= i < |said| ==> !said[i].Stopped?
      ensures accepted == old(accepted) + Fated(old(list.items), said, Done(said), Accepted)
      ensures ended == old(ended) + Fated(old(list.items), said, Done(said), Ended)
      ensures Answered(old(list.items), said, old(Now()), Now())
      ensures forall x :: Occ(list.items, x) == |NoRoom(old(list.items), said, |said|, x)|
                                                + Occ(old(list.items)[|said|..], x)
    {
      ghost var all := list.items;
      said := OfferEach(list);
      AnsweredIs(all, said, old(Now()), Now());
      forall x
        ensures Occ(list.items, x) == |NoRoom(all, said, |said|, x)| + Occ(all[|said|..], x)
      {
        ByAnswer(all, said, x);
        RestByAnswer(all, said, x);
      }
    }

    /** blk_mq_dispatch_rq_list: what the driver refused, and all after it, waits on hctx->dispatch in order. */
    method DispatchRqList(hctx: nat, list: RqList) returns (more: bool, said: seq<Answer>)
      requires Valid()
      modifies this, list
      ensures Valid() && list.items == [] && Legal(said, |old(list.items)|)
      ensures accepted == old(accepted) + Fated(old(list.items), said, Done(said), Accepted)
      ensures ended == old(ended) + Fated(old(list.items), said, Done(said), Ended)
      ensures parked == old(parked) + old(list.items)[Done(said)..]
      ensures places == old(places) + Copies(|old(list.items)| - Done(said), OnDispatch(hctx))
      ensures more <==> old(list.items) != [] && Done(said) == |old(list.items)|
      ensures Answered(old(list.items), said, old(Now()), Now())
      ensures forall x :: Occ(parked, x) == old(Occ(parked, x)) + |NoRoom(old(list.items), said, |said|, x)|
                                            + Occ(old(list.items)[|said|..], x)
      ensures forall x :: Count(x) == old(Count(x)) + Occ(old(list.items), x)
    {
      ghost var all := list.items;
      if list.items == [] {
        assert all[0..] == all;
        AnsweredIs(all, [], Now(), Now());
        return false, [];
      }
      said := OfferAll(list);
      more := list.items == [];
      ghost var rest := list.items;
      Park(list.items, Copies(|list.items|, OnDispatch(hctx)));
      list.items := [];
      forall x
        ensures Count(x) == old(Count(x)) + Occ(all, x)
        ensures Occ(parked, x) == old(Occ(parked, x)) + Occ(rest, x)
      {
        ListConserves(old(accepted), old(ended), old(parked), all, said, x);
        OccJoin(old(parked), rest, x);
      }
    }

    /** The first n requests of `all` have gone where the answers sent them. */
    ghost predicate Issued(all: seq<Rq>, said: seq<Answer>, n: nat, was: Record)
      requires n <= |all| && n <= |said|
      reads this
    {
      && accepted == was.accepted + Fated(all, said, n, Accepted) && ended == was.ended + Fated(all, said, n, Ended)
      && parked == was.parked + Fated(all, said, n, Inserted)
      && places == was.places + InsertPlaces(Fated(all, said, n, Inserted), elevators)
    }

    /** What becomes of a request that is not refused. */
    method Settle(rq: Rq, a: Answer, ghost all: seq<Rq>, ghost said: seq<Answer>, ghost was: Record)
      requires Valid() && |said| < |all| && all[|said|] == rq && !Refuses(a) && Issued(all, said, |said|, was)
      modifies this
      ensures Valid() && Issued(all, said + [a], |said| + 1, was)
    {
      FatedNext(all, said, a, Accepted);
      FatedNext(all, said, a, Ended);
      FatedNext(all, said, a, Inserted);
      if a.Accept? {
        accepted := accepted + [rq];
      } else if a.Stopped? {
        Park([rq], [InsertPlace(rq, elevators)]);
      } else {
        ended := ended + [rq];
      }
    }

    /** The loop of blk_mq_issue_direct. */
    method IssueAll(list: RqList) returns (said: seq<Answer>)
      requires Valid()
      modifies this, list
      ensures Valid() && Legal(said, |old(list.items)|) && list.items == old(list.items)[|said|..]
      ensures accepted == old(accepted) + Fated(old(list.items), said, Done(said), Accepted)
      ensures ended == old(ended) + Fated(old(list.items), said, Done(said), Ended)
      ensures parked == old(parked) + Fated(old(list.items), said, Done(said), Inserted)
                        + Stopper(old(list.items), said)
      ensures places == old(places) + InsertPlaces(Fated(old(list.items), said, Done(said), Inserted), elevators)
                        + DispatchPlaces(Stopper(old(list.items), said))
    {
      ghost var all, was := list.items, Record(accepted, ended, parked, places);
      said := [];
      while list.items != []
        invariant Valid() && |said| <= |all| && list.items == all[|said|..]
        invariant (forall i :: 0 <= i < |said| ==> !Refuses(said[i])) && Issued(all, said, |said|, was)
        decreases |list.items|
      {
        var rq := list.items[0];
        list.items := list.items[1..];
        var a: Answer := *;
        if Refuses(a) {
          FatedExtend(all, said, a, |said|, Accepted);
          FatedExtend(all, said, a, |said|, Ended);
          FatedExtend(all, said, a, |said|, Inserted);
          StopperIsLast(all, said, a);
          said := said + [a];
          Park([rq], [OnDispatch(rq.hctx)]);
          return;
        }
        Settle(rq, a, all, said, was);
        said := said + [a];
      }
      assert Stopper(all, said) == [];
    }

    /** blk_mq_issue_direct, and blk_mq_try_issue_list_directly: a request whose queue is stopped is inserted, one
        that is refused waits on its hctx->dispatch and ends the loop with the others still in the list. */
    method IssueDirect(list: RqList) returns (said: seq<Answer>)
      requires Valid()
      modifies this, list
      ensures Valid() && Legal(said, |old(list.items)|) && list.items == old(list.items)[|said|..]
      ensures accepted == old(accepted) + Fated(old(list.items), said, Done(said), Accepted)
      ensures ended == old(ended) + Fated(old(list.items), said, Done(said), Ended)
      ensures parked == old(parked) + Fated(old(list.items), said, Done(said), Inserted)
                        + Stopper(old(list.items), said)
      ensures places == old(places) + InsertPlaces(Fated(old(list.items), said, Done(said), Inserted), elevators)
                        + DispatchPlaces(Stopper(old(list.items), said))
      ensures Answered(old(list.items), said, old(Now()), Now()) && Grows(old(Now()), Now())
      ensures forall x :: Occ(parked, x) == old(Occ(parked, x)) + |Halted(old(list.items), said, |said|, x)|
                                            + |NoRoom(old(list.items), said, |said|, x)|
      ensures said != [] && (said[|said| - 1].NotReady? || said[|said| - 1].Resource? || said[|said| - 1].DevResource?)
              ==> && |parked| > 0 && parked[|parked| - 1] == old(list.items)[|said| - 1]
                  && places[|parked| - 1] == OnDispatch(old(list.items)[|said| - 1].hctx)
      ensures forall x :: Count(x) + Occ(list.items, x) == old(Count(x)) + Occ(old(list.items), x)
    {
      ghost var all := list.items;
      said := IssueAll(list);
      ghost var inserted := Fated(all, said, Done(said), Inserted);
      AnsweredIs(all, said, old(Now()), Now());
      IssuedGrows(inserted, Stopper(all, said), elevators, old(Now()), Now());
      LastIsAside(all, said);
      forall x
        ensures Count(x) + Occ(list.items, x) == old(Count(x)) + Occ(all, x)
        ensures Occ(parked, x) == old(Occ(parked, x)) + |Halted(all, said, |said|, x)| + |NoRoom(all, said, |said|, x)|
      {
        DirectConserves(old(accepted), old(ended), old(parked), all, said, x);
        ByAnswer(all, said, x);
        OccJoin(old(parked) + inserted, Stopper(all, said), x);
        OccJoin(old(parked), inserted, x);
      }
    }

    /** The driver's queue_rqs: it takes any of the requests and leaves the others in the list, in order.  A quiesced
        queue is the case that it takes none. */
    method QueueRqs(list: RqList) returns (said: seq<Answer>)
      modifies this`accepted, list
      ensures |said| == |old(list.items)| && forall i :: 0 <= i < |said| ==> said[i].Accept? || said[i].NotReady?
      ensures accepted == old(accepted) + Fated(old(list.items), said, |said|, Accepted)
      ensures list.items == Fated(old(list.items), said, |said|, Refused)
      ensures forall x :: Count(x) + Occ(list.items, x) == old(Count(x)) + Occ(old(list.items), x)
    {
      ghost var all := list.items;
      var left := [];
      said := [];
      var i := 0;
      while i < |list.items|
        invariant i <= |list.items| && list.items == all && |said| == i
        invariant forall j :: 0 <= j < i ==> said[j].Accept? || said[j].NotReady?
        invariant accepted == old(accepted) + Fated(all, said, i, Accepted) && left == Fated(all, said, i, Refused)
      {
        var takes: bool := *;
        var a := if takes then Accept else NotReady;
        FatedExtend(all, said, a, i, Accepted);
        FatedExtend(all, said, a, i, Refused);
        said := said + [a];
        if takes {
          accepted := accepted + [list.items[i]];
        } else {
          left := left + [list.items[i]];
        }
        i := i + 1;
      }
      list.items := left;
      forall x
        ensures Count(x) + Occ(left, x) == old(Count(x)) + Occ(all, x)
      {
        TakenOrLeft(old(accepted), all, said, x);
      }
    }

    /** blk_mq_dispatch_queue_requests: a driver that takes lists is offered the whole list first (`taken`), then
        the rest is issued directly (`said`); what is left after that stays in the list, in order. */
    method DispatchQueueRequests(list: RqList) returns (ghost taken: seq<Answer>, ghost said: seq<Answer>)
      requires Valid() && list.items != []
      modifies this, list
      ensures Valid() && |list.items| <= |old(list.items)|
      ensures |taken| == |old(list.items)|
              && (old(list.items)[0].queue !in batching ==> forall i :: 0 <= i < |taken| ==> taken[i].NotReady?)
      ensures var rest := Fated(old(list.items), taken, |taken|, Refused);
              && Legal(said, |rest|) && list.items == rest[|said|..]
              && accepted == old(accepted) + Fated(old(list.items), taken, |taken|, Accepted)
                              + Fated(rest, said, Done(said), Accepted)
              && ended == old(ended) + Fated(rest, said, Done(said), Ended)
              && parked == old(parked) + Fated(rest, said, Done(said), Inserted) + Stopper(rest, said)
              && places == old(places) + InsertPlaces(Fated(rest, said, Done(said), Inserted), elevators)
                           + DispatchPlaces(Stopper(rest, said))
      ensures Grows(old(Now()), Now())
      ensures forall x :: Count(x) + Occ(list.items, x) == old(Count(x)) + Occ(old(list.items), x)
    {
      if list.items[0].queue in batching {
        taken := QueueRqs(list);
      } else {
        taken := seq(|list.items|, i => NotReady);
        AllRefused(list.items, taken, |taken|);
      }
      FatedLength(old(list.items), taken, |taken|, Refused);
      said := IssueDirect(list);
    }

    /** blk_mq_insert_requests: unless the queue is busy or run asynchronously, direct issue is tried first (`said`,
        empty if not); what is left goes to the software queue, in order. */
    method InsertRequests(first: Rq, list: RqList, async: bool) returns (ghost said: seq<Answer>)
      requires Valid()
      modifies this, list
      ensures Valid() && list.items == [] && (async ==> said == [])
      ensures Placed(old(list.items), said, OnSoftware(first.hctx, first.ctx), elevators, old(Now()), Now())
      ensures forall x :: Count(x) == old(Count(x)) + Occ(old(list.items), x)
    {
      ghost var all := list.items;
      var busy: bool := *;
      said := [];
      if !busy && !async {
        said := IssueDirect(list);
      } else {
        assert all[0..] == all && Stopper(all, []) == [];
      }
      ParkAll(list, OnSoftware(first.hctx, first.ctx));
    }

    /** list_splice_tail_init onto the list of that place. */
    method ParkAll(list: RqList, p: Place)
      requires Valid()
      modifies this`parked, this`places, list
      ensures Valid() && list.items == [] && parked == old(parked) + old(list.items)
      ensures places == old(places) + Copies(|old(list.items)|, p)
      ensures forall x :: Count(x) == old(Count(x)) + Occ(old(list.items), x)
    {
      ghost var all := list.items;
      Park(list.items, Copies(|list.items|, p));
      list.items := [];
      forall x
        ensures Count(x) == old(Count(x)) + Occ(all, x)
      {
        OccJoin(old(parked), all, x);
      }
    }

    /** blk_mq_dispatch_list: the requests of the first one's contexts and kind go on together; the others stay.
        Direct issue is tried (`said`, empty if not) only if the queue has no scheduler and the flush is not part of
        going to sleep. */
    method DispatchList(list: RqList, fromSched: bool) returns (ghost said: seq<Answer>)
      requires Valid() && list.items != []
      modifies this, list
      ensures Valid() && |list.items| < |old(list.items)|
      ensures var first := old(list.items)[0];
              var c := OfContext(first.hctx, first.ctx, first.passthrough);
              && list.items == Filter(old(list.items), c, false)
              && Placed(Filter(old(list.items), c, true), said, InsertPlace(first, elevators), elevators,
                        old(Now()), Now())
              && (fromSched || first.passthrough || first.queue in elevators ==> said == [])
      ensures Grows(old(Now()), Now())
      ensures forall x :: Count(x) + Occ(list.items, x) == old(Count(x)) + Occ(old(list.items), x)
    {
      ghost var all := list.items;
      var first := list.items[0];
      var c := OfContext(first.hctx, first.ctx, first.passthrough);
      var taken, left := Partition(list.items, c);
      FirstIsTaken(all, c);
      list.items := left;
      var sorted := new RqList(taken);
      said := [];
      if first.passthrough {
        ParkAll(sorted, OnDispatch(first.hctx));
      } else if first.queue in elevators {
        ParkAll(sorted, OnElevator(first.queue));
      } else {
        said := InsertRequests(first, sorted, fromSched);
      }
      if said == [] {
        PlacedWhole(taken, InsertPlace(first, elevators), elevators, old(Now()), Now());
      }
      FilterAll(all, c);
      PlacedGrows(taken, said, InsertPlace(first, elevators), elevators, old(Now()), Now());
      forall x
        ensures Count(x) + Occ(left, x) == old(Count(x)) + Occ(all, x)
      {
        FilterSplits(all, c, x);
      }
    }

    /** The last loop of blk_mq_flush_plug_list: rounds of blk_mq_dispatch_list, each of which shortens the list.  When
        nothing is issued directly, the requests of any two contexts and a kind wait in the order they had. */
    method DispatchByContext(list: RqList, fromSched: bool)
      requires Valid()
      modifies this, list
      ensures Valid() && list.items == [] && Grows(old(Now()), Now())
      ensures forall x :: Count(x) == old(Count(x)) + Occ(old(list.items), x)
      ensures fromSched ==> && accepted == old(accepted) && ended == old(ended)
                            && forall c: Class :: c.OfContext? ==>
                                 Filter(parked, c, true)
                                 == Filter(old(parked), c, true) + Filter(old(list.items), c, true)
    {
      ghost var all := list.items;
      while list.items != []
        invariant Valid() && Grows(old(Now()), Now())
        invariant forall x :: Count(x) + Occ(list.items, x) == old(Count(x)) + Occ(all, x)
        invariant fromSched ==> && accepted == old(accepted) && ended == old(ended)
                                && forall c: Class :: c.OfContext? ==>
                                     Ordered(c, old(parked), all, parked, list.items)
        decreases |list.items|
      {
        ghost var before, start := list.items, Now();
        ghost var said := DispatchList(list, fromSched);
        GrowsTwice(old(Now()), start, Now());
        if fromSched {
          var first := before[0];
          var d := OfContext(first.hctx, first.ctx, first.passthrough);
          PlacedWhole(Filter(before, d, true), InsertPlace(first, elevators), elevators, start, Now());
          forall c: Class | c.OfContext?
            ensures Ordered(c, old(parked), all, parked, list.items)
          {
            OrderedStep(c, old(parked), all, start.parked, before, d);
          }
        }
      }
    }

    /** blk_mq_extract_queue_requests */
    method ExtractQueueRequests(list: RqList) returns (matched: RqList, depth: nat)
      requires list.items != []
      modifies list
      ensures fresh(matched) && depth == |matched.items| > 0 && |list.items| < |old(list.items)|
      ensures matched.items == Filter(old(list.items), OfQueue(old(list.items)[0].queue), true)
      ensures list.items == Filter(old(list.items), OfQueue(old(list.items)[0].queue), false)
      ensures forall x :: Occ(matched.items, x) + Occ(list.items, x) == Occ(old(list.items), x)
    {
      ghost var all := list.items;
      var c := OfQueue(list.items[0].queue);
      FirstIsTaken(all, c);
      var taken, left := Partition(list.items, c);
      list.items := left;
      matched := new RqList(taken);
      depth := |taken|;
      forall x
        ensures Occ(taken, x) + Occ(left, x) == Occ(all, x)
      {
        FilterSplits(all, c, x);
      }
    }

    /** blk_mq_dispatch_multiple_queue_requests */
    method DispatchMultiple(list: RqList)
      requires Valid()
      modifies this, list
      ensures Valid() && list.items == [] && Grows(old(Now()), Now())
      ensures forall x :: Count(x) == old(Count(x)) + Occ(old(list.items), x)
    {
      ghost var all := list.items;
      while list.items != []
        invariant Valid() && Grows(old(Now()), Now())
        invariant forall x :: Count(x) + Occ(list.items, x) == old(Count(x)) + Occ(all, x)
        decreases |list.items|
      {
        var one, depth := ExtractQueueRequests(list);
        ghost var start := Now();
        ghost var taken, said := DispatchQueueRequests(one);
        GrowsTwice(old(Now()), start, Now());
        start := Now();
        DispatchByContext(one, false);
        GrowsTwice(old(Now()), start, Now());
      }
    }

    /** blk_mq_flush_plug_list: whatever the driver answers, no request is lost or doubled and the plug ends empty.  The
        requests of a plug for one queue without a scheduler are offered to the driver before any of them waits
        (`taken`, `said`), unless the flush is part of going to sleep; then nothing is offered at all. */
    method FlushPlugList(list: RqList, multiple: bool, hasElevator: bool, fromSchedule: bool)
      returns (ghost taken: seq<Answer>, ghost said: seq<Answer>)
      requires Valid()
      modifies this, list
      ensures Valid() && list.items == [] && Grows(old(Now()), Now())
      ensures forall x :: Count(x) == old(Count(x)) + Occ(old(list.items), x)
      ensures old(list.items) != [] && !multiple && !hasElevator && !fromSchedule ==>
                && |taken| == |old(list.items)|
                && (old(list.items)[0].queue !in batching ==> forall i :: 0 <= i < |taken| ==> taken[i].NotReady?)
                && var rest := Fated(old(list.items), taken, |taken|, Refused);
                   && StopsForRoom(said, |rest|)
                   && old(accepted) + Fated(old(list.items), taken, |taken|, Accepted)
                      + Fated(rest, said, Done(said), Accepted) <= accepted
                   && old(ended) + Fated(rest, said, Done(said), Ended) <= ended
      ensures fromSchedule ==> && accepted == old(accepted) && ended == old(ended)
                               && forall c: Class :: c.OfContext? ==>
                                    Filter(parked, c, true)
                                    == Filter(old(parked), c, true) + Filter(old(list.items), c, true)
    {
      taken, said := [], [];
      if list.items == [] {
        return;
      }
      if !hasElevator && !fromSchedule {
        if multiple {
          DispatchMultiple(list);
          return;
        }
        taken, said := DispatchQueueRequests(list);
        ByAnswer(Fated(old(list.items), taken, |taken|, Refused), said, old(list.items)[0]);
        if list.items == [] {
          return;
        }
      }
      ghost var start := Now();
      DispatchByContext(list, fromSchedule);
      GrowsTwice(old(Now()), start, Now());
    }
  }

  /** Of class c, what waits now and what is still in the list is what waited before and what was in the list, in
      order. */
  ghost predicate Ordered(c: Class, parked: seq<Rq>, list: seq<Rq>, parked': seq<Rq>, list': seq<Rq>) {
    Filter(parked', c, true) + Filter(list', c, true) == Filter(parked, c, true) + Filter(list, c, true)
  }

  lemma {:induction false} OrderedStep(c: Class, parked: seq<Rq>, list: seq<Rq>, was: seq<Rq>, before: seq<Rq>,
      d: Class)
    requires c.OfContext? && d.OfContext? && Ordered(c, parked, list, was, before)
    ensures Ordered(c, parked, list, was + Filter(before, d, true), Filter(before, d, false))
  {
    var a, b := Filter(before, d, true), Filter(before, d, false);
    FilterJoin(was, a, c, true);
    FilterTwice(before, d, c);
    Associative(Filter(was, c, true), Filter(a, c, true), Filter(b, c, true));
  }

  lemma {:induction false} Associative(a: seq<Rq>, b: seq<Rq>, c: seq<Rq>)
    ensures (a + b) + c == a + (b + c)
  {
  }

  /** A driver that takes some and leaves the rest. */
  lemma {:induction false} TakenOrLeft(acc: seq<Rq>, s: seq<Rq>, said: seq<Answer>, x: Rq)
    requires |said| == |s| && forall i :: 0 <= i < |said| ==> said[i].Accept? || said[i].NotReady?
    ensures Occ(acc + Fated(s, said, |s|, Accepted), x) + Occ(Fated(s, said, |s|, Refused), x)
            == Occ(acc, x) + Occ(s, x)
  {
    FatedSplits(s, said, |s|, x);
    NoneFated(s, said, |s|, Ended);
    NoneFated(s, said, |s|, Inserted);
    OccJoin(acc, Fated(s, said, |s|, Accepted), x);
    assert s[..|s|] == s;
  }

  lemma {:induction false} AllRefused(s: seq<Rq>, said: seq<Answer>, n: nat)
    requires n <= |s| && n <= |said| && forall i :: 0 <= i < |said| ==> said[i].NotReady?
    ensures Fated(s, said, n, Refused) == s[..n] && Fated(s, said, n, Accepted) == []
    ensures n == |s| ==> s[..n] == s
    decreases n
  {
    if n > 0 {
      AllRefused(s, said, n - 1);
      assert s[..n] == s[..n - 1] + [s[n - 1]];
    }
  }

  lemma {:induction false} FatedLength(s: seq<Rq>, said: seq<Answer>, n: nat, f: Fate)
    requires n <= |s| && n <= |said|
    ensures |Fated(s, said, n, f)| <= n
    decreases n
  {
    if n > 0 {
      FatedLength(s, said, n - 1, f);
    }
  }

  lemma {:induction false} FirstIsTaken(s: seq<Rq>, c: Class)
    requires s != [] && In(s[0], c)
    ensures |Filter(s, c, false)| < |s| && Filter(s, c, true) != []
  {
    FilterSplits(s, c, s[0]);
    assert s == [s[0]] + s[1..];
    FilterJoin([s[0]], s[1..], c, true);
    assert Filter([s[0]], c, true) == [s[0]];
  }

  /** The loops that sort a list by class: both halves keep their order. */
  method Partition(s: seq<Rq>, c: Class) returns (taken: seq<Rq>, left: seq<Rq>)
    ensures taken == Filter(s, c, true) && left == Filter(s, c, false)
  {
    taken, left := [], [];
    var i := 0;
    while i < |s|
      invariant i <= |s| && taken == Filter(s[..i], c, true) && left == Filter(s[..i], c, false)
    {
      assert s[..i + 1][..i] == s[..i];
      if In(s[i], c) {
        taken := taken + [s[i]];
      } else {
        left := left + [s[i]];
      }
      i := i + 1;
    }
    assert s[..|s|] == s;
  }
}
