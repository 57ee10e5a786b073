/**
 * The way of one bio through the block layer, end to end: it is cut into pieces, each front piece is chained to it,
 * pieces become requests that merge with other traffic and complete bit by bit, and completions climb the chain.
 *
 * The bio itself is number 0 of the chain, its c-th front piece number c.  In the request layer number k goes by the
 * even id 2k; bios of other submitters have odd ids.
 */
module Pipeline {

  import opened Lists
  import opened Options
  import opened BioChain
  import opened Requests
  import opened SplitSubmit
  import opened BioSplit
  import opened Sectors
  import opened Segments

  function Id(k: nat): nat {
    2 * k
  }

  predicate Ours(id: nat) {
    id % 2 == 0
  }

  /** How many front pieces there are: the last piece, if the bio did not fail, is the bio itself. */
  function Fronts(r: SplitSubmit.Outcome): nat {
    if r.failed.None? && r.pieces != [] then |r.pieces| - 1 else |r.pieces|
  }

  /** Number k as the request layer sees it. */
  function AsBio(r: SplitSubmit.Outcome, k: nat): Requests.Bio
    requires if k == 0 then r.pieces != [] else k <= |r.pieces|
  {
    var p := r.pieces[if k == 0 then |r.pieces| - 1 else k - 1];
    Requests.Bio(Id(k), p.bio.sector, BioSplit.Bytes(p.bio), p.bio.nomerge)
  }

  /** Where the bio itself is. */
  datatype Own = Held | Sent | Refused

  /** The chain, the request layer, how many front pieces have been cut off, and where the bio itself is. */
  datatype Pipe = Pipe(chain: BioChain.State, layer: Requests.Layer, cut: nat, own: Own)

  datatype Action =
    | CutOff                                          // the next front piece is chained and becomes a request
    | Send(enter: Requests.Action)                    // what is left of the bio goes to the request layer whole
    | Refuse(error: nat)                              // ... or fails
    | Other(other: Requests.Action)                   // other bios, merges of requests
    | CompletePart(rq: nat, bytes: nat, error: nat)   // part of a request completes
    | Climb(climb: BioChain.Action)                   // a step of some bio_endio

  // ---------------------------------------------------------------- completion of a request

  /** The bio, if any, that blk_update_request advances without ending it. */
  function Touched(bios: seq<Requests.Bio>, n: nat): Option<nat>
    decreases |bios|
  {
    if bios == [] then None
    else if n < bios[0].size then Some(bios[0].id)
    else if n == bios[0].size then None
    else Touched(bios[1..], n - bios[0].size)
  }

  /** For the bios of the list that are ours: an error is written to the status, and bio_endio is called. */
  function ArriveAll(chain: BioChain.State, ids: seq<nat>, error: nat): BioChain.State
    decreases |ids|
  {
    if ids == [] then chain
    else
      var c, x := ArriveAll(chain, ids[..|ids| - 1], error), ids[|ids| - 1];
      if Ours(x) && BioChain.CanArrive(c, x / 2) then BioChain.DoArrive(c, x / 2, error) else c
  }

  /** An error is written to the status of the bio that is only advanced, too. */
  function NoteOn(chain: BioChain.State, touched: Option<nat>, error: nat): BioChain.State {
    if error != 0 && touched.Some? && Ours(touched.value) && BioChain.CanArrive(chain, touched.value / 2)
    then BioChain.DoNote(chain, touched.value / 2, error)
    else chain
  }

  // ---------------------------------------------------------------- the steps

  /** The action brings a bio into the request layer. */
  predicate Brings(a: Requests.Action, b: Requests.Bio) {
    (a.New? || a.Merge?) && a.b == b
  }

  predicate OfOthers(a: Requests.Action) {
    a.MergeRequests? || a.SetNomerge? || ((a.New? || a.Merge?) && !Ours(a.b.id))
  }

  /** A step of some bio_endio. */
  predicate Climbs(a: BioChain.Action) {
    a.CountOwn? || a.Test? || a.Write? || a.CountUp?
  }

  predicate Enabled(r: SplitSubmit.Outcome, s: Pipe, a: Action) {
    match a
    case CutOff => s.own.Held? && s.cut < Fronts(r) && Requests.Enabled(s.layer, Requests.New(AsBio(r, s.cut + 1)))
    case Send(e) =>
      && s.own.Held? && s.cut == Fronts(r) && r.failed.None? && r.pieces != []
      && Brings(e, AsBio(r, 0)) && Requests.Enabled(s.layer, e)
    case Refuse(error) => s.own.Held? && s.cut == Fronts(r) && r.failed.Some? && error != 0
    case Other(o) => OfOthers(o) && Requests.Enabled(s.layer, o)
    case CompletePart(i, n, _) => Requests.Enabled(s.layer, Requests.Complete(i, n))
    case Climb(c) => Climbs(c) && BioChain.Enabled(s.chain, c)
  }

  /** A new bio chained to number 0. */
  function Chained(chain: BioChain.State): BioChain.State {
    var c := BioChain.DoAlloc(chain, 1, false);
    if BioChain.CanChain(c, |chain|, 0) then BioChain.DoChain(c, |chain|, 0) else c
  }

  function Do(r: SplitSubmit.Outcome, s: Pipe, a: Action, segment: Requests.Bio -> nat): Pipe
    requires Enabled(r, s, a)
  {
    match a
    case CutOff =>
      s.(chain := Chained(s.chain), layer := Requests.Do(s.layer, Requests.New(AsBio(r, s.cut + 1)), segment),
         cut := s.cut + 1)
    case Send(e) => s.(layer := Requests.Do(s.layer, e, segment), own := Sent)
    case Refuse(error) =>
      s.(chain := if BioChain.CanArrive(s.chain, 0) then BioChain.DoArrive(s.chain, 0, error) else s.chain,
         own := Refused)
    case Other(o) => s.(layer := Requests.Do(s.layer, o, segment))
    case CompletePart(i, n, error) =>
      var bios := s.layer.rqs[i].bios;
      s.(layer := Requests.Do(s.layer, Requests.Complete(i, n), segment),
         chain := NoteOn(ArriveAll(s.chain, Requests.Ended(bios, n), error), Touched(bios, n), error))
    case Climb(c) => s.(chain := BioChain.Do(s.chain, c))
  }

  /** The bio has been allocated and nothing has happened to it. */
  const START: Pipe := Pipe(BioChain.DoAlloc([], 0, true), Requests.IDLE, 0, Held)

  // ---------------------------------------------------------------- invariant

  /** The chain as splitting makes it. */
  ghost predicate Shape(s: Pipe) {
    && BioChain.Reachable(s.chain) && |s.chain| == s.cut + 1
    && s.chain[0].parent.None? && s.chain[0].hasEndIo && s.chain[0].rank == 0
    && forall k :: 1 <= k < |s.chain| ==> s.chain[k].parent == Some(0)
  }

  /** Number k came into the request layer once, if its turn has come. */
  predicate Came(s: Pipe, k: nat) {
    Occ(s.layer.arrived, Id(k)) == if k == 0 then (if s.own.Sent? then 1 else 0) else if k <= s.cut then 1 else 0
  }

  /** Its own I/O is open until the request layer has ended it, or it was refused. */
  predicate Open(s: Pipe, k: nat)
    requires k < |s.chain|
  {
    s.chain[k].own.Pending? <==> Occ(s.layer.ended, Id(k)) == 0 && !(k == 0 && s.own.Refused?)
  }

  ghost predicate Inv(s: Pipe) {
    && Shape(s) && Requests.AllValid(s.layer) && (forall x: nat :: Requests.Conserved(s.layer, x))
    && (forall k: nat :: Came(s, k)) && (forall k: nat :: k < |s.chain| ==> Open(s, k))
  }

  // ---------------------------------------------------------------- the chain

  /** Nothing that makes the forest changes. */
  ghost predicate SameForest(c: BioChain.State, c': BioChain.State) {
    && |c| == |c'|
    && forall k :: 0 <= k < |c| ==>
         c'[k].parent == c[k].parent && c'[k].hasEndIo == c[k].hasEndIo && c'[k].rank == c[k].rank
  }

  lemma {:induction false} ClimbKeeps(c: BioChain.State, a: BioChain.Action)
    requires BioChain.Reachable(c) && BioChain.Enabled(c, a) && Climbs(a)
    ensures var c' := BioChain.Do(c, a);
            && BioChain.Reachable(c') && SameForest(c, c')
            && forall k :: 0 <= k < |c| ==> (c'[k].own.Pending? <==> c[k].own.Pending?) && c'[k].failed == c[k].failed
  {
    BioChain.ReachableStep(c, a);
  }

  lemma {:induction false} ArriveKeeps(c: BioChain.State, k: nat, error: nat)
    requires BioChain.Reachable(c) && BioChain.CanArrive(c, k)
    ensures var c' := BioChain.DoArrive(c, k, error);
            && BioChain.Reachable(c') && SameForest(c, c')
            && forall l :: 0 <= l < |c| ==>
                 && (c'[l].own.Pending? <==> c[l].own.Pending? && l != k)
                 && (c'[l].failed <==> c[l].failed || (l == k && error != 0))
  {
    BioChain.ReachableStep(c, BioChain.Arrive(k, error));
  }

  /** The bio that is only advanced, if it is ours, is open: it is marked as failed and nothing else changes. */
  lemma {:induction false} NoteOnKeeps(c: BioChain.State, touched: Option<nat>, error: nat)
    requires BioChain.Reachable(c)
    requires forall k: nat :: touched == Some(Id(k)) ==> k < |c| && c[k].own.Pending?
    ensures var c' := NoteOn(c, touched, error);
            && BioChain.Reachable(c') && SameForest(c, c')
            && forall k: nat :: k < |c| ==>
                 && c'[k].own == c[k].own
                 && (c'[k].failed <==> c[k].failed || (touched == Some(Id(k)) && error != 0))
  {
    if error != 0 && touched.Some? && Ours(touched.value) {
      var k := touched.value / 2;
      assert touched == Some(Id(k));
      BioChain.ReachableStep(c, BioChain.Note(k, error));
    }
  }

  /** One more bio, open and chained to number 0; the others are as they were, but for what waits on number 0. */
  ghost predicate Extends(c: BioChain.State, c': BioChain.State) {
    && |c'| == |c| + 1 && c'[|c|].parent == Some(0) && c'[|c|].own.Pending? && !c'[|c|].failed
    && forall k :: 0 <= k < |c| ==>
         && c'[k].parent == c[k].parent && c'[k].hasEndIo == c[k].hasEndIo && c'[k].rank == c[k].rank
         && c'[k].own == c[k].own && c'[k].failed == c[k].failed
  }

  lemma {:induction false} ChainedKeeps(c: BioChain.State)
    requires BioChain.Reachable(c) && c != [] && c[0].own.Pending? && c[0].rank == 0
    ensures BioChain.Reachable(Chained(c)) && Extends(c, Chained(c))
  {
    BioChain.ReachableStep(c, BioChain.Alloc(1, false));
    BioChain.ReachableStep(BioChain.DoAlloc(c, 1, false), BioChain.Chain(|c|, 0));
  }

  /** Each of our bios on the list was open and occurs once: they all arrive, and nothing else changes. */
  lemma {:induction false} ArriveAllKeeps(c: BioChain.State, ids: seq<nat>, error: nat)
    requires BioChain.Reachable(c)
    requires forall k: nat :: Occ(ids, Id(k)) <= 1 && (Occ(ids, Id(k)) == 1 ==> k < |c| && c[k].own.Pending?)
    ensures var c' := ArriveAll(c, ids, error);
            && BioChain.Reachable(c') && SameForest(c, c')
            && forall k: nat :: k < |c| ==>
                 && (c'[k].own.Pending? <==> c[k].own.Pending? && Occ(ids, Id(k)) == 0)
                 && (c'[k].failed <==> c[k].failed || (Occ(ids, Id(k)) == 1 && error != 0))
    decreases |ids|
  {
    if ids != [] {
      var t, x := ids[..|ids| - 1], ids[|ids| - 1];
      assert forall y :: Occ(ids, y) == Occ(t, y) + (if y == x then 1 else 0);
      ArriveAllKeeps(c, t, error);
      var c1 := ArriveAll(c, t, error);
      if Ours(x) {
        var k := x / 2;
        assert Id(k) == x && Occ(ids, Id(k)) == 1;
        ArriveKeeps(c1, k, error);
      }
    }
  }

  // ---------------------------------------------------------------- every step

  lemma {:induction false} LayerKeeps(l: Requests.Layer, a: Requests.Action, segment: Requests.Bio -> nat)
    requires Requests.AllValid(l) && (forall x: nat :: Requests.Conserved(l, x)) && Requests.Enabled(l, a)
    requires forall b :: segment(b) <= b.size
    ensures var l' := Requests.Do(l, a, segment);
            Requests.AllValid(l') && forall x: nat :: Requests.Conserved(l', x)
  {
    Requests.InvStep(l, a, segment, 0);
    forall x: nat
      ensures Requests.Conserved(Requests.Do(l, a, segment), x)
    {
      Requests.InvStep(l, a, segment, x);
    }
  }

  /** No bio of ours ends more often than it came. */
  lemma {:induction false} EndedCame(s: Pipe, k: nat)
    requires Inv(s)
    ensures Occ(s.layer.ended, Id(k)) <= Occ(s.layer.arrived, Id(k)) <= 1 && Came(s, k)
  {
    assert Requests.Conserved(s.layer, Id(k)) && Came(s, k);
  }

  lemma {:induction false} CutCounts(s: Pipe, s': Pipe, k: nat)
    requires Inv(s) && Extends(s.chain, s'.chain)
    requires s'.cut == s.cut + 1 && s'.own == s.own && s'.layer.ended == s.layer.ended
    requires s'.layer.arrived == s.layer.arrived + [Id(s'.cut)]
    ensures Came(s', k) && (k < |s'.chain| ==> Open(s', k))
  {
    EndedCame(s, k);
    OccSnoc(s.layer.arrived, Id(s'.cut), Id(k));
    assert k < |s.chain| ==> Open(s, k);
  }

  lemma {:induction false} CutKeepsShape(s: Pipe, s': Pipe)
    requires Shape(s) && Extends(s.chain, s'.chain) && BioChain.Reachable(s'.chain) && s'.cut == s.cut + 1
    ensures Shape(s')
  {
  }

  lemma {:induction false} HeldIsOpen(s: Pipe)
    requires Inv(s) && s.own.Held?
    ensures s.chain[0].own.Pending?
  {
    EndedCame(s, 0);
    assert Open(s, 0);
  }

  lemma {:induction false} CutKeeps(r: SplitSubmit.Outcome, s: Pipe, segment: Requests.Bio -> nat)
    requires Inv(s) && Enabled(r, s, CutOff) && forall b :: segment(b) <= b.size
    ensures Inv(Do(r, s, CutOff, segment))
  {
    var b, c := AsBio(r, s.cut + 1), Chained(s.chain);
    HeldIsOpen(s);
    ChainedKeeps(s.chain);
    LayerKeeps(s.layer, Requests.New(b), segment);
    var s' := s.(chain := c, layer := Requests.Do(s.layer, Requests.New(b), segment), cut := s.cut + 1);
    CutKeepsShape(s, s');
    forall k: nat
      ensures Came(s', k) && (k < |s'.chain| ==> Open(s', k))
    {
      CutCounts(s, s', k);
    }
    assert Do(r, s, CutOff, segment) == s';
  }

  lemma {:induction false} SendKeeps(r: SplitSubmit.Outcome, s: Pipe, e: Requests.Action, segment: Requests.Bio -> nat)
    requires Inv(s) && Enabled(r, s, Send(e)) && forall b :: segment(b) <= b.size
    ensures Inv(Do(r, s, Send(e), segment))
  {
    var s' := Do(r, s, Send(e), segment);
    LayerKeeps(s.layer, e, segment);
    forall k: nat
      ensures Came(s', k) && (k < |s'.chain| ==> Open(s', k))
    {
      EndedCame(s, k);
      OccSnoc(s.layer.arrived, 0, Id(k));
      assert k < |s.chain| ==> Open(s, k);
    }
  }

  lemma {:induction false} RefuseKeeps(r: SplitSubmit.Outcome, s: Pipe, error: nat, segment: Requests.Bio -> nat)
    requires Inv(s) && Enabled(r, s, Refuse(error))
    ensures Inv(Do(r, s, Refuse(error), segment))
  {
    var s' := Do(r, s, Refuse(error), segment);
    EndedCame(s, 0);
    assert Open(s, 0);
    ArriveKeeps(s.chain, 0, error);
    forall k: nat
      ensures Came(s', k) && (k < |s'.chain| ==> Open(s', k))
    {
      assert Came(s, k) && (k < |s.chain| ==> Open(s, k));
    }
  }

  lemma {:induction false} OtherKeeps(r: SplitSubmit.Outcome, s: Pipe, o: Requests.Action, segment: Requests.Bio -> nat)
    requires Inv(s) && Enabled(r, s, Other(o)) && forall b :: segment(b) <= b.size
    ensures Inv(Do(r, s, Other(o), segment))
  {
    var s' := Do(r, s, Other(o), segment);
    LayerKeeps(s.layer, o, segment);
    forall k: nat
      ensures Came(s', k) && (k < |s'.chain| ==> Open(s', k))
    {
      assert Came(s, k) && (k < |s.chain| ==> Open(s, k));
      if o.New? || o.Merge? {
        OccSnoc(s.layer.arrived, o.b.id, Id(k));
      }
    }
  }

  /** What a completion ends of ours was open. */
  lemma {:induction false} EndsOpen(s: Pipe, rq: nat, n: nat, segment: Requests.Bio -> nat, k: nat)
    requires Inv(s) && Requests.Enabled(s.layer, Requests.Complete(rq, n)) && forall b :: segment(b) <= b.size
    ensures var ids := Requests.Ended(s.layer.rqs[rq].bios, n);
            && Occ(ids, Id(k)) <= 1 && (Occ(ids, Id(k)) == 1 ==> k < |s.chain| && s.chain[k].own.Pending?)
            && Occ(s.layer.ended + ids, Id(k)) == Occ(s.layer.ended, Id(k)) + Occ(ids, Id(k))
  {
    var ids := Requests.Ended(s.layer.rqs[rq].bios, n);
    Requests.InvStep(s.layer, Requests.Complete(rq, n), segment, Id(k));
    OccJoin(s.layer.ended, ids, Id(k));
    EndedCame(s, k);
    assert k < |s.chain| ==> Open(s, k);
  }

  lemma {:induction false} IdsAt(bios: seq<Requests.Bio>, j: nat)
    requires j < |bios|
    ensures Requests.Ids(bios)[j] == bios[j].id
    decreases |bios|
  {
    if j > 0 {
      IdsAt(bios[1..], j - 1);
    }
  }

  lemma {:induction false} HeldAtLeast(rqs: seq<Requests.Rq>, n: nat, i: nat, x: nat)
    requires i < n <= |rqs|
    ensures Requests.Held(rqs, n, x) >= Requests.In(rqs[i], x)
    decreases n
  {
    if i < n - 1 {
      HeldAtLeast(rqs, n - 1, i, x);
    }
  }

  lemma {:induction false} TouchedIsLeft(bios: seq<Requests.Bio>, n: nat)
    requires Touched(bios, n).Some?
    ensures Requests.Rest(bios, n) != [] && Requests.Rest(bios, n)[0].id == Touched(bios, n).value
    decreases |bios|
  {
    if n > bios[0].size {
      TouchedIsLeft(bios[1..], n - bios[0].size);
    }
  }

  /** What a completion only advances of ours was open, and is not among what it ends. */
  lemma {:induction false} TouchesOpen(s: Pipe, rq: nat, n: nat, segment: Requests.Bio -> nat, k: nat)
    requires Inv(s) && Requests.Enabled(s.layer, Requests.Complete(rq, n)) && forall b :: segment(b) <= b.size
    requires Touched(s.layer.rqs[rq].bios, n) == Some(Id(k))
    ensures k < |s.chain| && s.chain[k].own.Pending?
    ensures Occ(Requests.Ended(s.layer.rqs[rq].bios, n), Id(k)) == 0
  {
    var bios := s.layer.rqs[rq].bios;
    var l := Requests.Do(s.layer, Requests.Complete(rq, n), segment);
    TouchedIsLeft(bios, n);
    assert l.rqs[rq].bios == Requests.Rest(bios, n);
    IdsAt(l.rqs[rq].bios, 0);
    OccIff(Requests.Ids(l.rqs[rq].bios), Id(k));
    HeldAtLeast(l.rqs, |l.rqs|, rq, Id(k));
    Requests.InvStep(s.layer, Requests.Complete(rq, n), segment, Id(k));
    OccJoin(s.layer.ended, Requests.Ended(bios, n), Id(k));
    EndedCame(s, k);
    assert k < |s.chain| ==> Open(s, k);
  }

  /** A completion: what it ends of ours arrives, what it advances is noted, and the rest of the chain stays. */
  lemma {:induction false} CompleteChain(s: Pipe, rq: nat, n: nat, error: nat, segment: Requests.Bio -> nat)
    requires Inv(s) && Requests.Enabled(s.layer, Requests.Complete(rq, n)) && forall b :: segment(b) <= b.size
    ensures var bios := s.layer.rqs[rq].bios;
            var ids, touched := Requests.Ended(bios, n), Touched(bios, n);
            var c := NoteOn(ArriveAll(s.chain, ids, error), touched, error);
            && BioChain.Reachable(c) && SameForest(s.chain, c)
            && forall k: nat :: k < |c| ==>
                 && (c[k].own.Pending? <==> s.chain[k].own.Pending? && Occ(ids, Id(k)) == 0)
                 && (c[k].failed <==>
                     s.chain[k].failed || (error != 0 && (Occ(ids, Id(k)) == 1 || touched == Some(Id(k)))))
  {
    var bios := s.layer.rqs[rq].bios;
    var ids, touched := Requests.Ended(bios, n), Touched(bios, n);
    forall k: nat
      ensures Occ(ids, Id(k)) <= 1 && (Occ(ids, Id(k)) == 1 ==> k < |s.chain| && s.chain[k].own.Pending?)
    {
      EndsOpen(s, rq, n, segment, k);
    }
    ArriveAllKeeps(s.chain, ids, error);
    var c := ArriveAll(s.chain, ids, error);
    forall k: nat | touched == Some(Id(k))
      ensures k < |c| && c[k].own.Pending?
    {
      TouchesOpen(s, rq, n, segment, k);
    }
    NoteOnKeeps(c, touched, error);
  }

  lemma {:induction false} CompleteKeeps(r: SplitSubmit.Outcome, s: Pipe, rq: nat, n: nat, error: nat,
      segment: Requests.Bio -> nat)
    requires Inv(s) && Enabled(r, s, CompletePart(rq, n, error)) && forall b :: segment(b) <= b.size
    ensures Inv(Do(r, s, CompletePart(rq, n, error), segment))
  {
    var s' := Do(r, s, CompletePart(rq, n, error), segment);
    LayerKeeps(s.layer, Requests.Complete(rq, n), segment);
    CompleteChain(s, rq, n, error, segment);
    forall k: nat
      ensures Came(s', k) && (k < |s'.chain| ==> Open(s', k))
    {
      EndsOpen(s, rq, n, segment, k);
      assert Came(s, k) && (k < |s.chain| ==> Open(s, k));
    }
  }

  lemma {:induction false} ClimbStepKeeps(r: SplitSubmit.Outcome, s: Pipe, c: BioChain.Action,
      segment: Requests.Bio -> nat)
    requires Inv(s) && Enabled(r, s, Climb(c))
    ensures Inv(Do(r, s, Climb(c), segment))
  {
    var s' := Do(r, s, Climb(c), segment);
    ClimbKeeps(s.chain, c);
    forall k: nat
      ensures Came(s', k) && (k < |s'.chain| ==> Open(s', k))
    {
      assert Came(s, k) && (k < |s.chain| ==> Open(s, k));
    }
  }

  lemma {:induction false} InvStep(r: SplitSubmit.Outcome, s: Pipe, a: Action, segment: Requests.Bio -> nat)
    requires Inv(s) && Enabled(r, s, a) && forall b :: segment(b) <= b.size
    ensures Inv(Do(r, s, a, segment))
  {
    match a
    case CutOff => CutKeeps(r, s, segment);
    case Send(e) => SendKeeps(r, s, e, segment);
    case Refuse(error) => RefuseKeeps(r, s, error, segment);
    case Other(o) => OtherKeeps(r, s, o, segment);
    case CompletePart(rq, n, error) => CompleteKeeps(r, s, rq, n, error, segment);
    case Climb(c) => ClimbStepKeeps(r, s, c, segment);
  }

  // ---------------------------------------------------------------- every run

  predicate IsRun(r: SplitSubmit.Outcome, s: Pipe, run: seq<Action>, segment: Requests.Bio -> nat)
    decreases run
  {
    run == [] || (Enabled(r, s, run[0]) && IsRun(r, Do(r, s, run[0], segment), run[1..], segment))
  }

  function Exec(r: SplitSubmit.Outcome, s: Pipe, run: seq<Action>, segment: Requests.Bio -> nat): Pipe
    requires IsRun(r, s, run, segment)
    decreases run
  {
    if run == [] then s else Exec(r, Do(r, s, run[0], segment), run[1..], segment)
  }

  /** The bio is sent on or refused only when every front piece has been cut off. */
  predicate InOrder(r: SplitSubmit.Outcome, s: Pipe) {
    s.cut <= Fronts(r) && (s.own.Held? || s.cut == Fronts(r))
  }

  lemma {:induction false} StartInv(r: SplitSubmit.Outcome)
    ensures Inv(START) && InOrder(r, START) && |START.chain| == 1
    ensures !START.chain[0].failed && START.chain[0].status == 0
  {
    var c := BioChain.DoAlloc([], 0, true);
    assert BioChain.IsRun([], []) && BioChain.Exec([], []) == [];
    BioChain.ReachableStep([], BioChain.Alloc(0, true));
    forall x: nat
      ensures Requests.Conserved(Requests.IDLE, x) && Came(START, x)
    {
      assert Requests.Held([], 0, x) == 0;
    }
    forall k: nat | k < |c|
      ensures Open(START, k)
    {
      assert Occ(Requests.IDLE.ended, Id(k)) == 0;
    }
  }

  lemma {:induction false} InvRun(r: SplitSubmit.Outcome, s: Pipe, run: seq<Action>, segment: Requests.Bio -> nat)
    requires Inv(s) && InOrder(r, s) && IsRun(r, s, run, segment) && forall b :: segment(b) <= b.size
    ensures Inv(Exec(r, s, run, segment)) && InOrder(r, Exec(r, s, run, segment))
    decreases run
  {
    if run != [] {
      InvStep(r, s, run[0], segment);
      InvRun(r, Do(r, s, run[0], segment), run[1..], segment);
    }
  }

  /** The bio has been dealt with, no request holds a piece of it, and no completion is under way. */
  ghost predicate Settled(s: Pipe) {
    && !s.own.Held? && (forall k: nat :: Requests.Held(s.layer.rqs, |s.layer.rqs|, Id(k)) == 0)
    && (forall c: BioChain.Action :: Climbs(c) ==> !BioChain.Enabled(s.chain, c))
  }

  lemma {:induction false} SettledIsQuiescent(s: Pipe)
    requires Inv(s) && Settled(s)
    ensures BioChain.Quiescent(s.chain)
  {
    var c := s.chain;
    forall k | 0 <= k < |c|
      ensures !BioChain.CanArrive(c, k) && !BioChain.CanCountOwn(c, k)
      ensures forall up :: up in {BioChain.Testing, BioChain.Writing, BioChain.Leaving} ==> !BioChain.Climbing(c, k, up)
    {
      EndedCame(s, k);
      assert Requests.Held(s.layer.rqs, |s.layer.rqs|, Id(k)) == 0 && Requests.Conserved(s.layer, Id(k)) && Open(s, k);
      assert !BioChain.Enabled(c, BioChain.CountOwn(k)) && !BioChain.Enabled(c, BioChain.Test(k));
      assert !BioChain.Enabled(c, BioChain.Write(k)) && !BioChain.Enabled(c, BioChain.CountUp(k));
    }
  }

  // ---------------------------------------------------------------- which I/O failed

  /** A completion of n bytes gets as far as the j-th bio: it is the first, or fewer than n bytes come before it. */
  predicate Reached(bios: seq<Requests.Bio>, n: nat, j: nat) {
    j < |bios| && (j == 0 || Requests.Sum(bios[..j]) < n)
  }

  /** The step reports the error e for number k: it completes some of it with e, or refuses the bio with e. */
  ghost predicate StrikesWith(s: Pipe, a: Action, k: nat, e: nat) {
    match a
    case CompletePart(i, n, error) =>
      && error == e != 0 && i < |s.layer.rqs|
      && exists j: nat :: Reached(s.layer.rqs[i].bios, n, j) && s.layer.rqs[i].bios[j].id == Id(k)
    case Refuse(error) => k == 0 && error == e
    case _ => false
  }

  /** ... some error. */
  ghost predicate Strikes(s: Pipe, a: Action, k: nat) {
    (a.CompletePart? || a.Refuse?) && StrikesWith(s, a, k, a.error)
  }

  /** Some step of the run reports an error for number k. */
  ghost predicate FailedIn(
    r: SplitSubmit.Outcome, s: Pipe, run: seq<Action>, segment: Requests.Bio -> nat, k: nat)
    requires IsRun(r, s, run, segment)
    decreases run
  {
    run != [] && (Strikes(s, run[0], k) || FailedIn(r, Do(r, s, run[0], segment), run[1..], segment, k))
  }

  /** ... reports e for it. */
  ghost predicate FailedWith(
    r: SplitSubmit.Outcome, s: Pipe, run: seq<Action>, segment: Requests.Bio -> nat, k: nat, e: nat)
    requires IsRun(r, s, run, segment)
    decreases run
  {
    run != [] && (StrikesWith(s, run[0], k, e) || FailedWith(r, Do(r, s, run[0], segment), run[1..], segment, k, e))
  }

  /** A piece, or what was left of the bio, failed in the run. */
  ghost predicate SomeFailedIn(r: SplitSubmit.Outcome, s: Pipe, run: seq<Action>, segment: Requests.Bio -> nat)
    requires IsRun(r, s, run, segment)
  {
    exists k: nat :: FailedIn(r, s, run, segment, k)
  }

  /** A piece, or what was left of the bio, failed with e in the run. */
  ghost predicate SomeFailedWith(
    r: SplitSubmit.Outcome, s: Pipe, run: seq<Action>, segment: Requests.Bio -> nat, e: nat)
    requires IsRun(r, s, run, segment)
  {
    exists k: nat :: FailedWith(r, s, run, segment, k, e)
  }

  /** Number k is marked as failed. */
  predicate HasFailed(s: Pipe, k: nat) {
    k < |s.chain| && s.chain[k].failed
  }

  lemma {:induction false} ReachedTail(bios: seq<Requests.Bio>, n: nat, j: nat)
    requires bios != [] && 0 < j
    ensures Reached(bios, n, j) <==> n > bios[0].size && Reached(bios[1..], n - bios[0].size, j - 1)
  {
    if j < |bios| {
      assert bios[..j][1..] == bios[1..][..j - 1];
    }
  }

  /** The bios that a completion ends or advances are those it gets as far as. */
  lemma {:induction false} ReachedIsEndedOrTouched(bios: seq<Requests.Bio>, sector: nat, n: nat, x: nat)
    requires Requests.Contiguous(bios, sector)
    ensures (exists j: nat :: Reached(bios, n, j) && bios[j].id == x)
            <==> x in Requests.Ended(bios, n) || Touched(bios, n) == Some(x)
    decreases |bios|
  {
    if bios != [] {
      var b, t := bios[0], bios[1..];
      assert Reached(bios, n, 0);
      forall j: nat | 0 < j
        ensures Reached(bios, n, j) <==> n > b.size && Reached(t, n - b.size, j - 1)
      {
        ReachedTail(bios, n, j);
      }
      if n > b.size {
        ReachedIsEndedOrTouched(t, sector + b.size / SECTOR, n - b.size, x);
        if j: nat :| Reached(t, n - b.size, j) && t[j].id == x {
          assert Reached(bios, n, j + 1) && bios[j + 1].id == x;
        }
        if j: nat :| Reached(bios, n, j) && bios[j].id == x && j > 0 {
          assert Reached(t, n - b.size, j - 1) && t[j - 1].id == x;
        }
      }
    }
  }

  lemma {:induction false} CompleteStrikes(s: Pipe, rq: nat, n: nat, error: nat, segment: Requests.Bio -> nat, k: nat)
    requires Inv(s) && Requests.Enabled(s.layer, Requests.Complete(rq, n)) && forall b :: segment(b) <= b.size
    ensures var bios := s.layer.rqs[rq].bios;
            Strikes(s, CompletePart(rq, n, error), k) <==>
            error != 0 && (Occ(Requests.Ended(bios, n), Id(k)) == 1 || Touched(bios, n) == Some(Id(k)))
  {
    var q := s.layer.rqs[rq];
    assert Requests.Valid(q);
    ReachedIsEndedOrTouched(q.bios, q.sector, n, Id(k));
    EndsOpen(s, rq, n, segment, k);
    OccIff(Requests.Ended(q.bios, n), Id(k));
  }

  /** A bio is marked as failed exactly when a step reports an error for it. */
  lemma {:induction false} FailedStep(r: SplitSubmit.Outcome, s: Pipe, a: Action, segment: Requests.Bio -> nat, k: nat)
    requires Inv(s) && Enabled(r, s, a) && forall b :: segment(b) <= b.size
    ensures HasFailed(Do(r, s, a, segment), k) <==> HasFailed(s, k) || Strikes(s, a, k)
  {
    match a
    case CutOff =>
      HeldIsOpen(s);
      ChainedKeeps(s.chain);
    case Refuse(error) =>
      HeldIsOpen(s);
      ArriveKeeps(s.chain, 0, error);
    case CompletePart(rq, n, error) =>
      CompleteChain(s, rq, n, error, segment);
      CompleteStrikes(s, rq, n, error, segment, k);
      StrikesOurs(s, rq, n, segment, k);
    case Climb(c) => ClimbKeeps(s.chain, c);
    case _ =>
  }

  lemma {:induction false} StrikesOurs(s: Pipe, rq: nat, n: nat, segment: Requests.Bio -> nat, k: nat)
    requires Inv(s) && Requests.Enabled(s.layer, Requests.Complete(rq, n)) && forall b :: segment(b) <= b.size
    ensures var bios := s.layer.rqs[rq].bios;
            Occ(Requests.Ended(bios, n), Id(k)) == 1 || Touched(bios, n) == Some(Id(k)) ==> k < |s.chain|
  {
    EndsOpen(s, rq, n, segment, k);
    if Touched(s.layer.rqs[rq].bios, n) == Some(Id(k)) {
      TouchesOpen(s, rq, n, segment, k);
    }
  }

  lemma {:induction false} FailedRun(
    r: SplitSubmit.Outcome, s: Pipe, run: seq<Action>, segment: Requests.Bio -> nat, k: nat)
    requires Inv(s) && IsRun(r, s, run, segment) && forall b :: segment(b) <= b.size
    ensures HasFailed(Exec(r, s, run, segment), k) <==> HasFailed(s, k) || FailedIn(r, s, run, segment, k)
    decreases run
  {
    if run != [] {
      InvStep(r, s, run[0], segment);
      FailedStep(r, s, run[0], segment, k);
      FailedRun(r, Do(r, s, run[0], segment), run[1..], segment, k);
    }
  }

  lemma {:induction false} SomeFailedRun(
    r: SplitSubmit.Outcome, s: Pipe, run: seq<Action>, segment: Requests.Bio -> nat)
    requires Inv(s) && IsRun(r, s, run, segment) && forall b :: segment(b) <= b.size
    requires forall k: nat :: !HasFailed(s, k)
    ensures SomeFailedIn(r, s, run, segment) <==> exists k: nat :: HasFailed(Exec(r, s, run, segment), k)
  {
    if k: nat :| FailedIn(r, s, run, segment, k) {
      FailedRun(r, s, run, segment, k);
    }
    if k: nat :| HasFailed(Exec(r, s, run, segment), k) {
      FailedRun(r, s, run, segment, k);
    }
  }

  // ---------------------------------------------------------------- ... and with which error

  lemma {:induction false} ArriveAllSourced(c: BioChain.State, ids: seq<nat>, error: nat, cause: (nat, nat) -> bool)
    requires BioChain.Reachable(c) && BioChain.Sourced(c, cause)
    requires forall k: nat :: Occ(ids, Id(k)) <= 1 && (Occ(ids, Id(k)) == 1 ==> k < |c| && c[k].own.Pending?)
    requires error != 0 ==> forall k: nat :: Occ(ids, Id(k)) == 1 ==> cause(k, error)
    ensures BioChain.Sourced(ArriveAll(c, ids, error), cause)
    decreases |ids|
  {
    if ids != [] {
      var t, x := ids[..|ids| - 1], ids[|ids| - 1];
      assert forall y :: Occ(ids, y) == Occ(t, y) + (if y == x then 1 else 0);
      ArriveAllSourced(c, t, error, cause);
      ArriveAllKeeps(c, t, error);
      var c1 := ArriveAll(c, t, error);
      if Ours(x) {
        var k := x / 2;
        assert Id(k) == x && Occ(ids, Id(k)) == 1;
        BioChain.ReachableInv(c1);
        BioChain.SourcedStep(c1, BioChain.Arrive(k, error), cause);
      }
    }
  }

  lemma {:induction false} NoteOnSourced(c: BioChain.State, touched: Option<nat>, error: nat, cause: (nat, nat) -> bool)
    requires BioChain.Reachable(c) && BioChain.Sourced(c, cause)
    requires error != 0 ==> forall k: nat :: touched == Some(Id(k)) ==> cause(k, error)
    ensures BioChain.Sourced(NoteOn(c, touched, error), cause)
  {
    if NoteOn(c, touched, error) != c {
      var k := touched.value / 2;
      assert touched == Some(Id(k));
      BioChain.ReachableInv(c);
      BioChain.SourcedStep(c, BioChain.Note(k, error), cause);
    }
  }

  lemma {:induction false} CompleteSourced(
    s: Pipe, rq: nat, n: nat, error: nat, segment: Requests.Bio -> nat, cause: (nat, nat) -> bool)
    requires Inv(s) && Requests.Enabled(s.layer, Requests.Complete(rq, n)) && forall b :: segment(b) <= b.size
    requires BioChain.Sourced(s.chain, cause)
    requires forall k: nat :: Strikes(s, CompletePart(rq, n, error), k) ==> cause(k, error)
    ensures var bios := s.layer.rqs[rq].bios;
            BioChain.Sourced(NoteOn(ArriveAll(s.chain, Requests.Ended(bios, n), error), Touched(bios, n), error), cause)
  {
    var bios := s.layer.rqs[rq].bios;
    var ids := Requests.Ended(bios, n);
    forall k: nat
      ensures Occ(ids, Id(k)) <= 1 && (Occ(ids, Id(k)) == 1 ==> k < |s.chain| && s.chain[k].own.Pending?)
      ensures error != 0 && (Occ(ids, Id(k)) == 1 || Touched(bios, n) == Some(Id(k))) ==> cause(k, error)
    {
      EndsOpen(s, rq, n, segment, k);
      CompleteStrikes(s, rq, n, error, segment, k);
    }
    ArriveAllSourced(s.chain, ids, error, cause);
    ArriveAllKeeps(s.chain, ids, error);
    NoteOnSourced(ArriveAll(s.chain, ids, error), Touched(bios, n), error, cause);
  }

  lemma {:induction false} ChainedSourced(c: BioChain.State, cause: (nat, nat) -> bool)
    requires BioChain.Reachable(c) && BioChain.Sourced(c, cause)
    ensures BioChain.Sourced(Chained(c), cause)
  {
    var c1 := BioChain.DoAlloc(c, 1, false);
    BioChain.ReachableInv(c);
    BioChain.SourcedStep(c, BioChain.Alloc(1, false), cause);
    BioChain.InvStep(c, BioChain.Alloc(1, false));
    if BioChain.CanChain(c1, |c|, 0) {
      BioChain.SourcedStep(c1, BioChain.Chain(|c|, 0), cause);
    }
  }

  lemma {:induction false} SourcedStep(
    r: SplitSubmit.Outcome, s: Pipe, a: Action, segment: Requests.Bio -> nat, cause: (nat, nat) -> bool)
    requires Inv(s) && Enabled(r, s, a) && forall b :: segment(b) <= b.size
    requires BioChain.Sourced(s.chain, cause)
    requires forall k: nat, e: nat :: StrikesWith(s, a, k, e) ==> cause(k, e)
    ensures BioChain.Sourced(Do(r, s, a, segment).chain, cause)
  {
    BioChain.ReachableInv(s.chain);
    match a
    case CutOff => ChainedSourced(s.chain, cause);
    case Refuse(error) =>
      assert StrikesWith(s, a, 0, error);
      if BioChain.CanArrive(s.chain, 0) {
        BioChain.SourcedStep(s.chain, BioChain.Arrive(0, error), cause);
      }
    case CompletePart(rq, n, error) => CompleteSourced(s, rq, n, error, segment, cause);
    case Climb(c) => BioChain.SourcedStep(s.chain, c, cause);
    case _ =>
  }

  lemma {:induction false} SourcedRun(
    r: SplitSubmit.Outcome, s: Pipe, run: seq<Action>, segment: Requests.Bio -> nat, cause: (nat, nat) -> bool)
    requires Inv(s) && IsRun(r, s, run, segment) && forall b :: segment(b) <= b.size
    requires BioChain.Sourced(s.chain, cause)
    requires forall k: nat, e: nat :: FailedWith(r, s, run, segment, k, e) ==> cause(k, e)
    ensures BioChain.Sourced(Exec(r, s, run, segment).chain, cause)
    decreases run
  {
    if run != [] {
      var s' := Do(r, s, run[0], segment);
      forall k: nat, e: nat | StrikesWith(s, run[0], k, e)
        ensures cause(k, e)
      {
        assert FailedWith(r, s, run, segment, k, e);
      }
      SourcedStep(r, s, run[0], segment, cause);
      InvStep(r, s, run[0], segment);
      forall k: nat, e: nat | FailedWith(r, s', run[1..], segment, k, e)
        ensures cause(k, e)
      {
        assert FailedWith(r, s, run, segment, k, e);
      }
      SourcedRun(r, s', run[1..], segment, cause);
    }
  }

  /** An error status of any piece, or of the bio itself, is one that the run reports. */
  lemma {:induction false} ErrorIsReported(
    r: SplitSubmit.Outcome, s: Pipe, run: seq<Action>, segment: Requests.Bio -> nat, b: nat)
    requires Inv(s) && IsRun(r, s, run, segment) && forall b :: segment(b) <= b.size
    requires forall k :: 0 <= k < |s.chain| ==> s.chain[k].status == 0
    ensures var c := Exec(r, s, run, segment).chain;
            b < |c| && c[b].status != 0 ==> SomeFailedWith(r, s, run, segment, c[b].status)
  {
    var cause := (k: nat, e: nat) => FailedWith(r, s, run, segment, k, e);
    SourcedRun(r, s, run, segment, cause);
    var c := Exec(r, s, run, segment).chain;
    if b < |c| && c[b].status != 0 {
      assert BioChain.HasCause(c, b, cause);
      var m: nat :| BioChain.Member(c, m, b) && cause(m, c[b].status);
      assert FailedWith(r, s, run, segment, m, c[b].status);
    }
  }

  lemma {:induction false} MemberOfSplit(s: Pipe, k: nat)
    requires Shape(s) && k < |s.chain|
    ensures BioChain.Member(s.chain, k, 0)
  {
    BioChain.ReachableInv(s.chain);
    assert BioChain.BioOk(s.chain, k);
    assert BioChain.Member(s.chain, 0, 0);
  }

  lemma {:induction false} SettledEnds(s: Pipe)
    requires Inv(s) && Settled(s)
    ensures s.chain[0].endCalls == 1 && (forall k :: 0 <= k < |s.chain| ==> s.chain[k].own.Counted?)
    ensures s.chain[0].status != 0 <==> exists k: nat :: HasFailed(s, k)
  {
    var c := s.chain;
    SettledIsQuiescent(s);
    BioChain.EndsExactlyOnce(c, 0);
    BioChain.StatusIsExact(c, 0);
    forall k: nat | k < |c|
      ensures BioChain.Member(c, k, 0) && c[k].own.Counted?
    {
      MemberOfSplit(s, k);
      BioChain.EndsAfterMembers(c, k, 0);
    }
    if c[0].status != 0 {
      var m: nat :| BioChain.Member(c, m, 0) && c[m].failed;
      assert HasFailed(s, m);
    }
    if k: nat :| HasFailed(s, k) {
      assert BioChain.Member(c, k, 0);
    }
  }

  /**
   * End to end.  However a bio is cut, its pieces requested, merged with other traffic and completed, in any order and
   * with any errors: when all has settled its end_io has been called exactly once, after the completion of every piece,
   * and with an error if and only if the bio was refused, or some completion that carried an error covered, in whole or
   * in part, one of its pieces or what was left of it; that error, or one of them, is what end_io sees.
   */
  lemma {:induction false} EndsOnceWithStatus(r: SplitSubmit.Outcome, run: seq<Action>, segment: Requests.Bio -> nat)
    requires IsRun(r, START, run, segment) && Settled(Exec(r, START, run, segment)) && forall b :: segment(b) <= b.size
    ensures var c := Exec(r, START, run, segment).chain;
            && |c| == Fronts(r) + 1 && c[0].endCalls == 1
            && (forall k :: 0 <= k < |c| ==> c[k].own.Counted?)
            && (c[0].status != 0 <==> SomeFailedIn(r, START, run, segment))
            && (c[0].status != 0 ==> SomeFailedWith(r, START, run, segment, c[0].status))
  {
    StartInv(r);
    InvRun(r, START, run, segment);
    var s := Exec(r, START, run, segment);
    SettledEnds(s);
    SomeFailedRun(r, START, run, segment);
    ErrorIsReported(r, START, run, segment, 0);
  }

  predicate FrontsMarked(r: SplitSubmit.Outcome) {
    forall c :: 0 <= c < Fronts(r) ==> r.pieces[c].bio.nomerge
  }

  /** Pieces as a submission makes them: whole sectors, front pieces marked REQ_NOMERGE, a last one if none failed. */
  predicate Ready(r: SplitSubmit.Outcome) {
    && FrontsMarked(r) && (r.failed.None? ==> r.pieces != [])
    && forall i :: 0 <= i < |r.pieces| ==> SplitSubmit.WholeSectors(r.pieces[i].bio)
  }

  lemma {:induction false} SubmitIsReady(lim: Segments.Limits, bio: BioSplit.Bio, on: bool, f: SplitSubmit.Faults)
    requires BioSplit.Device(lim) && BioSplit.Sound(lim, bio) && !SplitSubmit.Unaligned(lim, bio)
             && BioSplit.Bytes(bio) > 0
    ensures Ready(SplitSubmit.Submit(lim, bio, on, f))
  {
    var r := SplitSubmit.Submit(lim, bio, on, f);
    SplitSubmit.PiecesAreWhole(lim, bio, on, f);
    SplitSubmit.SubmitFits(lim, bio, on, f);
    forall c | 0 <= c < Fronts(r)
      ensures r.pieces[c].bio.nomerge
    {
      assert SplitSubmit.FrontOk(lim, r.pieces[c]);
    }
  }

  /** The step brings the end nearer: a piece goes out, a request that holds one completes, or a completion climbs. */
  ghost predicate Progress(s: Pipe, a: Action) {
    match a
    case Other(_) => false
    case CompletePart(i, n, _) =>
      i < |s.layer.rqs| && n == s.layer.rqs[i].len && exists k: nat :: Requests.In(s.layer.rqs[i], Id(k)) > 0
    case _ => true
  }

  lemma {:induction false} PipeMoves(r: SplitSubmit.Outcome, s: Pipe) returns (a: Action)
    requires InOrder(r, s) && !Settled(s) && Ready(r)
    ensures Progress(s, a) && Enabled(r, s, a)
  {
    if s.own.Held? && s.cut < Fronts(r) {
      a := CutOff;
    } else if s.own.Held? && r.failed.Some? {
      a := Refuse(1);
    } else if s.own.Held? {
      a := Send(Requests.New(AsBio(r, 0)));
    } else if k: nat :| Requests.Held(s.layer.rqs, |s.layer.rqs|, Id(k)) > 0 {
      var i := HolderOf(s.layer.rqs, |s.layer.rqs|, Id(k));
      a := CompletePart(i, s.layer.rqs[i].len, 0);
    } else {
      var c: BioChain.Action :| Climbs(c) && BioChain.Enabled(s.chain, c);
      a := Climb(c);
    }
  }

  lemma {:induction false} HolderOf(rqs: seq<Requests.Rq>, n: nat, x: nat) returns (i: nat)
    requires n <= |rqs| && Requests.Held(rqs, n, x) > 0
    ensures i < n && Requests.In(rqs[i], x) > 0
    decreases n
  {
    if Requests.In(rqs[n - 1], x) > 0 {
      i := n - 1;
    } else {
      i := HolderOf(rqs, n - 1, x);
    }
  }

  /** The pipeline is never stuck before it has settled. */
  lemma {:induction false} NeverStuck(r: SplitSubmit.Outcome, run: seq<Action>, segment: Requests.Bio -> nat)
    returns (a: Action)
    requires Ready(r) && IsRun(r, START, run, segment) && forall b :: segment(b) <= b.size
    requires !Settled(Exec(r, START, run, segment))
    ensures var s := Exec(r, START, run, segment); Progress(s, a) && Enabled(r, s, a)
  {
    StartInv(r);
    InvRun(r, START, run, segment);
    a := PipeMoves(r, Exec(r, START, run, segment));
  }

  // ---------------------------------------------------------------- ... and settles

  /** How many steps of progress can still come: a front piece is good for one and what its bio has left. */
  function Measure(r: SplitSubmit.Outcome, s: Pipe): nat
    requires s.cut <= Fronts(r)
  {
    7 * (Fronts(r) - s.cut) + (if s.own.Held? then 1 else 0) + BioChain.Work(s.chain)
  }

  lemma {:induction false} ChainedWork(c: BioChain.State)
    requires c != [] && c[0].own.Pending? && c[0].rank == 0
    ensures BioChain.Work(Chained(c)) == BioChain.Work(c) + 6
  {
    var c1 := BioChain.DoAlloc(c, 1, false);
    BioChain.WorkSnoc(c, c1[|c|]);
    BioChain.ChainWork(c1, |c|, 0);
  }

  lemma {:induction false} ArriveAllWork(c: BioChain.State, ids: seq<nat>, error: nat, own: nat)
    requires BioChain.Reachable(c)
    requires forall k: nat :: Occ(ids, Id(k)) <= 1 && (Occ(ids, Id(k)) == 1 ==> k < |c| && c[k].own.Pending?)
    ensures BioChain.Work(ArriveAll(c, ids, error)) <= BioChain.Work(c)
    ensures Occ(ids, Id(own)) == 1 ==> BioChain.Work(ArriveAll(c, ids, error)) < BioChain.Work(c)
    decreases |ids|
  {
    if ids != [] {
      var t, x := ids[..|ids| - 1], ids[|ids| - 1];
      assert forall y :: Occ(ids, y) == Occ(t, y) + (if y == x then 1 else 0);
      ArriveAllWork(c, t, error, own);
      ArriveAllKeeps(c, t, error);
      var c1 := ArriveAll(c, t, error);
      if Ours(x) {
        var k := x / 2;
        assert Id(k) == x && Occ(ids, Id(k)) == 1;
        BioChain.ReachableInv(c1);
        BioChain.WorkShrinks(c1, BioChain.Arrive(k, error));
      }
    }
  }

  lemma {:induction false} NoteOnWork(c: BioChain.State, touched: Option<nat>, error: nat)
    ensures BioChain.Work(NoteOn(c, touched, error)) == BioChain.Work(c)
  {
    if NoteOn(c, touched, error) != c {
      var k := touched.value / 2;
      BioChain.WorkUpdate(c, k, c[k].(status := error, failed := true));
    }
  }

  /** A request that is completed whole ends all it holds. */
  lemma {:induction false} EndsWhole(rq: Requests.Rq, segment: Requests.Bio -> nat)
    requires Requests.Valid(rq) && forall b :: segment(b) <= b.size
    ensures Requests.Ended(rq.bios, rq.len) == Requests.Ids(rq.bios)
  {
    Requests.UpdateValid(rq, rq.len, segment);
    assert Requests.Ended(rq.bios, rq.len) + [] == Requests.Ended(rq.bios, rq.len);
  }

  lemma {:induction false} CompleteLowers(
    r: SplitSubmit.Outcome, s: Pipe, rq: nat, n: nat, error: nat, segment: Requests.Bio -> nat)
    requires Inv(s) && Enabled(r, s, CompletePart(rq, n, error)) && forall b :: segment(b) <= b.size
    ensures var w := BioChain.Work(Do(r, s, CompletePart(rq, n, error), segment).chain);
            w <= BioChain.Work(s.chain) && (Progress(s, CompletePart(rq, n, error)) ==> w < BioChain.Work(s.chain))
  {
    var q := s.layer.rqs[rq];
    var ids := Requests.Ended(q.bios, n);
    forall k: nat
      ensures Occ(ids, Id(k)) <= 1 && (Occ(ids, Id(k)) == 1 ==> k < |s.chain| && s.chain[k].own.Pending?)
    {
      EndsOpen(s, rq, n, segment, k);
    }
    ArriveAllWork(s.chain, ids, error, 0);
    NoteOnWork(ArriveAll(s.chain, ids, error), Touched(q.bios, n), error);
    if Progress(s, CompletePart(rq, n, error)) {
      EndsWhole(q, segment);
      var k: nat :| Requests.In(q, Id(k)) > 0;
      ArriveAllWork(s.chain, ids, error, k);
    }
  }

  /** Progress lowers the measure, and nothing raises it. */
  lemma {:induction false} ProgressLowers(r: SplitSubmit.Outcome, s: Pipe, a: Action, segment: Requests.Bio -> nat)
    requires Inv(s) && InOrder(r, s) && Enabled(r, s, a) && forall b :: segment(b) <= b.size
    ensures var s' := Do(r, s, a, segment);
            && InOrder(r, s') && Measure(r, s') <= Measure(r, s)
            && (Progress(s, a) ==> Measure(r, s') < Measure(r, s))
  {
    match a
    case CutOff =>
      HeldIsOpen(s);
      ChainedWork(s.chain);
    case Refuse(error) =>
      HeldIsOpen(s);
      BioChain.ReachableInv(s.chain);
      BioChain.WorkShrinks(s.chain, BioChain.Arrive(0, error));
    case CompletePart(rq, n, error) => CompleteLowers(r, s, rq, n, error, segment);
    case Climb(c) =>
      BioChain.ReachableInv(s.chain);
      BioChain.WorkShrinks(s.chain, c);
    case _ =>
  }

  /** How many steps of the run are progress. */
  ghost function ProgressMade(r: SplitSubmit.Outcome, s: Pipe, run: seq<Action>, segment: Requests.Bio -> nat): nat
    requires IsRun(r, s, run, segment)
    decreases run
  {
    if run == [] then 0
    else (if Progress(s, run[0]) then 1 else 0) + ProgressMade(r, Do(r, s, run[0], segment), run[1..], segment)
  }

  lemma {:induction false} ProgressRun(r: SplitSubmit.Outcome, s: Pipe, run: seq<Action>, segment: Requests.Bio -> nat)
    requires Inv(s) && InOrder(r, s) && IsRun(r, s, run, segment) && forall b :: segment(b) <= b.size
    ensures var s' := Exec(r, s, run, segment);
            && Inv(s') && InOrder(r, s')
            && ProgressMade(r, s, run, segment) + Measure(r, s') <= Measure(r, s)
    decreases run
  {
    if run != [] {
      InvStep(r, s, run[0], segment);
      ProgressLowers(r, s, run[0], segment);
      ProgressRun(r, Do(r, s, run[0], segment), run[1..], segment);
    }
  }

  /** However the steps fall, and whatever other traffic there is between them, a run makes at most seven steps of
      progress for the bio and each of its front pieces, and has settled when it has made them all. */
  lemma {:induction false} SettlesInTime(r: SplitSubmit.Outcome, run: seq<Action>, segment: Requests.Bio -> nat)
    requires Ready(r) && IsRun(r, START, run, segment) && forall b :: segment(b) <= b.size
    ensures ProgressMade(r, START, run, segment) <= 7 * (Fronts(r) + 1)
    ensures ProgressMade(r, START, run, segment) == 7 * (Fronts(r) + 1) ==> Settled(Exec(r, START, run, segment))
  {
    StartInv(r);
    StartMeasure(r);
    ProgressRun(r, START, run, segment);
    var s := Exec(r, START, run, segment);
    if !Settled(s) {
      var a := PipeMoves(r, s);
      ProgressLowers(r, s, a, segment);
    }
  }

  lemma {:induction false} StartMeasure(r: SplitSubmit.Outcome)
    ensures Measure(r, START) == 7 * (Fronts(r) + 1)
  {
    BioChain.WorkSnoc([], START.chain[0]);
    assert START.chain == [] + [START.chain[0]];
  }

  // ---------------------------------------------------------------- pieces do not meet again

  /** Our front pieces carry REQ_NOMERGE. */
  predicate Marked(bios: seq<Requests.Bio>) {
    forall j :: 0 <= j < |bios| && Ours(bios[j].id) && bios[j].id != 0 ==> bios[j].nomerge
  }

  ghost predicate AllMarked(l: Requests.Layer) {
    forall i :: 0 <= i < |l.rqs| ==> Marked(l.rqs[i].bios)
  }

  lemma {:induction false} RestMarked(bios: seq<Requests.Bio>, n: nat)
    requires Marked(bios)
    ensures Marked(Requests.Rest(bios, n))
    decreases |bios|
  {
    if bios != [] && n >= bios[0].size {
      RestMarked(bios[1..], n - bios[0].size);
    }
  }

  lemma {:induction false} LayerMarked(l: Requests.Layer, a: Requests.Action, segment: Requests.Bio -> nat)
    requires AllMarked(l) && Requests.Enabled(l, a) && ((a.New? || a.Merge?) ==> Marked([a.b]))
    ensures AllMarked(Requests.Do(l, a, segment))
  {
    if a.Complete? {
      RestMarked(l.rqs[a.i].bios, a.n);
    } else if a.Merge? || a.New? {
      assert [a.b][0] == a.b;
    }
  }

  lemma {:induction false} StepMarked(r: SplitSubmit.Outcome, s: Pipe, a: Action, segment: Requests.Bio -> nat)
    requires FrontsMarked(r) && AllMarked(s.layer) && Enabled(r, s, a)
    ensures AllMarked(Do(r, s, a, segment).layer)
  {
    match a
    case CutOff => LayerMarked(s.layer, Requests.New(AsBio(r, s.cut + 1)), segment);
    case Send(e) => LayerMarked(s.layer, e, segment);
    case Refuse(_) =>
    case Other(o) => LayerMarked(s.layer, o, segment);
    case CompletePart(rq, n, _) => LayerMarked(s.layer, Requests.Complete(rq, n), segment);
    case Climb(_) =>
  }

  lemma {:induction false} RunMarked(r: SplitSubmit.Outcome, s: Pipe, run: seq<Action>, segment: Requests.Bio -> nat)
    requires FrontsMarked(r) && AllMarked(s.layer) && IsRun(r, s, run, segment)
    ensures AllMarked(Exec(r, s, run, segment).layer)
    decreases run
  {
    if run != [] {
      StepMarked(r, s, run[0], segment);
      RunMarked(r, Do(r, s, run[0], segment), run[1..], segment);
    }
  }

  lemma {:induction false} OccTwice(s: seq<nat>, x: nat, i: nat, j: nat)
    requires i < j < |s| && s[i] == s[j] == x
    ensures Occ(s, x) >= 2
  {
    assert s == s[..j] + s[j..] && s[..j] == s[..i] + s[i..j];
    OccJoin(s[..j], s[j..], x);
    OccJoin(s[..i], s[i..j], x);
    assert s[i..j] == [x] + s[i + 1..j] && s[j..] == [x] + s[j + 1..];
    OccJoin([x], s[i + 1..j], x);
    OccJoin([x], s[j + 1..], x);
    assert Occ([x], x) == 1;
  }

  /** Two pieces of one submission never share a request, whatever merges are tried: not the two halves of a
      read-around either. */
  lemma {:induction false} PiecesStayApart(
    r: SplitSubmit.Outcome, run: seq<Action>, segment: Requests.Bio -> nat, q: nat, i: nat, j: nat)
    requires Ready(r) && IsRun(r, START, run, segment) && forall b :: segment(b) <= b.size
    requires var rqs := Exec(r, START, run, segment).layer.rqs; q < |rqs| && i < j < |rqs[q].bios|
    ensures var bios := Exec(r, START, run, segment).layer.rqs[q].bios; !(Ours(bios[i].id) && Ours(bios[j].id))
  {
    StartInv(r);
    InvRun(r, START, run, segment);
    RunMarked(r, START, run, segment);
    NotBothOurs(Exec(r, START, run, segment), q, i, j);
  }

  lemma {:induction false} NotBothOurs(s: Pipe, q: nat, i: nat, j: nat)
    requires Inv(s) && AllMarked(s.layer) && q < |s.layer.rqs| && i < j < |s.layer.rqs[q].bios|
    ensures var bios := s.layer.rqs[q].bios; !(Ours(bios[i].id) && Ours(bios[j].id))
  {
    var rq := s.layer.rqs[q];
    var bios := rq.bios;
    assert Requests.Valid(rq) && Marked(bios) && Requests.Conserved(s.layer, Id(0));
    EndedCame(s, 0);
    HeldAtLeast(s.layer.rqs, |s.layer.rqs|, q, 0);
    IdsAt(bios, i);
    IdsAt(bios, j);
    if bios[i].id == 0 && bios[j].id == 0 {
      OccTwice(Requests.Ids(bios), 0, i, j);
    }
  }
}
