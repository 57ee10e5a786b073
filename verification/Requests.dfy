/**
 * Requests of the block layer: made from a bio, grown by merges at either end or with a
 * neighbouring request, and completed piece by piece from the front.
 * Only requests that carry data and are not discards are modelled.
 */
module Requests {

  import opened Lists
  import opened Sectors

  /** What the request layer sees of a bio. */
  datatype Bio = Bio(id: nat, sector: nat, size: nat, nomerge: bool)

  /** A request: __sector, __data_len, the bio list, REQ_NOMERGE in cmd_flags. */
  datatype Rq = Rq(sector: nat, len: nat, bios: seq<Bio>, nomerge: bool)

  // ---------------------------------------------------------------- lists of bios

  /** Whole, non-empty bios on consecutive sectors from `sector` on. */
  predicate Contiguous(bios: seq<Bio>, sector: nat)
    decreases |bios|
  {
    bios == [] ||
    (&& bios[0].sector == sector && bios[0].size > 0 && bios[0].size % SECTOR == 0
     && Contiguous(bios[1..], sector + bios[0].size / SECTOR))
  }

  function Sum(bios: seq<Bio>): nat
    decreases |bios|
  {
    if bios == [] then 0 else bios[0].size + Sum(bios[1..])
  }

  function Ids(bios: seq<Bio>): (r: seq<nat>)
    ensures |r| == |bios|
    decreases |bios|
  {
    if bios == [] then [] else [bios[0].id] + Ids(bios[1..])
  }

  lemma {:induction false} WholeSectors(x: nat, y: nat)
    requires x % SECTOR == 0
    ensures (x + y) / SECTOR == x / SECTOR + y / SECTOR
  {
  }

  lemma {:induction false} JoinIds(a: seq<Bio>, b: seq<Bio>)
    ensures Ids(a + b) == Ids(a) + Ids(b)
    decreases |a|
  {
    if a == [] {
      assert a + b == b;
    } else {
      var t, head := a[1..], [a[0].id];
      JoinIds(t, b);
      assert Ids(a + b) == head + (Ids(t) + Ids(b)) by {
        assert (a + b)[1..] == t + b && (a + b)[0] == a[0];
      }
      assert head + (Ids(t) + Ids(b)) == (head + Ids(t)) + Ids(b);
    }
  }

  /** Two lists joined where the first ends. */
  lemma {:induction false} Join(a: seq<Bio>, b: seq<Bio>, sector: nat)
    requires Contiguous(a, sector) && Contiguous(b, sector + Sum(a) / SECTOR)
    ensures Contiguous(a + b, sector) && Sum(a + b) == Sum(a) + Sum(b)
    decreases |a|
  {
    if a == [] {
      assert a + b == b;
    } else {
      var t := a[1..];
      WholeSectors(a[0].size, Sum(t));
      Join(t, b, sector + a[0].size / SECTOR);
      assert (a + b)[1..] == t + b;
    }
  }

  // ---------------------------------------------------------------- completion

  /** bio_advance: drop n bytes from the front; the sector moves by whole sectors only. */
  function Advance(b: Bio, n: nat): Bio
    requires n <= b.size
  {
    b.(sector := b.sector + n / SECTOR, size := b.size - n)
  }

  /** The loop of blk_update_request: what n bytes leave of the list. */
  function Rest(bios: seq<Bio>, n: nat): seq<Bio>
    decreases |bios|
  {
    if bios == [] then []
    else if n >= bios[0].size then Rest(bios[1..], n - bios[0].size)
    else [Advance(bios[0], n)] + bios[1..]
  }

  /** ... and the bios they end, in order. */
  function Ended(bios: seq<Bio>, n: nat): seq<nat>
    decreases |bios|
  {
    if bios == [] || n < bios[0].size then [] else [bios[0].id] + Ended(bios[1..], n - bios[0].size)
  }

  /** blk_update_request without an error; `segment` is the length of a bio's first segment. */
  function Update(r: Rq, n: nat, segment: Bio -> nat): Rq {
    if r.bios == [] then r
    else
      var rest := Rest(r.bios, n);
      if rest == [] then r.(bios := [], len := 0)
      else
        var len := r.len - n;
        r.(bios := rest, sector := r.sector + n / SECTOR,
           len := if len < segment(rest[0]) then segment(rest[0]) else len)
  }

  /** What is left after n whole sectors is as well formed as before. */
  lemma {:induction false} RestIsContiguous(bios: seq<Bio>, sector: nat, n: nat)
    requires Contiguous(bios, sector) && n % SECTOR == 0
    ensures n < Sum(bios) ==>
              Rest(bios, n) != [] && Contiguous(Rest(bios, n), sector + n / SECTOR)
                  && Sum(Rest(bios, n)) == Sum(bios) - n
    ensures n >= Sum(bios) ==> Rest(bios, n) == []
    decreases |bios|
  {
    if bios != [] {
      var b := bios[0];
      if n >= b.size {
        RestIsContiguous(bios[1..], sector + b.size / SECTOR, n - b.size);
      } else {
        var rest := Rest(bios, n);
        assert rest[1..] == bios[1..];
        assert b.sector + n / SECTOR + (b.size - n) / SECTOR == b.sector + b.size / SECTOR;
      }
    }
  }

  /** Every bio of the list is ended or left, once and in order. */
  lemma {:induction false} EndedOrLeft(bios: seq<Bio>, n: nat)
    ensures Ended(bios, n) + Ids(Rest(bios, n)) == Ids(bios)
    decreases |bios|
  {
    if bios != [] {
      if n >= bios[0].size {
        EndedOrLeft(bios[1..], n - bios[0].size);
      } else {
        assert Rest(bios, n)[1..] == bios[1..];
      }
    }
  }

  /** The first cut falls into the first bio. */
  lemma {:induction false} RestTwiceHere(bios: seq<Bio>, a: nat, b: nat)
    requires bios != [] && a < bios[0].size
    ensures Ended(bios, a) == [] && Ended(Rest(bios, a), b) == Ended(bios, a + b)
    ensures |Rest(Rest(bios, a), b)| == |Rest(bios, a + b)|
    ensures a % SECTOR + b % SECTOR < SECTOR ==> Rest(Rest(bios, a), b) == Rest(bios, a + b)
  {
    var mid := Rest(bios, a);
    assert mid[0] == Advance(bios[0], a) && mid[1..] == bios[1..];
    if b < mid[0].size && a % SECTOR + b % SECTOR < SECTOR {
      SectorsAdd(a, b);
      assert Advance(mid[0], b) == Advance(bios[0], a + b);
    }
  }

  lemma {:induction false} SectorsAdd(a: nat, b: nat)
    requires a % SECTOR + b % SECTOR < SECTOR
    ensures (a + b) / SECTOR == a / SECTOR + b / SECTOR
  {
  }

  lemma {:induction false} WholeAway(a: nat, s: nat)
    requires s <= a && s % SECTOR == 0
    ensures (a - s) % SECTOR == a % SECTOR
  {
  }

  lemma {:induction false} Associative(x: nat, p: seq<nat>, q: seq<nat>)
    ensures ([x] + p) + q == [x] + (p + q)
  {
  }

  /** Completing a then b bytes ends the bios that a + b bytes end, once each and in order, and leaves
      the same list if the two counts add up to whole sectors the way their sum does. */
  lemma {:induction false} RestTwice(bios: seq<Bio>, sector: nat, a: nat, b: nat)
    requires Contiguous(bios, sector)
    ensures Ended(bios, a) + Ended(Rest(bios, a), b) == Ended(bios, a + b)
    ensures |Rest(Rest(bios, a), b)| == |Rest(bios, a + b)|
    ensures a % SECTOR + b % SECTOR < SECTOR ==> Rest(Rest(bios, a), b) == Rest(bios, a + b)
    decreases |bios|
  {
    if bios != [] {
      var x, t := bios[0], bios[1..];
      if a < x.size {
        RestTwiceHere(bios, a, b);
      } else {
        WholeAway(a, x.size);
        RestTwice(t, sector + x.size / SECTOR, a - x.size, b);
        assert Rest(bios, a) == Rest(t, a - x.size) && Rest(bios, a + b) == Rest(t, a - x.size + b);
        Associative(x.id, Ended(t, a - x.size), Ended(Rest(t, a - x.size), b));
      }
    }
  }

  /** How much is left does not depend on where the sectors fall. */
  lemma {:induction false} RestSum(bios: seq<Bio>, n: nat)
    ensures Sum(Rest(bios, n)) == if n < Sum(bios) then Sum(bios) - n else 0
    ensures (forall i :: 0 <= i < |bios| ==> bios[i].size > 0) ==> (Rest(bios, n) == [] <==> n >= Sum(bios))
    decreases |bios|
  {
    if bios != [] {
      if n >= bios[0].size {
        RestSum(bios[1..], n - bios[0].size);
      } else {
        assert Rest(bios, n)[1..] == bios[1..];
      }
    }
  }

  // ---------------------------------------------------------------- requests

  /** The head bio starts at __sector, the list is contiguous, its sizes add up to __data_len, and a bio
      with REQ_NOMERGE is alone in a request with REQ_NOMERGE. */
  predicate Valid(r: Rq) {
    && Contiguous(r.bios, r.sector) && Sum(r.bios) == r.len
    && (forall i :: 0 <= i < |r.bios| && r.bios[i].nomerge ==> |r.bios| == 1 && r.nomerge)
  }

  /** A bio as it arrives: data, in whole sectors. */
  predicate Whole(b: Bio) {
    b.size > 0 && b.size % SECTOR == 0
  }

  /** blk_mq_bio_to_request; cmd_flags are the bio's. */
  function FromBio(b: Bio): Rq {
    Rq(b.sector, b.size, [b], b.nomerge)
  }

  datatype Where = Back | Front | No

  /** blk_rq_merge_ok as far as REQ_NOMERGE goes, then blk_try_merge. */
  function TryMerge(r: Rq, b: Bio): Where {
    if r.nomerge || b.nomerge || r.bios == [] then No
    else if r.sector + r.len / SECTOR == b.sector then Back
    else if r.sector == b.sector + b.size / SECTOR then Front
    else No
  }

  /** bio_attempt_back_merge */
  function BackMerge(r: Rq, b: Bio): Rq {
    r.(bios := r.bios + [b], len := r.len + b.size)
  }

  /** bio_attempt_front_merge */
  function FrontMerge(r: Rq, b: Bio): Rq {
    r.(bios := [b] + r.bios, sector := b.sector, len := r.len + b.size)
  }

  /** rq_mergeable on both, then blk_try_req_merge. */
  predicate CanJoin(r: Rq, next: Rq) {
    !r.nomerge && !next.nomerge && r.bios != [] && next.bios != [] && r.sector + r.len / SECTOR == next.sector
  }

  /** attempt_merge */
  function JoinRqs(r: Rq, next: Rq): Rq {
    r.(bios := r.bios + next.bios, len := r.len + next.len)
  }

  lemma {:induction false} FromBioValid(b: Bio)
    requires Whole(b)
    ensures Valid(FromBio(b)) && Ids(FromBio(b).bios) == [b.id]
  {
    assert FromBio(b).bios[1..] == [];
  }

  lemma {:induction false} BackMergeValid(r: Rq, b: Bio)
    requires Valid(r) && Whole(b) && TryMerge(r, b).Back?
    ensures Valid(BackMerge(r, b)) && Ids(BackMerge(r, b).bios) == Ids(r.bios) + [b.id]
  {
    FromBioValid(b);
    Join(r.bios, [b], r.sector);
    JoinIds(r.bios, [b]);
  }

  lemma {:induction false} FrontMergeValid(r: Rq, b: Bio)
    requires Valid(r) && Whole(b) && TryMerge(r, b).Front?
    ensures Valid(FrontMerge(r, b)) && Ids(FrontMerge(r, b).bios) == [b.id] + Ids(r.bios)
  {
    FromBioValid(b);
    Join([b], r.bios, b.sector);
    JoinIds([b], r.bios);
  }

  lemma {:induction false} JoinRqsValid(r: Rq, next: Rq)
    requires Valid(r) && Valid(next) && CanJoin(r, next)
    ensures Valid(JoinRqs(r, next)) && Ids(JoinRqs(r, next).bios) == Ids(r.bios) + Ids(next.bios)
  {
    Join(r.bios, next.bios, r.sector);
    JoinIds(r.bios, next.bios);
  }

  /** What follows in a contiguous list begins where the first part ends. */
  lemma {:induction false} JoinNeeds(a: seq<Bio>, b: seq<Bio>, sector: nat)
    requires Contiguous(a + b, sector)
    ensures Contiguous(b, sector + Sum(a) / SECTOR)
    decreases |a|
  {
    if a == [] {
      assert a + b == b;
    } else {
      var t := a[1..];
      assert (a + b)[1..] == t + b && (a + b)[0] == a[0];
      JoinNeeds(t, b, sector + a[0].size / SECTOR);
      WholeSectors(a[0].size, Sum(t));
    }
  }

  /** Neither forbids a merge, and there is something to merge with. */
  predicate Mergeable(r: Rq, nomerge: bool) {
    !r.nomerge && !nomerge && r.bios != []
  }

  /** A bio is merged at an end exactly when that leaves a valid request and no flag forbids it: nothing that could be
      merged is turned away. */
  lemma {:induction false} TryMergeIsExact(r: Rq, b: Bio)
    requires Valid(r) && Whole(b)
    ensures TryMerge(r, b).Back? <==> Mergeable(r, b.nomerge) && Valid(BackMerge(r, b))
    ensures TryMerge(r, b).Front? <==> Mergeable(r, b.nomerge) && Valid(FrontMerge(r, b))
  {
    if TryMerge(r, b).Back? {
      BackMergeValid(r, b);
    } else if TryMerge(r, b).Front? {
      FrontMergeValid(r, b);
    }
    if Mergeable(r, b.nomerge) && Valid(BackMerge(r, b)) {
      JoinNeeds(r.bios, [b], r.sector);
    }
    if Mergeable(r, b.nomerge) && Valid(FrontMerge(r, b)) {
      var all := FrontMerge(r, b).bios;
      assert all[0] == b && all[1..] == r.bios;
      assert Contiguous(all, b.sector) && Contiguous(all[1..], b.sector + b.size / SECTOR);
      assert r.bios[0].sector == b.sector + b.size / SECTOR && r.bios[0].sector == r.sector;
      assert b.size / SECTOR >= 1;
    }
  }

  /** ... and so are two requests. */
  lemma {:induction false} CanJoinIsExact(r: Rq, next: Rq)
    requires Valid(r) && Valid(next)
    ensures CanJoin(r, next) <==> Mergeable(r, next.nomerge) && next.bios != [] && Valid(JoinRqs(r, next))
  {
    if CanJoin(r, next) {
      JoinRqsValid(r, next);
    }
    if Mergeable(r, next.nomerge) && next.bios != [] && Valid(JoinRqs(r, next)) {
      JoinNeeds(r.bios, next.bios, r.sector);
    }
  }

  /** No bio with REQ_NOMERGE. */
  predicate Plain(bios: seq<Bio>) {
    forall i :: 0 <= i < |bios| ==> !bios[i].nomerge
  }

  lemma {:induction false} RestFlags(bios: seq<Bio>, n: nat)
    ensures |Rest(bios, n)| <= |bios| && (Plain(bios) ==> Plain(Rest(bios, n)))
    decreases |bios|
  {
    if bios != [] && n >= bios[0].size {
      RestFlags(bios[1..], n - bios[0].size);
    }
  }

  lemma {:induction false} RestAlone(bios: seq<Bio>, n: nat, nomerge: bool)
    requires forall i :: 0 <= i < |bios| && bios[i].nomerge ==> |bios| == 1 && nomerge
    ensures var rest := Rest(bios, n); forall i :: 0 <= i < |rest| && rest[i].nomerge ==> |rest| == 1 && nomerge
  {
    RestFlags(bios, n);
    if !Plain(bios) {
      assert |bios| == 1 && nomerge;
    }
  }

  /** Completing whole sectors, or everything, keeps the request valid: the "request botched" repair
      never happens, and the result says whether anything is left. */
  lemma {:induction false} UpdateValid(r: Rq, n: nat, segment: Bio -> nat)
    requires Valid(r) && (n % SECTOR == 0 || n >= r.len) && forall b :: segment(b) <= b.size
    ensures Valid(Update(r, n, segment))
    ensures Update(r, n, segment).len == if n < r.len then r.len - n else 0
    ensures Update(r, n, segment).bios == [] <==> n >= r.len
    ensures Ended(r.bios, n) + Ids(Update(r, n, segment).bios) == Ids(r.bios)
  {
    EndedOrLeft(r.bios, n);
    if r.bios != [] {
      RestAlone(r.bios, n, r.nomerge);
      if n < r.len {
        RestIsContiguous(r.bios, r.sector, n);
      } else {
        RestEmpty(r.bios, n);
      }
    }
  }

  lemma {:induction false} RestEmpty(bios: seq<Bio>, n: nat)
    requires n >= Sum(bios)
    ensures Rest(bios, n) == []
    decreases |bios|
  {
    if bios != [] {
      RestEmpty(bios[1..], n - bios[0].size);
    }
  }

  lemma {:induction false} Positive(bios: seq<Bio>, sector: nat)
    requires Contiguous(bios, sector)
    ensures forall i :: 0 <= i < |bios| ==> bios[i].size > 0
    decreases |bios|
  {
    if bios != [] {
      Positive(bios[1..], sector + bios[0].size / SECTOR);
      assert forall i :: 1 <= i < |bios| ==> bios[i] == bios[1..][i - 1];
    }
  }

  lemma {:induction false} RestPositive(bios: seq<Bio>, n: nat)
    requires forall i :: 0 <= i < |bios| ==> bios[i].size > 0
    ensures forall i :: 0 <= i < |Rest(bios, n)| ==> Rest(bios, n)[i].size > 0
    decreases |bios|
  {
    if bios != [] && n >= bios[0].size {
      RestPositive(bios[1..], n - bios[0].size);
    }
  }

  /** For any byte counts: what Update leaves, and how much of it. */
  lemma {:induction false} UpdateLength(r: Rq, n: nat, segment: Bio -> nat)
    requires Sum(r.bios) == r.len && (forall i :: 0 <= i < |r.bios| ==> r.bios[i].size > 0)
    requires forall b :: segment(b) <= b.size
    ensures var r' := Update(r, n, segment);
            && r'.bios == Rest(r.bios, n) && r'.len == (if n < r.len then r.len - n else 0) == Sum(r'.bios)
            && (r'.bios == [] <==> n >= r.len)
            && (r'.bios != [] ==> r'.sector == r.sector + n / SECTOR)
            && (forall i :: 0 <= i < |r'.bios| ==> r'.bios[i].size > 0)
  {
    RestSum(r.bios, n);
    RestPositive(r.bios, n);
  }

  /** Partial completion is additive: the same bios end, once each and in order, as many bytes are left,
      and the verdicts agree.  While something is left the list and the sector agree too, exactly when
      the parts of a sector in the two counts do not make up one. */
  lemma {:induction false} CompletionIsAdditive(r: Rq, a: nat, b: nat, segment: Bio -> nat)
    requires Valid(r) && forall x :: segment(x) <= x.size
    ensures var r1 := Update(r, a, segment);
            var r2, r12 := Update(r1, b, segment), Update(r, a + b, segment);
            && Ended(r.bios, a) + Ended(r1.bios, b) == Ended(r.bios, a + b)
            && r2.len == r12.len && (r2.bios == [] <==> r12.bios == []) && (r12.bios == [] <==> a + b >= r.len)
            && (a + b < r.len ==> (r2 == r12 <==> a % SECTOR + b % SECTOR < SECTOR))
  {
    Positive(r.bios, r.sector);
    UpdateLength(r, a, segment);
    UpdateLength(Update(r, a, segment), b, segment);
    UpdateLength(r, a + b, segment);
    RestTwice(r.bios, r.sector, a, b);
  }

  /** Why the counts must be whole sectors: after 256 and then 768 bytes __sector lags behind the head bio. */
  lemma {:induction false} PartSectorsDrift()
    ensures var r := Rq(0, 1536, [Bio(1, 0, 512, false), Bio(2, 1, 1024, false)], false);
            var r2 := Update(Update(r, 256, (b: Bio) => b.size), 768, (b: Bio) => b.size);
            Valid(r) && r2.bios != [] && r2.bios[0].sector == 2 && r2.sector == 1
  {
    var r := Rq(0, 1536, [Bio(1, 0, 512, false), Bio(2, 1, 1024, false)], false);
    var whole := (b: Bio) => b.size;
    assert r.bios[1..] == [Bio(2, 1, 1024, false)] && r.bios[1..][1..] == [];
    var r1 := Update(r, 256, whole);
    assert r1.bios[0] == Bio(1, 0, 256, false) && r1.bios[1..] == [Bio(2, 1, 1024, false)];
    assert Rest(r1.bios, 768) == Rest(r1.bios[1..], 512);
  }

  // ---------------------------------------------------------------- all runs

  /** The requests there are (a merged or finished one stays as an empty entry), and the ids of the bios
      that came in and of those that were ended. */
  datatype Layer = Layer(rqs: seq<Rq>, arrived: seq<nat>, ended: seq<nat>)

  datatype Action =
    | New(b: Bio)
    | Merge(i: nat, b: Bio)
    | MergeRequests(i: nat, j: nat)
    | SetNomerge(i: nat)
    | Complete(i: nat, n: nat)

  predicate Enabled(s: Layer, a: Action) {
    match a
    case New(b) => Whole(b)
    case Merge(i, b) => i < |s.rqs| && Whole(b) && !TryMerge(s.rqs[i], b).No?
    case MergeRequests(i, j) => i < |s.rqs| && j < |s.rqs| && i != j && CanJoin(s.rqs[i], s.rqs[j])
    case SetNomerge(i) => i < |s.rqs|
    case Complete(i, n) => i < |s.rqs| && (n % SECTOR == 0 || n >= s.rqs[i].len)
  }

  function Merged(r: Rq, b: Bio): Rq {
    if TryMerge(r, b).Back? then BackMerge(r, b) else FrontMerge(r, b)
  }

  function Do(s: Layer, a: Action, segment: Bio -> nat): Layer
    requires Enabled(s, a)
  {
    match a
    case New(b) => s.(rqs := s.rqs + [FromBio(b)], arrived := s.arrived + [b.id])
    case Merge(i, b) => s.(rqs := s.rqs[i := Merged(s.rqs[i], b)], arrived := s.arrived + [b.id])
    case MergeRequests(i, j) =>
      s.(rqs := s.rqs[i := JoinRqs(s.rqs[i], s.rqs[j])][j := s.rqs[j].(bios := [], len := 0)])
    case SetNomerge(i) => s.(rqs := s.rqs[i := s.rqs[i].(nomerge := true)])
    case Complete(i, n) =>
      s.(rqs := s.rqs[i := Update(s.rqs[i], n, segment)], ended := s.ended + Ended(s.rqs[i].bios, n))
  }

  ghost predicate AllValid(s: Layer) {
    forall i :: 0 <= i < |s.rqs| ==> Valid(s.rqs[i])
  }

  function In(r: Rq, x: nat): nat {
    Occ(Ids(r.bios), x)
  }

  /** How often the bio x is held by the first n requests. */
  function Held(rqs: seq<Rq>, n: nat, x: nat): nat
    requires n <= |rqs|
    decreases n
  {
    if n == 0 then 0 else Held(rqs, n - 1, x) + In(rqs[n - 1], x)
  }

  lemma {:induction false} HeldUpdate(rqs: seq<Rq>, i: nat, r: Rq, n: nat, x: nat)
    requires i < |rqs| && n <= |rqs|
    ensures Held(rqs[i := r], n, x) == Held(rqs, n, x) + (if i < n then In(r, x) - In(rqs[i], x) else 0)
    decreases n
  {
    if n > 0 {
      HeldUpdate(rqs, i, r, n - 1, x);
    }
  }

  lemma {:induction false} HeldExtend(rqs: seq<Rq>, r: Rq, n: nat, x: nat)
    requires n <= |rqs|
    ensures Held(rqs + [r], n, x) == Held(rqs, n, x)
    decreases n
  {
    if n > 0 {
      HeldExtend(rqs, r, n - 1, x);
    }
  }

  lemma {:induction false} HeldSnoc(rqs: seq<Rq>, r: Rq, x: nat)
    ensures Held(rqs + [r], |rqs| + 1, x) == Held(rqs, |rqs|, x) + In(r, x)
  {
    HeldExtend(rqs, r, |rqs|, x);
    assert (rqs + [r])[|rqs|] == r;
  }

  /** Bio x is held or has ended as often as it came in. */
  predicate Conserved(s: Layer, x: nat) {
    Held(s.rqs, |s.rqs|, x) + Occ(s.ended, x) == Occ(s.arrived, x)
  }

  lemma {:induction false} MergedValid(r: Rq, b: Bio, x: nat)
    requires Valid(r) && Whole(b) && !TryMerge(r, b).No?
    ensures Valid(Merged(r, b)) && In(Merged(r, b), x) == In(r, x) + Occ([b.id], x)
  {
    if TryMerge(r, b).Back? {
      BackMergeValid(r, b);
      OccJoin(Ids(r.bios), [b.id], x);
    } else {
      FrontMergeValid(r, b);
      OccJoin([b.id], Ids(r.bios), x);
    }
  }

  lemma {:induction false} NewKeeps(s: Layer, b: Bio, segment: Bio -> nat, x: nat)
    requires AllValid(s) && Conserved(s, x) && Whole(b)
    ensures AllValid(Do(s, New(b), segment)) && Conserved(Do(s, New(b), segment), x)
  {
    FromBioValid(b);
    var s' := Do(s, New(b), segment);
    assert forall i :: 0 <= i < |s'.rqs| ==> s'.rqs[i] == if i < |s.rqs| then s.rqs[i] else FromBio(b);
    HeldSnoc(s.rqs, FromBio(b), x);
    OccJoin(s.arrived, [b.id], x);
  }

  lemma {:induction false} MergeKeeps(s: Layer, i: nat, b: Bio, segment: Bio -> nat, x: nat)
    requires AllValid(s) && Conserved(s, x) && Enabled(s, Merge(i, b))
    ensures AllValid(Do(s, Merge(i, b), segment)) && Conserved(Do(s, Merge(i, b), segment), x)
  {
    MergedValid(s.rqs[i], b, x);
    HeldUpdate(s.rqs, i, Merged(s.rqs[i], b), |s.rqs|, x);
    OccJoin(s.arrived, [b.id], x);
  }

  lemma {:induction false} MergeRequestsKeeps(s: Layer, i: nat, j: nat, segment: Bio -> nat, x: nat)
    requires AllValid(s) && Conserved(s, x) && Enabled(s, MergeRequests(i, j))
    ensures AllValid(Do(s, MergeRequests(i, j), segment)) && Conserved(Do(s, MergeRequests(i, j), segment), x)
  {
    var r, none := JoinRqs(s.rqs[i], s.rqs[j]), s.rqs[j].(bios := [], len := 0);
    JoinRqsValid(s.rqs[i], s.rqs[j]);
    OccJoin(Ids(s.rqs[i].bios), Ids(s.rqs[j].bios), x);
    HeldUpdate(s.rqs, i, r, |s.rqs|, x);
    HeldUpdate(s.rqs[i := r], j, none, |s.rqs|, x);
    assert In(none, x) == 0;
  }

  lemma {:induction false} CompleteKeeps(s: Layer, i: nat, n: nat, segment: Bio -> nat, x: nat)
    requires AllValid(s) && Conserved(s, x) && Enabled(s, Complete(i, n)) && forall b :: segment(b) <= b.size
    ensures AllValid(Do(s, Complete(i, n), segment)) && Conserved(Do(s, Complete(i, n), segment), x)
  {
    var r := s.rqs[i];
    UpdateValid(r, n, segment);
    OccJoin(Ended(r.bios, n), Ids(Update(r, n, segment).bios), x);
    HeldUpdate(s.rqs, i, Update(r, n, segment), |s.rqs|, x);
    OccJoin(s.ended, Ended(r.bios, n), x);
  }

  lemma {:induction false} SetNomergeKeeps(s: Layer, i: nat, segment: Bio -> nat, x: nat)
    requires AllValid(s) && Conserved(s, x) && i < |s.rqs|
    ensures AllValid(Do(s, SetNomerge(i), segment)) && Conserved(Do(s, SetNomerge(i), segment), x)
  {
    HeldUpdate(s.rqs, i, s.rqs[i].(nomerge := true), |s.rqs|, x);
  }

  lemma {:induction false} InvStep(s: Layer, a: Action, segment: Bio -> nat, x: nat)
    requires AllValid(s) && Conserved(s, x) && Enabled(s, a) && forall b :: segment(b) <= b.size
    ensures AllValid(Do(s, a, segment)) && Conserved(Do(s, a, segment), x)
  {
    match a
    case New(b) => NewKeeps(s, b, segment, x);
    case Merge(i, b) => MergeKeeps(s, i, b, segment, x);
    case MergeRequests(i, j) => MergeRequestsKeeps(s, i, j, segment, x);
    case SetNomerge(i) => SetNomergeKeeps(s, i, segment, x);
    case Complete(i, n) => CompleteKeeps(s, i, n, segment, x);
  }

  predicate IsRun(s: Layer, run: seq<Action>, segment: Bio -> nat)
    decreases run
  {
    run == [] || (Enabled(s, run[0]) && IsRun(Do(s, run[0], segment), run[1..], segment))
  }

  function Exec(s: Layer, run: seq<Action>, segment: Bio -> nat): Layer
    requires IsRun(s, run, segment)
    decreases run
  {
    if run == [] then s else Exec(Do(s, run[0], segment), run[1..], segment)
  }

  const IDLE: Layer := Layer([], [], [])

  lemma {:induction false} InvRun(s: Layer, run: seq<Action>, segment: Bio -> nat, x: nat)
    requires AllValid(s) && Conserved(s, x) && IsRun(s, run, segment) && forall b :: segment(b) <= b.size
    ensures AllValid(Exec(s, run, segment)) && Conserved(Exec(s, run, segment), x)
    decreases run
  {
    if run != [] {
      InvStep(s, run[0], segment, x);
      InvRun(Do(s, run[0], segment), run[1..], segment, x);
    }
  }

  /** In every run no bio is lost or ended twice: it is held by a request or has ended as often as it came in. */
  lemma {:induction false} BiosAreConserved(run: seq<Action>, segment: Bio -> nat, x: nat)
    requires IsRun(IDLE, run, segment) && forall b :: segment(b) <= b.size
    ensures Conserved(Exec(IDLE, run, segment), x)
  {
    InvRun(IDLE, run, segment, x);
  }

  /** In every run each request is a contiguous stretch of whole bios with the right sector and length, and a bio
      with REQ_NOMERGE, such as the front half of a split, shares its request with no other. */
  lemma {:induction false} EveryRun(run: seq<Action>, segment: Bio -> nat, i: nat)
    requires IsRun(IDLE, run, segment) && forall b :: segment(b) <= b.size
    requires i < |Exec(IDLE, run, segment).rqs|
    ensures var r := Exec(IDLE, run, segment).rqs[i];
            Valid(r) && forall j :: 0 <= j < |r.bios| && r.bios[j].nomerge ==> |r.bios| == 1
  {
    InvRun(IDLE, run, segment, 0);
  }
}
