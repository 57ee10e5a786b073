/**
 * Submitting a bio until no cut is needed: the front piece is cloned, the bio itself is advanced to the
 * remainder and submitted again.  With the read-around hook, which cuts a read-ahead of 256 sectors in two.
 */
module SplitSubmit {

  import opened Options
  import opened Segments
  import opened BioSplit
  import opened Align
  import opened Sectors

  const TARGET := 256

  // ---------------------------------------------------------------- get_max_io_size

  /** The condition of the read-around hook. */
  predicate Hook(bio: Bio, on: bool) {
    on && bio.op.Read? && bio.rahead && Bytes(bio) / SECTOR == TARGET
  }

  /** blk_boundary_sectors */
  function Boundary(lim: Limits, atomic: bool): nat {
    if atomic && lim.atomicBoundarySectors > 0 then lim.atomicBoundarySectors else lim.chunkSectors
  }

  function OpSectors(lim: Limits, bio: Bio): nat {
    if bio.op.WriteZeroes? then lim.maxWriteZeroesSectors
    else if bio.atomic then lim.atomicMaxSectors else lim.maxSectors
  }

  /** max_sectors, shortened to what is left before the next boundary. */
  function MaxSectors(lim: Limits, bio: Bio): nat {
    var max, boundary := OpSectors(lim, bio), Boundary(lim, bio.atomic);
    if boundary == 0 then max
    else
      var left := boundary - (bio.sector - RoundDown(bio.sector, boundary));
      if left < max then left else max
  }

  /** get_max_io_size past the hook. */
  function Ordinary(lim: Limits, bio: Bio): nat
    requires BlocksOk(lim)
  {
    var pbs, lbs, max := lim.physicalBlock / SECTOR, lim.logicalBlock / SECTOR, MaxSectors(lim, bio);
    var start := bio.sector - RoundDown(bio.sector, pbs);
    var end := RoundDown(start + max, pbs);
    if end > start then end - start else RoundDown(max, lbs)
  }

  function MaxIoSize(lim: Limits, bio: Bio, on: bool): nat
    requires BlocksOk(lim)
  {
    if Hook(bio, on) then TARGET / 2 else Ordinary(lim, bio)
  }

  // ---------------------------------------------------------------- the device's limits

  /** No multiple of m lies strictly inside the n sectors from `sector` on. */
  ghost predicate Uncrossed(m: nat, sector: nat, n: nat)
    requires m >= 1
  {
    forall x: nat :: Aligned(x, m) ==> x <= sector || sector + n <= x
  }

  /** The n sectors from where the bio begins keep to the limits of the device: to the size limit of the operation, and
      to the boundary of atomic writes where there is one, otherwise to that of the chunks. */
  ghost predicate RoomFor(lim: Limits, bio: Bio, n: nat) {
    && (bio.op.WriteZeroes? ==> n <= lim.maxWriteZeroesSectors)
    && (!bio.op.WriteZeroes? && bio.atomic ==> n <= lim.atomicMaxSectors)
    && (!bio.op.WriteZeroes? && !bio.atomic ==> n <= lim.maxSectors)
    && (bio.atomic && lim.atomicBoundarySectors > 0 ==> Uncrossed(lim.atomicBoundarySectors, bio.sector, n))
    && (!(bio.atomic && lim.atomicBoundarySectors > 0) && lim.chunkSectors > 0 ==>
          Uncrossed(lim.chunkSectors, bio.sector, n))
  }

  lemma {:induction false} UncrossedIs(m: nat, sector: nat, n: nat)
    requires m >= 1
    ensures Uncrossed(m, sector, n) <==> sector + n <= RoundDown(sector, m) + m
  {
    var next := RoundDown(sector, m) + m;
    assert Aligned(m, m) by {
      assert Aligned(0, m);
    }
    AlignedSum(RoundDown(sector, m), m, m);
    assert Aligned(next, m);
    forall x: nat | Aligned(x, m) && sector < x
      ensures next <= x
    {
      AlignedApart(RoundDown(sector, m), x, m);
    }
  }

  /** What the code computes is the largest number there is room for. */
  lemma {:induction false} RoomIs(lim: Limits, bio: Bio, n: nat)
    ensures RoomFor(lim, bio, n) <==> n <= MaxSectors(lim, bio)
  {
    var boundary := Boundary(lim, bio.atomic);
    if boundary > 0 {
      UncrossedIs(boundary, bio.sector, n);
    }
  }

  /** There is room up to some boundary between physical blocks. */
  ghost predicate ReachesBlock(lim: Limits, bio: Bio)
    requires BlocksOk(lim)
  {
    exists n: nat :: n > 0 && RoomFor(lim, bio, n) && Aligned(bio.sector + n, lim.physicalBlock / SECTOR)
  }

  lemma {:induction false} OrdinaryIs(lim: Limits, bio: Bio)
    requires BlocksOk(lim)
    ensures var r, max := Ordinary(lim, bio), MaxSectors(lim, bio);
            var pbs, lbs := lim.physicalBlock / SECTOR, lim.logicalBlock / SECTOR;
            && r <= max
            && (if RoundDown(bio.sector + max, pbs) > bio.sector then bio.sector + r == RoundDown(bio.sector + max, pbs)
                else r == RoundDown(max, lbs))
  {
    var pbs, max := lim.physicalBlock / SECTOR, MaxSectors(lim, bio);
    var base := RoundDown(bio.sector, pbs);
    var end := RoundDown(bio.sector - base + max, pbs);
    AlignedSum(base, end, pbs);
    RoundDownIs(bio.sector + max, base + end, pbs);
  }

  /** A multiple up to x is one up to round_down(x). */
  lemma {:induction false} BelowRoundDown(y: nat, x: nat, m: nat)
    requires m >= 1 && Aligned(y, m) && y <= x
    ensures y <= RoundDown(x, m)
  {
    if RoundDown(x, m) < y {
      AlignedApart(RoundDown(x, m), y, m);
    }
  }

  /** The ordinary size keeps to the limits of the device, and no more is cut away than the blocks require: it is the
      largest with room that ends between physical blocks, or, if none does, the largest number of whole logical
      blocks with room. */
  lemma {:induction false} OrdinaryIsWithin(lim: Limits, bio: Bio)
    requires BlocksOk(lim)
    ensures var r := Ordinary(lim, bio);
            var pbs, lbs := lim.physicalBlock / SECTOR, lim.logicalBlock / SECTOR;
            && RoomFor(lim, bio, r)
            && (ReachesBlock(lim, bio) ==>
                && r > 0 && Aligned(bio.sector + r, pbs)
                && forall n: nat :: RoomFor(lim, bio, n) && Aligned(bio.sector + n, pbs) ==> n <= r)
            && (!ReachesBlock(lim, bio) ==>
                && Aligned(r, lbs)
                && forall n: nat :: RoomFor(lim, bio, n) && Aligned(n, lbs) ==> n <= r)
  {
    var r, max := Ordinary(lim, bio), MaxSectors(lim, bio);
    var pbs, lbs := lim.physicalBlock / SECTOR, lim.logicalBlock / SECTOR;
    OrdinaryIs(lim, bio);
    RoomIs(lim, bio, r);
    forall n: nat | RoomFor(lim, bio, n)
      ensures Aligned(bio.sector + n, pbs) ==> bio.sector + n <= RoundDown(bio.sector + max, pbs)
      ensures Aligned(n, lbs) ==> n <= RoundDown(max, lbs)
    {
      RoomIs(lim, bio, n);
      if Aligned(bio.sector + n, pbs) {
        BelowRoundDown(bio.sector + n, bio.sector + max, pbs);
      }
      if Aligned(n, lbs) {
        BelowRoundDown(n, max, lbs);
      }
    }
  }

  // ---------------------------------------------------------------- submission

  /** bio_unaligned */
  predicate Unaligned(lim: Limits, bio: Bio)
    requires BlocksOk(lim)
  {
    !Aligned(Bytes(bio), lim.logicalBlock) || !Aligned(bio.sector * SECTOR, lim.logicalBlock)
  }

  /** What a piece was submitted as: its bio, the segments reported for it and the limit it was cut to. */
  datatype Piece = Piece(bio: Bio, segs: nat, limit: nat)

  /** The pieces in the order of their sectors, the part that failed if one did, and how often the hook fired. */
  datatype Outcome = Outcome(pieces: seq<Piece>, failed: Option<Bio>, hooks: nat)

  /** Where the environment makes a submission fail: before it is looked at, or for want of memory for the clone. */
  datatype Faults = Faults(refused: iset<Bio>, noMemory: iset<Bio>)

  function Front(bio: Bio, n: nat): Bio {
    bio.(bvecs := Take(bio.bvecs, n), nomerge := true)
  }

  function Remainder(bio: Bio, n: nat): Bio {
    bio.(bvecs := Drop(bio.bvecs, n), sector := bio.sector + n / SECTOR)
  }

  /** What one submission does: it ends, or it cuts off n bytes and leaves the rest to be submitted again. */
  datatype Step = End(out: Outcome) | Cut(n: nat, segs: nat, limit: nat, hooks: nat)

  ghost function Next(lim: Limits, bio: Bio, on: bool, f: Faults): (s: Step)
    requires RoomOk(lim) && BlocksOk(lim)
    ensures s.Cut? ==> 0 < s.n < Bytes(bio) && s.n % SECTOR == 0
  {
    if bio in f.refused || Unaligned(lim, bio) then End(Outcome([], Some(bio), 0))
    else
      var max, h := MaxIoSize(lim, bio, on) * SECTOR, if Hook(bio, on) then 1 else 0;
      match SplitAt(lim, bio, max)
      case Fail(_) => End(Outcome([], Some(bio), h))
      case Keep(k) => End(Outcome([Piece(bio, k, max)], None, h))
      case Split(s, k) =>
        if s == 0 || s >= Bytes(bio) / SECTOR || bio.atomic || bio in f.noMemory then End(Outcome([], Some(bio), h))
        else Cut(s * SECTOR, k, max, h)
  }

  function Consed(p: Piece, h: nat, r: Outcome): Outcome {
    Outcome([p] + r.pieces, r.failed, h + r.hooks)
  }

  /** Submitting the bio and all that is left of it. */
  ghost function Submit(lim: Limits, bio: Bio, on: bool, f: Faults): Outcome
    requires RoomOk(lim) && BlocksOk(lim) && Full(bio.bvecs)
    decreases Bytes(bio)
  {
    match Next(lim, bio, on, f)
    case End(r) => r
    case Cut(n, k, max, h) =>
      TakeDropSize(bio.bvecs, n);
      Consed(Piece(Front(bio, n), k, max), h, Submit(lim, Remainder(bio, n), on, f))
  }

  lemma {:induction false} RemainderAligned(lim: Limits, bio: Bio, n: nat)
    requires BlocksOk(lim) && Full(bio.bvecs) && !Unaligned(lim, bio)
    requires n <= Bytes(bio) && n % SECTOR == 0 && Aligned(n, Alignment(lim, bio))
    ensures !Unaligned(lim, Remainder(bio, n))
  {
    var m := lim.logicalBlock;
    AlignmentOk(lim, bio);
    AlignedTwice(n, Alignment(lim, bio), m);
    TakeDropSize(bio.bvecs, n);
    AlignedDifference(Bytes(bio), n, m);
    AlignedSum(bio.sector * SECTOR, n, m);
    assert Remainder(bio, n).sector * SECTOR == bio.sector * SECTOR + n;
  }

  /** bio_split's guards on the size never fire, and the remainder is again aligned to logical blocks. */
  lemma {:induction false} CutIsInside(lim: Limits, bio: Bio, max: nat)
    requires RoomOk(lim) && BlocksOk(lim) && Full(bio.bvecs) && !Unaligned(lim, bio)
    ensures var v := SplitAt(lim, bio, max);
            v.Split? ==> 0 < v.sectors < Bytes(bio) / SECTOR && !bio.atomic
                         && !Unaligned(lim, Remainder(bio, v.sectors * SECTOR))
  {
    SplitIsInside(lim, bio, max);
    var v := SplitAt(lim, bio, max);
    if v.Split? {
      AlignedTwice(Bytes(bio), lim.logicalBlock, SECTOR);
      AlignedSectors(Bytes(bio));
      RemainderAligned(lim, bio, v.sectors * SECTOR);
    }
  }

  /** A piece that went to the device: acceptable within the limit it was cut to, which is the ordinary one
      at its sector or the hook's, with the segments it needs reported. */
  ghost predicate PieceOk(lim: Limits, p: Piece, on: bool)
    requires RoomOk(lim) && BlocksOk(lim)
  {
    && Full(p.bio.bvecs) && Acceptable(lim, None, p.bio.bvecs, lim.maxSegments, p.limit)
    && Needed(lim, p.bio.bvecs) <= p.segs <= lim.maxSegments
    && (p.limit == Ordinary(lim, p.bio) * SECTOR
        || (on && p.bio.op.Read? && p.bio.rahead && p.limit == TARGET / 2 * SECTOR))
  }

  /** A piece with something after it is a positive multiple of the alignment and carries REQ_NOMERGE. */
  ghost predicate FrontOk(lim: Limits, p: Piece)
    requires BlocksOk(lim)
  {
    AlignmentOk(lim, p.bio);
    p.bio.nomerge && Bytes(p.bio) > 0 && Aligned(Bytes(p.bio), Alignment(lim, p.bio))
  }

  /** The sectors covered by the first i pieces. */
  function Covered(pieces: seq<Piece>, i: nat): nat
    requires i <= |pieces|
  {
    if i == 0 then 0 else Covered(pieces, i - 1) + Bytes(pieces[i - 1].bio) / SECTOR
  }

  function Content(pieces: seq<Piece>): seq<nat>
    decreases |pieces|
  {
    if pieces == [] then [] else Memory(pieces[0].bio.bvecs) + Content(pieces[1..])
  }

  function FailedContent(r: Outcome): seq<nat> {
    if r.failed.Some? then Memory(r.failed.value.bvecs) else []
  }

  lemma {:induction false} ContentConsed(p: Piece, h: nat, r: Outcome)
    ensures var all := Consed(p, h, r);
            Content(all.pieces) + FailedContent(all) == Memory(p.bio.bvecs) + (Content(r.pieces) + FailedContent(r))
  {
    assert Consed(p, h, r).pieces[1..] == r.pieces;
  }

  /** Nothing is lost, doubled or moved: the bytes of the pieces, and of the part that failed, are the bio's. */
  lemma {:induction false} SubmitKeepsContent(lim: Limits, bio: Bio, on: bool, f: Faults)
    requires RoomOk(lim) && BlocksOk(lim) && Full(bio.bvecs)
    ensures var r := Submit(lim, bio, on, f); Content(r.pieces) + FailedContent(r) == Memory(bio.bvecs)
    decreases Bytes(bio)
  {
    var s := Next(lim, bio, on, f);
    if s.Cut? {
      TakeDrop(bio.bvecs, s.n);
      TakeDropSize(bio.bvecs, s.n);
      SubmitKeepsContent(lim, Remainder(bio, s.n), on, f);
      ContentConsed(Piece(Front(bio, s.n), s.segs, s.limit), s.hooks, Submit(lim, Remainder(bio, s.n), on, f));
    } else {
      EndKeepsContent(lim, bio, on, f);
    }
  }

  lemma {:induction false} EndKeepsContent(lim: Limits, bio: Bio, on: bool, f: Faults)
    requires RoomOk(lim) && BlocksOk(lim) && Next(lim, bio, on, f).End?
    ensures var r := Next(lim, bio, on, f).out; Content(r.pieces) + FailedContent(r) == Memory(bio.bvecs)
  {
    var r := Next(lim, bio, on, f).out;
    assert r.pieces != [] ==> r.pieces[1..] == [];
  }

  predicate Placed(pieces: seq<Piece>, i: nat, sector: nat)
    requires i < |pieces|
  {
    pieces[i].bio.sector == sector + Covered(pieces, i)
  }

  /** The pieces lie one after the other, and a failed part begins where they end. */
  ghost predicate Laid(r: Outcome, sector: nat) {
    && (forall i :: 0 <= i < |r.pieces| ==> Placed(r.pieces, i, sector))
    && (r.failed.Some? ==> r.failed.value.sector == sector + Covered(r.pieces, |r.pieces|))
  }

  lemma {:induction false} CoveredCons(p: Piece, pieces: seq<Piece>, i: nat)
    requires i <= |pieces|
    ensures Covered([p] + pieces, i + 1) == Bytes(p.bio) / SECTOR + Covered(pieces, i)
    decreases i
  {
    if i > 0 {
      CoveredCons(p, pieces, i - 1);
    } else {
      assert Covered([p] + pieces, 0) == 0;
    }
  }

  lemma {:induction false} LaidConsed(p: Piece, h: nat, r: Outcome, sector: nat)
    requires p.bio.sector == sector && Laid(r, sector + Bytes(p.bio) / SECTOR)
    ensures Laid(Consed(p, h, r), sector)
  {
    var all := Consed(p, h, r).pieces;
    forall i | 0 <= i < |all|
      ensures Placed(all, i, sector)
    {
      if i > 0 {
        CoveredCons(p, r.pieces, i - 1);
        assert Placed(r.pieces, i - 1, sector + Bytes(p.bio) / SECTOR);
      }
    }
    CoveredCons(p, r.pieces, |r.pieces|);
  }

  lemma {:induction false} EndIsLaid(lim: Limits, bio: Bio, on: bool, f: Faults)
    requires RoomOk(lim) && BlocksOk(lim) && Next(lim, bio, on, f).End?
    ensures Laid(Next(lim, bio, on, f).out, bio.sector)
  {
    var r := Next(lim, bio, on, f).out;
    assert |r.pieces| <= 1 && (r.failed.Some? ==> r.pieces == [] && Covered(r.pieces, 0) == 0);
  }

  lemma {:induction false} CutIsLaid(bio: Bio, n: nat, segs: nat, max: nat, h: nat, r: Outcome)
    requires Full(bio.bvecs) && n <= Bytes(bio) && Laid(r, Remainder(bio, n).sector)
    ensures Laid(Consed(Piece(Front(bio, n), segs, max), h, r), bio.sector)
  {
    TakeDropSize(bio.bvecs, n);
    LaidConsed(Piece(Front(bio, n), segs, max), h, r, bio.sector);
  }

  lemma {:induction false} SubmitIsLaid(lim: Limits, bio: Bio, on: bool, f: Faults)
    requires RoomOk(lim) && BlocksOk(lim) && Full(bio.bvecs)
    ensures Laid(Submit(lim, bio, on, f), bio.sector)
    decreases Bytes(bio)
  {
    SubmitUnfolds(lim, bio, on, f);
    var s := Next(lim, bio, on, f);
    if s.Cut? {
      SubmitIsLaid(lim, Remainder(bio, s.n), on, f);
      CutIsLaid(bio, s.n, s.segs, s.limit, s.hooks, Submit(lim, Remainder(bio, s.n), on, f));
    } else {
      EndIsLaid(lim, bio, on, f);
    }
  }

  /** Every piece is as it should be, and so is everyone with something after it. */
  ghost predicate Fits(lim: Limits, on: bool, r: Outcome)
    requires RoomOk(lim) && BlocksOk(lim)
  {
    && (r.failed.None? ==> r.pieces != [])
    && (forall i :: 0 <= i < |r.pieces| ==> PieceOk(lim, r.pieces[i], on))
    && (forall i :: 0 <= i < |r.pieces| && (r.failed.Some? || i < |r.pieces| - 1) ==> FrontOk(lim, r.pieces[i]))
  }

  lemma {:induction false} FitsConsed(lim: Limits, on: bool, p: Piece, h: nat, r: Outcome)
    requires RoomOk(lim) && BlocksOk(lim) && PieceOk(lim, p, on) && FrontOk(lim, p) && Fits(lim, on, r)
    ensures Fits(lim, on, Consed(p, h, r))
  {
    var all := Consed(p, h, r).pieces;
    assert forall i :: 0 <= i < |all| ==> all[i] == if i == 0 then p else r.pieces[i - 1];
  }

  /** A part of the bio that failed did so for a cause of its own, never for a bad cut. */
  ghost predicate Caused(lim: Limits, on: bool, f: Faults, r: Outcome)
    requires RoomOk(lim) && BlocksOk(lim)
  {
    r.failed.Some? ==>
      var b := r.failed.value;
      b in f.refused || b in f.noMemory || SplitAt(lim, b, MaxIoSize(lim, b, on) * SECTOR).Fail?
  }

  lemma {:induction false} FrontOrdinary(lim: Limits, bio: Bio, n: nat)
    requires BlocksOk(lim)
    ensures Ordinary(lim, Front(bio, n)) == Ordinary(lim, bio) && Alignment(lim, Front(bio, n)) == Alignment(lim, bio)
  {
  }

  lemma {:induction false} KeepFits(lim: Limits, bio: Bio, on: bool)
    requires Device(lim) && Sound(lim, bio)
    ensures var max := MaxIoSize(lim, bio, on) * SECTOR;
            var v := SplitAt(lim, bio, max);
            v.Keep? ==> PieceOk(lim, Piece(bio, v.segs, max), on)
  {
    SplitIsExact(lim, bio, MaxIoSize(lim, bio, on) * SECTOR);
    TakeAll(bio.bvecs);
  }

  lemma {:induction false} CutFits(lim: Limits, bio: Bio, on: bool)
    requires Device(lim) && Sound(lim, bio)
    ensures var max := MaxIoSize(lim, bio, on) * SECTOR;
            var v := SplitAt(lim, bio, max);
            v.Split? ==>
              var p := Piece(Front(bio, v.sectors * SECTOR), v.segs, max); PieceOk(lim, p, on) && FrontOk(lim, p)
  {
    var max := MaxIoSize(lim, bio, on) * SECTOR;
    SplitIsExact(lim, bio, max);
    var v := SplitAt(lim, bio, max);
    if v.Split? {
      var n := v.sectors * SECTOR;
      TakeDropSize(bio.bvecs, n);
      FrontOrdinary(lim, bio, n);
      assert Allowed(lim, bio, n, max);
    }
  }

  /** A submission that ends has sent the bio whole, or failed for a cause. */
  lemma {:induction false} EndFits(lim: Limits, bio: Bio, on: bool, f: Faults)
    requires Device(lim) && Sound(lim, bio) && !Unaligned(lim, bio) && Next(lim, bio, on, f).End?
    ensures var r := Next(lim, bio, on, f).out; Fits(lim, on, r) && Caused(lim, on, f, r)
  {
    KeepFits(lim, bio, on);
    CutIsInside(lim, bio, MaxIoSize(lim, bio, on) * SECTOR);
  }

  /** What a submission cuts off fits, and what is left is as good a bio as before. */
  lemma {:induction false} NextFits(lim: Limits, bio: Bio, on: bool, f: Faults)
    requires Device(lim) && Sound(lim, bio) && !Unaligned(lim, bio) && Next(lim, bio, on, f).Cut?
    ensures var s := Next(lim, bio, on, f);
            var p := Piece(Front(bio, s.n), s.segs, s.limit);
            PieceOk(lim, p, on) && FrontOk(lim, p) && !Unaligned(lim, Remainder(bio, s.n))
  {
    CutFits(lim, bio, on);
    CutIsInside(lim, bio, MaxIoSize(lim, bio, on) * SECTOR);
  }

  /** Every run of submissions: each piece is within its limits, every one but the last aligned and marked
      REQ_NOMERGE, and only an error of its own stops the bio. */
  lemma {:induction false} SubmitFits(lim: Limits, bio: Bio, on: bool, f: Faults)
    requires Device(lim) && Sound(lim, bio) && !Unaligned(lim, bio)
    ensures Fits(lim, on, Submit(lim, bio, on, f)) && Caused(lim, on, f, Submit(lim, bio, on, f))
    decreases Bytes(bio)
  {
    SubmitUnfolds(lim, bio, on, f);
    var s := Next(lim, bio, on, f);
    if s.Cut? {
      NextFits(lim, bio, on, f);
      TakeDropPages(lim, bio.bvecs, s.n);
      SubmitFits(lim, Remainder(bio, s.n), on, f);
      FitsConsed(lim, on, Piece(Front(bio, s.n), s.segs, s.limit), s.hooks, Submit(lim, Remainder(bio, s.n), on, f));
    } else {
      EndFits(lim, bio, on, f);
    }
  }

  /** Whole sectors, and at least one. */
  predicate WholeSectors(bio: Bio) {
    Bytes(bio) > 0 && Bytes(bio) % SECTOR == 0
  }

  lemma {:induction false} AlignedIsWhole(lim: Limits, bio: Bio)
    requires BlocksOk(lim) && !Unaligned(lim, bio) && Bytes(bio) > 0
    ensures WholeSectors(bio)
  {
    AlignedTwice(Bytes(bio), lim.logicalBlock, SECTOR);
    AlignedSectors(Bytes(bio));
  }

  /** Every piece of a bio that is not empty is some whole sectors. */
  lemma {:induction false} PiecesAreWhole(lim: Limits, bio: Bio, on: bool, f: Faults)
    requires RoomOk(lim) && BlocksOk(lim) && Full(bio.bvecs) && !Unaligned(lim, bio) && Bytes(bio) > 0
    ensures forall i :: 0 <= i < |Submit(lim, bio, on, f).pieces| ==>
              WholeSectors(Submit(lim, bio, on, f).pieces[i].bio)
    decreases Bytes(bio)
  {
    AlignedIsWhole(lim, bio);
    CutIsInside(lim, bio, MaxIoSize(lim, bio, on) * SECTOR);
    SubmitUnfolds(lim, bio, on, f);
    var s := Next(lim, bio, on, f);
    if s.Cut? {
      TakeDropSize(bio.bvecs, s.n);
      var b := Remainder(bio, s.n);
      PiecesAreWhole(lim, b, on, f);
      WholeConsed(Piece(Front(bio, s.n), s.segs, s.limit), s.hooks, Submit(lim, b, on, f));
    }
  }

  lemma {:induction false} WholeConsed(p: Piece, h: nat, r: Outcome)
    requires WholeSectors(p.bio) && forall i :: 0 <= i < |r.pieces| ==> WholeSectors(r.pieces[i].bio)
    ensures var all := Consed(p, h, r).pieces; forall i :: 0 <= i < |all| ==> WholeSectors(all[i].bio)
  {
    var all := Consed(p, h, r).pieces;
    assert forall i :: 1 <= i < |all| ==> all[i] == r.pieces[i - 1];
  }

  /** The hook fires at most once for a bio, and only for a read-ahead of at least its size. */
  lemma {:induction false} HookFiresOnce(lim: Limits, bio: Bio, on: bool, f: Faults)
    requires RoomOk(lim) && BlocksOk(lim) && Full(bio.bvecs)
    ensures var h := Submit(lim, bio, on, f).hooks;
            h <= 1 && (h == 1 ==> on && bio.op.Read? && bio.rahead && Bytes(bio) >= 256 * 512)
    decreases Bytes(bio)
  {
    var s := Next(lim, bio, on, f);
    if s.Cut? {
      TakeDropSize(bio.bvecs, s.n);
      HookFiresOnce(lim, Remainder(bio, s.n), on, f);
    }
  }

  const HALF := TARGET / 2 * SECTOR

  lemma {:induction false} HookSize(lim: Limits, bio: Bio)
    requires BlocksOk(lim) && Hook(bio, true) && !Unaligned(lim, bio)
    ensures Bytes(bio) == 2 * HALF
  {
    AlignedTwice(Bytes(bio), lim.logicalBlock, SECTOR);
    AlignedSectors(Bytes(bio));
  }

  /** With the limit of half its size a bio is cut in the middle if and only if the first half is allowed. */
  lemma {:induction false} HalfVerdict(lim: Limits, bio: Bio)
    requires Device(lim) && Sound(lim, bio) && VecsAligned(lim, bio.bvecs)
    requires Bytes(bio) == 2 * HALF && Aligned(HALF, Alignment(lim, bio)) && !bio.atomic && !bio.nowait
    ensures var v := SplitAt(lim, bio, HALF);
            !v.Keep? && (v.Split? && v.sectors * SECTOR == HALF <==> Allowed(lim, bio, HALF, HALF))
  {
    SplitIsExact(lim, bio, HALF);
    TakeAll(bio.bvecs);
    var v := SplitAt(lim, bio, HALF);
    if v.Split? {
      var n := v.sectors * SECTOR;
      TakeDropSize(bio.bvecs, n);
      assert Allowed(lim, bio, n, HALF) && n <= HALF;
    }
  }

  /** The hook cuts in the middle if and only if the first half is allowed. */
  lemma {:induction false} HookCuts(lim: Limits, bio: Bio, f: Faults)
    requires Device(lim) && Sound(lim, bio) && VecsAligned(lim, bio.bvecs)
    requires Hook(bio, true) && !Unaligned(lim, bio) && !bio.atomic && !bio.nowait && Aligned(HALF, lim.logicalBlock)
    requires bio !in f.refused && bio !in f.noMemory
    ensures var s := Next(lim, bio, true, f);
            && (s.Cut? && s.n == HALF <==> Allowed(lim, bio, HALF, HALF))
            && (s.End? ==> s.out.failed.Some?)
  {
    HookSize(lim, bio);
    HalfVerdict(lim, bio);
    CutIsInside(lim, bio, HALF);
  }

  lemma {:induction false} NoPieceFails(lim: Limits, bio: Bio, on: bool, f: Faults)
    requires RoomOk(lim) && BlocksOk(lim) && Full(bio.bvecs)
    ensures var r := Submit(lim, bio, on, f); r.failed.None? ==> r.pieces != []
  {
  }

  /** A bio of another size goes out whole if and only if it is allowed within the ordinary limit. */
  lemma {:induction false} OrdinaryKeeps(lim: Limits, bio: Bio, f: Faults)
    requires Device(lim) && Sound(lim, bio) && VecsAligned(lim, bio.bvecs)
    requires !Hook(bio, true) && !Unaligned(lim, bio) && bio !in f.refused
    ensures var r, max := Submit(lim, bio, true, f), Ordinary(lim, bio) * SECTOR;
            r.failed.None? && |r.pieces| == 1 <==> Allowed(lim, bio, Bytes(bio), max)
    ensures Allowed(lim, bio, Bytes(bio), Ordinary(lim, bio) * SECTOR) ==>
              Submit(lim, bio, true, f).pieces[0].bio == bio
  {
    SplitIsExact(lim, bio, Ordinary(lim, bio) * SECTOR);
    var s := Next(lim, bio, true, f);
    if s.Cut? {
      TakeDropSize(bio.bvecs, s.n);
      NoPieceFails(lim, Remainder(bio, s.n), true, f);
    }
  }

  /** The run made exactly two requests, of 128 sectors each. */
  predicate Halved(r: Outcome) {
    r.failed.None? && |r.pieces| == 2 && Bytes(r.pieces[0].bio) == HALF && Bytes(r.pieces[1].bio) == HALF
  }

  /**
   * A read-ahead of 256 sectors with the hook on goes out as 128 + 128 sectors if and only if its first 128
   * sectors are allowed and the other 128 are allowed within the ordinary limit at their sector.
   */
  lemma {:induction false} HookHalves(lim: Limits, bio: Bio, f: Faults)
    requires Device(lim) && Sound(lim, bio) && VecsAligned(lim, bio.bvecs)
    requires bio.op.Read? && bio.rahead && Bytes(bio) == 256 * 512
    requires !Unaligned(lim, bio) && !bio.atomic && !bio.nowait && Aligned(HALF, lim.logicalBlock)
    requires bio !in f.refused && bio !in f.noMemory
    requires var b := Remainder(bio, HALF); VecsAligned(lim, b.bvecs) && b !in f.refused
    ensures var b := Remainder(bio, HALF);
            Halved(Submit(lim, bio, true, f)) <==>
            Allowed(lim, bio, HALF, HALF) && Allowed(lim, b, Bytes(b), Ordinary(lim, b) * SECTOR)
    ensures var r := Submit(lim, bio, true, f);
            Halved(r) ==> r.pieces[0].bio == Front(bio, HALF) && r.pieces[1].bio == Remainder(bio, HALF)
  {
    HookSize(lim, bio);
    HookCuts(lim, bio, f);
    var s := Next(lim, bio, true, f);
    if s.Cut? {
      TakeDropSize(bio.bvecs, s.n);
      var p, b := Piece(Front(bio, s.n), s.segs, s.limit), Remainder(bio, s.n);
      var r := Submit(lim, b, true, f);
      assert Submit(lim, bio, true, f) == Consed(p, s.hooks, r) && Consed(p, s.hooks, r).pieces[0] == p;
      if s.n == HALF {
        AlignmentOk(lim, bio);
        RemainderAligned(lim, bio, HALF);
        TakeDropPages(lim, bio.bvecs, HALF);
        OrdinaryKeeps(lim, b, f);
        assert Halved(Consed(p, s.hooks, r)) ==> |r.pieces| == 1;
        assert |r.pieces| == 1 ==> Consed(p, s.hooks, r).pieces[1] == r.pieces[0];
      }
    }
  }

  /** The piece keeps to the limits of the device. */
  ghost predicate WithinDevice(lim: Limits, bio: Bio) {
    RoomFor(lim, bio, Bytes(bio) / SECTOR)
  }

  /** Where the hook can fire: 256 sectors before the end of the bio. */
  function HookSector(bio: Bio): int {
    bio.sector + Bytes(bio) / SECTOR - TARGET
  }

  /** A piece was cut to the ordinary limit at its sector, or by the hook, and then it begins where that can fire. */
  ghost predicate CutWhere(lim: Limits, bio: Bio, on: bool, p: Piece)
    requires BlocksOk(lim)
  {
    && p.bio.op == bio.op && p.bio.atomic == bio.atomic
    && (|| p.limit == Ordinary(lim, p.bio) * SECTOR
        || (on && bio.op.Read? && bio.rahead && p.limit == HALF && p.bio.sector == HookSector(bio)))
  }

  lemma {:induction false} NextCutsWhere(lim: Limits, bio: Bio, on: bool, f: Faults)
    requires RoomOk(lim) && BlocksOk(lim) && Full(bio.bvecs)
    ensures var s := Next(lim, bio, on, f);
            && (s.Cut? ==> CutWhere(lim, bio, on, Piece(Front(bio, s.n), s.segs, s.limit)))
            && (s.End? ==> forall i :: 0 <= i < |s.out.pieces| ==> CutWhere(lim, bio, on, s.out.pieces[i]))
  {
    var s := Next(lim, bio, on, f);
    if s.Cut? {
      FrontOrdinary(lim, bio, s.n);
    }
  }

  lemma {:induction false} HookSectorStays(bio: Bio, n: nat)
    requires Full(bio.bvecs) && n <= Bytes(bio) && n % SECTOR == 0
    ensures HookSector(Remainder(bio, n)) == HookSector(bio)
  {
    TakeDropSize(bio.bvecs, n);
  }

  /** Every piece of the run, in the quantified form that goes through the induction. */
  ghost predicate AllCutWhere(lim: Limits, bio: Bio, on: bool, r: Outcome)
    requires BlocksOk(lim)
  {
    forall i :: 0 <= i < |r.pieces| ==> CutWhere(lim, bio, on, r.pieces[i])
  }

  lemma {:induction false} CutWhereConsed(lim: Limits, bio: Bio, on: bool, n: nat, p: Piece, h: nat, r: Outcome)
    requires BlocksOk(lim) && Full(bio.bvecs) && n <= Bytes(bio) && n % SECTOR == 0
    requires CutWhere(lim, bio, on, p) && AllCutWhere(lim, Remainder(bio, n), on, r)
    ensures AllCutWhere(lim, bio, on, Consed(p, h, r))
  {
    HookSectorStays(bio, n);
    var all := Consed(p, h, r).pieces;
    forall i | 0 <= i < |all|
      ensures CutWhere(lim, bio, on, all[i])
    {
      assert i > 0 ==> all[i] == r.pieces[i - 1];
    }
  }

  lemma {:induction false} SubmitCutsWhere(lim: Limits, bio: Bio, on: bool, f: Faults)
    requires RoomOk(lim) && BlocksOk(lim) && Full(bio.bvecs)
    ensures AllCutWhere(lim, bio, on, Submit(lim, bio, on, f))
    decreases Bytes(bio)
  {
    NextCutsWhere(lim, bio, on, f);
    SubmitUnfolds(lim, bio, on, f);
    var s := Next(lim, bio, on, f);
    if s.Cut? {
      var b := Remainder(bio, s.n);
      SubmitCutsWhere(lim, b, on, f);
      CutWhereConsed(lim, bio, on, s.n, Piece(Front(bio, s.n), s.segs, s.limit), s.hooks, Submit(lim, b, on, f));
    }
  }

  /** A piece that was cut to the ordinary limit is always within max_sectors and the chunk boundary. */
  lemma {:induction false} OrdinaryPieceWithin(lim: Limits, p: Piece, on: bool)
    requires RoomOk(lim) && BlocksOk(lim) && PieceOk(lim, p, on) && p.limit == Ordinary(lim, p.bio) * SECTOR
    ensures WithinDevice(lim, p.bio)
  {
    OrdinaryIs(lim, p.bio);
    RoomIs(lim, p.bio, Bytes(p.bio) / SECTOR);
  }

  /** A cut that the hook did not make is no shorter than the device requires: nothing longer, in whole units of the
      split alignment, is acceptable within the ordinary size. */
  lemma {:induction false} OrdinaryCutIsLongest(lim: Limits, bio: Bio, on: bool, f: Faults, n: nat)
    requires Device(lim) && Sound(lim, bio) && !Hook(bio, on)
    requires Next(lim, bio, on, f).Cut? && n <= Bytes(bio) && Aligned(n, Alignment(lim, bio))
    ensures n <= Next(lim, bio, on, f).n <==> Allowed(lim, bio, n, Ordinary(lim, bio) * SECTOR)
  {
    SplitIsExact(lim, bio, Ordinary(lim, bio) * SECTOR);
  }

  /** Every piece of a submission is within the device limits, if max_sectors and the chunk boundary leave room for 128
      sectors at the one place where the hook, which does not look at them, can fire. */
  lemma {:induction false} DeviceLimits(lim: Limits, bio: Bio, on: bool, f: Faults, i: nat)
    requires Device(lim) && Sound(lim, bio) && !Unaligned(lim, bio)
    requires on && bio.op.Read? && bio.rahead && HookSector(bio) >= bio.sector ==>
               RoomFor(lim, bio.(sector := HookSector(bio)), TARGET / 2)
    requires i < |Submit(lim, bio, on, f).pieces|
    ensures WithinDevice(lim, Submit(lim, bio, on, f).pieces[i].bio)
  {
    SubmitFits(lim, bio, on, f);
    SubmitIsLaid(lim, bio, on, f);
    SubmitCutsWhere(lim, bio, on, f);
    var p := Submit(lim, bio, on, f).pieces[i];
    assert PieceOk(lim, p, on) && Placed(Submit(lim, bio, on, f).pieces, i, bio.sector);
    if p.limit == Ordinary(lim, p.bio) * SECTOR {
      OrdinaryPieceWithin(lim, p, on);
    } else {
      RoomIs(lim, p.bio, Bytes(p.bio) / SECTOR);
      RoomIs(lim, bio.(sector := HookSector(bio)), TARGET / 2);
    }
  }

  /** When the hook halves a bio that condition is exact: both pieces are within the device limits if and only if
      there is room for 128 sectors where the bio begins. */
  lemma {:induction false} HalvesWithinDevice(lim: Limits, bio: Bio, f: Faults)
    requires Device(lim) && Sound(lim, bio)
    requires bio.op.Read? && bio.rahead && Bytes(bio) == 256 * 512
    requires VecsAligned(lim, bio.bvecs) && !Unaligned(lim, bio)
    requires !bio.atomic && !bio.nowait && Aligned(HALF, lim.logicalBlock)
    requires bio !in f.refused && bio !in f.noMemory
    requires var b := Remainder(bio, HALF); VecsAligned(lim, b.bvecs) && b !in f.refused
    requires Halved(Submit(lim, bio, true, f))
    ensures var r := Submit(lim, bio, true, f);
            WithinDevice(lim, r.pieces[0].bio) && WithinDevice(lim, r.pieces[1].bio)
            <==> RoomFor(lim, bio, TARGET / 2)
  {
    HookHalves(lim, bio, f);
    SecondWithin(lim, bio);
    var b := Remainder(bio, HALF);
    OrdinaryIs(lim, b);
    RoomIs(lim, b, TARGET / 2);
  }

  lemma {:induction false} SecondWithin(lim: Limits, bio: Bio)
    requires RoomOk(lim) && BlocksOk(lim) && Full(bio.bvecs) && Hook(bio, true) && !Unaligned(lim, bio)
    ensures var b := Remainder(bio, HALF);
            var max := Ordinary(lim, b) * SECTOR;
            Allowed(lim, b, Bytes(b), max) ==> Bytes(b) <= max
  {
    var b := Remainder(bio, HALF);
    HookSize(lim, bio);
    TakeDropSize(bio.bvecs, HALF);
    TakeAll(b.bvecs);
  }

  // ---------------------------------------------------------------- a queue that the hook does not respect

  /** Chunks of 192 sectors, and nothing else in the way. */
  ghost const CHUNKED: Limits :=
    Limits(256, 192, 0, 0, 0, 512, 512, 0, 128, 4096, iset n: nat | true, iset n: nat | true, iset n: nat | true,
           iset n: nat | true, imap a: nat | true :: 0x100_0000)

  /** A read-ahead of 256 sectors from sector 128 on. */
  const AHEAD: Bio := Bio(128, [Bvec(0, 0, 2 * HALF)], Read, true, false, false, false)

  lemma {:induction false} OneSegment(lim: Limits, bv: Bvec, segs: int, room: int)
    requires RoomOk(lim) && 0 < bv.len <= lim.room[Phys(bv)] && segs >= 1 && bv.len <= room
    ensures Acceptable(lim, None, [bv], segs, room)
  {
    assert Segs(lim, Phys(bv) + bv.len, 0) == 0;
    AcceptableOne(lim, None, bv, bv.len, segs, room);
    assert Head(bv, bv.len) == [bv];
  }

  lemma {:induction false} AheadIsFine()
    ensures RoomOk(CHUNKED) && FastOk(CHUNKED) && BlocksOk(CHUNKED) && Full(AHEAD.bvecs)
            && OnPages(CHUNKED, AHEAD.bvecs)
    ensures !Unaligned(CHUNKED, AHEAD) && Aligned(HALF, CHUNKED.logicalBlock) && Hook(AHEAD, true)
    ensures Bytes(AHEAD) == 2 * HALF && Take(AHEAD.bvecs, HALF) == [Bvec(0, 0, HALF)]
    ensures Remainder(AHEAD, HALF) == AHEAD.(sector := 256, bvecs := [Bvec(0, HALF, HALF)])
  {
    AlignedSectors(2 * HALF);
    AlignedSectors(HALF);
    AlignedSectors(512);
    AlignedSectors(128 * SECTOR);
    assert AHEAD.bvecs[1..] == [];
    assert Size(AHEAD.bvecs) == 2 * HALF;
  }

  lemma {:induction false} ChunkRoom()
    requires BlocksOk(CHUNKED)
    ensures MaxSectors(CHUNKED, AHEAD) == 64 && RoundDown(128, 192) == 0 && !RoomFor(CHUNKED, AHEAD, TARGET / 2)
    ensures var b := AHEAD.(sector := 256, bvecs := [Bvec(0, HALF, HALF)]); Ordinary(CHUNKED, b) == 128
  {
    assert Aligned(192, 192) by {
      assert Aligned(0, 192);
    }
    RoundDownIs(256, 192, 192);
    RoundDownIs(128, 0, 192);
    OrdinaryIs(CHUNKED, AHEAD.(sector := 256, bvecs := [Bvec(0, HALF, HALF)]));
    RoomIs(CHUNKED, AHEAD, TARGET / 2);
  }

  /** The hook at work against a limit: both halves of the read-ahead go out, and the first crosses the chunk boundary
      at sector 192. */
  lemma {:induction false} HookCrossesChunk()
    ensures var f := Faults(iset{}, iset{});
            && RoomOk(CHUNKED) && BlocksOk(CHUNKED) && Full(AHEAD.bvecs)
            && Halved(Submit(CHUNKED, AHEAD, true, f))
            && !WithinDevice(CHUNKED, Submit(CHUNKED, AHEAD, true, f).pieces[0].bio)
  {
    var f := Faults(iset{}, iset{});
    AheadIsFine();
    ChunkRoom();
    var b := Remainder(AHEAD, HALF);
    OneSegment(CHUNKED, Bvec(0, 0, HALF), 128, HALF);
    OneSegment(CHUNKED, Bvec(0, HALF, HALF), 128, HALF);
    assert b.bvecs[1..] == [] && Size(b.bvecs) == HALF;
    TakeAll(b.bvecs);
    HookHalves(CHUNKED, AHEAD, f);
    HalvesWithinDevice(CHUNKED, AHEAD, f);
  }

  // ---------------------------------------------------------------- the bio as an object

  class BioObject {
    var sector: nat
    var bvecs: seq<Bvec>
    var op: Op
    var rahead: bool
    var atomic: bool
    var nowait: bool
    var nomerge: bool

    function View(): Bio
      reads this
    {
      Bio(sector, bvecs, op, rahead, atomic, nowait, nomerge)
    }

    /** bio_split: the clone takes the first sectors, this bio is advanced past them; `memory` says whether the
        clone could be allocated. */
    method BioSplit(sectors: int, memory: bool) returns (front: Option<Bio>)
      requires Full(bvecs)
      modifies this`sector, this`bvecs
      ensures front.Some? <==> 0 < sectors < Size(old(bvecs)) / SECTOR && !atomic && memory
      ensures front.None? ==> View() == old(View())
      ensures front.Some? ==> View() == Remainder(old(View()), sectors * SECTOR)
      ensures front.Some? ==> front.value == old(View()).(bvecs := Take(old(bvecs), sectors * SECTOR))
      ensures front.Some? ==> Memory(front.value.bvecs) + Memory(bvecs) == Memory(old(bvecs)) && Full(bvecs)
    {
      if sectors <= 0 || sectors >= Size(bvecs) / SECTOR || atomic || !memory {
        return None;
      }
      var n: nat := sectors * SECTOR;
      TakeDropSize(bvecs, n);
      TakeDrop(bvecs, n);
      front := Some(View().(bvecs := Take(bvecs, n)));
      bvecs, sector := Drop(bvecs, n), sector + n / SECTOR;
    }

    /** One submission: refused, failed or kept whole, or cut, with this bio left as the remainder. */
    method SubmitOnce(lim: Limits, on: bool, f: Faults) returns (s: Step, front: Bio)
      requires RoomOk(lim) && BlocksOk(lim) && Full(bvecs)
      modifies this`sector, this`bvecs
      ensures s == Next(lim, old(View()), on, f) && Full(bvecs)
      ensures s.Cut? ==> View() == Remainder(old(View()), s.n) && front == Front(old(View()), s.n)
    {
      front := View();
      if View() in f.refused || Unaligned(lim, View()) {
        return End(Outcome([], Some(View()), 0)), front;
      }
      var max, h := MaxIoSize(lim, View(), on) * SECTOR, if Hook(View(), on) then 1 else 0;
      var v := BioSplitIoAt(lim, View(), max);
      if v.Fail? {
        return End(Outcome([], Some(View()), h)), front;
      }
      if v.Keep? {
        return End(Outcome([Piece(View(), v.segs, max)], None, h)), front;
      }
      var clone := BioSplit(v.sectors, View() !in f.noMemory);
      if clone.None? {
        return End(Outcome([], Some(View()), h)), front;
      }
      return Cut(v.sectors * SECTOR, v.segs, max, h), clone.value.(nomerge := true);
    }

    /** The remainder of a cut bio is submitted in turn. */
    method SubmitAll(lim: Limits, on: bool, f: Faults) returns (r: Outcome)
      requires RoomOk(lim) && BlocksOk(lim) && Full(bvecs)
      modifies this`sector, this`bvecs
      ensures r == Submit(lim, old(View()), on, f)
      decreases Size(bvecs)
    {
      ghost var bio := View();
      var s, front := SubmitOnce(lim, on, f);
      SubmitUnfolds(lim, bio, on, f);
      if s.End? {
        return s.out;
      }
      r := SubmitAll(lim, on, f);
      r := Consed(Piece(front, s.segs, s.limit), s.hooks, r);
    }
  }

  lemma {:induction false} SubmitUnfolds(lim: Limits, bio: Bio, on: bool, f: Faults)
    requires RoomOk(lim) && BlocksOk(lim) && Full(bio.bvecs)
    ensures var s := Next(lim, bio, on, f);
            && (s.End? ==> Submit(lim, bio, on, f) == s.out)
            && (s.Cut? ==>
                && Full(Drop(bio.bvecs, s.n)) && Bytes(Remainder(bio, s.n)) < Bytes(bio)
                && Submit(lim, bio, on, f) ==
                   Consed(Piece(Front(bio, s.n), s.segs, s.limit), s.hooks, Submit(lim, Remainder(bio, s.n), on, f)))
  {
    var s := Next(lim, bio, on, f);
    if s.Cut? {
      TakeDropSize(bio.bvecs, s.n);
    }
  }
}
