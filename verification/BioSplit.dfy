/**
 * Where bio_split_io_at cuts a bio: the loops over vectors and segments against the longest part that a device
 * accepts as one request.
 */
module BioSplit {

  import opened Options
  import opened Segments
  import opened Align
  import opened Sectors

  datatype Op = Read | Write | WriteZeroes

  datatype Bio = Bio(sector: nat, bvecs: seq<Bvec>, op: Op, rahead: bool, atomic: bool, nowait: bool, nomerge: bool)

  function Bytes(bio: Bio): nat {
    Size(bio.bvecs)
  }

  // ---------------------------------------------------------------- bvec_split_segs

  datatype Walked = Walked(taken: nat, nsegs: nat)

  /** The loop of bvec_split_segs from address a and offset o on, with len bytes wanted. */
  ghost function Walk(lim: Limits, a: nat, o: nat, len: nat, nsegs: nat): (w: Walked)
    requires RoomOk(lim)
    ensures w.taken <= len
    decreases len
  {
    if len == 0 || nsegs >= lim.maxSegments then Walked(0, nsegs)
    else
      var s := Segment(lim, a, len);
      if o + s !in lim.onBoundary then Walked(s, nsegs + 1)
      else
        var w := Walk(lim, a + s, o + s, len - s, nsegs + 1);
        Walked(s + w.taken, w.nsegs)
  }

  /** After a first segment of s bytes. */
  lemma {:induction false} SegsFrom(lim: Limits, a: nat, o: nat, s: nat, t: nat)
    requires RoomOk(lim) && 0 < s <= lim.room[a] && (t > 0 ==> s == lim.room[a])
    ensures Segs(lim, a, s + t) == 1 + Segs(lim, a + s, t)
    ensures Inner(lim, a, o, s + t) <==> t == 0 || (o + s in lim.onBoundary && Inner(lim, a + s, o + s, t))
  {
    assert Segment(lim, a, s + t) == s;
  }

  /** n of the len bytes at a are the most that keep to the segment limit and have no gap inside. */
  ghost predicate Most(lim: Limits, a: nat, o: nat, len: nat, nsegs: nat, w: Walked)
    requires RoomOk(lim)
  {
    && w.nsegs == nsegs + Segs(lim, a, w.taken) <= lim.maxSegments && Inner(lim, a, o, w.taken)
    && (w.taken < len ==> nsegs + Segs(lim, a, w.taken + 1) > lim.maxSegments || !Inner(lim, a, o, w.taken + 1))
  }

  lemma {:induction false} MostNone(lim: Limits, a: nat, o: nat, len: nat, nsegs: nat)
    requires RoomOk(lim) && nsegs <= lim.maxSegments && (len == 0 || nsegs == lim.maxSegments)
    ensures Most(lim, a, o, len, nsegs, Walked(0, nsegs))
  {
    assert Segs(lim, a, 0) == 0 && Segs(lim, a, 1) > 0;
  }

  lemma {:induction false} MostBreaks(lim: Limits, a: nat, o: nat, len: nat, nsegs: nat)
    requires RoomOk(lim) && len > 0 && nsegs < lim.maxSegments && o + Segment(lim, a, len) !in lim.onBoundary
    ensures Most(lim, a, o, len, nsegs, Walked(Segment(lim, a, len), nsegs + 1))
  {
    var s := Segment(lim, a, len);
    SegsFrom(lim, a, o, s, 0);
    assert Segs(lim, a + s, 0) == 0;
    if s < len {
      SegsFrom(lim, a, o, s, 1);
    }
  }

  lemma {:induction false} MostGoesOn(lim: Limits, a: nat, o: nat, len: nat, nsegs: nat, w: Walked)
    requires RoomOk(lim) && len > 0 && o + Segment(lim, a, len) in lim.onBoundary
             && w.taken <= len - Segment(lim, a, len)
    requires var s := Segment(lim, a, len); Most(lim, a + s, o + s, len - s, nsegs + 1, w)
    ensures Most(lim, a, o, len, nsegs, Walked(Segment(lim, a, len) + w.taken, w.nsegs))
  {
    var s := Segment(lim, a, len);
    SegsFrom(lim, a, o, s, w.taken);
    if w.taken < len - s {
      SegsFrom(lim, a, o, s, w.taken + 1);
    }
  }

  lemma {:induction false} WalkIsLongest(lim: Limits, a: nat, o: nat, len: nat, nsegs: nat)
    requires RoomOk(lim) && nsegs <= lim.maxSegments
    ensures Most(lim, a, o, len, nsegs, Walk(lim, a, o, len, nsegs))
    decreases len
  {
    if len == 0 || nsegs >= lim.maxSegments {
      MostNone(lim, a, o, len, nsegs);
    } else {
      var s := Segment(lim, a, len);
      if o + s in lim.onBoundary {
        WalkIsLongest(lim, a + s, o + s, len - s, nsegs + 1);
        MostGoesOn(lim, a, o, len, nsegs, Walk(lim, a + s, o + s, len - s, nsegs + 1));
      } else {
        MostBreaks(lim, a, o, len, nsegs);
      }
    }
  }

  /** The loop of bvec_split_segs. */
  method TakeSegments(lim: Limits, a: nat, o: nat, len: nat, nsegs: nat) returns (total: nat, nsegs': nat)
    requires RoomOk(lim) && nsegs <= lim.maxSegments
    ensures Walked(total, nsegs') == Walk(lim, a, o, len, nsegs)
    ensures nsegs <= nsegs' <= lim.maxSegments
  {
    ghost var w := Walk(lim, a, o, len, nsegs);
    var left := len;
    total, nsegs' := 0, nsegs;
    while left > 0 && nsegs' < lim.maxSegments
      invariant left == len - total && nsegs <= nsegs' <= lim.maxSegments
      invariant total <= w.taken && Walk(lim, a + total, o + total, left, nsegs') == Walked(w.taken - total, w.nsegs)
      decreases left
    {
      var s := Segment(lim, a + total, left);
      nsegs' := nsegs' + 1;
      total := total + s;
      left := left - s;
      if o + total !in lim.onBoundary {
        break;
      }
    }
  }

  /** bvec_split_segs: how much of bv joins the bytes taken so far, and whether some of it does not. */
  method BvecSplitSegs(lim: Limits, bv: Bvec, nsegs: nat, bytes: nat, maxBytes: nat)
    returns (split: bool, nsegs': nat, bytes': nat)
    requires RoomOk(lim) && nsegs <= lim.maxSegments && bytes <= maxBytes
    ensures var len := if bv.len < maxBytes - bytes then bv.len else maxBytes - bytes;
            var w := Walk(lim, Phys(bv), bv.offset, len, nsegs);
            nsegs' == w.nsegs && bytes' == bytes + w.taken && (split <==> w.taken < bv.len)
    ensures nsegs <= nsegs' <= lim.maxSegments && bytes <= bytes' <= maxBytes
  {
    var maxLen := maxBytes - bytes;
    var len: nat := if bv.len < maxLen then bv.len else maxLen;
    var total: nat;
    total, nsegs' := TakeSegments(lim, Phys(bv), bv.offset, len, nsegs);
    bytes' := bytes + total;
    split := len - total > 0 || bv.len > maxLen;
  }

  // ---------------------------------------------------------------- bio_split_io_at

  predicate Misaligned(lim: Limits, bv: Bvec)
  {
    bv.offset !in lim.dmaAligned || bv.len !in lim.lenAligned
  }

  datatype Scanned = Bad | All(nsegs: nat) | Stop(nsegs: nat, bytes: nat)

  /** One turn of the loop: All if the vector was taken whole. */
  ghost function Turn(lim: Limits, prev: Option<Bvec>, bv: Bvec, nsegs: nat, bytes: nat, maxBytes: nat): Scanned
    requires RoomOk(lim) && bytes <= maxBytes
  {
    if Misaligned(lim, bv) then Bad
    else if prev.Some? && Gap(lim, prev.value, bv) then Stop(nsegs, bytes)
    else if nsegs < lim.maxSegments && bytes + bv.len <= maxBytes && bv.offset + bv.len <= lim.maxFastSegment then
      All(nsegs + 1)
    else
      var w := Walk(lim, Phys(bv), bv.offset, if bv.len < maxBytes - bytes then bv.len else maxBytes - bytes, nsegs);
      if w.taken < bv.len then Stop(w.nsegs, bytes + w.taken) else All(w.nsegs)
  }

  /** The loop over the vectors. */
  ghost function Scan(lim: Limits, prev: Option<Bvec>, bvecs: seq<Bvec>, nsegs: nat, bytes: nat, maxBytes: nat): Scanned
    requires RoomOk(lim) && bytes <= maxBytes
    decreases |bvecs|
  {
    if bvecs == [] then All(nsegs)
    else
      var t := Turn(lim, prev, bvecs[0], nsegs, bytes, maxBytes);
      if t.All? && bytes + bvecs[0].len <= maxBytes
      then Scan(lim, Some(bvecs[0]), bvecs[1..], t.nsegs, bytes + bvecs[0].len, maxBytes)
      else t
  }

  ghost predicate VecsAligned(lim: Limits, bvecs: seq<Bvec>)
    requires RoomOk(lim)
  {
    forall i :: 0 <= i < |bvecs| ==> !Misaligned(lim, bvecs[i])
  }

  /** The first n bytes, not all, are acceptable and n + 1 are not; they need k segments. */
  ghost predicate Longest(lim: Limits, prev: Option<Bvec>, bvecs: seq<Bvec>, n: int, k: int, segs: int, room: int)
    requires RoomOk(lim)
  {
    && 0 <= n < Size(bvecs) && Acceptable(lim, prev, Take(bvecs, n), segs, room)
    && Needed(lim, Take(bvecs, n)) == k && !Acceptable(lim, prev, Take(bvecs, n + 1), segs, room)
  }

  /** The vector can follow prev, and needs k segments. */
  ghost predicate Follows(lim: Limits, prev: Option<Bvec>, bv: Bvec, k: int)
    requires RoomOk(lim)
  {
    && (prev.Some? ==> !Gap(lim, prev.value, bv)) && Inner(lim, Phys(bv), bv.offset, bv.len)
    && k == Segs(lim, Phys(bv), bv.len)
  }

  /** A part of one vector is the longest, if one byte more is too much. */
  lemma {:induction false} LongestHead(lim: Limits, prev: Option<Bvec>, bvecs: seq<Bvec>, n: nat, segs: int, room: int)
    requires RoomOk(lim) && bvecs != [] && n < bvecs[0].len && segs >= 0 && room >= 0
    requires n > 0 ==> (prev.Some? ==> !Gap(lim, prev.value, bvecs[0])) && n <= room
    requires Inner(lim, Phys(bvecs[0]), bvecs[0].offset, n) && Segs(lim, Phys(bvecs[0]), n) <= segs
    requires || (prev.Some? && Gap(lim, prev.value, bvecs[0])) || !Inner(lim, Phys(bvecs[0]), bvecs[0].offset, n + 1)
             || Segs(lim, Phys(bvecs[0]), n + 1) > segs || n + 1 > room
    ensures Longest(lim, prev, bvecs, n, Segs(lim, Phys(bvecs[0]), n), segs, room)
  {
    TakeHead(bvecs, n);
    TakeHead(bvecs, n + 1);
    AcceptableOne(lim, prev, bvecs[0], n, segs, room);
    AcceptableOne(lim, prev, bvecs[0], n + 1, segs, room);
  }

  /** One vector: taken whole if that is acceptable, else as much of it as is. */
  lemma {:induction false} TurnIsLongest(lim: Limits, prev: Option<Bvec>, bvecs: seq<Bvec>, nsegs: nat, bytes: nat,
      maxBytes: nat)
    requires RoomOk(lim) && FastOk(lim) && bytes <= maxBytes && nsegs <= lim.maxSegments
    requires bvecs != [] && bvecs[0].len > 0 && bvecs[0].page in lim.pages
    ensures match Turn(lim, prev, bvecs[0], nsegs, bytes, maxBytes)
            case All(k) => && bytes + bvecs[0].len <= maxBytes && nsegs <= k <= lim.maxSegments
                           && Follows(lim, prev, bvecs[0], k - nsegs)
            case r => Found(lim, prev, bvecs, nsegs, bytes, maxBytes, r)
  {
    var bv := bvecs[0];
    if Misaligned(lim, bv) {
      assert !VecsAligned(lim, bvecs);
    } else if prev.Some? && Gap(lim, prev.value, bv) {
      LongestHead(lim, prev, bvecs, 0, lim.maxSegments - nsegs, maxBytes - bytes);
    } else if nsegs < lim.maxSegments && bytes + bv.len <= maxBytes && bv.offset + bv.len <= lim.maxFastSegment {
      assert Segment(lim, Phys(bv), bv.len) == bv.len;
      assert Segs(lim, Phys(bv) + bv.len, 0) == 0;
    } else {
      WalkedIsLongest(lim, prev, bvecs, nsegs, maxBytes - bytes);
    }
  }

  lemma {:induction false} WalkedIsLongest(lim: Limits, prev: Option<Bvec>, bvecs: seq<Bvec>, nsegs: nat, room: nat)
    requires RoomOk(lim) && nsegs <= lim.maxSegments && bvecs != [] && (prev.Some? ==> !Gap(lim, prev.value, bvecs[0]))
    ensures var bv := bvecs[0];
            var w := Walk(lim, Phys(bv), bv.offset, if bv.len < room then bv.len else room, nsegs);
            if w.taken < bv.len then Longest(lim, prev, bvecs, w.taken, w.nsegs - nsegs, lim.maxSegments - nsegs, room)
            else bv.len <= room && w.nsegs <= lim.maxSegments && Follows(lim, prev, bv, w.nsegs - nsegs)
  {
    var bv := bvecs[0];
    var len := if bv.len < room then bv.len else room;
    WalkIsLongest(lim, Phys(bv), bv.offset, len, nsegs);
    var w := Walk(lim, Phys(bv), bv.offset, len, nsegs);
    if w.taken < bv.len {
      LongestHead(lim, prev, bvecs, w.taken, lim.maxSegments - nsegs, room);
    }
  }

  /** The first vector was taken whole: what holds of the others holds with it. */
  lemma {:induction false} ScanGoesOn(lim: Limits, prev: Option<Bvec>, bvecs: seq<Bvec>, k: nat, segs: int, room: int)
    requires RoomOk(lim) && bvecs != [] && Follows(lim, prev, bvecs[0], k)
    ensures Needed(lim, bvecs) == k + Needed(lim, bvecs[1..])
    ensures Acceptable(lim, prev, bvecs, segs, room) <==>
              Acceptable(lim, Some(bvecs[0]), bvecs[1..], segs - k, room - bvecs[0].len)
  {
    assert bvecs == [bvecs[0]] + bvecs[1..];
    AcceptableCons(lim, prev, bvecs[0], bvecs[1..], segs, room);
  }

  lemma {:induction false} StopGoesOn(lim: Limits, prev: Option<Bvec>, bvecs: seq<Bvec>, k: nat, n: nat, j: nat,
      segs: int, room: int)
    requires RoomOk(lim) && bvecs != [] && bvecs[0].len > 0 && Follows(lim, prev, bvecs[0], k)
    requires Longest(lim, Some(bvecs[0]), bvecs[1..], n, j, segs - k, room - bvecs[0].len)
    ensures Longest(lim, prev, bvecs, bvecs[0].len + n, k + j, segs, room)
  {
    var b, t := bvecs[0], bvecs[1..];
    TakeCons(bvecs, b.len + n);
    TakeCons(bvecs, b.len + n + 1);
    AcceptableCons(lim, prev, b, Take(t, n), segs, room);
    AcceptableCons(lim, prev, b, Take(t, n + 1), segs, room);
  }

  /** What a scan finds: all of the vectors if they are acceptable, else the longest part that is. */
  ghost predicate Found(lim: Limits, prev: Option<Bvec>, bvecs: seq<Bvec>, nsegs: nat, bytes: nat, maxBytes: nat,
      r: Scanned)
    requires RoomOk(lim)
  {
    match r
    case Bad => !VecsAligned(lim, bvecs)
    case All(k) => && Acceptable(lim, prev, bvecs, lim.maxSegments - nsegs, maxBytes - bytes)
                   && k == nsegs + Needed(lim, bvecs)
    case Stop(k, c) => Longest(lim, prev, bvecs, c - bytes, k - nsegs, lim.maxSegments - nsegs, maxBytes - bytes)
  }

  lemma {:induction false} FoundGoesOn(lim: Limits, prev: Option<Bvec>, bvecs: seq<Bvec>, nsegs: nat, bytes: nat,
      maxBytes: nat, k: nat, r: Scanned)
    requires RoomOk(lim) && bvecs != [] && bvecs[0].len > 0 && k >= nsegs && Follows(lim, prev, bvecs[0], k - nsegs)
    requires Found(lim, Some(bvecs[0]), bvecs[1..], k, bytes + bvecs[0].len, maxBytes, r)
    ensures Found(lim, prev, bvecs, nsegs, bytes, maxBytes, r)
  {
    if r.All? {
      ScanGoesOn(lim, prev, bvecs, k - nsegs, lim.maxSegments - nsegs, maxBytes - bytes);
    } else if r.Stop? {
      StopGoesOn(lim, prev, bvecs, k - nsegs, r.bytes - bytes - bvecs[0].len, r.nsegs - k,
                 lim.maxSegments - nsegs, maxBytes - bytes);
    }
  }

  /** The whole loop, from any point on. */
  lemma {:induction false} ScanIsLongest(lim: Limits, prev: Option<Bvec>, bvecs: seq<Bvec>, nsegs: nat, bytes: nat,
      maxBytes: nat)
    requires RoomOk(lim) && FastOk(lim) && Full(bvecs) && OnPages(lim, bvecs) && bytes <= maxBytes
             && nsegs <= lim.maxSegments
    ensures Found(lim, prev, bvecs, nsegs, bytes, maxBytes, Scan(lim, prev, bvecs, nsegs, bytes, maxBytes))
    decreases |bvecs|
  {
    if bvecs == [] {
      assert Acceptable(lim, prev, bvecs, lim.maxSegments - nsegs, maxBytes - bytes) && Needed(lim, bvecs) == 0;
    } else {
      var b, t := bvecs[0], bvecs[1..];
      assert Full(t) && OnPages(lim, t);
      TurnIsLongest(lim, prev, bvecs, nsegs, bytes, maxBytes);
      var turn := Turn(lim, prev, b, nsegs, bytes, maxBytes);
      if turn.All? {
        var r := Scan(lim, Some(b), t, turn.nsegs, bytes + b.len, maxBytes);
        ScanIsLongest(lim, Some(b), t, turn.nsegs, bytes + b.len, maxBytes);
        FoundGoesOn(lim, prev, bvecs, nsegs, bytes, maxBytes, turn.nsegs, r);
      }
    }
  }

  /** A misaligned vector is an error only if the scan gets that far; what comes after it never matters. */
  lemma {:induction false} ScanIsBad(lim: Limits, prev: Option<Bvec>, bvecs: seq<Bvec>, nsegs: nat, bytes: nat,
      maxBytes: nat, k: nat)
    requires RoomOk(lim) && bytes <= maxBytes && k < |bvecs| && Misaligned(lim, bvecs[k])
    ensures var r := Scan(lim, prev, bvecs[..k], nsegs, bytes, maxBytes);
            Scan(lim, prev, bvecs, nsegs, bytes, maxBytes) == if r.All? then Bad else r
    decreases |bvecs|
  {
    if k > 0 {
      var b := bvecs[0];
      var turn := Turn(lim, prev, b, nsegs, bytes, maxBytes);
      assert bvecs[..k][0] == b && bvecs[..k][1..] == bvecs[1..][..k - 1];
      TurnHasRoom(lim, prev, b, nsegs, bytes, maxBytes);
      if turn.All? {
        ScanIsBad(lim, Some(b), bvecs[1..], turn.nsegs, bytes + b.len, maxBytes, k - 1);
      }
    }
  }

  lemma {:induction false} TurnHasRoom(lim: Limits, prev: Option<Bvec>, bv: Bvec, nsegs: nat, bytes: nat, maxBytes: nat)
    requires RoomOk(lim) && bytes <= maxBytes
    ensures Turn(lim, prev, bv, nsegs, bytes, maxBytes).All? ==> bytes + bv.len <= maxBytes
  {
  }

  /** Where the scan stops, something is left. */
  lemma {:induction false} ScanStopsInside(lim: Limits, prev: Option<Bvec>, bvecs: seq<Bvec>, nsegs: nat, bytes: nat,
      maxBytes: nat)
    requires RoomOk(lim) && Full(bvecs) && bytes <= maxBytes
    ensures var r := Scan(lim, prev, bvecs, nsegs, bytes, maxBytes);
            r.Stop? ==> bytes <= r.bytes < bytes + Size(bvecs)
    decreases |bvecs|
  {
    if bvecs != [] {
      var turn := Turn(lim, prev, bvecs[0], nsegs, bytes, maxBytes);
      assert Full(bvecs[1..]);
      TurnHasRoom(lim, prev, bvecs[0], nsegs, bytes, maxBytes);
      if turn.All? {
        ScanStopsInside(lim, Some(bvecs[0]), bvecs[1..], turn.nsegs, bytes + bvecs[0].len, maxBytes);
      }
    }
  }

  // ---------------------------------------------------------------- where to cut

  datatype Errno = EINVAL | EAGAIN

  /** The result of bio_split_io_at: an error, 0 (no cut), or the sectors to cut off; and *segs. */
  datatype Verdict = Fail(e: Errno) | Keep(segs: nat) | Split(sectors: nat, segs: nat)

  predicate BlocksOk(lim: Limits) {
    && lim.logicalBlock >= SECTOR && Aligned(lim.logicalBlock, SECTOR)
    && lim.physicalBlock >= SECTOR && Aligned(lim.physicalBlock, SECTOR)
    && Aligned(lim.zoneGranularity, lim.logicalBlock)
  }

  /** Limits as a device can have them. */
  ghost predicate Device(lim: Limits) {
    RoomOk(lim) && FastOk(lim) && BlocksOk(lim)
  }

  /** A bio as it can be: vectors that are not empty, on pages. */
  ghost predicate Sound(lim: Limits, bio: Bio) {
    Full(bio.bvecs) && OnPages(lim, bio.bvecs)
  }

  /** bio_split_alignment */
  function Alignment(lim: Limits, bio: Bio): nat {
    if !bio.op.Read? && lim.zoneGranularity > 0 then lim.zoneGranularity else lim.logicalBlock
  }

  lemma {:induction false} AlignmentOk(lim: Limits, bio: Bio)
    requires BlocksOk(lim)
    ensures var m := Alignment(lim, bio); m >= SECTOR && Aligned(m, lim.logicalBlock) && Aligned(m, SECTOR)
  {
    AlignedTwice(lim.zoneGranularity, lim.logicalBlock, SECTOR);
    assert Aligned(0, lim.logicalBlock);
    if Alignment(lim, bio) == lim.zoneGranularity {
      AlignedApart(0, lim.zoneGranularity, SECTOR);
    }
  }

  ghost function Decide(lim: Limits, bio: Bio, found: Scanned): Verdict
    requires BlocksOk(lim)
  {
    match found
    case Bad => Fail(EINVAL)
    case All(k) => Keep(k)
    case Stop(k, c) =>
      AlignmentOk(lim, bio);
      var cut := RoundDown(c, Alignment(lim, bio));
      if bio.atomic then Fail(EINVAL) else if bio.nowait then Fail(EAGAIN)
      else if cut == 0 then Fail(EINVAL) else Split(cut / SECTOR, k)
  }

  ghost function SplitAt(lim: Limits, bio: Bio, maxBytes: nat): Verdict
    requires RoomOk(lim) && BlocksOk(lim)
  {
    Decide(lim, bio, Scan(lim, None, bio.bvecs, 0, 0, maxBytes))
  }

  /** What the loop does with one vector. */
  method TakeVector(lim: Limits, prev: Option<Bvec>, bv: Bvec, nsegs: nat, bytes: nat, maxBytes: nat)
    returns (t: Scanned)
    requires RoomOk(lim) && bytes <= maxBytes && nsegs <= lim.maxSegments
    ensures t == Turn(lim, prev, bv, nsegs, bytes, maxBytes)
    ensures t.All? ==> t.nsegs <= lim.maxSegments && bytes + bv.len <= maxBytes
  {
    if Misaligned(lim, bv) {
      return Bad;
    }
    if prev.Some? && Gap(lim, prev.value, bv) {
      return Stop(nsegs, bytes);
    }
    if nsegs < lim.maxSegments && bytes + bv.len <= maxBytes && bv.offset + bv.len <= lim.maxFastSegment {
      return All(nsegs + 1);
    }
    var split, nsegs', bytes' := BvecSplitSegs(lim, bv, nsegs, bytes, maxBytes);
    return if split then Stop(nsegs', bytes') else All(nsegs');
  }

  /** The loop of bio_split_io_at. */
  method ScanVectors(lim: Limits, bvecs: seq<Bvec>, maxBytes: nat) returns (r: Scanned)
    requires RoomOk(lim)
    ensures r == Scan(lim, None, bvecs, 0, 0, maxBytes)
  {
    var i: nat, nsegs: nat, bytes: nat, prev := 0, 0, 0, None;
    while i < |bvecs|
      invariant i <= |bvecs| && bytes <= maxBytes && nsegs <= lim.maxSegments
      invariant Scan(lim, prev, bvecs[i..], nsegs, bytes, maxBytes) == Scan(lim, None, bvecs, 0, 0, maxBytes)
    {
      assert bvecs[i..][0] == bvecs[i] && bvecs[i..][1..] == bvecs[i + 1..];
      var t := TakeVector(lim, prev, bvecs[i], nsegs, bytes, maxBytes);
      if !t.All? {
        return t;
      }
      nsegs, bytes := t.nsegs, bytes + bvecs[i].len;
      prev, i := Some(bvecs[i]), i + 1;
    }
    return All(nsegs);
  }

  /** bio_split_io_at */
  method BioSplitIoAt(lim: Limits, bio: Bio, maxBytes: nat) returns (v: Verdict)
    requires RoomOk(lim) && BlocksOk(lim)
    ensures v == SplitAt(lim, bio, maxBytes)
  {
    var r := ScanVectors(lim, bio.bvecs, maxBytes);
    if r.Bad? {
      return Fail(EINVAL);
    }
    if r.All? {
      return Keep(r.nsegs);
    }
    if bio.atomic {
      return Fail(EINVAL);
    }
    if bio.nowait {
      return Fail(EAGAIN);
    }
    AlignmentOk(lim, bio);
    var bytes := RoundDown(r.bytes, Alignment(lim, bio));
    return if bytes == 0 then Fail(EINVAL) else Split(bytes / SECTOR, r.nsegs);
  }

  /** The first n bytes of the bio can go to the device as one request of at most maxBytes. */
  ghost predicate Allowed(lim: Limits, bio: Bio, n: nat, maxBytes: nat)
    requires RoomOk(lim)
  {
    Acceptable(lim, None, Take(bio.bvecs, n), lim.maxSegments, maxBytes)
  }

  /** The first c bytes are the longest part that is allowed, and need k segments. */
  ghost predicate IsLongest(lim: Limits, bio: Bio, maxBytes: nat, c: nat, k: nat)
    requires RoomOk(lim)
  {
    && c < Bytes(bio) && k == Needed(lim, Take(bio.bvecs, c))
    && forall n: nat :: n <= Bytes(bio) ==> (Allowed(lim, bio, n, maxBytes) <==> n <= c)
  }

  ghost predicate NothingAllowed(lim: Limits, bio: Bio, m: nat, maxBytes: nat)
    requires RoomOk(lim) && m >= 1
  {
    forall n: nat :: 0 < n <= Bytes(bio) && Aligned(n, m) ==> !Allowed(lim, bio, n, maxBytes)
  }

  lemma {:induction false} AlignedSectors(x: nat)
    ensures Aligned(x, SECTOR) <==> x % SECTOR == 0
    decreases x
  {
    if x >= SECTOR {
      AlignedSectors(x - SECTOR);
    }
  }

  /**
   * bio_split_io_at is exact.  With aligned vectors it keeps the bio if and only if all of it is allowed;
   * otherwise it cuts strictly inside, at the largest multiple of the alignment (that of zones for writes to zones,
   * otherwise that of logical blocks) that is allowed, and it fails
   * if and only if there is none or the bio must not be cut.  The segments it reports are those that the bio, or the
   * longest part of it that is allowed, needs.
   */
  lemma {:induction false} SplitIsExact(lim: Limits, bio: Bio, maxBytes: nat)
    requires Device(lim) && Sound(lim, bio)
    ensures var v := SplitAt(lim, bio, maxBytes);
            var m := if !bio.op.Read? && lim.zoneGranularity > 0 then lim.zoneGranularity else lim.logicalBlock;
            && (v.Keep? ==> Allowed(lim, bio, Bytes(bio), maxBytes) && v.segs == Needed(lim, bio.bvecs))
            && (v.Split? ==>
                && !bio.atomic && !bio.nowait && !Allowed(lim, bio, Bytes(bio), maxBytes)
                && 0 < v.sectors * SECTOR < Bytes(bio) && Aligned(v.sectors * SECTOR, m)
                && Needed(lim, Take(bio.bvecs, v.sectors * SECTOR)) <= v.segs <= lim.maxSegments
                && (exists c: nat :: v.sectors * SECTOR <= c && IsLongest(lim, bio, maxBytes, c, v.segs))
                && (forall n: nat :: n <= Bytes(bio) && Aligned(n, m) ==>
                      (Allowed(lim, bio, n, maxBytes) <==> n <= v.sectors * SECTOR)))
            && (VecsAligned(lim, bio.bvecs) ==>
                && (v.Keep? <==> Allowed(lim, bio, Bytes(bio), maxBytes))
                && (v == Fail(EAGAIN) <==> !v.Keep? && !bio.atomic && bio.nowait)
                && (v == Fail(EINVAL) <==>
                    !v.Keep? && (bio.atomic || (!bio.nowait && NothingAllowed(lim, bio, m, maxBytes)))))
  {
    ScanIsLongest(lim, None, bio.bvecs, 0, 0, maxBytes);
    TakeAll(bio.bvecs);
    var found := Scan(lim, None, bio.bvecs, 0, 0, maxBytes);
    if found.Stop? {
      AlignmentOk(lim, bio);
      var m, c := Alignment(lim, bio), found.bytes;
      var cut := RoundDown(c, m);
      AlignedTwice(cut, m, SECTOR);
      AlignedSectors(cut);
      assert cut / SECTOR * SECTOR == cut;
      forall n: nat | n <= Bytes(bio) && Aligned(n, m)
        ensures Allowed(lim, bio, n, maxBytes) <==> n <= cut
      {
        StopAllows(lim, bio, maxBytes, c, found.nsegs, n);
        if cut < n {
          AlignedApart(cut, n, m);
        }
      }
      forall n: nat | n <= Bytes(bio)
        ensures Allowed(lim, bio, n, maxBytes) <==> n <= c
      {
        StopAllows(lim, bio, maxBytes, c, found.nsegs, n);
      }
      assert IsLongest(lim, bio, maxBytes, c, found.nsegs);
      StopAllows(lim, bio, maxBytes, c, found.nsegs, cut);
    }
  }

  /** With a misaligned vector: EINVAL if and only if the vectors before the first such one are allowed,
      otherwise the bio is cut as if it ended before it. */
  lemma {:induction false} MisalignedIsExact(lim: Limits, bio: Bio, maxBytes: nat, k: nat)
    requires Device(lim) && Sound(lim, bio)
    requires k < |bio.bvecs| && Misaligned(lim, bio.bvecs[k]) && VecsAligned(lim, bio.bvecs[..k])
    ensures var cut := bio.(bvecs := bio.bvecs[..k]);
            SplitAt(lim, bio, maxBytes) ==
            if Allowed(lim, cut, Bytes(cut), maxBytes) then Fail(EINVAL) else SplitAt(lim, cut, maxBytes)
  {
    var cut := bio.(bvecs := bio.bvecs[..k]);
    ScanIsBad(lim, None, bio.bvecs, 0, 0, maxBytes, k);
    SplitIsExact(lim, cut, maxBytes);
  }

  /** On any device: a cut is strictly inside the bio, aligned, and never made in an atomic write. */
  lemma {:induction false} SplitIsInside(lim: Limits, bio: Bio, max: nat)
    requires RoomOk(lim) && BlocksOk(lim) && Full(bio.bvecs)
    ensures var v := SplitAt(lim, bio, max);
            v.Split? ==> !bio.atomic && !bio.nowait && 0 < v.sectors * SECTOR < Bytes(bio)
                         && Aligned(v.sectors * SECTOR, Alignment(lim, bio))
  {
    ScanStopsInside(lim, None, bio.bvecs, 0, 0, max);
    var found := Scan(lim, None, bio.bvecs, 0, 0, max);
    if found.Stop? {
      AlignmentOk(lim, bio);
      var cut := RoundDown(found.bytes, Alignment(lim, bio));
      AlignedTwice(cut, Alignment(lim, bio), SECTOR);
      AlignedSectors(cut);
      assert cut / SECTOR * SECTOR == cut;
    }
  }

  /** A longest part decides for all lengths. */
  lemma {:induction false} StopAllows(lim: Limits, bio: Bio, maxBytes: nat, c: nat, k: nat, n: nat)
    requires RoomOk(lim) && Longest(lim, None, bio.bvecs, c, k, lim.maxSegments, maxBytes) && n <= Bytes(bio)
    ensures Allowed(lim, bio, n, maxBytes) <==> n <= c
    ensures n <= c ==> Needed(lim, Take(bio.bvecs, n)) <= k <= lim.maxSegments
  {
    if n <= c {
      AcceptablePrefix(lim, None, bio.bvecs, n, c, lim.maxSegments, maxBytes);
    } else if Allowed(lim, bio, n, maxBytes) {
      AcceptablePrefix(lim, None, bio.bvecs, c + 1, n, lim.maxSegments, maxBytes);
    }
  }
}
