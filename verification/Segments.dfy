/**
 * What a device accepts as one request, said without any loop: how many segments a stretch of memory
 * needs, where gaps are allowed, and how a bio's vectors are cut after a number of bytes.
 */
module Segments {

  import opened Options

  /** A piece of memory: the address of its (first) page, the offset into it, a length. */
  datatype Bvec = Bvec(page: nat, offset: nat, len: nat)

  /**
   * The queue limits that matter for splitting.  A mask is given by the numbers that pass its test:
   * `onBoundary` for virt_boundary_mask, `dmaAligned` for dma_alignment, `lenAligned` for the mask on lengths.
   * `pages` are the addresses at which pages start; `room[a]` is how many bytes from address a on go into one
   * segment at most.
   */
  datatype Limits = Limits(
    maxSectors: nat, chunkSectors: nat, atomicMaxSectors: nat, atomicBoundarySectors: nat, maxWriteZeroesSectors: nat,
    physicalBlock: nat, logicalBlock: nat, zoneGranularity: nat,
    maxSegments: nat, maxFastSegment: nat,
    onBoundary: iset<nat>, dmaAligned: iset<nat>, lenAligned: iset<nat>, pages: iset<nat>, room: imap<nat, nat>)

  ghost predicate RoomOk(lim: Limits) {
    forall a: nat :: a in lim.room && lim.room[a] >= 1
  }

  /** get_max_segment_size: how many of the n bytes at a go into one segment. */
  function Segment(lim: Limits, a: nat, n: nat): (s: nat)
    requires RoomOk(lim)
    ensures s <= n && (n > 0 ==> s > 0)
  {
    if n <= lim.room[a] then n else lim.room[a]
  }

  /** What max_fast_segment_size promises: a vector that ends within that distance of its page is one segment. */
  ghost predicate FastOk(lim: Limits)
    requires RoomOk(lim)
  {
    forall bv: Bvec :: bv.page in lim.pages && bv.offset + bv.len <= lim.maxFastSegment ==> bv.len <= lim.room[Phys(bv)]
  }

  ghost predicate OnPages(lim: Limits, bvecs: seq<Bvec>) {
    forall i :: 0 <= i < |bvecs| ==> bvecs[i].page in lim.pages
  }

  function Phys(bv: Bvec): nat {
    bv.page + bv.offset
  }

  /** A queue whose segments must not cross 64 KiB boundaries, with fast vectors up to a page, is such a device. */
  lemma {:induction false} BoundaryQueue(lim: Limits)
    requires lim.pages == (iset p: nat | p % 0x1000 == 0) && lim.maxFastSegment == 0x1000
    requires lim.room == imap a: nat | true :: 0x10000 - a % 0x10000
    ensures RoomOk(lim) && FastOk(lim)
  {
  }

  // ---------------------------------------------------------------- cutting vectors

  ghost predicate Full(bvecs: seq<Bvec>) {
    forall i :: 0 <= i < |bvecs| ==> bvecs[i].len > 0
  }

  function Size(bvecs: seq<Bvec>): nat
    decreases |bvecs|
  {
    if bvecs == [] then 0 else bvecs[0].len + Size(bvecs[1..])
  }

  /** The first n bytes. */
  function Take(bvecs: seq<Bvec>, n: nat): seq<Bvec>
    decreases |bvecs|
  {
    if bvecs == [] || n == 0 then []
    else if n < bvecs[0].len then [bvecs[0].(len := n)]
    else [bvecs[0]] + Take(bvecs[1..], n - bvecs[0].len)
  }

  /** One vector, cut to n bytes if it is longer. */
  function Cut(b: Bvec, n: nat): Bvec {
    if n < b.len then b.(len := n) else b
  }

  lemma {:induction false} TakeCons(bvecs: seq<Bvec>, n: nat)
    requires bvecs != [] && n > 0
    ensures Take(bvecs, n) == [Cut(bvecs[0], n)] + Take(bvecs[1..], n - Cut(bvecs[0], n).len)
  {
  }

  /** The first n bytes of one vector. */
  function Head(b: Bvec, n: nat): seq<Bvec> {
    if n == 0 then [] else [b.(len := n)]
  }

  lemma {:induction false} TakeHead(bvecs: seq<Bvec>, n: nat)
    requires bvecs != [] && n <= bvecs[0].len
    ensures Take(bvecs, n) == Head(bvecs[0], n)
  {
    if n > 0 {
      TakeCons(bvecs, n);
    }
  }

  /** bio_advance: all but the first n bytes. */
  function Drop(bvecs: seq<Bvec>, n: nat): seq<Bvec>
    decreases |bvecs|
  {
    if bvecs == [] || n == 0 then bvecs
    else if n < bvecs[0].len then [Bvec(bvecs[0].page, bvecs[0].offset + n, bvecs[0].len - n)] + bvecs[1..]
    else Drop(bvecs[1..], n - bvecs[0].len)
  }

  /** The addresses of n consecutive bytes. */
  function Run(a: nat, n: nat): (r: seq<nat>)
    ensures |r| == n && forall i :: 0 <= i < n ==> r[i] == a + i
  {
    seq(n, i => a + i)
  }

  /** The memory the vectors stand for, byte by byte. */
  function Memory(bvecs: seq<Bvec>): seq<nat>
    decreases |bvecs|
  {
    if bvecs == [] then [] else Run(Phys(bvecs[0]), bvecs[0].len) + Memory(bvecs[1..])
  }

  lemma {:induction false} TakeDropSize(bvecs: seq<Bvec>, n: nat)
    requires n <= Size(bvecs) && Full(bvecs)
    ensures Size(Take(bvecs, n)) == n && Size(Drop(bvecs, n)) == Size(bvecs) - n
    ensures Full(Take(bvecs, n)) && Full(Drop(bvecs, n))
    decreases |bvecs|
  {
    if bvecs != [] && n > 0 {
      var b, t := bvecs[0], bvecs[1..];
      if n < b.len {
        assert Drop(bvecs, n)[1..] == t && Take(bvecs, n)[1..] == [];
      } else {
        TakeDropSize(t, n - b.len);
        assert Take(bvecs, n)[1..] == Take(t, n - b.len);
      }
    }
  }

  lemma {:induction false} TakeDropPages(lim: Limits, bvecs: seq<Bvec>, n: nat)
    requires OnPages(lim, bvecs)
    ensures OnPages(lim, Take(bvecs, n)) && OnPages(lim, Drop(bvecs, n))
    decreases |bvecs|
  {
    if bvecs != [] && n > 0 && n >= bvecs[0].len {
      TakeDropPages(lim, bvecs[1..], n - bvecs[0].len);
    }
  }

  /** Cutting loses and moves nothing. */
  lemma {:induction false} TakeDrop(bvecs: seq<Bvec>, n: nat)
    ensures Memory(Take(bvecs, n)) + Memory(Drop(bvecs, n)) == Memory(bvecs)
    decreases |bvecs|
  {
    if bvecs != [] && n > 0 {
      var b, t := bvecs[0], bvecs[1..];
      if n < b.len {
        TakeDropHere(bvecs, n);
      } else {
        TakeDrop(t, n - b.len);
        var l := Take(t, n - b.len);
        assert ([b] + l)[1..] == l;
        var r, x, y := Run(Phys(b), b.len), Memory(l), Memory(Drop(t, n - b.len));
        assert (r + x) + y == r + (x + y);
      }
    }
  }

  lemma {:induction false} TakeDropHere(bvecs: seq<Bvec>, n: nat)
    requires bvecs != [] && 0 < n < bvecs[0].len
    ensures Memory(Take(bvecs, n)) + Memory(Drop(bvecs, n)) == Memory(bvecs)
  {
    var b, t := bvecs[0], bvecs[1..];
    var front, rest := b.(len := n), Bvec(b.page, b.offset + n, b.len - n);
    assert Drop(bvecs, n)[1..] == t && Take(bvecs, n) == [front] && [front][1..] == [];
    var r1, r2 := Run(Phys(front), n), Run(Phys(rest), b.len - n);
    assert r1 + r2 == Run(Phys(b), b.len);
    assert r1 + (r2 + Memory(t)) == (r1 + r2) + Memory(t);
    assert Memory(Take(bvecs, n)) == r1;
  }

  lemma {:induction false} TakeAll(bvecs: seq<Bvec>)
    requires Full(bvecs)
    ensures Take(bvecs, Size(bvecs)) == bvecs
    decreases |bvecs|
  {
    if bvecs != [] {
      TakeAll(bvecs[1..]);
    }
  }

  // ---------------------------------------------------------------- what is acceptable

  /** How many segments n bytes at a need. */
  function Segs(lim: Limits, a: nat, n: nat): nat
    requires RoomOk(lim)
    decreases n
  {
    if n == 0 then 0 else 1 + Segs(lim, a + Segment(lim, a, n), n - Segment(lim, a, n))
  }

  /** Segments within one vector meet only on the virtual boundary. */
  predicate Inner(lim: Limits, a: nat, offset: nat, n: nat)
    requires RoomOk(lim)
    decreases n
  {
    n == 0 ||
    var s := Segment(lim, a, n);
    s == n || (offset + s in lim.onBoundary && Inner(lim, a + s, offset + s, n - s))
  }

  /** bvec_gap_to_prev */
  predicate Gap(lim: Limits, prev: Bvec, bv: Bvec)
  {
    bv.offset !in lim.onBoundary || prev.offset + prev.len !in lim.onBoundary
  }

  ghost function Needed(lim: Limits, bvecs: seq<Bvec>): nat
    requires RoomOk(lim)
    decreases |bvecs|
  {
    if bvecs == [] then 0 else Segs(lim, Phys(bvecs[0]), bvecs[0].len) + Needed(lim, bvecs[1..])
  }

  ghost predicate Gapless(lim: Limits, prev: Option<Bvec>, bvecs: seq<Bvec>)
    requires RoomOk(lim)
    decreases |bvecs|
  {
    bvecs == [] ||
    (&& (prev.Some? ==> !Gap(lim, prev.value, bvecs[0]))
     && Inner(lim, Phys(bvecs[0]), bvecs[0].offset, bvecs[0].len)
     && Gapless(lim, Some(bvecs[0]), bvecs[1..]))
  }

  /** At most `segs` segments and `room` bytes, no gap inside nor to the vector before. */
  ghost predicate Acceptable(lim: Limits, prev: Option<Bvec>, bvecs: seq<Bvec>, segs: int, room: int)
    requires RoomOk(lim)
  {
    Needed(lim, bvecs) <= segs && Size(bvecs) <= room && Gapless(lim, prev, bvecs)
  }

  lemma {:induction false} SegsPrefix(lim: Limits, a: nat, offset: nat, m: nat, n: nat)
    requires RoomOk(lim) && m <= n
    ensures Segs(lim, a, m) <= Segs(lim, a, n)
    ensures Inner(lim, a, offset, n) ==> Inner(lim, a, offset, m)
    decreases n
  {
    if 0 < m < n {
      var s := Segment(lim, a, n);
      assert Segment(lim, a, m) == if m <= s then m else s;
      if s < m {
        SegsPrefix(lim, a + s, offset + s, m - s, n - s);
      } else {
        assert Segs(lim, a + m, 0) == 0;
      }
    }
  }

  /** One vector more in front. */
  lemma {:induction false} AcceptableCons(lim: Limits, prev: Option<Bvec>, b: Bvec, t: seq<Bvec>, segs: int, room: int)
    requires RoomOk(lim)
    ensures var k := Segs(lim, Phys(b), b.len);
            && Needed(lim, [b] + t) == k + Needed(lim, t)
            && (Acceptable(lim, prev, [b] + t, segs, room) <==>
                && (prev.Some? ==> !Gap(lim, prev.value, b)) && Inner(lim, Phys(b), b.offset, b.len)
                && Acceptable(lim, Some(b), t, segs - k, room - b.len))
  {
    assert ([b] + t)[1..] == t;
  }

  lemma {:induction false} AcceptableOne(lim: Limits, prev: Option<Bvec>, b: Bvec, n: nat, segs: int, room: int)
    requires RoomOk(lim)
    ensures Needed(lim, Head(b, n)) == Segs(lim, Phys(b), n)
    ensures n > 0 ==>
              (Acceptable(lim, prev, Head(b, n), segs, room) <==>
               && (prev.Some? ==> !Gap(lim, prev.value, b)) && Inner(lim, Phys(b), b.offset, n)
               && Segs(lim, Phys(b), n) <= segs && n <= room)
    ensures n == 0 ==> (Acceptable(lim, prev, Head(b, n), segs, room) <==> 0 <= segs && 0 <= room)
  {
    if n > 0 {
      var x := b.(len := n);
      assert [x] + [] == [x];
      AcceptableCons(lim, prev, x, [], segs, room);
    }
  }

  /** A shorter first vector, with nothing after it. */
  lemma {:induction false} AcceptableHead(lim: Limits, prev: Option<Bvec>, b: Bvec, t: seq<Bvec>, m: nat, segs: int,
      room: int)
    requires RoomOk(lim) && m <= b.len && Acceptable(lim, prev, [b] + t, segs, room)
    ensures Acceptable(lim, prev, [b.(len := m)], segs, room) && Needed(lim, [b.(len := m)]) <= Needed(lim, [b] + t)
  {
    var x := b.(len := m);
    AcceptableCons(lim, prev, b, t, segs, room);
    AcceptableCons(lim, prev, x, [], segs, room);
    assert [x] + [] == [x];
    SegsPrefix(lim, Phys(b), b.offset, m, b.len);
  }

  /** The same first vector, with less after it. */
  lemma {:induction false} AcceptableTail(lim: Limits, prev: Option<Bvec>, b: Bvec, x: seq<Bvec>, y: seq<Bvec>,
      segs: int, room: int)
    requires RoomOk(lim) && Acceptable(lim, prev, [b] + y, segs, room) && Needed(lim, x) <= Needed(lim, y)
    requires Acceptable(lim, Some(b), x, segs - Segs(lim, Phys(b), b.len), room - b.len)
    ensures Acceptable(lim, prev, [b] + x, segs, room) && Needed(lim, [b] + x) <= Needed(lim, [b] + y)
  {
    AcceptableCons(lim, prev, b, x, segs, room);
    AcceptableCons(lim, prev, b, y, segs, room);
  }

  /** A part of what is acceptable is acceptable. */
  lemma {:induction false} AcceptablePrefix(lim: Limits, prev: Option<Bvec>, bvecs: seq<Bvec>, m: nat, n: nat,
      segs: int, room: int)
    requires RoomOk(lim) && m <= n
    requires Acceptable(lim, prev, Take(bvecs, n), segs, room)
    ensures Acceptable(lim, prev, Take(bvecs, m), segs, room)
            && Needed(lim, Take(bvecs, m)) <= Needed(lim, Take(bvecs, n))
    decreases |bvecs|
  {
    if bvecs != [] && 0 < m < n {
      var b, t := bvecs[0], bvecs[1..];
      var y := Cut(b, n);
      var ty := Take(t, n - y.len);
      TakeCons(bvecs, n);
      TakeCons(bvecs, m);
      if m < b.len {
        AcceptableHead(lim, prev, y, ty, m, segs, room);
        assert Take(bvecs, m) == [y.(len := m)];
      } else {
        var k := Segs(lim, Phys(b), b.len);
        AcceptableCons(lim, prev, b, ty, segs, room);
        AcceptablePrefix(lim, Some(b), t, m - b.len, n - b.len, segs - k, room - b.len);
        AcceptableTail(lim, prev, b, Take(t, m - b.len), ty, segs, room);
      }
    }
  }
}
