/**
 * The FIFO pool seen through its history: it holds the blocks pushed last.
 *
 * This covers the traces that the hit theorems about fresh runs do not: whether a block that was resident before is
 * still there at its turn depends on how many blocks were pushed until then, and on nothing else.
 */
module FifoHistory {

  import opened Lists
  import opened FifoPool
  import opened Prefetch

  /** Blocks inserted one after the other. */
  function InsertAll(c: nat, q: seq<nat>, blocks: seq<nat>): (r: seq<nat>)
    requires c >= 1 && |q| <= c
    ensures |r| <= c
    decreases |blocks|
  {
    if blocks == [] then q else Insert(c, InsertAll(c, q, blocks[..|blocks| - 1]), blocks[|blocks| - 1])
  }

  /** Those of them that were not resident at their turn. */
  function Pushed(c: nat, q: seq<nat>, blocks: seq<nat>): seq<nat>
    requires c >= 1 && |q| <= c
    decreases |blocks|
  {
    if blocks == [] then []
    else
      var before, b := blocks[..|blocks| - 1], blocks[|blocks| - 1];
      if b in InsertAll(c, q, before) then Pushed(c, q, before) else Pushed(c, q, before) + [b]
  }

  /** r is the last c of h, or all of them. */
  predicate IsTail(c: nat, r: seq<nat>, h: seq<nat>) {
    && |r| == Min(|h|, c)
    && forall i :: 0 <= i < |r| ==> r[i] == h[|h| - |r| + i]
  }

  lemma {:induction false} TailStep(c: nat, r: seq<nat>, h: seq<nat>, b: nat)
    requires c >= 1 && |r| <= c && IsTail(c, r, h) && b !in r
    ensures IsTail(c, Insert(c, r, b), h + [b])
  {
  }

  /** Position j of h is among the last c. */
  predicate Recent(c: nat, h: seq<nat>, j: nat) {
    j < |h| && |h| - j <= c
  }

  /** One of the last c of h is x. */
  ghost predicate AmongLast(c: nat, h: seq<nat>, x: nat) {
    exists j: nat :: Recent(c, h, j) && h[j] == x
  }

  lemma {:induction false} TailHolds(c: nat, r: seq<nat>, h: seq<nat>, x: nat)
    requires IsTail(c, r, h)
    ensures x in r <==> AmongLast(c, h, x)
  {
    if k: nat :| k < |r| && r[k] == x {
      assert Recent(c, h, |h| - |r| + k);
    }
    if j: nat :| Recent(c, h, j) && h[j] == x {
      assert r[j - (|h| - |r|)] == h[j];
    }
  }

  /** The pool is the last c blocks of its history. */
  lemma {:induction false} PoolIsTail(c: nat, q: seq<nat>, blocks: seq<nat>)
    requires c >= 1 && |q| <= c
    ensures IsTail(c, InsertAll(c, q, blocks), q + Pushed(c, q, blocks))
    decreases |blocks|
  {
    if blocks == [] {
      assert q + [] == q;
    } else {
      var before, b := blocks[..|blocks| - 1], blocks[|blocks| - 1];
      PoolIsTail(c, q, before);
      var r, h := InsertAll(c, q, before), q + Pushed(c, q, before);
      if b !in r {
        TailStep(c, r, h, b);
        assert h + [b] == q + Pushed(c, q, blocks);
      }
    }
  }

  lemma {:induction false} PushedAmong(c: nat, q: seq<nat>, blocks: seq<nat>, x: nat)
    requires c >= 1 && |q| <= c && x in Pushed(c, q, blocks)
    ensures x in blocks
    decreases |blocks|
  {
    var before := blocks[..|blocks| - 1];
    if x in Pushed(c, q, before) {
      PushedAmong(c, q, before, x);
    }
  }

  lemma {:induction false} OnlyAt(c: nat, q: seq<nat>, blocks: seq<nat>, p: nat, j: nat)
    requires c >= 1 && |q| <= c && Distinct(q) && p < |q| && q[p] !in blocks
    requires j < |q + Pushed(c, q, blocks)| && (q + Pushed(c, q, blocks))[j] == q[p]
    ensures j == p
  {
    if j >= |q| {
      assert Pushed(c, q, blocks)[j - |q|] == q[p];
      PushedAmong(c, q, blocks, q[p]);
    }
  }

  /** A resident block that is not inserted again is lost exactly when the pushes have reached its place. */
  lemma {:induction false} Survives(c: nat, q: seq<nat>, blocks: seq<nat>, p: nat)
    requires c >= 1 && |q| <= c && Distinct(q) && p < |q| && q[p] !in blocks
    ensures q[p] in InsertAll(c, q, blocks) <==> |q| - p + |Pushed(c, q, blocks)| <= c
  {
    var h := q + Pushed(c, q, blocks);
    PoolIsTail(c, q, blocks);
    TailHolds(c, InsertAll(c, q, blocks), h, q[p]);
    assert h[p] == q[p] && (Recent(c, h, p) ==> AmongLast(c, h, q[p]));
    if j: nat :| Recent(c, h, j) && h[j] == q[p] {
      OnlyAt(c, q, blocks, p, j);
    }
  }

  lemma {:induction false} InsertAllJoin(c: nat, q: seq<nat>, a: seq<nat>, b: seq<nat>)
    requires c >= 1 && |q| <= c
    ensures InsertAll(c, q, a + b) == InsertAll(c, InsertAll(c, q, a), b)
    decreases |b|
  {
    if b == [] {
      assert a + b == a;
    } else {
      assert (a + b)[..|a + b| - 1] == a + b[..|b| - 1];
      InsertAllJoin(c, q, a, b[..|b| - 1]);
    }
  }

  // ---------------------------------------------------------------- whole traces

  lemma {:induction false} RangeSnoc(start: nat, n: nat)
    requires n > 0
    ensures Range(start, n)[..n - 1] == Range(start, n - 1) && Range(start, n)[n - 1] == start + n - 1
    decreases n
  {
    if n > 1 {
      RangeSnoc(start + 1, n - 1);
      assert Range(start, n)[..n - 1] == [start] + Range(start + 1, n - 1)[..n - 2];
    }
  }

  lemma {:induction false} RangeInserted(c: nat, q: seq<nat>, start: nat, n: nat)
    requires c >= 1 && |q| <= c
    ensures InsertAll(c, q, Range(start, n)) == InsertRange(c, q, start, n)
    decreases n
  {
    if n > 0 {
      RangeSnoc(start, n);
      RangeInserted(c, q, start, n - 1);
    }
  }

  /** The blocks that an access asks for: the block itself, then what the prefetcher wants. */
  function Asked(maxW: nat, ra: Ra, block: nat): seq<nat> {
    [block] + (if !Sequential(ra, block) || maxW == 0 then []
               else if !ra.haveEdge then Range(block + 1, ra.window)
               else if block + 1 == ra.edge then Range(ra.edge, Min(2 * ra.window, maxW))
               else [])
  }

  /** ... and a whole trace.  What is asked for does not depend on the pool. */
  function AskedBy(minW: nat, maxW: nat, ra: Ra, trace: seq<nat>): seq<nat>
    decreases trace
  {
    if trace == [] then []
    else Asked(maxW, ra, trace[0]) + AskedBy(minW, maxW, NextRa(minW, maxW, ra, trace[0]), trace[1..])
  }

  lemma {:induction false} AccessAsks(c: nat, minW: nat, maxW: nat, s: Sim, block: nat)
    requires c >= 1 && |s.q| <= c
    ensures Access(c, minW, maxW, s, block).q == InsertAll(c, s.q, Asked(maxW, s.ra, block))
  {
    var wanted := Asked(maxW, s.ra, block)[1..];
    assert Asked(maxW, s.ra, block) == [block] + wanted && [block][..0] == [];
    InsertAllJoin(c, s.q, [block], wanted);
    var q := Insert(c, s.q, block);
    assert InsertAll(c, s.q, [block]) == q;
    RangeInserted(c, q, block + 1, s.ra.window);
    RangeInserted(c, q, s.ra.edge, Min(2 * s.ra.window, maxW));
  }

  lemma {:induction false} TraceAsks(c: nat, minW: nat, maxW: nat, s: Sim, trace: seq<nat>)
    requires c >= 1 && |s.q| <= c
    ensures After(c, minW, maxW, s, trace).q == InsertAll(c, s.q, AskedBy(minW, maxW, s.ra, trace))
    decreases trace
  {
    if trace != [] {
      AccessAsks(c, minW, maxW, s, trace[0]);
      var s' := Access(c, minW, maxW, s, trace[0]);
      TraceAsks(c, minW, maxW, s', trace[1..]);
      InsertAllJoin(c, s.q, Asked(maxW, s.ra, trace[0]), AskedBy(minW, maxW, s'.ra, trace[1..]));
    }
  }

  lemma {:induction false} HitsAt(c: nat, minW: nat, maxW: nat, s: Sim, trace: seq<nat>, i: nat)
    requires c >= 1 && |s.q| <= c && i < |trace|
    ensures Hits(c, minW, maxW, s, trace)[i] <==> trace[i] in After(c, minW, maxW, s, trace[..i]).q
    decreases trace
  {
    if i > 0 {
      assert trace[..i][1..] == trace[1..][..i - 1];
      HitsAt(c, minW, maxW, Access(c, minW, maxW, s, trace[0]), trace[1..], i - 1);
    }
  }

  /** Any trace, from any state of the pool: an access hits if and only if its block is among the last c pushed. */
  lemma {:induction false} HitIsRecentPush(c: nat, minW: nat, maxW: nat, s: Sim, trace: seq<nat>, i: nat)
    requires c >= 1 && |s.q| <= c && i < |trace|
    ensures var h := s.q + Pushed(c, s.q, AskedBy(minW, maxW, s.ra, trace[..i]));
            Hits(c, minW, maxW, s, trace)[i] <==> AmongLast(c, h, trace[i])
  {
    var asked := AskedBy(minW, maxW, s.ra, trace[..i]);
    HitsAt(c, minW, maxW, s, trace, i);
    TraceAsks(c, minW, maxW, s, trace[..i]);
    PoolIsTail(c, s.q, asked);
    TailHolds(c, InsertAll(c, s.q, asked), s.q + Pushed(c, s.q, asked), trace[i]);
  }

  /** A block that was resident when the trace began, in place p of the ring, and has not been asked for before its
      turn: it hits if and only if the pushes until then have not reached its place. */
  lemma {:induction false} ResidentHit(c: nat, minW: nat, maxW: nat, s: Sim, trace: seq<nat>, i: nat, p: nat)
    requires c >= 1 && |s.q| <= c && Distinct(s.q) && i < |trace| && p < |s.q| && s.q[p] == trace[i]
    requires trace[i] !in AskedBy(minW, maxW, s.ra, trace[..i])
    ensures Hits(c, minW, maxW, s, trace)[i] <==>
            |s.q| - p + |Pushed(c, s.q, AskedBy(minW, maxW, s.ra, trace[..i]))| <= c
  {
    HitsAt(c, minW, maxW, s, trace, i);
    TraceAsks(c, minW, maxW, s, trace[..i]);
    Survives(c, s.q, AskedBy(minW, maxW, s.ra, trace[..i]), p);
  }
}
