/**
 * Read-around on the LRU pool: every access also touches the blocks within a radius,
 * clamped to the file.
 */
module ReadAround {
  import opened LruPool
  import opened Lists

  function First(radius: nat, block: nat): nat {
    if block > radius then block - radius else 0
  }

  /** The last block of the window; a file size of 0 means unknown. */
  function Final(radius: nat, total: nat, block: nat): nat {
    if total > 0 && block + radius > total - 1 then total - 1 else block + radius
  }

  /** How many blocks the window holds. */
  function Width(radius: nat, total: nat, block: nat): nat
    requires InFile(total, block)
  {
    Final(radius, total, block) - First(radius, block) + 1
  }

  predicate InFile(total: nat, block: nat) {
    total == 0 || block < total
  }

  /** Block x is in the file and at most radius blocks from p. */
  predicate Around(radius: nat, total: nat, p: nat, x: nat) {
    x <= p + radius && p <= x + radius && InFile(total, x)
  }

  /** Block x and the c blocks after it are around p. */
  predicate Crowded(c: nat, radius: nat, total: nat, p: nat, x: nat) {
    Around(radius, total, p, x) && Around(radius, total, p, x + c)
  }

  /** What an access at p may do to the pool: all that is new is around p, and of the blocks around p exactly the last,
      as many as there is room for, are resident. */
  ghost predicate ReadAroundOnly(c: nat, radius: nat, total: nat, p: nat, before: seq<nat>, after: seq<nat>) {
    && (forall x: nat :: x in after ==> x in before || Around(radius, total, p, x))
    && (forall x: nat :: Around(radius, total, p, x) ==> (x in after <==> !Crowded(c, radius, total, p, x)))
  }

  /** Blocks ahead of every b stay where they are when b is taken out. */
  lemma {:induction false} KeepPrefix(r: seq<nat>, b: nat, k: nat, n: nat)
    requires k <= n <= |r| && forall i :: 0 <= i < k ==> r[i] != b
    ensures |Keep(r, b, n)| >= k && forall i :: 0 <= i < k ==> Keep(r, b, n)[i] == r[i]
    decreases n
  {
    if n > k {
      KeepPrefix(r, b, k, n - 1);
    } else if n > 0 {
      KeepPrefix(r, b, n - 1, n - 1);
    }
  }

  /** After a sweep the newest blocks are those of its end, latest first, whatever was resident. */
  ghost predicate EndsSweep(c: nat, q: seq<nat>, start: nat, n: nat) {
    && |q| >= (if n < c then n else c)
    && forall i :: 0 <= i < |q| && i < n ==> q[i] == start + n - 1 - i
  }

  lemma {:induction false} SweepStep(c: nat, q: seq<nat>, start: nat, n: nat)
    requires c >= 1 && |q| <= c && EndsSweep(c, q, start, n)
    ensures EndsSweep(c, Touch(c, q, start + n), start, n + 1)
  {
    var b, k := start + n, if n < |q| then n else |q|;
    KeepPrefix(q, b, k, |q|);
    var rest, t := Remove(q, b), Touch(c, q, b);
    forall i | 0 <= i < |t| && i <= n ensures t[i] == b - i {
      if i > 0 {
        assert t[i] == rest[i - 1] == q[i - 1];
      }
    }
  }

  lemma {:induction false} SweepFront(c: nat, r: seq<nat>, start: nat, n: nat)
    requires c >= 1 && |r| <= c
    ensures EndsSweep(c, TouchRange(c, r, start, n), start, n)
    decreases n
  {
    if n > 0 {
      SweepFront(c, r, start, n - 1);
      SweepStep(c, TouchRange(c, r, start, n - 1), start, n - 1);
    }
  }

  lemma {:induction false} KeepAmong(r: seq<nat>, b: nat, n: nat, x: nat)
    requires n <= |r| && x in Keep(r, b, n)
    ensures x in r
    decreases n
  {
    if x in Keep(r, b, n - 1) {
      KeepAmong(r, b, n - 1, x);
    }
  }

  /** A sweep brings in nothing but its own blocks. */
  lemma {:induction false} SweepAmong(c: nat, r: seq<nat>, start: nat, n: nat, x: nat)
    requires c >= 1 && |r| <= c && x in TouchRange(c, r, start, n)
    ensures x in r || start <= x < start + n
    decreases n
  {
    if n > 0 {
      var q, b := TouchRange(c, r, start, n - 1), start + n - 1;
      if x != b {
        assert x in Remove(q, b);
        KeepAmong(q, b, |q|, x);
        SweepAmong(c, r, start, n - 1, x);
      }
    }
  }

  lemma {:induction false} WindowIsAround(radius: nat, total: nat, p: nat, x: nat)
    requires InFile(total, p)
    ensures First(radius, p) <= x < First(radius, p) + Width(radius, total, p) <==> Around(radius, total, p, x)
  {
  }

  lemma {:induction false} SweepIsAround(c: nat, radius: nat, total: nat, r: seq<nat>, p: nat, x: nat)
    requires c >= 1 && |r| <= c && InFile(total, p)
    ensures var q := TouchRange(c, r, First(radius, p), Width(radius, total, p));
            && (x in q ==> x in r || Around(radius, total, p, x))
            && (Around(radius, total, p, x) ==> (x in q <==> !Crowded(c, radius, total, p, x)))
  {
    var lo, n := First(radius, p), Width(radius, total, p);
    var q := TouchRange(c, r, lo, n);
    WindowIsAround(radius, total, p, x);
    WindowIsAround(radius, total, p, x + c);
    SweepFront(c, r, lo, n);
    if x in q {
      SweepAmong(c, r, lo, n, x);
    }
    if Around(radius, total, p, x) && !Around(radius, total, p, x + c) {
      assert q[lo + n - 1 - x] == x;
    }
  }

  lemma {:induction false} SweepReadsAround(c: nat, radius: nat, total: nat, r: seq<nat>, p: nat)
    requires c >= 1 && |r| <= c && InFile(total, p)
    ensures ReadAroundOnly(c, radius, total, p, r, TouchRange(c, r, First(radius, p), Width(radius, total, p)))
  {
    var q := TouchRange(c, r, First(radius, p), Width(radius, total, p));
    forall x: nat
      ensures x in q ==> x in r || Around(radius, total, p, x)
      ensures Around(radius, total, p, x) ==> (x in q <==> !Crowded(c, radius, total, p, x))
    {
      SweepIsAround(c, radius, total, r, p, x);
    }
  }

  lemma {:induction false} AccessIsAround(c: nat, radius: nat, total: nat, r: seq<nat>, p: nat)
    requires c >= 1 && |r| <= c && InFile(total, p)
    ensures ReadAroundOnly(c, radius, total, p, r, Access(c, radius, total, r, p))
  {
    var q := Touch(c, r, p);
    SweepReadsAround(c, radius, total, q, p);
    forall x | x in q && x != p
      ensures x in r
    {
      KeepAmong(r, p, |r|, x);
    }
  }

  /** One turn of the benchmark loop: on a hit the lookup touches the block, on a miss the insert does. */
  function Access(c: nat, radius: nat, total: nat, r: seq<nat>, block: nat): (q: seq<nat>)
    requires c >= 1 && |r| <= c && InFile(total, block)
    ensures |q| <= c
  {
    TouchRange(c, Touch(c, r, block), First(radius, block), Width(radius, total, block))
  }

  class ReadAroundPrefetcher {
    const pool: LruBufferPool
    const radius: nat
    const totalBlocks: nat

    constructor (pool: LruBufferPool, radius: nat, totalBlocks: nat)
      ensures this.pool == pool && this.radius == radius && this.totalBlocks == totalBlocks
    {
      this.pool, this.radius, this.totalBlocks := pool, radius, totalBlocks;
    }

    /** read_around_on_access */
    method OnAccess(block: nat)
      requires pool.Valid() && InFile(totalBlocks, block)
      modifies pool, pool.slots, pool.lastUsed
      ensures pool.Valid() && pool.hits == old(pool.hits) && pool.misses == old(pool.misses)
      ensures pool.Blocks() == TouchRange(pool.capacity, old(pool.Blocks()), First(radius, block),
                                          Width(radius, totalBlocks, block))
      ensures ReadAroundOnly(pool.capacity, radius, totalBlocks, block, old(pool.Blocks()), pool.Blocks())
    {
      var start := 0;
      if block > radius {
        start := block - radius;
      }
      var end := block + radius;
      if totalBlocks > 0 && end > totalBlocks - 1 {
        end := totalBlocks - 1;
      }
      var n := end - start + 1;
      assert start == First(radius, block) && n == Width(radius, totalBlocks, block);
      pool.PrefetchRange(start, n);
      SweepReadsAround(pool.capacity, radius, totalBlocks, old(pool.Blocks()), block);
    }
  }

  // ---------------------------------------------------------------- whole traces

  /** h lists the pool's contents before each access of the trace and after the last. */
  ghost predicate IsHistory(c: nat, radius: nat, total: nat, trace: seq<nat>, h: seq<seq<nat>>) {
    && c >= 1 && |h| == |trace| + 1 && |h[0]| <= c
    && forall i :: 0 <= i < |trace| ==> Turned(c, radius, total, trace, h, i)
  }

  predicate Turned(c: nat, radius: nat, total: nat, trace: seq<nat>, h: seq<seq<nat>>, i: nat)
    requires c >= 1 && i < |trace| && i + 1 < |h|
  {
    InFile(total, trace[i]) && |h[i]| <= c && h[i + 1] == Access(c, radius, total, h[i], trace[i])
  }

  /** How many of the first n accesses hit. */
  function Hits(trace: seq<nat>, h: seq<seq<nat>>, n: nat): (k: nat)
    requires n <= |trace| && n <= |h|
    ensures k <= n
    decreases n
  {
    if n == 0 then 0 else Hits(trace, h, n - 1) + (if trace[n - 1] in h[n - 1] then 1 else 0)
  }

  /** The body of the benchmark loop. */
  method Turn(ra: ReadAroundPrefetcher, block: nat)
    requires ra.pool.Valid() && InFile(ra.totalBlocks, block)
    modifies ra.pool, ra.pool.slots, ra.pool.lastUsed
    ensures ra.pool.Valid()
    ensures ra.pool.Blocks() == Access(ra.pool.capacity, ra.radius, ra.totalBlocks, old(ra.pool.Blocks()), block)
    ensures ra.pool.hits == old(ra.pool.hits) + (if block in old(ra.pool.Blocks()) then 1 else 0)
    ensures ra.pool.misses == old(ra.pool.misses) + (if block in old(ra.pool.Blocks()) then 0 else 1)
  {
    var hit := ra.pool.Lookup(block);
    if !hit {
      ra.pool.Insert(block);
    }
    assert ra.pool.Blocks() == Touch(ra.pool.capacity, old(ra.pool.Blocks()), block);
    ra.OnAccess(block);
  }

  lemma {:induction false} HitsExtend(trace: seq<nat>, h: seq<seq<nat>>, r: seq<nat>, n: nat)
    requires n <= |trace| && n <= |h|
    ensures Hits(trace, h + [r], n) == Hits(trace, h, n)
    decreases n
  {
    if n > 0 {
      HitsExtend(trace, h, r, n - 1);
    }
  }

  /** A history with the state after one more access. */
  lemma {:induction false} HistoryExtend(
    c: nat, radius: nat, total: nat, trace: seq<nat>, h: seq<seq<nat>>, r: seq<nat>, n: nat)
    requires c >= 1 && n < |trace| && |h| == n + 1 && InFile(total, trace[n])
    requires forall k :: 0 <= k < n ==> Turned(c, radius, total, trace, h, k)
    requires |h[n]| <= c && r == Access(c, radius, total, h[n], trace[n])
    ensures forall k :: 0 <= k <= n ==> Turned(c, radius, total, trace, h + [r], k)
    ensures Hits(trace, h + [r], n + 1) == Hits(trace, h, n) + (if trace[n] in h[n] then 1 else 0)
  {
    forall k | 0 <= k < n
      ensures Turned(c, radius, total, trace, h + [r], k)
    {
      assert Turned(c, radius, total, trace, h, k);
    }
    HitsExtend(trace, h, r, n);
  }

  /** Of a history that begins inside the file, nothing ever leaves it. */
  lemma {:induction false} StaysInFile(
    c: nat, radius: nat, total: nat, trace: seq<nat>, h: seq<seq<nat>>, n: nat, x: nat)
    requires IsHistory(c, radius, total, trace, h) && n <= |trace| && x in h[n]
    requires forall y :: y in h[0] ==> InFile(total, y)
    ensures InFile(total, x)
    decreases n
  {
    if n > 0 {
      assert Turned(c, radius, total, trace, h, n - 1);
      AccessIsAround(c, radius, total, h[n - 1], trace[n - 1]);
      if x in h[n - 1] {
        StaysInFile(c, radius, total, trace, h, n - 1, x);
      }
    }
  }

  /** The benchmark loop: its counters are those of the pool's history, no block past the end of the file is ever
      resident, and each access brings in only blocks around it. */
  method Run(capacity: nat, radius: nat, total: nat, blocks: seq<nat>)
    returns (hits: nat, misses: nat, ghost h: seq<seq<nat>>)
    requires capacity >= 1 && forall i :: 0 <= i < |blocks| ==> InFile(total, blocks[i])
    ensures IsHistory(capacity, radius, total, blocks, h) && h[0] == []
    ensures hits == Hits(blocks, h, |blocks|) && hits + misses == |blocks|
    ensures forall n, x :: 0 <= n <= |blocks| && x in h[n] ==> InFile(total, x)
    ensures forall n :: 0 <= n < |blocks| ==> ReadAroundOnly(capacity, radius, total, blocks[n], h[n], h[n + 1])
  {
    var pool := new LruBufferPool(capacity);
    var ra := new ReadAroundPrefetcher(pool, radius, total);
    h := [[]];
    for i := 0 to |blocks|
      invariant pool.Valid() && fresh(pool) && fresh(pool.slots) && fresh(pool.lastUsed) && pool.capacity == capacity
      invariant ra.pool == pool && ra.radius == radius && ra.totalBlocks == total
      invariant |h| == i + 1 && h[0] == [] && h[i] == pool.Blocks()
      invariant forall k :: 0 <= k < i ==> Turned(capacity, radius, total, blocks, h, k)
      invariant pool.hits == Hits(blocks, h, i) && pool.hits + pool.misses == i
    {
      Turn(ra, blocks[i]);
      HistoryExtend(capacity, radius, total, blocks, h, pool.Blocks(), i);
      h := h + [pool.Blocks()];
    }
    hits, misses := pool.hits, pool.misses;
    forall n, x | 0 <= n <= |blocks| && x in h[n] ensures InFile(total, x) {
      StaysInFile(capacity, radius, total, blocks, h, n, x);
    }
    forall n | 0 <= n < |blocks| ensures ReadAroundOnly(capacity, radius, total, blocks[n], h[n], h[n + 1]) {
      assert Turned(capacity, radius, total, blocks, h, n);
      AccessIsAround(capacity, radius, total, h[n], blocks[n]);
    }
  }

  // ---------------------------------------------------------------- the pool as a stack

  /** All blocks ever touched, last touched first: a pool that never evicts. */
  function Recall(u: seq<nat>, b: nat): seq<nat> {
    [b] + Remove(u, b)
  }

  function RecallRange(u: seq<nat>, start: nat, n: nat): seq<nat>
    decreases n
  {
    if n == 0 then u else Recall(RecallRange(u, start, n - 1), start + n - 1)
  }

  function RecallAccess(radius: nat, total: nat, u: seq<nat>, block: nat): seq<nat>
    requires InFile(total, block)
  {
    RecallRange(Recall(u, block), First(radius, block), Width(radius, total, block))
  }

  function RecallAll(radius: nat, total: nat, trace: seq<nat>, n: nat): seq<nat>
    requires n <= |trace| && forall i :: 0 <= i < |trace| ==> InFile(total, trace[i])
    decreases n
  {
    if n == 0 then [] else RecallAccess(radius, total, RecallAll(radius, total, trace, n - 1), trace[n - 1])
  }

  /** The c most recent. */
  function Top(c: nat, u: seq<nat>): (r: seq<nat>)
    ensures |r| == if |u| <= c then |u| else c
  {
    if |u| <= c then u else u[..c]
  }

  lemma {:induction false} RecallKeepsDistinct(u: seq<nat>, b: nat)
    requires Distinct(u)
    ensures Distinct(Recall(u, b))
  {
    TouchKeepsDistinct(|u| + 1, u, b);
  }

  lemma {:induction false} RecallResident(u: seq<nat>, p: nat)
    requires Distinct(u) && p < |u|
    ensures Recall(u, u[p]) == MoveToFront(u, p)
  {
    RemoveAt(u, p);
  }

  /** A block moved to the front, seen through the top of the stack. */
  lemma {:induction false} MovedTop(c: nat, u: seq<nat>, p: nat)
    requires c >= 1 && p < |u|
    ensures var r := Top(c, u);
            Top(c, MoveToFront(u, p)) == if p < |r| then MoveToFront(r, p) else [u[p]] + r[..c - 1]
  {
  }

  lemma {:induction false} TopDistinct(c: nat, u: seq<nat>, p: nat)
    requires Distinct(u) && p < |u|
    ensures Distinct(Top(c, u)) && (p < |Top(c, u)| <==> u[p] in Top(c, u))
  {
  }

  /** Touching the pool is touching the top of the stack. */
  lemma {:induction false} TouchIsTop(c: nat, u: seq<nat>, b: nat)
    requires c >= 1 && Distinct(u)
    ensures Touch(c, Top(c, u), b) == Top(c, Recall(u, b))
  {
    var r := Top(c, u);
    if b !in u {
      RemoveAbsent(u, b);
      TouchAbsent(c, r, b);
    } else {
      var p :| 0 <= p < |u| && u[p] == b;
      RecallResident(u, p);
      MovedTop(c, u, p);
      TopDistinct(c, u, p);
      if p < |r| {
        TouchResident(c, r, p);
      } else {
        TouchAbsent(c, r, b);
      }
    }
  }

  lemma {:induction false} RangeStep(c: nat, u: seq<nat>, r: seq<nat>, b: nat)
    requires c >= 1 && Distinct(u) && r == Top(c, u)
    ensures Touch(c, r, b) == Top(c, Recall(u, b)) && Distinct(Recall(u, b))
  {
    TouchIsTop(c, u, b);
    RecallKeepsDistinct(u, b);
  }

  lemma {:induction false} RangeIsTop(c: nat, u: seq<nat>, r: seq<nat>, start: nat, n: nat)
    requires c >= 1 && Distinct(u) && r == Top(c, u)
    ensures TouchRange(c, r, start, n) == Top(c, RecallRange(u, start, n))
    ensures Distinct(RecallRange(u, start, n))
    decreases n
  {
    if n > 0 {
      var u1, r1 := RecallRange(u, start, n - 1), TouchRange(c, r, start, n - 1);
      RangeIsTop(c, u, r, start, n - 1);
      RangeStep(c, u1, r1, start + n - 1);
    }
  }

  lemma {:induction false} AccessIsTop(
    c: nat, radius: nat, total: nat, u: seq<nat>, r: seq<nat>, b: nat, u': seq<nat>, r': seq<nat>)
    requires c >= 1 && Distinct(u) && r == Top(c, u) && InFile(total, b)
    requires r' == Access(c, radius, total, r, b) && u' == RecallAccess(radius, total, u, b)
    ensures r' == Top(c, u') && Distinct(u')
  {
    TouchIsTop(c, u, b);
    RecallKeepsDistinct(u, b);
    RangeIsTop(c, Recall(u, b), Touch(c, r, b), First(radius, b), Width(radius, total, b));
  }

  /** At every moment the timestamp table holds exactly the c most recently touched blocks. */
  lemma {:induction false} PoolIsTop(c: nat, radius: nat, total: nat, trace: seq<nat>, h: seq<seq<nat>>, n: nat)
    requires IsHistory(c, radius, total, trace, h) && h[0] == [] && n <= |trace|
    requires forall i :: 0 <= i < |trace| ==> InFile(total, trace[i])
    ensures h[n] == Top(c, RecallAll(radius, total, trace, n))
    ensures Distinct(RecallAll(radius, total, trace, n))
    decreases n
  {
    if n > 0 {
      PoolIsTop(c, radius, total, trace, h, n - 1);
      assert Turned(c, radius, total, trace, h, n - 1);
      AccessIsTop(c, radius, total, RecallAll(radius, total, trace, n - 1), h[n - 1], trace[n - 1],
                  RecallAll(radius, total, trace, n), h[n]);
    }
  }

  lemma {:induction false} TopGrows(c1: nat, c2: nat, u: seq<nat>, x: nat)
    requires c1 <= c2 && x in Top(c1, u)
    ensures x in Top(c2, u)
  {
    var i :| 0 <= i < |Top(c1, u)| && Top(c1, u)[i] == x;
    assert Top(c2, u)[i] == x;
  }

  /** LRU inclusion: on the same trace and radius, the smaller pool's contents are at every
      step among the larger pool's, so it never hits more often. */
  lemma {:induction false} Inclusion(c1: nat, c2: nat, radius: nat, total: nat, trace: seq<nat>, h1: seq<seq<nat>>,
      h2: seq<seq<nat>>)
    requires c1 <= c2 && IsHistory(c1, radius, total, trace, h1) && IsHistory(c2, radius, total, trace, h2)
    requires h1[0] == h2[0] == []
    ensures forall n, x :: 0 <= n <= |trace| && x in h1[n] ==> x in h2[n]
    ensures Hits(trace, h1, |trace|) <= Hits(trace, h2, |trace|)
  {
    forall i | 0 <= i < |trace| ensures InFile(total, trace[i]) {
      assert Turned(c1, radius, total, trace, h1, i);
    }
    forall n, x | 0 <= n <= |trace| && x in h1[n] ensures x in h2[n] {
      PoolIsTop(c1, radius, total, trace, h1, n);
      PoolIsTop(c2, radius, total, trace, h2, n);
      TopGrows(c1, c2, RecallAll(radius, total, trace, n), x);
    }
    HitsGrow(trace, h1, h2, |trace|);
  }

  lemma {:induction false} HitsGrow(trace: seq<nat>, h1: seq<seq<nat>>, h2: seq<seq<nat>>, n: nat)
    requires n <= |trace| && n <= |h1| && n <= |h2|
    requires forall i, x :: 0 <= i < n && x in h1[i] ==> x in h2[i]
    ensures Hits(trace, h1, n) <= Hits(trace, h2, n)
    decreases n
  {
    if n > 0 {
      HitsGrow(trace, h1, h2, n - 1);
    }
  }
}
