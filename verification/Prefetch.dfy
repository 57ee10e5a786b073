/**
 * The fixed and the adaptive read-ahead of prefetch-sim, on the FIFO pool.
 *
 * Both watch for an access to the block after the last one.  The first such access
 * prefetches a window; reaching the last prefetched block prefetches the next.  The
 * adaptive form doubles its window each time, up to a maximum.
 */
module Prefetch {
  import opened FifoPool

  /** The prefetcher's fields. */
  datatype Ra = Ra(window: nat, last: nat, haveLast: bool, edge: nat, haveEdge: bool)

  function Min(a: nat, b: nat): nat { if a <= b then a else b }

  predicate Sequential(ra: Ra, block: nat) {
    ra.haveLast && block == ra.last + 1
  }

  /** One access seen by the adaptive prefetcher: its next state. */
  function NextRa(minWindow: nat, maxWindow: nat, ra: Ra, block: nat): Ra {
    (if Sequential(ra, block) && maxWindow > 0 then
       if !ra.haveEdge then ra.(edge := block + 1 + ra.window, haveEdge := true)
       else if block + 1 == ra.edge then
         var w := Min(2 * ra.window, maxWindow);
         ra.(window := w, edge := ra.edge + w)
       else ra
     else ra.(haveEdge := false, window := minWindow)).(last := block, haveLast := true)
  }

  /** ... and what becomes of the cache. */
  function Fetch(c: nat, maxWindow: nat, q: seq<nat>, ra: Ra, block: nat): (r: seq<nat>)
    requires c >= 1 && |q| <= c
    ensures |r| <= c
  {
    if !Sequential(ra, block) || maxWindow == 0 then q
    else if !ra.haveEdge then InsertRange(c, q, block + 1, ra.window)
    else if block + 1 == ra.edge then InsertRange(c, q, ra.edge, Min(2 * ra.window, maxWindow))
    else q
  }

  class AdaptiveReadahead {
    const pool: BufferPool
    const minWindow: nat
    const maxWindow: nat
    var window: nat
    var lastBlock: nat
    var haveLast: bool
    var edge: nat
    var haveEdge: bool

    ghost function View(): Ra
      reads this
    {
      Ra(window, lastBlock, haveLast, edge, haveEdge)
    }

    constructor (pool: BufferPool, minWindow: nat, maxWindow: nat)
      ensures this.pool == pool && this.minWindow == minWindow && this.maxWindow == maxWindow
      ensures View() == Ra(minWindow, 0, false, 0, false)
    {
      this.pool, this.minWindow, this.maxWindow := pool, minWindow, maxWindow;
      window, lastBlock, haveLast, edge, haveEdge := minWindow, 0, false, 0, false;
    }

    /** adaptive_readahead_on_access */
    method OnAccess(block: nat)
      requires pool.Valid()
      modifies this, pool, pool.slots
      ensures pool.Valid() && View() == NextRa(minWindow, maxWindow, old(View()), block)
      ensures pool.Queue() == Fetch(pool.capacity, maxWindow, old(pool.Queue()), old(View()), block)
      ensures pool.hits == old(pool.hits) && pool.misses == old(pool.misses)
    {
      var sequential := haveLast && block == lastBlock + 1;
      if sequential && maxWindow > 0 {
        if !haveEdge {
          pool.PrefetchRange(block + 1, window);
          edge := block + 1 + window;
          haveEdge := true;
        } else if block + 1 == edge {
          window := window * 2;
          if window > maxWindow {
            window := maxWindow;
          }
          pool.PrefetchRange(edge, window);
          edge := edge + window;
        }
      } else {
        haveEdge := false;
        window := minWindow;
      }
      lastBlock := block;
      haveLast := true;
    }
  }

  class Readahead {
    const pool: BufferPool
    const window: nat
    var lastBlock: nat
    var haveLast: bool
    var edge: nat
    var haveEdge: bool

    ghost function View(): Ra
      reads this
    {
      Ra(window, lastBlock, haveLast, edge, haveEdge)
    }

    constructor (pool: BufferPool, window: nat)
      ensures this.pool == pool && this.window == window && View() == Ra(window, 0, false, 0, false)
    {
      this.pool, this.window := pool, window;
      lastBlock, haveLast, edge, haveEdge := 0, false, 0, false;
    }

    /** readahead_on_access: the adaptive prefetcher with both bounds at the fixed window. */
    method OnAccess(block: nat)
      requires pool.Valid()
      modifies this, pool, pool.slots
      ensures pool.Valid() && View() == NextRa(window, window, old(View()), block)
      ensures pool.Queue() == Fetch(pool.capacity, window, old(pool.Queue()), old(View()), block)
      ensures pool.hits == old(pool.hits) && pool.misses == old(pool.misses)
    {
      var sequential := haveLast && block == lastBlock + 1;
      if sequential && window > 0 {
        if !haveEdge {
          pool.PrefetchRange(block + 1, window);
          edge := block + 1 + window;
          haveEdge := true;
        } else if block + 1 == edge {
          pool.PrefetchRange(edge, window);
          edge := edge + window;
        }
      } else {
        haveEdge := false;
      }
      lastBlock := block;
      haveLast := true;
    }
  }

  // ---------------------------------------------------------------- whole traces

  /** The cache and the prefetcher together. */
  datatype Sim = Sim(q: seq<nat>, ra: Ra)

  /** One turn of the benchmark loop: look the block up, read it in on a miss, tell the prefetcher. */
  function Access(c: nat, minW: nat, maxW: nat, s: Sim, block: nat): Sim
    requires c >= 1 && |s.q| <= c
  {
    var q := Insert(c, s.q, block);
    Sim(Fetch(c, maxW, q, s.ra, block), NextRa(minW, maxW, s.ra, block))
  }

  /** Which accesses of the trace hit. */
  function Hits(c: nat, minW: nat, maxW: nat, s: Sim, trace: seq<nat>): (r: seq<bool>)
    requires c >= 1 && |s.q| <= c
    ensures |r| == |trace|
    decreases trace
  {
    if trace == [] then []
    else [trace[0] in s.q] + Hits(c, minW, maxW, Access(c, minW, maxW, s, trace[0]), trace[1..])
  }

  function After(c: nat, minW: nat, maxW: nat, s: Sim, trace: seq<nat>): (r: Sim)
    requires c >= 1 && |s.q| <= c
    ensures |r.q| <= c
    decreases trace
  {
    if trace == [] then s else After(c, minW, maxW, Access(c, minW, maxW, s, trace[0]), trace[1..])
  }

  function Count(flags: seq<bool>): (n: nat)
    ensures n <= |flags|
  {
    if flags == [] then 0 else (if flags[0] then 1 else 0) + Count(flags[1..])
  }

  lemma {:induction false} CountSnoc(flags: seq<bool>, f: bool)
    ensures Count(flags + [f]) == Count(flags) + (if f then 1 else 0)
  {
    if flags == [] {
      assert flags + [f] == [f];
    } else {
      assert (flags + [f])[1..] == flags[1..] + [f];
      CountSnoc(flags[1..], f);
    }
  }

  lemma {:induction false} TraceSnoc(c: nat, minW: nat, maxW: nat, s: Sim, trace: seq<nat>, b: nat)
    requires c >= 1 && |s.q| <= c
    ensures var mid := After(c, minW, maxW, s, trace);
            && Hits(c, minW, maxW, s, trace + [b]) == Hits(c, minW, maxW, s, trace) + [b in mid.q]
            && After(c, minW, maxW, s, trace + [b]) == Access(c, minW, maxW, mid, b)
    decreases trace
  {
    if trace == [] {
      assert trace + [b] == [b];
    } else {
      assert (trace + [b])[1..] == trace[1..] + [b];
      TraceSnoc(c, minW, maxW, Access(c, minW, maxW, s, trace[0]), trace[1..], b);
    }
  }

  /** What one turn of the access loop adds. */
  lemma {:induction false} TraceTurn(c: nat, minW: nat, maxW: nat, s: Sim, blocks: seq<nat>, i: nat)
    requires c >= 1 && |s.q| <= c && i < |blocks|
    ensures var mid := After(c, minW, maxW, s, blocks[..i]);
            && After(c, minW, maxW, s, blocks[..i + 1]) == Access(c, minW, maxW, mid, blocks[i])
            && Count(Hits(c, minW, maxW, s, blocks[..i + 1]))
               == Count(Hits(c, minW, maxW, s, blocks[..i])) + (if blocks[i] in mid.q then 1 else 0)
  {
    TraceSnoc(c, minW, maxW, s, blocks[..i], blocks[i]);
    CountSnoc(Hits(c, minW, maxW, s, blocks[..i]), blocks[i] in After(c, minW, maxW, s, blocks[..i]).q);
    assert blocks[..i + 1] == blocks[..i] + [blocks[i]];
  }

  const EMPTY: Ra := Ra(0, 0, false, 0, false)

  /** The body of that loop. */
  method TurnAdaptive(ra: AdaptiveReadahead, block: nat)
    requires ra.pool.Valid()
    modifies ra, ra.pool, ra.pool.slots
    ensures ra.pool.Valid()
    ensures Sim(ra.pool.Queue(), ra.View())
            == Access(ra.pool.capacity, ra.minWindow, ra.maxWindow, old(Sim(ra.pool.Queue(), ra.View())), block)
    ensures ra.pool.hits == old(ra.pool.hits) + (if block in old(ra.pool.Queue()) then 1 else 0)
    ensures ra.pool.misses == old(ra.pool.misses) + (if block in old(ra.pool.Queue()) then 0 else 1)
  {
    var hit := ra.pool.Lookup(block);
    if !hit {
      ra.pool.InsertBlock(block);
    }
    ra.OnAccess(block);
  }

  /** run_adaptive's loop: the counters it reports are those of the reference. */
  method RunAdaptive(capacity: nat, minWindow: nat, maxWindow: nat, blocks: seq<nat>) returns (hits: nat, misses: nat)
    requires capacity >= 1
    ensures hits == Count(Hits(capacity, minWindow, maxWindow, Sim([], EMPTY.(window := minWindow)), blocks))
    ensures hits + misses == |blocks|
  {
    var pool := new BufferPool(capacity);
    var ra := new AdaptiveReadahead(pool, minWindow, maxWindow);
    ghost var s0 := Sim([], EMPTY.(window := minWindow));
    for i := 0 to |blocks|
      invariant pool.Valid() && fresh(pool) && fresh(pool.slots) && fresh(ra) && pool.capacity == capacity
      invariant ra.pool == pool && ra.minWindow == minWindow && ra.maxWindow == maxWindow
      invariant Sim(pool.Queue(), ra.View()) == After(capacity, minWindow, maxWindow, s0, blocks[..i])
      invariant pool.hits == Count(Hits(capacity, minWindow, maxWindow, s0, blocks[..i]))
      invariant pool.hits + pool.misses == i
    {
      TraceTurn(capacity, minWindow, maxWindow, s0, blocks, i);
      TurnAdaptive(ra, blocks[i]);
    }
    assert blocks[..|blocks|] == blocks;
    hits, misses := pool.hits, pool.misses;
  }

  /** The body of that loop. */
  method TurnFixed(ra: Readahead, block: nat)
    requires ra.pool.Valid()
    modifies ra, ra.pool, ra.pool.slots
    ensures ra.pool.Valid()
    ensures Sim(ra.pool.Queue(), ra.View())
            == Access(ra.pool.capacity, ra.window, ra.window, old(Sim(ra.pool.Queue(), ra.View())), block)
    ensures ra.pool.hits == old(ra.pool.hits) + (if block in old(ra.pool.Queue()) then 1 else 0)
    ensures ra.pool.misses == old(ra.pool.misses) + (if block in old(ra.pool.Queue()) then 0 else 1)
  {
    var hit := ra.pool.Lookup(block);
    if !hit {
      ra.pool.InsertBlock(block);
    }
    ra.OnAccess(block);
  }

  /** run_fixed's loop. */
  method RunFixed(capacity: nat, window: nat, blocks: seq<nat>) returns (hits: nat, misses: nat)
    requires capacity >= 1
    ensures hits == Count(Hits(capacity, window, window, Sim([], EMPTY.(window := window)), blocks))
    ensures hits + misses == |blocks|
  {
    var pool := new BufferPool(capacity);
    var ra := new Readahead(pool, window);
    ghost var s0 := Sim([], EMPTY.(window := window));
    for i := 0 to |blocks|
      invariant pool.Valid() && fresh(pool) && fresh(pool.slots) && fresh(ra) && pool.capacity == capacity
      invariant ra.pool == pool && ra.window == window
      invariant Sim(pool.Queue(), ra.View()) == After(capacity, window, window, s0, blocks[..i])
      invariant pool.hits == Count(Hits(capacity, window, window, s0, blocks[..i]))
      invariant pool.hits + pool.misses == i
    {
      TraceTurn(capacity, window, window, s0, blocks, i);
      TurnFixed(ra, blocks[i]);
    }
    assert blocks[..|blocks|] == blocks;
    hits, misses := pool.hits, pool.misses;
  }

  // ---------------------------------------------------------------- sequential runs

  /** The blocks start, start+1, ..., start+n-1. */
  function Range(start: nat, n: nat): (r: seq<nat>)
    ensures |r| == n
    decreases n
  {
    if n == 0 then [] else [start] + Range(start + 1, n - 1)
  }

  /** The size of the window that prefetched the i-th block of a stream of doubling windows. */
  function WindowOf(w: nat, maxW: nat, i: nat): (r: nat)
    requires w >= 1 && maxW >= 1
    decreases i
  {
    if i < w then w else WindowOf(Min(2 * w, maxW), maxW, i - w)
  }

  /** Mid-run: the next block is the j-th of a window of w that ends before the edge, and no block from the edge
      up to hi is resident. */
  ghost predicate MidRun(c: nat, maxW: nat, s: Sim, next: nat, w: nat, j: nat, hi: int) {
    && 1 <= c && |s.q| <= c && 1 <= w <= maxW && j < w
    && s.ra == Ra(w, s.ra.last, true, s.ra.edge, true) && next == s.ra.last + 1 && next + (w - j) == s.ra.edge
    && MidCache(c, s.q, next, s.ra.edge, w, j, hi)
  }

  ghost predicate MidCache(c: nat, q: seq<nat>, next: nat, edge: nat, w: nat, j: nat, hi: int) {
    && Clear(q, edge, hi)
    && if w <= c then forall x :: next <= x < edge ==> x in q
       else |q| == c && forall i :: 0 <= i < c ==> q[i] == Trail(edge, w, w + j - c + i)
  }

  /** Where the access after this one stands: further on in the window, or at the start of the next. */
  function Further(maxW: nat, w: nat, j: nat): (nat, nat) {
    if j + 1 < w then (w, j + 1) else (Min(2 * w, maxW), 0)
  }

  /** How far past the edge the next n accesses prefetch. */
  function Ahead(maxW: nat, w: nat, j: nat, n: nat): nat
    decreases n
  {
    if n == 0 then 0
    else
      var (w', j') := Further(maxW, w, j);
      (if j' == 0 then w' else 0) + Ahead(maxW, w', j', n - 1)
  }

  /** The k-th block inserted since the window was prefetched, when it did not fit:
      first the window, then the same blocks again, one miss at a time. */
  function Trail(edge: nat, w: nat, k: int): int {
    if k < w then edge - w + k else edge - w + (k - w)
  }

  /** A window just prefetched over a cache that holds none of its blocks. */
  lemma {:induction false} WindowFetched(c: nat, maxW: nat, q: seq<nat>, start: nat, w: nat, s: Sim, hi: int)
    requires 1 <= c && |q| <= c && 1 <= w <= maxW && start >= 1 && Clear(q, start, hi) && start + w <= hi
    requires s == Sim(InsertRange(c, q, start, w), Ra(w, start - 1, true, start + w, true))
    ensures MidRun(c, maxW, s, start, w, 0, hi)
  {
    FreshRange(c, q, start, w, hi);
  }

  lemma {:induction false} MidRunHit(c: nat, maxW: nat, s: Sim, next: nat, w: nat, j: nat, hi: int)
    requires MidRun(c, maxW, s, next, w, j, hi)
    ensures next in s.q <==> w <= c
  {
  }

  /** What the access itself makes of the cache. */
  lemma {:induction false} MidRunInsert(c: nat, maxW: nat, s: Sim, next: nat, w: nat, j: nat, hi: int)
    requires MidRun(c, maxW, s, next, w, j, hi)
    ensures var q := Insert(c, s.q, next);
            Clear(q, s.ra.edge, hi) && (j + 1 < w ==> MidCache(c, q, next + 1, s.ra.edge, w, j + 1, hi))
  {
    var q := Insert(c, s.q, next);
    if w <= c {
      assert q == s.q;
    } else {
      MidRunHit(c, maxW, s, next, w, j, hi);
      assert q == s.q[1..] + [next];
      forall i | 0 <= i < c
        ensures q[i] == Trail(s.ra.edge, w, w + (j + 1) - c + i)
      {
      }
    }
  }

  /** One access mid-run: it hits exactly if the window fits, and the run goes on. */
  lemma {:induction false} MidRunStep(c: nat, minW: nat, maxW: nat, s: Sim, next: nat, w: nat, j: nat, hi: int)
    requires MidRun(c, maxW, s, next, w, j, hi) && s.ra.edge + Ahead(maxW, w, j, 1) <= hi
    ensures next in s.q <==> w <= c
    ensures var s', (w', j') := Access(c, minW, maxW, s, next), Further(maxW, w, j);
            MidRun(c, maxW, s', next + 1, w', j', hi) && s'.ra.edge == s.ra.edge + Ahead(maxW, w, j, 1)
  {
    assert Ahead(maxW, Further(maxW, w, j).0, Further(maxW, w, j).1, 0) == 0;
    MidRunHit(c, maxW, s, next, w, j, hi);
    MidRunInsert(c, maxW, s, next, w, j, hi);
    var s', q := Access(c, minW, maxW, s, next), Insert(c, s.q, next);
    if j + 1 < w {
      assert s'.q == q;
    } else {
      var w' := Min(2 * w, maxW);
      assert Ahead(maxW, w, j, 1) == w' + Ahead(maxW, w', 0, 0);
      WindowFetched(c, maxW, q, s.ra.edge, w', s', hi);
    }
  }

  /** The state before the i-th access of a run from next on. */
  function Running(c: nat, minW: nat, maxW: nat, s: Sim, next: nat, i: nat): (r: Sim)
    requires c >= 1 && |s.q| <= c
    ensures |r.q| <= c
    decreases i
  {
    if i == 0 then s else Running(c, minW, maxW, Access(c, minW, maxW, s, next), next + 1, i - 1)
  }

  lemma {:induction false} HitsOfRun(c: nat, minW: nat, maxW: nat, s: Sim, next: nat, n: nat, i: nat)
    requires c >= 1 && |s.q| <= c && i < n
    ensures Hits(c, minW, maxW, s, Range(next, n))[i] <==> next + i in Running(c, minW, maxW, s, next, i).q
    decreases n
  {
    assert Range(next, n)[0] == next && Range(next, n)[1..] == Range(next + 1, n - 1);
    if i > 0 {
      HitsOfRun(c, minW, maxW, Access(c, minW, maxW, s, next), next + 1, n - 1, i - 1);
    }
  }

  lemma {:induction false} WindowFurther(maxW: nat, w: nat, j: nat, i: nat)
    requires 1 <= w <= maxW && j < w
    ensures var (w', j') := Further(maxW, w, j);
            1 <= w' && WindowOf(w', maxW, j' + i) == WindowOf(w, maxW, j + 1 + i)
  {
  }

  /** The edge after one more access, and what is left to prefetch. */
  lemma {:induction false} AheadStep(maxW: nat, w: nat, j: nat, n: nat)
    requires n > 0
    ensures var (w', j') := Further(maxW, w, j);
            Ahead(maxW, w, j, n) == Ahead(maxW, w, j, 1) + Ahead(maxW, w', j', n - 1)
  {
    var (w', j') := Further(maxW, w, j);
    assert Ahead(maxW, w', j', 0) == 0;
  }

  /** The i-th access from the middle of a run on. */
  lemma {:induction false} MidRunHits(c: nat, minW: nat, maxW: nat, s: Sim, next: nat, w: nat, j: nat, hi: int, i: nat)
    requires MidRun(c, maxW, s, next, w, j, hi) && s.ra.edge + Ahead(maxW, w, j, i) <= hi
    ensures next + i in Running(c, minW, maxW, s, next, i).q <==> WindowOf(w, maxW, j + i) <= c
    decreases i
  {
    if i == 0 {
      MidRunHit(c, maxW, s, next, w, j, hi);
    } else {
      AheadStep(maxW, w, j, i);
      MidRunStep(c, minW, maxW, s, next, w, j, hi);
      var (w', j') := Further(maxW, w, j);
      WindowFurther(maxW, w, j, i - 1);
      MidRunHits(c, minW, maxW, Access(c, minW, maxW, s, next), next + 1, w', j', hi, i - 1);
    }
  }

  lemma {:induction false} AheadGrows(maxW: nat, w: nat, j: nat, m: nat, n: nat)
    requires m <= n
    ensures Ahead(maxW, w, j, m) <= Ahead(maxW, w, j, n)
    decreases n
  {
    if m > 0 {
      var (w', j') := Further(maxW, w, j);
      AheadGrows(maxW, w', j', m - 1, n - 1);
    }
  }

  /** How many blocks a run of n accesses, and the prefetches made before the last of them, reach. */
  function Reach(minW: nat, maxW: nat, n: nat): nat {
    if n <= 2 then n else 2 + minW + Ahead(maxW, minW, 0, n - 3)
  }

  /** A run of n accesses from here finds none of the blocks it reaches, and does not continue the last one. */
  predicate Fresh(c: nat, minW: nat, maxW: nat, s: Sim, start: nat, n: nat) {
    1 <= c && |s.q| <= c && !Sequential(s.ra, start) && Clear(s.q, start, start + Reach(minW, maxW, n))
  }

  /** The first two accesses miss, */
  lemma {:induction false} RunBegins(c: nat, minW: nat, maxW: nat, s: Sim, start: nat, hi: int)
    requires 1 <= c && |s.q| <= c && !Sequential(s.ra, start) && Clear(s.q, start, hi) && start + 2 <= hi
    ensures var s1 := Access(c, minW, maxW, s, start);
            && start !in s.q && start + 1 !in s1.q && Clear(s1.q, start + 1, hi)
            && s1.ra == Ra(minW, start, true, s.ra.edge, false)
  {
    InsertNext(c, s.q, start, hi);
  }

  /** ... and the second prefetches the first window. */
  lemma {:induction false} RunGetsGoing(c: nat, minW: nat, maxW: nat, s: Sim, start: nat, hi: int)
    requires 1 <= c && |s.q| <= c && 1 <= minW <= maxW && start + 2 + minW <= hi && Clear(s.q, start + 1, hi)
    requires s.ra == Ra(minW, start, true, s.ra.edge, false)
    ensures MidRun(c, maxW, Access(c, minW, maxW, s, start + 1), start + 2, minW, 0, hi)
  {
    InsertNext(c, s.q, start + 1, hi);
    WindowFetched(c, maxW, Insert(c, s.q, start + 1), start + 2, minW, Access(c, minW, maxW, s, start + 1), hi);
  }

  lemma {:induction false} LaterHits(c: nat, minW: nat, maxW: nat, s: Sim, start: nat, n: nat, i: nat)
    requires Fresh(c, minW, maxW, s, start, n) && 1 <= minW <= maxW && 2 <= i < n
    ensures start + i in Running(c, minW, maxW, s, start, i).q <==> WindowOf(minW, maxW, i - 2) <= c
  {
    var hi := start + Reach(minW, maxW, n);
    RunBegins(c, minW, maxW, s, start, hi);
    var s1 := Access(c, minW, maxW, s, start);
    RunGetsGoing(c, minW, maxW, s1, start, hi);
    AheadGrows(maxW, minW, 0, i - 2, n - 3);
    var s2 := Access(c, minW, maxW, s1, start + 1);
    MidRunHits(c, minW, maxW, s2, start + 2, minW, 0, hi, i - 2);
    assert Running(c, minW, maxW, s, start, i) == Running(c, minW, maxW, s2, start + 2, i - 2);
  }

  /** The cliff: on a fresh sequential run the first two accesses miss, and every later one hits
      exactly when the window that prefetched it is no larger than the pool. */
  lemma {:induction false} SequentialRun(c: nat, minW: nat, maxW: nat, s: Sim, start: nat, n: nat, i: nat)
    requires Fresh(c, minW, maxW, s, start, n) && 1 <= minW <= maxW && i < n
    ensures Hits(c, minW, maxW, s, Range(start, n))[i] <==> i >= 2 && WindowOf(minW, maxW, i - 2) <= c
  {
    HitsOfRun(c, minW, maxW, s, start, n, i);
    if i == 0 {
      assert start !in s.q;
    } else if i == 1 {
      RunBegins(c, minW, maxW, s, start, start + Reach(minW, maxW, n));
    } else {
      LaterHits(c, minW, maxW, s, start, n, i);
    }
  }

  lemma {:induction false} FixedWindow(w: nat, i: nat)
    requires w >= 1
    ensures WindowOf(w, w, i) == w
    decreases i
  {
    if i >= w {
      FixedWindow(w, i - w);
    }
  }

  /** With a fixed window it is all or nothing. */
  lemma {:induction false} FixedAllOrNothing(c: nat, w: nat, s: Sim, start: nat, n: nat)
    requires Fresh(c, w, w, s, start, n) && w >= 1
    ensures Count(Hits(c, w, w, s, Range(start, n))) == if w <= c && n >= 2 then n - 2 else 0
  {
    var flags := Hits(c, w, w, s, Range(start, n));
    forall i | 0 <= i < n ensures flags[i] == (i >= 2 && w <= c) {
      SequentialRun(c, w, w, s, start, n, i);
      if i >= 2 { FixedWindow(w, i - 2); }
    }
    CountBand(flags, 2, if w <= c then n else 2);
  }

  /** The sum of the doubling windows, from w on, that fit in the pool. */
  function FitSum(w: nat, maxW: nat, c: nat): nat
    requires 1 <= w <= maxW && c < maxW
    decreases maxW - w
  {
    if w > c then 0 else w + FitSum(Min(2 * w, maxW), maxW, c)
  }

  /** Windows only grow, so those that fit come first. */
  lemma {:induction false} FitsFirst(w: nat, maxW: nat, c: nat, i: nat)
    requires 1 <= w <= maxW && c < maxW
    ensures WindowOf(w, maxW, i) <= c <==> i < FitSum(w, maxW, c)
    decreases i
  {
    if w > c {
      WindowGrows(w, maxW, i);
    } else if i >= w {
      FitsFirst(Min(2 * w, maxW), maxW, c, i - w);
    }
  }

  lemma {:induction false} WindowGrows(w: nat, maxW: nat, i: nat)
    requires 1 <= w <= maxW
    ensures w <= WindowOf(w, maxW, i) <= maxW
    decreases i
  {
    if i >= w {
      WindowGrows(Min(2 * w, maxW), maxW, i - w);
    }
  }

  /** Flags that are true exactly on [lo, hi). */
  lemma {:induction false} CountBand(flags: seq<bool>, lo: nat, hi: nat)
    requires forall i :: 0 <= i < |flags| ==> (flags[i] <==> lo <= i < hi)
    ensures Count(flags) == if lo < Min(hi, |flags|) then Min(hi, |flags|) - lo else 0
    decreases flags
  {
    if flags != [] {
      assert forall i :: 0 <= i < |flags| - 1 ==> flags[1..][i] == flags[i + 1];
      CountBand(flags[1..], if lo == 0 then 0 else lo - 1, if hi == 0 then 0 else hi - 1);
    }
  }

  /** The adaptive prefetcher's hits on a fresh sequential run of n accesses, exactly: all but
      two if every window fits, and otherwise no more than the windows that fit can hold. */
  lemma {:induction false} AdaptiveHits(c: nat, minW: nat, maxW: nat, s: Sim, start: nat, n: nat)
    requires Fresh(c, minW, maxW, s, start, n) && 1 <= minW <= maxW && n >= 2
    ensures Count(Hits(c, minW, maxW, s, Range(start, n)))
            == if maxW <= c then n - 2 else Min(n - 2, FitSum(minW, maxW, c))
  {
    var flags := Hits(c, minW, maxW, s, Range(start, n));
    var hi := if maxW <= c then n else 2 + FitSum(minW, maxW, c);
    forall i | 0 <= i < n ensures flags[i] <==> 2 <= i < hi {
      SequentialRun(c, minW, maxW, s, start, n, i);
      if i >= 2 {
        if maxW <= c { WindowGrows(minW, maxW, i - 2); } else { FitsFirst(minW, maxW, c, i - 2); }
      }
    }
    CountBand(flags, 2, hi);
  }

  /** A block that stands alone, with nothing prefetched. */
  lemma {:induction false} LoneAccess(c: nat, w: nat, q: seq<nat>, ra: Ra, block: nat)
    requires c >= 1 && |q| < c && block !in q && !Sequential(ra, block)
    ensures Access(c, w, w, Sim(q, ra), block) == Sim(q + [block], Ra(w, block, true, ra.edge, false))
  {
  }

  /** Block 2 is resident, so prefetching 2 and 3 only inserts 3, which evicts it. */
  lemma {:induction false} StaleWindow()
    ensures Access(4, 2, 2, Sim([2, 50, 0], Ra(2, 0, true, 0, false)), 1) == Sim([50, 0, 1, 3], Ra(2, 1, true, 4, true))
  {
    var q := [2, 50, 0, 1];
    assert InsertRange(4, q, 2, 0) == q && Insert(4, q, 2) == q && Insert(4, q, 3) == [50, 0, 1, 3];
    assert InsertRange(4, q, 2, 1) == q && InsertRange(4, q, 2, 2) == [50, 0, 1, 3];
  }

  const BEFORE: Sim := Sim([], EMPTY.(window := 2))

  lemma {:induction false} StaleTwo()
    ensures After(4, 2, 2, BEFORE, [2, 50]) == Sim([2, 50], Ra(2, 50, true, 0, false))
  {
    LoneAccess(4, 2, [], BEFORE.ra, 2);
    TraceSnoc(4, 2, 2, BEFORE, [], 2);
    assert [] + [2] == [2];
    TraceSnoc(4, 2, 2, BEFORE, [2], 50);
    assert [2] + [50] == [2, 50];
    LoneAccess(4, 2, [2], Ra(2, 2, true, 0, false), 50);
  }

  lemma {:induction false} StaleFour()
    ensures After(4, 2, 2, BEFORE, [2, 50, 0, 1]) == Sim([50, 0, 1, 3], Ra(2, 1, true, 4, true))
  {
    StaleTwo();
    TraceSnoc(4, 2, 2, BEFORE, [2, 50], 0);
    assert [2, 50] + [0] == [2, 50, 0];
    LoneAccess(4, 2, [2, 50], Ra(2, 50, true, 0, false), 0);
    TraceSnoc(4, 2, 2, BEFORE, [2, 50, 0], 1);
    assert [2, 50, 0] + [1] == [2, 50, 0, 1];
    StaleWindow();
  }

  /** Why the run 0, 1, 2 must be fresh: block 2 is still resident from before, so prefetching it does not renew its
      place, block 3 pushes it out, and the last access misses although the window of 2 fits in a pool of 4. */
  lemma {:induction false} StaleResidentMisses()
    ensures !Hits(4, 2, 2, Sim([], EMPTY.(window := 2)), [2, 50, 0, 1, 2])[4] && WindowOf(2, 2, 0) <= 4
  {
    StaleFour();
    TraceSnoc(4, 2, 2, BEFORE, [2, 50, 0, 1], 2);
    assert [2, 50, 0, 1] + [2] == [2, 50, 0, 1, 2];
  }
}
