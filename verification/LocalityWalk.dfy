/**
 * The read-around benchmark's workload: a bounded random walk.  A pool that holds the
 * part of the window the walk can step back into misses only once.
 */
module LocalityWalk {
  import opened LruPool
  import opened Lists
  import opened ReadAround

  predicate Near(a: nat, b: nat, jitter: nat) {
    a <= b + jitter && b <= a + jitter
  }

  /** Every trace of the generator: inside the file, each step at most `jitter` blocks. */
  ghost predicate IsWalk(trace: seq<nat>, total: nat, jitter: nat) {
    && (forall i :: 0 <= i < |trace| ==> trace[i] < total)
    && (forall i, j :: 0 <= i && j == i + 1 && j < |trace| ==> Near(trace[i], trace[j], jitter))
  }

  predicate InRegion(trace: seq<nat>, lo: nat, width: nat) {
    forall i :: 0 <= i < |trace| ==> lo <= trace[i] < lo + width
  }

  function Distance(x: int, y: int): nat {
    if x <= y then y - x else x - y
  }

  /** Where an answer r of rand() sends the walk from a. */
  function Target(a: nat, jitter: nat, r: nat): (t: int)
    ensures a - jitter <= t <= a + jitter
  {
    a - jitter + r % (2 * jitter + 1)
  }

  /** From a, an answer r of rand() takes the walk by r's offset between -jitter and jitter, or as near to that as the
      region allows. */
  ghost predicate Follows(a: nat, b: nat, lo: nat, width: nat, jitter: nat, r: nat) {
    var target := Target(a, jitter, r);
    && lo <= b < lo + width
    && forall y: nat :: lo <= y < lo + width ==> Distance(b, target) <= Distance(y, target)
  }

  /** generate_locality_walk; rand lists the answers of rand(). */
  method GenerateLocalityWalk(out: array<nat>, rand: seq<nat>, total: nat, regionWidth: nat, jitter: nat)
    requires 1 <= regionWidth <= total && |rand| >= out.Length + 2
    modifies out
    ensures IsWalk(out[..], total, jitter)
    ensures var lo := rand[0] % (total - regionWidth + 1);
            && InRegion(out[..], lo, regionWidth)
            && (out.Length > 0 ==> out[0] == lo + rand[1] % regionWidth)
            && (forall k, l :: 0 <= k && l == k + 1 && l < out.Length ==>
                  Follows(out[k], out[l], lo, regionWidth, jitter, rand[k + 2]))
  {
    var regionStart := rand[0] % (total - regionWidth + 1);
    var regionEnd := regionStart + regionWidth - 1;
    var pos := regionStart + rand[1] % regionWidth;
    for i := 0 to out.Length
      invariant regionStart <= pos <= regionEnd && (i == 0 ==> pos == regionStart + rand[1] % regionWidth)
      invariant forall k :: 0 <= k < i ==> regionStart <= out[k] <= regionEnd
      invariant i > 0 ==> out[0] == regionStart + rand[1] % regionWidth
      invariant forall k, l :: 0 <= k && l == k + 1 && l < i ==>
                  Follows(out[k], out[l], regionStart, regionWidth, jitter, rand[k + 2])
      invariant i > 0 ==> Follows(out[i - 1], pos, regionStart, regionWidth, jitter, rand[i + 1])
    {
      out[i] := pos;
      var step := if jitter == 0 then 0 else rand[i + 2] % (2 * jitter + 1) - jitter;
      var next := pos + step;
      if next < regionStart {
        next := regionStart;
      } else if next > regionEnd {
        next := regionEnd;
      }
      pos := next;
    }
    forall k, l | 0 <= k && l == k + 1 && l < out.Length
      ensures Near(out[k], out[l], jitter)
    {
      StepIsNear(out[k], out[l], regionStart, regionWidth, jitter, rand[k + 2]);
    }
  }

  lemma {:induction false} StepIsNear(a: nat, b: nat, lo: nat, width: nat, jitter: nat, r: nat)
    requires lo <= a < lo + width && Follows(a, b, lo, width, jitter, r)
    ensures Near(a, b, jitter)
  {
    var target := Target(a, jitter, r);
    assert Distance(b, target) <= Distance(a, target);
    if b > a {
      assert Distance(b, target) <= Distance(b - 1, target);
    } else if b < a {
      assert Distance(b, target) <= Distance(b + 1, target);
    }
  }

  /** From an access at p, a block within the jitter is still resident. */
  lemma {:induction false} NextIsResident(c: nat, radius: nat, total: nat, jitter: nat, r: seq<nat>, p: nat, x: nat)
    requires |r| <= c && p < total && x < total && Near(p, x, jitter)
    requires jitter <= radius && c >= radius + jitter + 1
    ensures x in Access(c, radius, total, r, p)
  {
    var lo, n := First(radius, p), Width(radius, total, p);
    SweepFront(c, Touch(c, r, p), lo, n);
    assert 0 <= lo + n - 1 - x < n && lo + n - 1 - x < c;
    assert Access(c, radius, total, r, p)[lo + n - 1 - x] == x;
  }

  /** Every access of the walk but the first hits, so there is at most one miss from any pool,
      and exactly one from an empty pool. */
  lemma {:induction false} WalkMisses(c: nat, radius: nat, total: nat, jitter: nat, trace: seq<nat>,
      h: seq<seq<nat>>, n: nat)
    requires IsWalk(trace, total, jitter) && IsHistory(c, radius, total, trace, h) && n <= |trace|
    requires jitter <= radius && c >= radius + jitter + 1
    ensures n > 0 ==> Hits(trace, h, n) == if trace[0] in h[0] then n else n - 1
    decreases n
  {
    if n > 1 {
      WalkMisses(c, radius, total, jitter, trace, h, n - 1);
      assert Turned(c, radius, total, trace, h, n - 2);
      assert Near(trace[n - 2], trace[n - 1], jitter);
      NextIsResident(c, radius, total, jitter, h[n - 2], trace[n - 2], trace[n - 1]);
    }
  }

  /** One block less is too little: a step back by the jitter from the middle of a file that is
      long enough finds its block evicted. */
  lemma {:induction false} CapacityIsTight(c: nat, radius: nat, total: nat, jitter: nat)
    requires 1 <= c < radius + jitter + 1 && jitter <= radius && 2 * radius < total
    ensures IsWalk([radius, radius - jitter], total, jitter)
    ensures radius - jitter !in Access(c, radius, total, [], radius)
  {
    var q := Access(c, radius, total, [], radius);
    assert First(radius, radius) == 0 && Width(radius, total, radius) == 2 * radius + 1;
    SweepFront(c, Touch(c, [], radius), 0, 2 * radius + 1);
    assert forall i :: 0 <= i < |q| ==> q[i] == 2 * radius - i;
  }

  /** One repeat of the benchmark: generate a walk, run it on a new pool. */
  method Repeat(rand: seq<nat>, accesses: nat, total: nat, regionWidth: nat, jitter: nat, capacity: nat, radius: nat)
    returns (hits: nat, misses: nat)
    requires 1 <= regionWidth <= total && |rand| >= accesses + 2 && capacity >= 1
    ensures hits + misses == accesses
    ensures jitter <= radius && capacity >= radius + jitter + 1 ==> misses == if accesses == 0 then 0 else 1
  {
    var blocks := new nat[accesses];
    GenerateLocalityWalk(blocks, rand, total, regionWidth, jitter);
    ghost var h;
    hits, misses, h := Run(capacity, radius, total, blocks[..]);
    if jitter <= radius && capacity >= radius + jitter + 1 {
      WalkMisses(capacity, radius, total, jitter, blocks[..], h, accesses);
    }
  }
}
