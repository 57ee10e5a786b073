/** The FIFO block cache of prefetch-sim: a ring of slots that evicts in insertion order. */
module FifoPool {

  import opened Lists

  /** The reference: a queue of at most `capacity` blocks, oldest first.  A resident block
      keeps its place. */
  function Insert(capacity: nat, q: seq<nat>, block: nat): seq<nat>
    requires capacity >= 1 && |q| <= capacity
  {
    if block in q then q else if |q| < capacity then q + [block] else q[1..] + [block]
  }

  /** The blocks start, start+1, ..., start+n-1 inserted one after the other. */
  function InsertRange(capacity: nat, q: seq<nat>, start: nat, n: nat): (r: seq<nat>)
    requires capacity >= 1 && |q| <= capacity
    ensures |r| <= capacity
    decreases n
  {
    if n == 0 then q else Insert(capacity, InsertRange(capacity, q, start, n - 1), start + n - 1)
  }

  lemma {:induction false} InsertKeepsDistinct(capacity: nat, q: seq<nat>, block: nat)
    requires capacity >= 1 && |q| <= capacity && Distinct(q)
    ensures Distinct(Insert(capacity, q, block)) && |Insert(capacity, q, block)| <= capacity
  {
  }

  /** The slots read from the eviction position around. */
  function Ring(slots: seq<nat>, evictPos: nat): seq<nat>
    requires evictPos <= |slots|
  {
    slots[evictPos..] + slots[..evictPos]
  }

  /** Overwriting the slot at the eviction position drops the oldest and adds a newest. */
  lemma {:induction false} RingEvicts(slots: seq<nat>, evictPos: nat, block: nat)
    requires evictPos < |slots|
    ensures Ring(slots[evictPos := block], (evictPos + 1) % |slots|) == Ring(slots, evictPos)[1..] + [block]
  {
    if evictPos + 1 == |slots| {
      assert (evictPos + 1) % |slots| == 0;
    } else {
      assert (evictPos + 1) % |slots| == evictPos + 1;
    }
  }

  /** No block from lo up to hi is resident. */
  predicate Clear(q: seq<nat>, lo: int, hi: int) {
    forall x :: x in q ==> x < lo || hi <= x
  }

  lemma {:induction false} InsertNext(capacity: nat, q: seq<nat>, start: nat, hi: int)
    requires capacity >= 1 && |q| <= capacity && Clear(q, start, hi) && start < hi
    ensures var r := Insert(capacity, q, start);
            Clear(r, start + 1, hi) && r == (if |q| < capacity then q else q[1..]) + [start]
  {
    assert start !in q;
    var r := Insert(capacity, q, start);
    forall i | 0 <= i < |r|
      ensures r[i] < start + 1 || hi <= r[i]
    {
      var j := if |q| < capacity then i else i + 1;
      assert j < |q| ==> r[i] == q[j] && q[j] in q;
    }
  }

  /** Inserting a range of blocks none of which is resident: the result is the tail of the
      queue followed by the range. */
  lemma {:induction false} FreshRangeAt(capacity: nat, q: seq<nat>, start: nat, n: nat)
    requires capacity >= 1 && |q| <= capacity && Clear(q, start, start + n)
    ensures var r := InsertRange(capacity, q, start, n);
            && |r| == (if |q| + n <= capacity then |q| + n else capacity)
            && forall i :: 0 <= i < |r| ==>
                 r[i] == (if i >= |r| - n then start + n - |r| + i else q[|q| + n - |r| + i])
    decreases n
  {
    if n > 0 {
      FreshRangeAt(capacity, q, start, n - 1);
      var r, b := InsertRange(capacity, q, start, n - 1), start + n - 1;
      forall i | 0 <= i < |r|
        ensures r[i] != b
      {
        assert i < |r| - (n - 1) ==> r[i] in q;
      }
    }
  }

  /** A fresh range that fits is resident afterwards; of one that does not, the end is.  Nothing else is new. */
  lemma {:induction false} FreshRange(capacity: nat, q: seq<nat>, start: nat, n: nat, hi: int)
    requires capacity >= 1 && |q| <= capacity && Clear(q, start, hi) && start + n <= hi
    ensures Clear(InsertRange(capacity, q, start, n), start + n, hi)
    ensures n <= capacity ==> forall x :: start <= x < start + n ==> x in InsertRange(capacity, q, start, n)
    ensures n >= capacity ==>
              var r := InsertRange(capacity, q, start, n);
              |r| == capacity && forall i :: 0 <= i < |r| ==> r[i] == start + n - capacity + i
  {
    FreshRangeAt(capacity, q, start, n);
    var r := InsertRange(capacity, q, start, n);
    forall i | 0 <= i < |r| ensures r[i] < start + n || hi <= r[i] {
      if i < |r| - n {
        assert q[|q| + n - |r| + i] in q;
      }
    }
    if n <= capacity {
      forall x | start <= x < start + n ensures x in r {
        assert r[|r| - n + (x - start)] == x;
      }
    }
  }

  class BufferPool {
    const capacity: nat
    const slots: array<nat>
    var count: nat
    var evictPos: nat
    var hits: nat
    var misses: nat

    ghost predicate Valid()
      reads this, slots
    {
      && slots.Length == capacity && 1 <= capacity && evictPos <= count <= capacity && evictPos < capacity
      && (count < capacity ==> evictPos == 0)
      && Distinct(Queue())
    }

    /** The resident blocks, oldest first. */
    ghost function Queue(): seq<nat>
      reads this, slots
      requires evictPos <= count <= slots.Length
    {
      Ring(slots[..count], evictPos)
    }

    constructor (capacity: nat)
      requires capacity >= 1
      ensures Valid() && fresh(slots) && this.capacity == capacity && Queue() == [] && hits == 0 && misses == 0
    {
      this.capacity := capacity;
      slots := new nat[capacity];
      count, evictPos, hits, misses := 0, 0, 0, 0;
    }

    /** buffer_pool_lookup */
    method Lookup(block: nat) returns (hit: bool)
      requires Valid()
      modifies this`hits, this`misses
      ensures Valid() && Queue() == old(Queue())
      ensures hit <==> block in Queue()
      ensures hits == old(hits) + (if hit then 1 else 0)
      ensures misses == old(misses) + (if hit then 0 else 1)
    {
      hit := Scan(block);
      if hit {
        hits := hits + 1;
      } else {
        misses := misses + 1;
      }
    }

    /** The scan over slots[0..count) that lookup and insert both make. */
    method Scan(block: nat) returns (found: bool)
      requires Valid()
      ensures found <==> block in Queue()
    {
      var i := 0;
      while i < count
        invariant i <= count
        invariant block !in slots[..i]
      {
        if slots[i] == block {
          assert i >= evictPos ==> Queue()[i - evictPos] == block;
          assert i < evictPos ==> Queue()[count - evictPos + i] == block;
          return true;
        }
        i := i + 1;
      }
      assert forall j :: 0 <= j < |Queue()| ==> Queue()[j] in slots[..count];
      return false;
    }

    /** buffer_pool_insert */
    method InsertBlock(block: nat)
      requires Valid()
      modifies this`count, this`evictPos, slots
      ensures Valid() && Queue() == Insert(capacity, old(Queue()), block)
    {
      var found := Scan(block);
      if found {
        return;
      }
      ghost var q, before := Queue(), slots[..count];
      InsertKeepsDistinct(capacity, q, block);
      if count < capacity {
        slots[count] := block;
        count := count + 1;
        assert slots[..count] == before + [block];
        assert Queue() == q + [block];
      } else {
        RingEvicts(before, evictPos, block);
        slots[evictPos] := block;
        assert slots[..count] == before[evictPos := block];
        evictPos := (evictPos + 1) % capacity;
      }
    }

    /** buffer_pool_prefetch_range */
    method PrefetchRange(start: nat, n: nat)
      requires Valid()
      modifies this`count, this`evictPos, slots
      ensures Valid() && Queue() == InsertRange(capacity, old(Queue()), start, n)
    {
      ghost var q := Queue();
      assert |q| <= capacity;
      for i := 0 to n
        invariant Valid()
        invariant Queue() == InsertRange(capacity, q, start, i)
      {
        InsertBlock(start + i);
      }
    }
  }
}
