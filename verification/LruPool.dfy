/** The LRU block cache of prefetch-sim: a table of slots with a last-use timestamp each. */
module LruPool {

  import opened Lists

  /** The first n blocks, without b. */
  function Keep(r: seq<nat>, b: nat, n: nat): (q: seq<nat>)
    requires n <= |r|
    ensures |q| <= n
    decreases n
  {
    if n == 0 then [] else if r[n - 1] == b then Keep(r, b, n - 1) else Keep(r, b, n - 1) + [r[n - 1]]
  }

  function Remove(r: seq<nat>, b: nat): (q: seq<nat>)
    ensures |q| <= |r|
  {
    Keep(r, b, |r|)
  }

  /** The reference: the resident blocks in order of last use, most recent first. */
  function Touch(capacity: nat, r: seq<nat>, b: nat): (q: seq<nat>)
    requires capacity >= 1 && |r| <= capacity
    ensures |q| <= capacity
  {
    var q := [b] + Remove(r, b);
    if |q| > capacity then q[..capacity] else q
  }

  function TouchRange(capacity: nat, r: seq<nat>, start: nat, n: nat): (q: seq<nat>)
    requires capacity >= 1 && |r| <= capacity
    ensures |q| <= capacity
    decreases n
  {
    if n == 0 then r else Touch(capacity, TouchRange(capacity, r, start, n - 1), start + n - 1)
  }

  lemma {:induction false} KeepAt(r: seq<nat>, p: nat, n: nat)
    requires Distinct(r) && p < |r| && n <= |r|
    ensures Keep(r, r[p], n) == if n <= p then r[..n] else r[..p] + r[p + 1..n]
    decreases n
  {
    if n > 0 {
      KeepAt(r, p, n - 1);
    }
  }

  lemma {:induction false} RemoveAt(r: seq<nat>, p: nat)
    requires Distinct(r) && p < |r|
    ensures Remove(r, r[p]) == r[..p] + r[p + 1..]
  {
    KeepAt(r, p, |r|);
  }

  lemma {:induction false} KeepAbsent(r: seq<nat>, b: nat, n: nat)
    requires b !in r && n <= |r|
    ensures Keep(r, b, n) == r[..n]
    decreases n
  {
    if n > 0 {
      KeepAbsent(r, b, n - 1);
      assert r[..n] == r[..n - 1] + [r[n - 1]];
    }
  }

  lemma {:induction false} RemoveAbsent(r: seq<nat>, b: nat)
    requires b !in r
    ensures Remove(r, b) == r
  {
    KeepAbsent(r, b, |r|);
  }

  function MoveToFront(r: seq<nat>, p: nat): (q: seq<nat>)
    requires p < |r|
    ensures |q| == |r| && q[0] == r[p]
    ensures forall j :: 1 <= j < |r| ==> q[j] == r[if j <= p then j - 1 else j]
  {
    [r[p]] + r[..p] + r[p + 1..]
  }

  lemma {:induction false} TouchResident(capacity: nat, r: seq<nat>, p: nat)
    requires capacity >= 1 && |r| <= capacity && Distinct(r) && p < |r|
    ensures Touch(capacity, r, r[p]) == MoveToFront(r, p)
  {
    RemoveAt(r, p);
  }

  lemma {:induction false} TouchAbsent(capacity: nat, r: seq<nat>, b: nat)
    requires capacity >= 1 && |r| <= capacity && b !in r
    ensures Touch(capacity, r, b) == [b] + if |r| < capacity then r else r[..capacity - 1]
  {
    RemoveAbsent(r, b);
  }

  lemma {:induction false} FrontDistinct(r: seq<nat>, p: nat)
    requires Distinct(r) && p < |r|
    ensures Distinct(MoveToFront(r, p))
  {
  }

  lemma {:induction false} ConsDistinct(r: seq<nat>, b: nat, n: nat)
    requires Distinct(r) && b !in r && n <= |r|
    ensures Distinct([b] + r[..n])
  {
  }

  lemma {:induction false} TouchKeepsDistinct(capacity: nat, r: seq<nat>, b: nat)
    requires capacity >= 1 && |r| <= capacity && Distinct(r)
    ensures Distinct(Touch(capacity, r, b))
  {
    if b in r {
      var p :| 0 <= p < |r| && r[p] == b;
      FrontDistinct(r, p);
      TouchResident(capacity, r, p);
    } else {
      ConsDistinct(r, b, if |r| < capacity then |r| else capacity - 1);
      assert r[..|r|] == r;
      TouchAbsent(capacity, r, b);
    }
  }

  // ---------------------------------------------------------------- the table

  /** The table: the first |order| slots are in use, and `order` lists them, latest timestamp first. */
  ghost predicate Rep(slots: seq<nat>, used: seq<nat>, order: seq<nat>, clock: nat) {
    && |order| <= |slots| == |used| && Distinct(order)
    && (forall i, j :: 0 <= i < j < |order| ==> slots[i] != slots[j])
    && (forall i :: 0 <= i < |order| ==> order[i] < |order|)
    && (forall i, j :: 0 <= i < j < |order| ==> used[order[i]] > used[order[j]])
    && (forall k :: 0 <= k < |order| ==> used[k] <= clock)
  }

  ghost function Recency(slots: seq<nat>, order: seq<nat>): (r: seq<nat>)
    requires forall i :: 0 <= i < |order| ==> order[i] < |slots|
    ensures |r| == |order| && forall i :: 0 <= i < |r| ==> r[i] == slots[order[i]]
  {
    seq(|order|, i requires 0 <= i < |order| => slots[order[i]])
  }

  lemma {:induction false} RecencyDistinct(slots: seq<nat>, used: seq<nat>, order: seq<nat>, clock: nat)
    requires Rep(slots, used, order, clock)
    ensures Distinct(Recency(slots, order))
    ensures forall b :: b in Recency(slots, order) <==> b in slots[..|order|]
  {
    var r := Recency(slots, order);
    forall b | b in slots[..|order|] ensures b in r {
      var k :| 0 <= k < |order| && slots[k] == b;
      Onto(order, k);
      var i :| 0 <= i < |order| && order[i] == k;
      assert r[i] == b;
    }
  }

  lemma {:induction false} SlotRank(slots: seq<nat>, used: seq<nat>, order: seq<nat>, clock: nat, i: nat)
    returns (p: nat)
    requires Rep(slots, used, order, clock) && i < |order|
    ensures p < |order| && order[p] == i
  {
    Onto(order, i);
    p :| 0 <= p < |order| && order[p] == i;
  }

  /** A new timestamp moves a slot to the front of the order. */
  lemma {:induction false} Stamped(slots: seq<nat>, used: seq<nat>, order: seq<nat>, clock: nat, p: nat)
    requires Rep(slots, used, order, clock) && p < |order|
    ensures Rep(slots, used[order[p] := clock + 1], MoveToFront(order, p), clock + 1)
    ensures Recency(slots, MoveToFront(order, p)) == MoveToFront(Recency(slots, order), p)
  {
    var order' := MoveToFront(order, p);
    assert forall j :: 1 <= j < |order| ==> order'[j] != order[p];
  }

  /** A block put in a free slot. */
  lemma {:induction false} Appended(slots: seq<nat>, used: seq<nat>, order: seq<nat>, clock: nat, b: nat)
    requires Rep(slots, used, order, clock) && |order| < |slots| && b !in slots[..|order|]
    ensures var n := |order|;
            && Rep(slots[n := b], used[n := clock + 1], [n] + order, clock + 1)
            && Recency(slots[n := b], [n] + order) == [b] + Recency(slots, order)
  {
    assert forall k :: 0 <= k < |order| ==> slots[k] in slots[..|order|];
  }

  /** A block put in place of the least recently used one. */
  lemma {:induction false} Evicted(slots: seq<nat>, used: seq<nat>, order: seq<nat>, clock: nat, b: nat)
    requires Rep(slots, used, order, clock) && b !in slots[..|order|] && order != []
    ensures var n := |order| - 1;
            var v, order' := order[n], MoveToFront(order, n);
            && Rep(slots[v := b], used[v := clock + 1], order', clock + 1)
            && Recency(slots[v := b], order') == [b] + Recency(slots, order)[..n]
  {
    var n := |order| - 1;
    Stamped(slots, used, order, clock, n);
    assert forall k :: 0 <= k < |order| ==> slots[k] in slots[..|order|];
    assert forall j :: 1 <= j < |order| ==> MoveToFront(order, n)[j] != order[n];
  }

  class LruBufferPool {
    const capacity: nat
    const slots: array<nat>
    const lastUsed: array<nat>
    var count: nat
    var clock: nat
    var hits: nat
    var misses: nat
    ghost var order: seq<nat>

    ghost predicate Valid()
      reads this, slots, lastUsed
    {
      && slots.Length == lastUsed.Length == capacity && 1 <= capacity && slots != lastUsed && count == |order|
      && Rep(slots[..], lastUsed[..], order, clock)
    }

    /** The resident blocks, most recently used first. */
    ghost function Blocks(): (r: seq<nat>)
      reads this, slots, lastUsed
      requires Valid()
      ensures |r| <= capacity
    {
      Recency(slots[..], order)
    }

    constructor (capacity: nat)
      requires capacity >= 1
      ensures Valid() && fresh(slots) && fresh(lastUsed) && this.capacity == capacity
      ensures Blocks() == [] && hits == 0 && misses == 0
    {
      this.capacity := capacity;
      slots := new nat[capacity];
      lastUsed := new nat[capacity];
      count, clock, hits, misses, order := 0, 0, 0, 0, [];
    }

    /** The scan over the slots in use: the index of the block, or count. */
    method Scan(block: nat) returns (i: nat)
      requires Valid()
      ensures i <= count && (i < count ==> slots[i] == block)
      ensures i < count <==> block in Blocks()
    {
      RecencyDistinct(slots[..], lastUsed[..], order, clock);
      i := 0;
      while i < count
        invariant i <= count
        invariant forall k :: 0 <= k < i ==> slots[k] != block
      {
        if slots[i] == block {
          assert slots[..][..count][i] == block;
          return;
        }
        i := i + 1;
      }
    }

    /** The clock tick that makes slot i the most recent. */
    method Stamp(i: nat)
      requires Valid() && i < count
      modifies this`clock, this`order, lastUsed
      ensures Valid() && Blocks() == Touch(capacity, old(Blocks()), slots[i])
    {
      ghost var s, used, r := slots[..], lastUsed[..], Blocks();
      ghost var p := SlotRank(s, used, order, clock, i);
      Stamped(s, used, order, clock, p);
      assert Touch(capacity, r, s[i]) == MoveToFront(r, p) by {
        RecencyDistinct(s, used, order, clock);
        TouchResident(capacity, r, p);
      }
      clock := clock + 1;
      lastUsed[i] := clock;
      order := MoveToFront(order, p);
      assert slots[..] == s && lastUsed[..] == used[i := clock];
    }

    /** lru_buffer_pool_lookup */
    method Lookup(block: nat) returns (hit: bool)
      requires Valid()
      modifies this`clock, this`order, this`hits, this`misses, lastUsed
      ensures Valid()
      ensures hit <==> block in old(Blocks())
      ensures Blocks() == if hit then Touch(capacity, old(Blocks()), block) else old(Blocks())
      ensures hits == old(hits) + (if hit then 1 else 0)
      ensures misses == old(misses) + (if hit then 0 else 1)
    {
      var i := Scan(block);
      hit := i < count;
      if hit {
        hits := hits + 1;
        Stamp(i);
      } else {
        misses := misses + 1;
      }
    }

    /** The search for the smallest timestamp. */
    method Victim() returns (v: nat)
      requires Valid() && count == capacity
      ensures v < count && v == order[count - 1]
    {
      v := 0;
      for i := 1 to count
        invariant v < count
        invariant forall k :: 0 <= k < i ==> lastUsed[v] <= lastUsed[k]
      {
        if lastUsed[i] < lastUsed[v] {
          v := i;
        }
      }
      ghost var p := SlotRank(slots[..], lastUsed[..], order, clock, v);
    }

    /** There is a free slot. */
    method Append(block: nat)
      requires Valid() && count < capacity && block !in slots[..count]
      modifies this`count, this`clock, this`order, slots, lastUsed
      ensures Valid() && Blocks() == [block] + old(Blocks())
    {
      ghost var s, used := slots[..], lastUsed[..];
      Appended(s, used, order, clock, block);
      Overwrite(count, block);
      order := [count] + order;
      count := count + 1;
    }

    /** There is none: overwrite the least recently used. */
    method Replace(block: nat)
      requires Valid() && count == capacity && block !in slots[..count]
      modifies this`clock, this`order, slots, lastUsed
      ensures Valid() && Blocks() == [block] + old(Blocks())[..capacity - 1]
    {
      ghost var s, used, o, n: nat := slots[..], lastUsed[..], order, count - 1;
      assert s[..|o|] == slots[..count];
      Evicted(s, used, o, clock, block);
      var victim := Victim();
      ghost var o', stamp: nat := MoveToFront(o, n), clock + 1;
      assert Rep(s[victim := block], used[victim := stamp], o', stamp);
      assert Recency(s[victim := block], o') == [block] + Recency(s, o)[..n];
      Overwrite(victim, block);
      order := o';
    }

    /** Put the block into a slot, with a new stamp. */
    method Overwrite(i: nat, block: nat)
      requires i < slots.Length == lastUsed.Length && slots != lastUsed
      modifies this`clock, slots, lastUsed
      ensures clock == old(clock) + 1 && slots[..] == old(slots[..])[i := block]
      ensures lastUsed[..] == old(lastUsed[..])[i := clock]
    {
      clock := clock + 1;
      slots[i] := block;
      lastUsed[i] := clock;
    }

    /** lru_buffer_pool_insert */
    method Insert(block: nat)
      requires Valid()
      modifies this`count, this`clock, this`order, slots, lastUsed
      ensures Valid() && Blocks() == Touch(capacity, old(Blocks()), block)
    {
      var i := Scan(block);
      if i < count {
        Stamp(i);
        return;
      }
      RecencyDistinct(slots[..], lastUsed[..], order, clock);
      TouchAbsent(capacity, Blocks(), block);
      if count < capacity {
        Append(block);
      } else {
        Replace(block);
      }
    }

    /** lru_buffer_pool_prefetch_range */
    method PrefetchRange(start: nat, n: nat)
      requires Valid()
      modifies this`count, this`clock, this`order, slots, lastUsed
      ensures Valid() && Blocks() == TouchRange(capacity, old(Blocks()), start, n)
    {
      ghost var r := Blocks();
      for i := 0 to n
        invariant Valid()
        invariant Blocks() == TouchRange(capacity, r, start, i)
      {
        Insert(start + i);
      }
    }
  }
}
