/**
 * The request lists of a plug in memory: nodes chained by rq_next between head and tail.
 * blk_mq_extract_queue_requests walks such a list with a pointer to the link it came by, and moves the
 * requests of one queue over to a second list, both in place.  Addresses are numbers, 0 is NULL.
 */
module RqChains {

  import opened Lists
  import opened Chains
  import opened Dispatch

  type RqMemory = Memory<Rq>

  function RequestAt(mem: RqMemory, a: nat): Rq {
    if a in mem then mem[a].value else Rq(0, 0, 0, 0, false)
  }

  /** The requests on a list. */
  function Requests(mem: RqMemory, list: seq<nat>): (r: seq<Rq>)
    ensures |r| == |list| && forall i :: 0 <= i < |r| ==> r[i] == RequestAt(mem, list[i])
  {
    seq(|list|, i requires 0 <= i < |list| => RequestAt(mem, list[i]))
  }

  /** What rq_list_add_tail writes. */
  function AddTail(mem: RqMemory, tail: nat, a: nat): RqMemory
    requires a in mem && (tail != 0 ==> tail in mem)
  {
    var m := SetNext(mem, a, 0);
    if tail == 0 then m else SetNext(m, tail, a)
  }

  lemma {:induction false} AddTailKeeps(mem: RqMemory, head: nat, list: seq<nat>, a: nat)
    requires Chain(mem, head, list) && a in mem && a != 0 && a !in list
    ensures Last(list) != 0 ==> Last(list) in mem
    ensures Chain(AddTail(mem, Last(list), a), if list == [] then a else head, list + [a])
  {
    var m := SetNext(mem, a, 0);
    ChainAgrees(mem, m, head, list);
    assert Chain(m, a, [a]) by {
      assert LinkOk(m, [a], 0);
    }
    if list == [] {
      assert list + [a] == [a];
    } else {
      assert LinkOk(mem, list, |list| - 1);
      JoinChains(m, head, list, a, [a]);
    }
  }

  lemma {:induction false} AddTailFrame(mem: RqMemory, tail: nat, a: nat, head: nat, list: seq<nat>)
    requires Chain(mem, head, list) && a in mem && a !in list && (tail != 0 ==> tail in mem && tail !in list)
    ensures Chain(AddTail(mem, tail, a), head, list)
  {
    ChainAgrees(mem, AddTail(mem, tail, a), head, list);
  }

  /** No node comes or goes, and none changes its request. */
  predicate SameRequests(mem: RqMemory, mem': RqMemory) {
    mem.Keys == mem'.Keys && forall a :: a in mem ==> mem'[a].value == mem[a].value
  }

  /** After n of the nodes of `all`: the first k of the list were left and `matched` were moved, the others wait. */
  ghost predicate Sorting(mem: RqMemory, all: seq<nat>, c: Class, list: seq<nat>, matched: seq<nat>, k: nat, n: nat) {
    && n <= |all| && |list| == k + |all| - n
    && (forall j :: k <= j < |list| ==> list[j] == all[j - k + n])
    && Requests(mem, list[..k]) == Filter(Requests(mem, all)[..n], c, false)
    && Requests(mem, matched) == Filter(Requests(mem, all)[..n], c, true)
  }

  lemma {:induction false} FilterNext(v: seq<Rq>, n: nat, c: Class, within: bool)
    requires n < |v|
    ensures Filter(v[..n + 1], c, within) == Filter(v[..n], c, within) + (if In(v[n], c) == within then [v[n]] else [])
  {
    assert v[..n + 1][..n] == v[..n];
  }

  lemma {:induction false} SortingMoves(
    mem: RqMemory, all: seq<nat>, c: Class, list: seq<nat>, matched: seq<nat>, k: nat, n: nat)
    requires Sorting(mem, all, c, list, matched, k, n) && n < |all| && In(RequestAt(mem, list[k]), c)
    ensures Sorting(mem, all, c, Without(list, k), matched + [list[k]], k, n + 1)
  {
    var v := Requests(mem, all);
    FilterNext(v, n, c, true);
    FilterNext(v, n, c, false);
    assert Without(list, k)[..k] == list[..k];
    assert Requests(mem, matched + [list[k]]) == Requests(mem, matched) + [v[n]];
  }

  lemma {:induction false} SortingLeaves(
    mem: RqMemory, all: seq<nat>, c: Class, list: seq<nat>, matched: seq<nat>, k: nat, n: nat)
    requires Sorting(mem, all, c, list, matched, k, n) && n < |all| && !In(RequestAt(mem, list[k]), c)
    ensures Sorting(mem, all, c, list, matched, k + 1, n + 1)
  {
    var v := Requests(mem, all);
    FilterNext(v, n, c, true);
    FilterNext(v, n, c, false);
    assert list[..k + 1] == list[..k] + [list[k]];
    assert Requests(mem, list[..k + 1]) == Requests(mem, list[..k]) + [v[n]];
  }

  lemma {:induction false} SortingDone(mem: RqMemory, all: seq<nat>, c: Class, list: seq<nat>, matched: seq<nat>,
      k: nat)
    requires Sorting(mem, all, c, list, matched, k, |all|)
    ensures list[..k] == list
    ensures Requests(mem, list) == Filter(Requests(mem, all), c, false)
    ensures Requests(mem, matched) == Filter(Requests(mem, all), c, true)
  {
    assert Requests(mem, all)[..|all|] == Requests(mem, all);
  }

  class Plug {
    var mem: RqMemory
    /** The list rqs. */
    var head: nat
    var tail: nat
    ghost var list: seq<nat>

    ghost predicate Valid()
      reads this
    {
      Chain(mem, head, list) && tail == Last(list)
    }

    /** *prev = rq->rq_next for the k-th node; last is the node before it, or NULL. */
    method Unlink(last: nat, rq: nat, ghost k: nat)
      requires Chain(mem, head, list) && k < |list| && rq == list[k] && last == Last(list[..k])
      modifies this`mem, this`head, this`list
      ensures Chain(mem, head, list) && list == Without(old(list), k) && SameRequests(old(mem), mem)
      ensures forall h, l :: Chain(old(mem), h, l) && Apart(old(list), l) ==> Chain(mem, h, l)
    {
      assert LinkOk(mem, list, k);
      var next := mem[rq].next;
      if last == 0 {
        assert k > 0 ==> LinkOk(mem, list, k - 1);
        UnlinkFirst(mem, head, list);
        assert Without(list, 0) == list[1..];
        head := next;
      } else {
        UnlinkInner(mem, head, list, k);
        forall h, l | Chain(mem, h, l) && Apart(list, l)
          ensures Chain(SetNext(mem, last, next), h, l)
        {
          assert last in list;
          ChainAgrees(mem, SetNext(mem, last, next), h, l);
        }
        mem := SetNext(mem, last, next);
      }
      list := Without(list, k);
    }

    /** Unlink the k-th node and add it to the tail of the matched list. */
    method MoveOver(last: nat, rq: nat, mhead: nat, mtail: nat, ghost k: nat, ghost matched: seq<nat>)
      returns (mhead': nat, mtail': nat)
      requires Chain(mem, head, list) && k < |list| && rq == list[k] && last == Last(list[..k])
      requires Chain(mem, mhead, matched) && mtail == Last(matched) && Apart(list, matched)
      modifies this`mem, this`head, this`list
      ensures Chain(mem, head, list) && list == Without(old(list), k) && SameRequests(old(mem), mem)
      ensures Chain(mem, mhead', matched + [rq]) && mtail' == rq && Apart(list, matched + [rq])
    {
      assert LinkOk(mem, list, k) && rq in list;
      Unlink(last, rq, k);
      assert forall i :: 0 <= i < |list| ==> list[i] != rq && list[i] in old(list);
      AddTailKeeps(mem, mhead, matched, rq);
      assert matched != [] ==> LinkOk(mem, matched, |matched| - 1) && mtail in matched;
      AddTailFrame(mem, mtail, rq, head, list);
      mem := AddTail(mem, mtail, rq);
      mhead' := if mtail == 0 then rq else mhead;
      mtail' := rq;
    }

    /** After n nodes: both lists are well linked, and prev, given by `last`, is the link that leads to rq. */
    ghost predicate Standing(mem0: RqMemory, all: seq<nat>, c: Class, last: nat, rq: nat, mhead: nat, mtail: nat,
                             matched: seq<nat>, k: nat, n: nat)
      reads this
    {
      && n <= |all| && k <= |list|
      && Chain(mem, head, list) && Chain(mem, mhead, matched) && mtail == Last(matched) && Apart(list, matched)
      && SameRequests(mem0, mem) && Sorting(mem0, all, c, list, matched, k, n)
      && last == Last(list[..k]) && rq == (if k < |list| then list[k] else 0)
    }

    /** A request of the queue: move it over. */
    method TurnMoves(last: nat, rq: nat, mhead: nat, mtail: nat, ghost mem0: RqMemory, ghost all: seq<nat>,
        ghost c: Class,
                     ghost matched: seq<nat>, ghost k: nat, ghost n: nat)
      returns (rq': nat, mhead': nat, mtail': nat)
      requires Standing(mem0, all, c, last, rq, mhead, mtail, matched, k, n) && rq != 0 && In(RequestAt(mem0, rq), c)
      modifies this`mem, this`head, this`list
      ensures Standing(mem0, all, c, last, rq', mhead', mtail', matched + [rq], k, n + 1)
    {
      SortingMoves(mem0, all, c, list, matched, k, n);
      ghost var before := list;
      mhead', mtail' := MoveOver(last, rq, mhead, mtail, k, matched);
      assert list[..k] == before[..k];
      rq' := Following(last, k);
    }

    /** Another request: leave it, and go on from its link. */
    method TurnLeaves(last: nat, rq: nat, ghost mhead: nat, ghost mtail: nat, ghost mem0: RqMemory, ghost all: seq<nat>,
                      ghost c: Class, ghost matched: seq<nat>, ghost k: nat, ghost n: nat)
      returns (last': nat, rq': nat)
      requires Standing(mem0, all, c, last, rq, mhead, mtail, matched, k, n) && rq != 0 && !In(RequestAt(mem0, rq), c)
      ensures Standing(mem0, all, c, last', rq', mhead, mtail, matched, k + 1, n + 1)
    {
      assert LinkOk(mem, list, k);
      SortingLeaves(mem0, all, c, list, matched, k, n);
      assert list[..k + 1][k] == rq;
      last', rq' := rq, mem[rq].next;
    }

    /** One turn of the loop. */
    method Turn(queue: nat, last: nat, rq: nat, mhead: nat, mtail: nat, ghost mem0: RqMemory, ghost all: seq<nat>,
                ghost matched: seq<nat>, ghost k: nat, ghost n: nat)
      returns (moved: bool, last': nat, rq': nat, mhead': nat, mtail': nat)
      requires Standing(mem0, all, OfQueue(queue), last, rq, mhead, mtail, matched, k, n) && rq != 0
      modifies this`mem, this`head, this`list
      ensures n < |all|
      ensures Standing(mem0, all, OfQueue(queue), last', rq', mhead', mtail', if moved then matched + [rq] else matched,
                       if moved then k else k + 1, n + 1)
    {
      AtNode(mem0, all, queue, last, rq, mhead, mtail, matched, k, n);
      moved, last', mhead', mtail' := mem[rq].value.queue == queue, last, mhead, mtail;
      if moved {
        rq', mhead', mtail' := TurnMoves(last, rq, mhead, mtail, mem0, all, OfQueue(queue), matched, k, n);
      } else {
        last', rq' := TurnLeaves(last, rq, mhead, mtail, mem0, all, OfQueue(queue), matched, k, n);
      }
    }

    /** The loop.  The first request, which is popped before it, is moved by its first turn. */
    method SortOut(queue: nat)
      returns (mhead: nat, mtail: nat, depth: nat, last: nat, ghost matched: seq<nat>, ghost k: nat)
      requires Chain(mem, head, list)
      modifies this`mem, this`head, this`list
      ensures depth == |matched|
      ensures Standing(old(mem), old(list), OfQueue(queue), last, 0, mhead, mtail, matched, k, |old(list)|)
    {
      ghost var all, mem0, c, n := list, mem, OfQueue(queue), 0;
      var rq := head;
      mhead, mtail, depth, last, matched, k := 0, 0, 0, 0, [], 0;
      assert Sorting(mem0, all, c, list, [], 0, 0);
      while rq != 0
        invariant Standing(mem0, all, c, last, rq, mhead, mtail, matched, k, n) && depth == |matched|
        decreases |all| - n
      {
        var now, moved := rq, false;
        moved, last, rq, mhead, mtail := Turn(queue, last, now, mhead, mtail, mem0, all, matched, k, n);
        if moved {
          matched := matched + [now];
          depth := depth + 1;
        } else {
          k := k + 1;
        }
        n := n + 1;
      }
      AtEnd(mem0, all, c, last, mhead, mtail, matched, k, n);
    }

    lemma {:induction false} AtNode(mem0: RqMemory, all: seq<nat>, queue: nat, last: nat, rq: nat, mhead: nat,
        mtail: nat,
                                    matched: seq<nat>, k: nat, n: nat)
      requires Standing(mem0, all, OfQueue(queue), last, rq, mhead, mtail, matched, k, n) && rq != 0
      ensures n < |all| && rq in mem && (mem[rq].value.queue == queue <==> In(RequestAt(mem0, rq), OfQueue(queue)))
    {
      assert LinkOk(mem, list, k);
    }

    lemma {:induction false} AtEnd(mem0: RqMemory, all: seq<nat>, c: Class, last: nat, mhead: nat, mtail: nat,
                                   matched: seq<nat>, k: nat, n: nat)
      requires Standing(mem0, all, c, last, 0, mhead, mtail, matched, k, n)
      ensures n == |all|
    {
      assert k < |list| ==> LinkOk(mem, list, k);
    }

    /** blk_mq_extract_queue_requests: the requests of the first one's queue end up on the matched list and the others
        stay on rqs, both in order, well linked and with the right tails. */
    method ExtractQueueRequests() returns (mhead: nat, mtail: nat, depth: nat, ghost matched: seq<nat>)
      requires Valid() && list != []
      modifies this
      ensures Valid() && Chain(mem, mhead, matched) && mtail == Last(matched) && depth == |matched|
      ensures Apart(list, matched) && SameRequests(old(mem), mem)
      ensures var all := Requests(old(mem), old(list));
              var c := OfQueue(all[0].queue);
              Requests(old(mem), matched) == Filter(all, c, true) && Requests(old(mem), list) == Filter(all, c, false)
    {
      assert LinkOk(mem, list, 0);
      var queue, last := mem[head].value.queue, 0;
      ghost var k;
      mhead, mtail, depth, last, matched, k := SortOut(queue);
      SortingDone(old(mem), old(list), OfQueue(queue), list, matched, k);
      tail := last;
    }

    /** *prev */
    method Following(last: nat, ghost k: nat) returns (rq: nat)
      requires Chain(mem, head, list) && k <= |list| && last == Last(list[..k])
      ensures rq == if k < |list| then list[k] else 0
    {
      assert k > 0 ==> LinkOk(mem, list, k - 1);
      rq := if last == 0 then head else mem[last].next;
    }
  }
}
