/** Singly linked lists in memory, with writes to their links.  Addresses are numbers, 0 is NULL. */
module Chains {

  import opened Lists

  datatype Node<T> = Node(value: T, next: nat)

  type Memory<T> = map<nat, Node<T>>

  predicate LinkOk<T>(mem: Memory<T>, list: seq<nat>, i: nat)
    requires i < |list|
  {
    && list[i] != 0 && list[i] in mem
    && mem[list[i]].next == if i + 1 < |list| then list[i + 1] else 0
  }

  /** The nodes of the list, in order, are what the links lead through from head on. */
  ghost predicate Chain<T>(mem: Memory<T>, head: nat, list: seq<nat>) {
    && Distinct(list) && head == First(list)
    && forall i :: 0 <= i < |list| ==> LinkOk(mem, list, i)
  }

  function First(list: seq<nat>): nat {
    if list == [] then 0 else list[0]
  }

  function Last(list: seq<nat>): nat {
    if list == [] then 0 else list[|list| - 1]
  }

  predicate Apart(a: seq<nat>, b: seq<nat>) {
    forall x :: x in a ==> x !in b
  }

  function SetNext<T>(mem: Memory<T>, a: nat, next: nat): Memory<T>
    requires a in mem
  {
    mem[a := mem[a].(next := next)]
  }

  /** Nothing on the list was written. */
  predicate Agree<T(==)>(mem: Memory<T>, mem': Memory<T>, list: seq<nat>) {
    forall i :: 0 <= i < |list| && list[i] in mem ==> list[i] in mem' && mem'[list[i]] == mem[list[i]]
  }

  lemma {:induction false} ChainAgrees<T>(mem: Memory<T>, mem': Memory<T>, head: nat, list: seq<nat>)
    requires Chain(mem, head, list) && Agree(mem, mem', list)
    ensures Chain(mem', head, list)
  {
    forall i | 0 <= i < |list|
      ensures LinkOk(mem', list, i)
    {
      assert LinkOk(mem, list, i);
    }
  }

  /** The list without its k-th node. */
  function Without(list: seq<nat>, k: nat): (r: seq<nat>)
    requires k < |list|
    ensures |r| == |list| - 1 && forall i :: 0 <= i < |r| ==> r[i] == list[if i < k then i else i + 1]
  {
    list[..k] + list[k + 1..]
  }

  /** The node before the k-th is linked to the one after it. */
  lemma {:induction false} UnlinkInner<T>(mem: Memory<T>, head: nat, list: seq<nat>, k: nat)
    requires Chain(mem, head, list) && 0 < k < |list|
    ensures list[k - 1] in mem && list[k] in mem
    ensures Chain(SetNext(mem, list[k - 1], mem[list[k]].next), head, Without(list, k))
  {
    assert LinkOk(mem, list, k) && LinkOk(mem, list, k - 1);
    var mem', r := SetNext(mem, list[k - 1], mem[list[k]].next), Without(list, k);
    forall i | 0 <= i < |r|
      ensures LinkOk(mem', r, i)
    {
      assert LinkOk(mem, list, if i < k then i else i + 1);
    }
  }

  /** The head moves to the second node. */
  lemma {:induction false} UnlinkFirst<T>(mem: Memory<T>, head: nat, list: seq<nat>)
    requires Chain(mem, head, list) && list != []
    ensures head in mem && Chain(mem, mem[head].next, list[1..])
  {
    assert LinkOk(mem, list, 0);
    forall i | 0 <= i < |list| - 1
      ensures LinkOk(mem, list[1..], i)
    {
      assert LinkOk(mem, list, i + 1);
    }
  }

  /** Two chains become one. */
  lemma {:induction false} JoinChains<T>(mem: Memory<T>, head: nat, list: seq<nat>, head': nat, list': seq<nat>)
    requires Chain(mem, head, list) && list != [] && Chain(mem, head', list') && Apart(list, list')
    ensures Last(list) in mem && Chain(SetNext(mem, Last(list), head'), head, list + list')
  {
    assert LinkOk(mem, list, |list| - 1);
    var mem', r := SetNext(mem, Last(list), head'), list + list';
    forall i, j | 0 <= i < j < |r|
      ensures r[i] != r[j]
    {
      assert i < |list| <= j ==> r[i] in list && r[j] in list';
    }
    forall i | 0 <= i < |r|
      ensures LinkOk(mem', r, i)
    {
      if i < |list| {
        assert LinkOk(mem, list, i);
      } else {
        assert LinkOk(mem, list', i - |list|) && r[i] in list' && Last(list) in list;
      }
    }
  }

  /** A node in front of the first. */
  lemma {:induction false} PushFront<T>(mem: Memory<T>, head: nat, list: seq<nat>, a: nat)
    requires Chain(mem, head, list) && a in mem && a != 0 && a !in list
    ensures Chain(SetNext(mem, a, head), a, [a] + list)
  {
    var mem', r := SetNext(mem, a, head), [a] + list;
    forall i | 0 <= i < |r|
      ensures LinkOk(mem', r, i)
    {
      assert i > 0 ==> LinkOk(mem, list, i - 1);
    }
  }
}
