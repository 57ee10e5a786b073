/**
 * mini-malloc: a first-fit allocator over sbrk.  Freed blocks go on a doubly linked list
 * whose links live in the block headers.
 *
 * Addresses are numbers, 0 is NULL.  The heap is seen twice: as headers in memory with
 * prev and next pointers, and as a list of blocks.
 */
module FreeList {
  import opened Options
  import opened Lists

  const HEADER := 32                        // sizeof(block_t)
  const SIZE_MAX := 0xFFFF_FFFF_FFFF_FFFF
  const SIGN := 0x8000_0000_0000_0000       // 2^63

  // ---------------------------------------------------------------- the heap as a list

  datatype Block = Block(size: nat, free: bool)

  /** Every block ever carved out, by header address; the free ones in list order; the break. */
  datatype Heap = Heap(blocks: map<nat, Block>, list: seq<nat>, brk: nat)

  datatype Request =
    | Malloc(size: nat, sbrk: Option<nat>)   // what sbrk would answer: failure, or a gap above the break
    | Free(ptr: nat)

  function End(h: Heap, a: nat): nat
    requires a in h.blocks
  {
    a + HEADER + h.blocks[a].size
  }

  /** The list holds exactly the free blocks, once each; blocks do not overlap and lie below the break. */
  ghost predicate Inv(h: Heap) {
    && h.brk > 0 && 0 !in h.blocks
    && (forall i, j :: 0 <= i < j < |h.list| ==> h.list[i] != h.list[j])
    && (forall a :: a in h.list <==> a in h.blocks && h.blocks[a].free)
    && (forall a :: a in h.blocks ==> End(h, a) <= h.brk)
    && (forall a, b :: a in h.blocks && b in h.blocks && a != b ==> End(h, a) <= b || End(h, b) <= a)
  }

  /** find_free_block: the first block from index i on that is large enough, or |list|. */
  function FirstFit(h: Heap, size: nat, i: nat): (r: nat)
    requires i <= |h.list|
    ensures i <= r <= |h.list|
    decreases |h.list| - i
  {
    if i == |h.list| || (h.list[i] in h.blocks && h.blocks[h.list[i]].size >= size) then i
    else FirstFit(h, size, i + 1)
  }

  function RemoveIndex(list: seq<nat>, i: nat): (r: seq<nat>)
    requires i < |list|
    ensures |r| == |list| - 1
    ensures forall j :: 0 <= j < |r| ==> r[j] == list[if j < i then j else j + 1]
  {
    seq(|list| - 1, j requires 0 <= j < |list| - 1 => list[if j < i then j else j + 1])
  }

  /** What sbrk makes of its argument: a size_t read as a signed increment. */
  function Signed(n: nat): int {
    if n < SIGN then n else n - SIZE_MAX - 1
  }

  function Max0(n: int): nat { if n < 0 then 0 else n }

  /** The i-th free block handed out. */
  function Reused(h: Heap, i: nat): Heap
    requires i < |h.list| && h.list[i] in h.blocks
  {
    var a := h.list[i];
    h.(blocks := h.blocks[a := h.blocks[a].(free := false)], list := RemoveIndex(h.list, i))
  }

  /** A new block at the break, or above it if other code has moved the break. */
  function Grown(h: Heap, size: nat, gap: nat): Heap {
    var a := h.brk + gap;
    Heap(h.blocks[a := Block(size, false)], h.list, Max0(a + Signed(size + HEADER)))
  }

  function Freed(h: Heap, a: nat): Heap
    requires a in h.blocks
  {
    h.(blocks := h.blocks[a := h.blocks[a].(free := true)], list := [a] + h.list)
  }

  /** my_malloc and my_free: the heap afterwards, and the pointer returned (0 for NULL or none). */
  function Apply(h: Heap, req: Request): (Heap, nat) {
    match req
    case Malloc(size, sbrk) =>
      if size == 0 || size > SIZE_MAX - HEADER then (h, 0)
      else
        var i := FirstFit(h, size, 0);
        if i < |h.list| && h.list[i] in h.blocks then (Reused(h, i), h.list[i] + HEADER)
        else if sbrk.None? then (h, 0)
        else (Grown(h, size, sbrk.value), h.brk + sbrk.value + HEADER)
    case Free(ptr) =>
      if ptr < HEADER || ptr - HEADER !in h.blocks || h.blocks[ptr - HEADER].free then (h, 0)
      else (Freed(h, ptr - HEADER), 0)
  }

  /** The request can make the heap grow by a size that sbrk reads as negative. */
  predicate Overflows(h: Heap, req: Request) {
    && req.Malloc? && req.sbrk.Some? && SIGN - HEADER <= req.size <= SIZE_MAX - HEADER
    && FirstFit(h, req.size, 0) == |h.list|
  }

  lemma {:induction false} FirstFitIsFirst(h: Heap, size: nat, i: nat)
    requires i <= |h.list|
    ensures var r := FirstFit(h, size, i);
            && (forall j :: i <= j < r && h.list[j] in h.blocks ==> h.blocks[h.list[j]].size < size)
            && (r < |h.list| ==> h.list[r] in h.blocks && h.blocks[h.list[r]].size >= size)
    decreases |h.list| - i
  {
    if i < |h.list| && !(h.list[i] in h.blocks && h.blocks[h.list[i]].size >= size) {
      FirstFitIsFirst(h, size, i + 1);
    }
  }

  lemma {:induction false} ReuseKeeps(h: Heap, i: nat)
    requires Inv(h) && i < |h.list| && h.list[i] in h.blocks
    ensures Inv(Reused(h, i))
  {
    var a, list' := h.list[i], RemoveIndex(h.list, i);
    forall b | b in h.list && b != a ensures b in list' {
      var j :| 0 <= j < |h.list| && h.list[j] == b;
      assert list'[if j < i then j else j - 1] == b;
    }
    forall b | b in list' ensures b in h.list && b != a {
      var j :| 0 <= j < |list'| && list'[j] == b;
    }
  }

  lemma {:induction false} GrowKeeps(h: Heap, size: nat, gap: nat)
    requires Inv(h) && 0 < size <= SIZE_MAX - HEADER
    ensures Inv(Grown(h, size, gap)) <==> size < SIGN - HEADER
  {
    var a, h' := h.brk + gap, Grown(h, size, gap);
    assert a !in h.blocks && a in h'.blocks;
    assert size >= SIGN - HEADER ==> End(h', a) > h'.brk;
  }

  lemma {:induction false} FreeKeeps(h: Heap, a: nat)
    requires Inv(h) && a in h.blocks && !h.blocks[a].free
    ensures Inv(Freed(h, a))
  {
    var list' := [a] + h.list;
    assert a !in h.list && list'[0] == a;
    assert forall b :: b in list' <==> b == a || b in h.list;
  }

  /** Every request keeps the heap consistent, except exactly the growth that sbrk takes for a shrink. */
  lemma {:induction false} ApplyKeeps(h: Heap, req: Request)
    requires Inv(h)
    ensures Inv(Apply(h, req).0) <==> !Overflows(h, req)
  {
    if req.Free? {
      var a := req.ptr - HEADER;
      if a >= 0 && a in h.blocks && !h.blocks[a].free {
        FreeKeeps(h, a);
      }
    } else if 0 < req.size <= SIZE_MAX - HEADER {
      FirstFitIsFirst(h, req.size, 0);
      var i := FirstFit(h, req.size, 0);
      if i < |h.list| {
        ReuseKeeps(h, i);
      } else if req.sbrk.Some? {
        GrowKeeps(h, req.size, req.sbrk.value);
      }
    }
  }

  // ---------------------------------------------------------------- all runs

  predicate IsRun(h: Heap, run: seq<Request>)
    decreases run
  {
    run == [] || (!Overflows(h, run[0]) && IsRun(Apply(h, run[0]).0, run[1..]))
  }

  function Exec(h: Heap, run: seq<Request>): Heap
    decreases run
  {
    if run == [] then h else Exec(Apply(h, run[0]).0, run[1..])
  }

  lemma {:induction false} RunKeeps(h: Heap, run: seq<Request>)
    requires Inv(h) && IsRun(h, run)
    ensures Inv(Exec(h, run))
    decreases run
  {
    if run != [] {
      ApplyKeeps(h, run[0]);
      RunKeeps(Apply(h, run[0]).0, run[1..]);
    }
  }

  /** The bytes a caller may use. */
  predicate InPayload(h: Heap, a: nat, x: nat) {
    a in h.blocks && a + HEADER <= x < End(h, a)
  }

  /** After any requests, double frees included, a byte of one block's payload belongs to no other
      payload and to no header. */
  lemma {:induction false} PayloadsAreDisjoint(brk: nat, run: seq<Request>, a: nat, b: nat, x: nat)
    requires brk > 0 && IsRun(Heap(map[], [], brk), run)
    requires var h := Exec(Heap(map[], [], brk), run); InPayload(h, a, x) && b in h.blocks
    ensures var h := Exec(Heap(map[], [], brk), run);
            (InPayload(h, b, x) ==> a == b) && !(b <= x < b + HEADER)
  {
    RunKeeps(Heap(map[], [], brk), run);
  }

  /** A malloc that returns a block returns a live one that is large enough and was not live before,
      and it moves the break only when no free block would have done. */
  lemma {:induction false} MallocIsSound(h: Heap, size: nat, sbrk: Option<nat>)
    requires Inv(h) && !Overflows(h, Malloc(size, sbrk))
    ensures var (h', p) := Apply(h, Malloc(size, sbrk));
            && (p != 0 ==> p >= HEADER && p - HEADER in h'.blocks && !h'.blocks[p - HEADER].free
                           && h'.blocks[p - HEADER].size >= size
                           && (p - HEADER in h.blocks ==> h.blocks[p - HEADER].free))
            && (p == 0 ==> h' == h)
            && (p == 0 <==> size == 0 || size > SIZE_MAX - HEADER
                            || (sbrk.None? && forall a :: a in h.list ==> h.blocks[a].size < size))
            && (h'.brk != h.brk ==> forall a :: a in h.list ==> h.blocks[a].size < size)
            && (forall a :: a in h.blocks && a + HEADER != p ==> a in h'.blocks && h'.blocks[a] == h.blocks[a])
  {
    FirstFitIsFirst(h, size, 0);
    var i := FirstFit(h, size, 0);
    if i == |h.list| {
      forall a | a in h.list ensures h.blocks[a].size < size {
        var j :| 0 <= j < |h.list| && h.list[j] == a;
      }
    }
  }

  /** The exception is real: with a block of 1000 bytes in use, a request of 2^64 - 96 bytes lowers the break by 64,
      and the next small block has its header inside the first one's payload. */
  lemma {:induction false} HugeRequestOverlaps()
    ensures var h0 := Apply(Heap(map[], [], 4096), Malloc(1000, Some(0))).0;
            var h1 := Apply(h0, Malloc(SIZE_MAX - 95, Some(0))).0;
            var (h2, p) := Apply(h1, Malloc(10, Some(0)));
            && Inv(h0) && !h0.blocks[4096].free && h0.brk == 5128 && h1.brk == 5064 && p == 5064 + HEADER
            && !h2.blocks[4096].free && forall x :: p - HEADER <= x < p ==> InPayload(h2, 4096, x)
  {
    var h0 := Apply(Heap(map[], [], 4096), Malloc(1000, Some(0))).0;
    ApplyKeeps(Heap(map[], [], 4096), Malloc(1000, Some(0)));
    assert h0 == Heap(map[4096 := Block(1000, false)], [], 5128);
    var h1 := Apply(h0, Malloc(SIZE_MAX - 95, Some(0))).0;
    assert h1 == Heap(map[4096 := Block(1000, false), 5128 := Block(SIZE_MAX - 95, false)], [], 5064);
    var (h2, p) := Apply(h1, Malloc(10, Some(0)));
    assert h2.blocks[4096] == Block(1000, false);
  }

  /** Freeing twice in a row is freeing once, and what was freed last is found first. */
  lemma {:induction false} FreeTwice(h: Heap, p: nat, size: nat, sbrk: Option<nat>)
    requires Inv(h) && p >= HEADER && p - HEADER in h.blocks && !h.blocks[p - HEADER].free
    ensures var h' := Apply(h, Free(p)).0;
            && Apply(h', Free(p)).0 == h'
            && (0 < size <= h.blocks[p - HEADER].size && size <= SIZE_MAX - HEADER ==>
                  Apply(h', Malloc(size, sbrk)).1 == p && Apply(h', Malloc(size, sbrk)).0 == h)
  {
    var a, h' := p - HEADER, Apply(h, Free(p)).0;
    if 0 < size <= h.blocks[a].size && size <= SIZE_MAX - HEADER {
      assert h'.list[0] == a && FirstFit(h', size, 0) == 0;
      assert RemoveIndex(h'.list, 0) == h.list;
      assert h'.blocks[a := h'.blocks[a].(free := false)] == h.blocks;
    }
  }

  // ---------------------------------------------------------------- the heap in memory

  /** block_t */
  datatype Header = Header(size: nat, free: bool, prev: nat, next: nat)

  /** The i-th list element, NULL beyond either end. */
  function At(list: seq<nat>, i: int): nat {
    if 0 <= i < |list| then list[i] else 0
  }

  /** next follows the list and prev goes back. */
  ghost predicate Linked(mem: map<nat, Header>, head: nat, list: seq<nat>) {
    && head == At(list, 0) && 0 !in list
    && (forall i :: 0 <= i < |list| ==> LinkOk(mem, list, i))
  }

  predicate LinkOk(mem: map<nat, Header>, list: seq<nat>, i: nat)
    requires i < |list|
  {
    && list[i] in mem
    && mem[list[i]].next == At(list, i + 1) && mem[list[i]].prev == At(list, i - 1)
  }

  /** The memory after the stores of remove_free_block. */
  function Unlink(mem: map<nat, Header>, block: nat): map<nat, Header>
    requires block in mem && (mem[block].prev == 0 || mem[block].prev in mem)
    requires mem[block].next == 0 || mem[block].next in mem
  {
    var prev, next := mem[block].prev, mem[block].next;
    var m1 := if prev != 0 then mem[prev := mem[prev].(next := next)] else mem;
    var m2 := if next != 0 then m1[next := m1[next].(prev := prev)] else m1;
    m2[block := m2[block].(prev := 0, next := 0)]
  }

  lemma {:induction false} Neighbours(mem: map<nat, Header>, head: nat, list: seq<nat>, i: nat)
    requires Linked(mem, head, list) && i < |list|
    ensures list[i] in mem
    ensures var b := mem[list[i]];
            && b.prev == At(list, i - 1) && (b.prev == 0 <==> i == 0) && (b.prev != 0 ==> b.prev in mem)
            && b.next == At(list, i + 1) && (b.next == 0 <==> i + 1 == |list|) && (b.next != 0 ==> b.next in mem)
  {
    assert LinkOk(mem, list, i);
    if i > 0 { assert LinkOk(mem, list, i - 1) && list[i - 1] in list; }
    if i + 1 < |list| { assert LinkOk(mem, list, i + 1) && list[i + 1] in list; }
  }

  /** Only the two neighbours' links change, to skip the block. */
  lemma {:induction false} UnlinkedNode(mem: map<nat, Header>, head: nat, list: seq<nat>, i: nat, j: nat)
    requires Linked(mem, head, list) && Distinct(list) && i < |list| && j < |list| - 1
    requires list[i] in mem && (mem[list[i]].prev == 0 || mem[list[i]].prev in mem)
    requires mem[list[i]].next == 0 || mem[list[i]].next in mem
    ensures LinkOk(Unlink(mem, list[i]), RemoveIndex(list, i), j)
  {
    var b, k, mem' := mem[list[i]], if j < i then j else j + 1, Unlink(mem, list[i]);
    Neighbours(mem, head, list, i);
    assert LinkOk(mem, list, k);
    assert mem'[list[k]].next == if k == i - 1 then b.next else mem[list[k]].next;
    assert mem'[list[k]].prev == if k == i + 1 then b.prev else mem[list[k]].prev;
  }

  lemma {:induction false} UnlinkKeeps(mem: map<nat, Header>, head: nat, list: seq<nat>, i: nat)
    requires Linked(mem, head, list) && Distinct(list) && i < |list|
    ensures list[i] in mem
    ensures var b := mem[list[i]];
            && (b.prev == 0 || b.prev in mem) && (b.next == 0 || b.next in mem)
            && Linked(Unlink(mem, list[i]), if b.prev != 0 then head else b.next, RemoveIndex(list, i))
            && BlocksOf(Unlink(mem, list[i])) == BlocksOf(mem)
  {
    Neighbours(mem, head, list, i);
    var list' := RemoveIndex(list, i);
    forall j | 0 <= j < |list'| ensures LinkOk(Unlink(mem, list[i]), list', j) {
      UnlinkedNode(mem, head, list, i, j);
    }
  }

  /** A header that is not on the list can be rewritten freely. */
  lemma {:induction false} UnlistedHeader(mem: map<nat, Header>, head: nat, list: seq<nat>, block: nat, b: Header)
    requires Linked(mem, head, list) && block !in list
    ensures Linked(mem[block := b], head, list)
  {
    var mem' := mem[block := b];
    forall i | 0 <= i < |list| ensures LinkOk(mem', list, i) {
      assert LinkOk(mem, list, i) && list[i] in list;
    }
  }

  /** The memory after the stores of my_free. */
  function Push(mem: map<nat, Header>, head: nat, block: nat): map<nat, Header>
    requires block in mem && (head == 0 || head in mem)
  {
    var m1 := mem[block := mem[block].(free := true)];
    var m2 := m1[block := m1[block].(prev := 0)];
    var m3 := m2[block := m2[block].(next := head)];
    if head != 0 then m3[head := m3[head].(prev := block)] else m3
  }

  lemma {:induction false} PushKeeps(mem: map<nat, Header>, head: nat, list: seq<nat>, block: nat)
    requires Linked(mem, head, list) && Distinct(list) && block in mem && block !in list && block != 0
    ensures head == 0 || head in mem
    ensures Linked(Push(mem, head, block), block, [block] + list)
    ensures BlocksOf(Push(mem, head, block)) == BlocksOf(mem)[block := BlocksOf(mem)[block].(free := true)]
  {
    if list != [] { Neighbours(mem, head, list, 0); }
    var mem', list' := Push(mem, head, block), [block] + list;
    forall j | 0 <= j < |list'| ensures LinkOk(mem', list', j) {
      if j > 0 {
        assert LinkOk(mem, list, j - 1) && list[j - 1] in list;
      }
    }
  }

  ghost function BlocksOf(mem: map<nat, Header>): (r: map<nat, Block>)
    ensures r.Keys == mem.Keys && forall a :: a in mem ==> r[a] == Block(mem[a].size, mem[a].free)
  {
    map a | a in mem :: Block(mem[a].size, mem[a].free)
  }

  class Allocator {
    var mem: map<nat, Header>
    var freeList: nat
    var brk: nat
    ghost var list: seq<nat>

    ghost function View(): Heap
      reads this
    {
      Heap(BlocksOf(mem), list, brk)
    }

    ghost predicate Valid()
      reads this
    {
      Linked(mem, freeList, list) && Inv(View())
    }

    constructor (brk: nat)
      requires brk > 0
      ensures Valid() && View() == Heap(map[], [], brk)
    {
      mem, freeList, this.brk, list := map[], 0, brk, [];
    }

    /** find_free_block */
    method FindFreeBlock(size: nat) returns (block: nat)
      requires Valid()
      ensures block == At(list, FirstFit(View(), size, 0))
      ensures block != 0 ==> block in mem
    {
      block := freeList;
      ghost var i := 0;
      while block != 0
        invariant i <= |list| && block == At(list, i)
        invariant FirstFit(View(), size, 0) == FirstFit(View(), size, i)
        decreases |list| - i
      {
        Neighbours(mem, freeList, list, i);
        assert block in list;
        if mem[block].free && mem[block].size >= size {
          return;
        }
        block := mem[block].next;
        i := i + 1;
      }
      assert i == |list|;
    }

    /** remove_free_block */
    method RemoveFreeBlock(block: nat, ghost i: nat)
      requires Linked(mem, freeList, list) && Distinct(list) && i < |list| && list[i] == block
      modifies this`mem, this`freeList, this`list
      ensures list == RemoveIndex(old(list), i) && Linked(mem, freeList, list) && BlocksOf(mem) == BlocksOf(old(mem))
    {
      UnlinkKeeps(mem, freeList, list, i);
      var prev, next := mem[block].prev, mem[block].next;
      if prev != 0 {
        mem := mem[prev := mem[prev].(next := next)];
      } else {
        freeList := next;
      }
      if next != 0 {
        mem := mem[next := mem[next].(prev := prev)];
      }
      mem := mem[block := mem[block].(prev := 0, next := 0)];
      list := RemoveIndex(list, i);
    }

    /** The part of my_malloc that takes a block off the list. */
    method Reuse(block: nat, ghost i: nat)
      requires Valid() && i < |list| && list[i] == block && block in mem
      modifies this`mem, this`freeList, this`list
      ensures Linked(mem, freeList, list) && View() == Reused(old(View()), i)
    {
      RemoveFreeBlock(block, i);
      ghost var blocks := BlocksOf(mem);
      UnlistedHeader(mem, freeList, list, block, mem[block].(free := false));
      mem := mem[block := mem[block].(free := false)];
      assert BlocksOf(mem) == blocks[block := blocks[block].(free := false)];
    }

    /** The part of my_malloc that makes the header of a new block; junk is what sbrk's memory holds. */
    method Grow(size: nat, gap: nat, junk: (nat, nat)) returns (block: nat)
      requires Valid()
      modifies this`mem, this`brk
      ensures Linked(mem, freeList, list) && View() == Grown(old(View()), size, gap) && block == old(brk) + gap
    {
      block := brk + gap;
      assert block !in BlocksOf(mem) && block !in list;
      ghost var blocks := BlocksOf(mem);
      UnlistedHeader(mem, freeList, list, block, Header(size, false, junk.0, junk.1));
      brk := Max0(block + Signed(size + HEADER));
      mem := mem[block := Header(size, false, junk.0, junk.1)];
      assert BlocksOf(mem) == blocks[block := Block(size, false)];
    }

    /** my_malloc; sbrk is the system's answer. */
    method Malloc(size: nat, sbrk: Option<nat>, junk: (nat, nat)) returns (ptr: nat)
      requires Valid()
      modifies this
      ensures (View(), ptr) == Apply(old(View()), Request.Malloc(size, sbrk))
      ensures Valid() <==> !Overflows(old(View()), Request.Malloc(size, sbrk))
    {
      ApplyKeeps(View(), Request.Malloc(size, sbrk));
      if size == 0 {
        return 0;
      }
      if size > SIZE_MAX - HEADER {
        return 0;
      }
      var block := FindFreeBlock(size);
      if block != 0 {
        Reuse(block, FirstFit(View(), size, 0));
        return block + HEADER;
      }
      if sbrk.None? {
        return 0;
      }
      block := Grow(size, sbrk.value, junk);
      return block + HEADER;
    }

    /** my_free, on NULL or on a pointer that Malloc has returned, freed since or not. */
    method Free(ptr: nat)
      requires Valid() && (ptr == 0 || (ptr >= HEADER && ptr - HEADER in mem))
      modifies this
      ensures Valid() && View() == Apply(old(View()), Request.Free(ptr)).0
    {
      ApplyKeeps(View(), Request.Free(ptr));
      if ptr == 0 {
        return;
      }
      var block := ptr - HEADER;
      if mem[block].free {
        return;
      }
      PushKeeps(mem, freeList, list, block);
      mem := mem[block := mem[block].(free := true)];
      mem := mem[block := mem[block].(prev := 0)];
      mem := mem[block := mem[block].(next := freeList)];
      if freeList != 0 {
        mem := mem[freeList := mem[freeList].(prev := block)];
      }
      freeList := block;
      list := [block] + list;
    }
  }
}
