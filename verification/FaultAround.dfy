/**
 * Mapping the pages of a cached folio around a fault.  The code gathers runs of mappable
 * pages and maps each run at once; page by page would give the same page table.
 */
module FaultAround {
  import opened Options

  const PAGE_SIZE := 4096

  /** Page i of the range may be mapped: not poisoned, and its entry is empty. */
  predicate Eligible(poison: seq<bool>, ptes: seq<Option<nat>>, page: nat, pte: nat, i: nat) {
    && page + i < |poison| && !poison[page + i]
    && pte + i < |ptes| && ptes[pte + i].None?
  }

  /** The reference, one page at a time: the pages mapped among the first n, in order. */
  function Mapped(poison: seq<bool>, ptes: seq<Option<nat>>, page: nat, pte: nat, n: nat): (r: seq<nat>)
    ensures |r| <= n
    decreases n
  {
    if n == 0 then []
    else Mapped(poison, ptes, page, pte, n - 1)
         + if Eligible(poison, ptes, page, pte, n - 1) then [page + n - 1] else []
  }

  /** How often the miss counter goes up over the first n pages. */
  function Unpoisoned(poison: seq<bool>, page: nat, n: nat): (r: nat)
    requires page + n <= |poison|
    ensures r <= n
    decreases n
  {
    if n == 0 then 0 else Unpoisoned(poison, page, n - 1) + (if poison[page + n - 1] then 0 else 1)
  }

  /** The page table after the first n pages: each eligible page at its own entry, nothing else. */
  ghost predicate TableAfter(poison: seq<bool>, before: seq<Option<nat>>, after: seq<Option<nat>>, page: nat,
      pte: nat, n: nat) {
    && |after| == |before|
    && forall k :: 0 <= k < |before| ==>
         after[k] == if pte <= k < pte + n && Eligible(poison, before, page, pte, k - pte) then Some(page + (k - pte))
                     else before[k]
  }

  /** The page that holds the address, counted from the start of the range. */
  predicate Faults(address: nat, addr: nat, i: nat) {
    addr + i * PAGE_SIZE <= address < addr + (i + 1) * PAGE_SIZE
  }

  ghost predicate FaultMapped(poison: seq<bool>, ptes: seq<Option<nat>>, page: nat, pte: nat, addr: nat,
      address: nat, n: nat) {
    exists i :: 0 <= i < n && Eligible(poison, ptes, page, pte, i) && Faults(address, addr, i)
  }

  lemma {:induction false} MappedRun(poison: seq<bool>, ptes: seq<Option<nat>>, page: nat, pte: nat, m: nat, n: nat)
    requires m <= n && forall i :: m <= i < n ==> Eligible(poison, ptes, page, pte, i)
    ensures Mapped(poison, ptes, page, pte, n) == Mapped(poison, ptes, page, pte, m) + Pages(page + m, n - m)
    decreases n
  {
    if m < n {
      assert Eligible(poison, ptes, page, pte, n - 1);
      MappedRun(poison, ptes, page, pte, m, n - 1);
    }
  }

  /** The pages first, first+1, ..., first+n-1. */
  function Pages(first: nat, n: nat): (r: seq<nat>)
    ensures |r| == n
    decreases n
  {
    if n == 0 then [] else Pages(first, n - 1) + [first + n - 1]
  }

  lemma {:induction false} FaultRun(poison: seq<bool>, ptes: seq<Option<nat>>, page: nat, pte: nat, addr: nat,
      address: nat, m: nat, n: nat)
    requires m <= n && forall i :: m <= i < n ==> Eligible(poison, ptes, page, pte, i)
    ensures FaultMapped(poison, ptes, page, pte, addr, address, n)
            <==> FaultMapped(poison, ptes, page, pte, addr, address, m)
                 || addr + m * PAGE_SIZE <= address < addr + n * PAGE_SIZE
  {
    if addr + m * PAGE_SIZE <= address < addr + n * PAGE_SIZE {
      var i := (address - addr) / PAGE_SIZE;
      assert m <= i < n && Faults(address, addr, i) && Eligible(poison, ptes, page, pte, i);
    }
  }

  /** Mapping the run [m, n) of eligible pages completes the table up to n. */
  lemma {:induction false} TableRun(poison: seq<bool>, before: seq<Option<nat>>, mid: seq<Option<nat>>,
      after: seq<Option<nat>>,
                 page: nat, pte: nat, m: nat, n: nat)
    requires TableAfter(poison, before, mid, page, pte, m) && m <= n && |after| == |before|
    requires forall i :: m <= i < n ==> Eligible(poison, before, page, pte, i)
    requires forall k :: 0 <= k < |after| ==>
               after[k] == if pte + m <= k < pte + n then Some(page + m + (k - (pte + m))) else mid[k]
    ensures TableAfter(poison, before, after, page, pte, n)
  {
    forall k | 0 <= k < |before|
      ensures after[k] ==
              if pte <= k < pte + n && Eligible(poison, before, page, pte, k - pte) then Some(page + (k - pte))
                          else before[k]
    {
      if pte + m <= k < pte + n {
        assert Eligible(poison, before, page, pte, k - pte);
      }
    }
  }

  /** What the loop has achieved for the pages below base: the reference's table, calls, counts and verdict. */
  ghost predicate Done(poison: seq<bool>, before: seq<Option<nat>>, after: seq<Option<nat>>, page: nat, pte: nat,
                       addr: nat, address: nat, base: nat, calls0: seq<nat>, calls: seq<nat>, rss: int, refs: int,
                       held: nat, hit: bool) {
    var mapped := Mapped(poison, before, page, pte, base);
    && TableAfter(poison, before, after, page, pte, base)
    && calls == calls0 + mapped && rss == |mapped|
    && held == (if mapped == [] then 1 else 0) && refs == |mapped| - (1 - held)
    && (hit <==> FaultMapped(poison, before, page, pte, addr, address, base))
  }

  /** A page that is not eligible changes nothing. */
  lemma {:induction false} SkipPage(poison: seq<bool>, before: seq<Option<nat>>, after: seq<Option<nat>>, page: nat,
      pte: nat, addr: nat,
                 address: nat, base: nat, calls0: seq<nat>, calls: seq<nat>, rss: int, refs: int, held: nat, hit: bool)
    requires Done(poison, before, after, page, pte, addr, address, base, calls0, calls, rss, refs, held, hit)
    requires !Eligible(poison, before, page, pte, base)
    ensures Done(poison, before, after, page, pte, addr, address, base + 1, calls0, calls, rss, refs, held, hit)
  {
  }

  class Fault {
    const ptes: array<Option<nat>>   // the page table
    const address: nat               // vmf->address
    var rss: nat
    var refs: int                    // the folio's reference count
    var mmapMiss: nat
    var calls: seq<nat>              // history: every page handed to set_pte_range

    constructor (ptes: array<Option<nat>>, address: nat, rss: nat, refs: int, mmapMiss: nat)
      ensures this.ptes == ptes && this.address == address && this.rss == rss && this.refs == refs
      ensures this.mmapMiss == mmapMiss && calls == []
    {
      this.ptes, this.address, this.rss, this.refs, this.mmapMiss, calls := ptes, address, rss, refs, mmapMiss, [];
    }

    /** set_pte_range: the entries from pte on map the pages from page on. */
    method SetPteRange(page: nat, pte: nat, count: nat)
      requires pte + count <= ptes.Length
      modifies ptes, this`calls
      ensures calls == old(calls) + Pages(page, count)
      ensures forall k :: 0 <= k < ptes.Length ==>
                ptes[k] == if pte <= k < pte + count then Some(page + (k - pte)) else old(ptes[k])
    {
      for i := 0 to count
        invariant calls == old(calls) + Pages(page, i)
        invariant forall k :: 0 <= k < ptes.Length ==>
                    ptes[k] == if pte <= k < pte + i then Some(page + (k - pte)) else old(ptes[k])
      {
        ptes[pte + i] := Some(page + i);
        calls := calls + [page + i];
      }
    }

    /** The mapping of one run: the code under `if (count)'. */
    method MapRun(page: nat, pte: nat, addr: nat, count: nat, refFromCaller: nat) returns (hit: bool)
      requires pte + count <= ptes.Length && count > 0
      modifies ptes, this`calls, this`rss, this`refs
      ensures calls == old(calls) + Pages(page, count) && rss == old(rss) + count
      ensures refs == old(refs) + count - refFromCaller
      ensures hit <==> addr <= address < addr + count * PAGE_SIZE
      ensures forall k :: 0 <= k < ptes.Length ==>
                ptes[k] == if pte <= k < pte + count then Some(page + (k - pte)) else old(ptes[k])
    {
      SetPteRange(page, pte, count);
      rss := rss + count;
      refs := refs + count - refFromCaller;
      hit := addr <= address < addr + count * PAGE_SIZE;
    }

    /** `if (count) { ... }': map the run [base, base + count) that has been gathered, if any. */
    method Flush(poison: seq<bool>, ghost before: seq<Option<nat>>, page: nat, pte: nat, addr: nat, base: nat,
        count: nat,
                 ghost calls0: seq<nat>, ghost rss0: nat, ghost refs0: int, held: nat, hit: bool)
      returns (held': nat, hit': bool)
      requires pte + base + count <= ptes.Length
      requires Done(poison, before, ptes[..], page, pte, addr, address, base, calls0, calls, rss - rss0, refs - refs0,
                 held, hit)
      requires forall i :: base <= i < base + count ==> Eligible(poison, before, page, pte, i)
      modifies ptes, this`calls, this`rss, this`refs
      ensures Done(poison, before, ptes[..], page, pte, addr, address, base + count, calls0, calls, rss - rss0,
                refs - refs0,
                   held', hit')
    {
      held', hit' := held, hit;
      if count > 0 {
        ghost var mid := ptes[..];
        MappedRun(poison, before, page, pte, base, base + count);
        FaultRun(poison, before, page, pte, addr, address, base, base + count);
        var inRun := MapRun(page + base, pte + base, addr + base * PAGE_SIZE, count, held);
        TableRun(poison, before, mid, ptes[..], page, pte, base, base + count);
        held' := 0;
        hit' := hit || inRun;
      }
    }

    /** One turn of the loop: the next page joins the run, or ends it. */
    method Turn(poison: seq<bool>, workingset: bool, ghost before: seq<Option<nat>>, page: nat, pte: nat, addr: nat,
        base: nat,
                count: nat, ghost calls0: seq<nat>, ghost rss0: nat, ghost refs0: int, held: nat, hit: bool)
      returns (base': nat, count': nat, held': nat, hit': bool)
      requires page + base + count < |poison| && pte + base + count < ptes.Length
      requires Done(poison, before, ptes[..], page, pte, addr, address, base, calls0, calls, rss - rss0, refs - refs0,
                 held, hit)
      requires forall i :: base <= i < base + count ==> Eligible(poison, before, page, pte, i)
      modifies this, ptes
      ensures base' + count' == base + count + 1
      ensures Done(poison, before, ptes[..], page, pte, addr, address, base', calls0, calls, rss - rss0, refs - refs0,
                held', hit')
      ensures forall i :: base' <= i < base' + count' ==> Eligible(poison, before, page, pte, i)
      ensures mmapMiss == old(mmapMiss) + (if workingset || poison[page + base + count] then 0 else 1)
    {
      assert ptes[..][pte + base + count] == before[pte + base + count];
      var skip := poison[page + base + count];
      if !skip {
        if !workingset {
          mmapMiss := mmapMiss + 1;
        }
        skip := ptes[pte + base + count].Some?;
      }
      if !skip {
        base', count', held', hit' := base, count + 1, held, hit;
      } else {
        held', hit' := Flush(poison, before, page, pte, addr, base, count, calls0, rss0, refs0, held, hit);
        SkipPage(poison, before, ptes[..], page, pte, addr, address, base + count, calls0, calls,
                 rss - rss0, refs - refs0, held', hit');
        base', count' := base + count + 1, 0;
      }
    }

    /** The do-while loop of filemap_map_folio_range over nr pages from page on. */
    method MapPages(poison: seq<bool>, workingset: bool, page: nat, pte: nat, addr: nat, nr: nat) returns (noPage: bool)
      requires nr >= 1 && page + nr <= |poison| && pte + nr <= ptes.Length
      modifies this, ptes
      ensures TableAfter(poison, old(ptes[..]), ptes[..], page, pte, nr)
      ensures calls == old(calls) + Mapped(poison, old(ptes[..]), page, pte, nr)
      ensures rss == old(rss) + |Mapped(poison, old(ptes[..]), page, pte, nr)|
      ensures refs == old(refs) + |Mapped(poison, old(ptes[..]), page, pte, nr)| - 1
      ensures noPage <==> FaultMapped(poison, old(ptes[..]), page, pte, addr, address, nr)
      ensures mmapMiss == old(mmapMiss) + (if workingset then 0 else Unpoisoned(poison, page, nr))
    {
      ghost var before := ptes[..];
      var base: nat, count: nat, left: nat, held: nat := 0, 0, nr, 1;
      noPage := false;
      while left > 0
        invariant left <= nr && base + count + left == nr
        invariant Done(poison, before, ptes[..], page, pte, addr, address, base, old(calls), calls,
                       rss - old(rss), refs - old(refs), held, noPage)
        invariant forall i :: base <= i < base + count ==> Eligible(poison, before, page, pte, i)
        invariant mmapMiss == old(mmapMiss) + (if workingset then 0 else Unpoisoned(poison, page, base + count))
      {
        base, count, held, noPage :=
          Turn(poison, workingset, before, page, pte, addr, base, count, old(calls), old(rss), old(refs), held, noPage);
        left := left - 1;
      }
      held, noPage :=
        Flush(poison, before, page, pte, addr, base, count, old(calls), old(rss), old(refs), held, noPage);
      if held > 0 {
        refs := refs - 1;
      }
    }

    /** filemap_map_folio_range: if the whole folio lies within the file, the VMA and one page table
        (`whole`), the range is first widened to all its pages. */
    method MapFolioRange(poison: seq<bool>, workingset: bool, whole: bool, start: nat, pte: nat, addr: nat, nr: nat)
      returns (noPage: bool)
      requires nr >= 1 && start + nr <= |poison| && pte + nr <= ptes.Length
      requires whole ==> start <= pte && start * PAGE_SIZE <= addr && pte - start + |poison| <= ptes.Length
      modifies this, ptes
      ensures var page' := if whole then 0 else start;
              var pte', addr' := if whole then pte - start else pte, if whole then addr - start * PAGE_SIZE else addr;
              var nr' := if whole then |poison| else nr;
              var mapped := Mapped(poison, old(ptes[..]), page', pte', nr');
              && TableAfter(poison, old(ptes[..]), ptes[..], page', pte', nr')
              && calls == old(calls) + mapped
              && rss == old(rss) + |mapped| && refs == old(refs) + |mapped| - 1
              && (noPage <==> FaultMapped(poison, old(ptes[..]), page', pte', addr', address, nr'))
              && mmapMiss == old(mmapMiss) + (if workingset then 0 else Unpoisoned(poison, page', nr'))
    {
      if whole {
        noPage := MapPages(poison, workingset, 0, pte - start, addr - start * PAGE_SIZE, |poison|);
      } else {
        noPage := MapPages(poison, workingset, start, pte, addr, nr);
      }
    }
  }

  /** Each page is mapped at most once: the reference's list is strictly ascending, and holds exactly
      the eligible pages. */
  lemma {:induction false} MappedExactly(poison: seq<bool>, ptes: seq<Option<nat>>, page: nat, pte: nat, n: nat)
    ensures var r := Mapped(poison, ptes, page, pte, n);
            && (forall i, j :: 0 <= i < j < |r| ==> r[i] < r[j])
            && (forall i :: 0 <= i < |r| ==> page <= r[i] < page + n)
            && (forall i :: 0 <= i < n ==> (page + i in r <==> Eligible(poison, ptes, page, pte, i)))
    decreases n
  {
    if n > 0 {
      MappedExactly(poison, ptes, page, pte, n - 1);
      var r, r' := Mapped(poison, ptes, page, pte, n - 1), Mapped(poison, ptes, page, pte, n);
      forall i | 0 <= i < n ensures page + i in r' <==> Eligible(poison, ptes, page, pte, i) {
        assert page + i in r' <==> page + i in r || (i == n - 1 && Eligible(poison, ptes, page, pte, i));
      }
    }
  }
}
