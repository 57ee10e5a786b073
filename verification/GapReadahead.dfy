/**
 * Page-cache read-ahead over a range that may already be partly cached: the missing
 * pages are added and read in contiguous batches that step over the cached ones.
 * Folios come in units of m pages, m being the mapping's minimum folio size.
 */
module GapReadahead {
  import opened Align

  /** What happens to the unit of pages at an index that is not in the cache. */
  datatype Answer = Added | NoMemory | Exists

  /** One submission: len pages from start. */
  datatype Batch = Batch(start: nat, len: nat)

  predicate InBatch(b: Batch, p: nat) {
    b.start <= p < b.start + b.len
  }

  ghost predicate InBatches(bs: seq<Batch>, p: nat) {
    exists i :: 0 <= i < |bs| && InBatch(bs[i], p)
  }

  /** Batches ascend, are not empty, and never touch. */
  ghost predicate Separate(bs: seq<Batch>, bound: nat) {
    && (forall i :: 0 <= i < |bs| ==> bs[i].len > 0 && bs[i].start + bs[i].len < bound)
    && (forall i, j :: 0 <= i < j < |bs| ==> bs[i].start + bs[i].len < bs[j].start)
  }

  /** What submitting the pending pages makes of the batches. */
  function Submit(bs: seq<Batch>, index: nat, nr: nat): seq<Batch> {
    if nr == 0 then bs else bs + [Batch(index, nr)]
  }

  lemma {:induction false} SubmitPages(bs: seq<Batch>, index: nat, nr: nat, bound: nat)
    requires Separate(bs, index) && index + nr < bound
    ensures forall p: nat :: InBatches(Submit(bs, index, nr), p) <==> InBatches(bs, p) || index <= p < index + nr
    ensures Separate(Submit(bs, index, nr), bound)
  {
    var bs' := Submit(bs, index, nr);
    forall p: nat | InBatches(bs, p) ensures InBatches(bs', p) {
      var i :| 0 <= i < |bs| && InBatch(bs[i], p);
      assert bs'[i] == bs[i];
    }
    forall p: nat | index <= p < index + nr ensures InBatches(bs', p) {
      assert InBatch(bs'[|bs|], p);
    }
  }

  /** Page p's unit is not cached, and is added when the loop gets to it. */
  predicate Wanted(before: set<nat>, answer: nat -> Answer, m: nat, p: nat)
    requires m >= 1
  {
    RoundDown(p, m) !in before && answer(RoundDown(p, m)).Added?
  }

  /** ... or turns out to be there by then, through somebody else. */
  predicate Raced(before: set<nat>, answer: nat -> Answer, m: nat, p: nat)
    requires m >= 1
  {
    RoundDown(p, m) !in before && answer(RoundDown(p, m)).Exists?
  }

  /** Where the loop ends: at the first unit from x on for which there is no memory, or past the end. */
  function Stop(before: set<nat>, answer: nat -> Answer, m: nat, x: nat, end: nat): (r: nat)
    requires m >= 1
    ensures x <= r && (r == x || r < end + m)
    decreases end - x
  {
    if x >= end || (x !in before && answer(x).NoMemory?) then x else Stop(before, answer, m, x + m, end)
  }

  lemma {:induction false} UnitOf(x: nat, m: nat)
    requires m >= 1 && Aligned(x, m)
    ensures forall p :: x <= p < x + m ==> RoundDown(p, m) == x
  {
    forall p | x <= p < x + m ensures RoundDown(p, m) == x {
      RoundDownIs(p, x, m);
    }
  }

  /** The page that starts the next read-ahead, rounded up to a unit. */
  function MarkPage(index: nat, nrToRead: nat, lookahead: nat, m: nat): (r: nat)
    requires m >= 1 && lookahead <= nrToRead
    ensures Aligned(r, m) && index + nrToRead <= r + lookahead < index + nrToRead + m
  {
    RoundUp(index + nrToRead - lookahead, m)
  }

  class Control {
    var index: nat             // _index
    var nrPages: nat           // _nr_pages
    var cache: set<nat>        // the pages of the mapping
    var submitted: seq<Batch>  // history: what went to the filesystem
    var marked: set<nat>       // history: folios given the readahead flag

    constructor (index: nat, cache: set<nat>)
      ensures this.index == index && nrPages == 0 && this.cache == cache && submitted == [] && marked == {}
    {
      this.index, nrPages, this.cache, submitted, marked := index, 0, cache, [], {};
    }

    /** read_pages: the pending batch, if any, is submitted; the folios are then consumed from the front, whatever their
        sizes, until none is left. */
    method ReadPages()
      modifies this`index, this`nrPages, this`submitted
      ensures index == old(index) + old(nrPages) && nrPages == 0
      ensures submitted == Submit(old(submitted), old(index), old(nrPages))
    {
      if nrPages == 0 {
        return;
      }
      submitted := submitted + [Batch(index, nrPages)];
      while nrPages > 0
        invariant index + nrPages == old(index) + old(nrPages)
        invariant submitted == Submit(old(submitted), old(index), old(nrPages))
        decreases nrPages
      {
        ReadaheadFolio();
      }
    }

    /** readahead_folio: the first folio leaves the batch. */
    method ReadaheadFolio()
      requires nrPages > 0
      modifies this`index, this`nrPages
      ensures index + nrPages == old(index) + old(nrPages) && nrPages < old(nrPages)
    {
      var pages: nat :| 1 <= pages <= nrPages by { assert 1 <= 1 <= nrPages; }
      index, nrPages := index + pages, nrPages - pages;
    }

    ghost predicate Taken(p: nat)
      reads this`index, this`nrPages, this`submitted
    {
      InBatches(submitted, p) || index <= p < index + nrPages
    }

    /** Before the turn at page x: the pages taken are the wanted ones from first up to x, and the one at the mark is
        flagged. */
    ghost predicate Standing(before: set<nat>, answer: nat -> Answer, m: nat, first: nat, x: nat, mark: nat)
      requires m >= 1
      reads this`index, this`nrPages, this`submitted, this`marked
    {
      && index + nrPages == x && Separate(submitted, index)
      && (forall p: nat :: Taken(p) <==> first <= p < x && Wanted(before, answer, m, p))
      && marked == if Taken(mark) then {mark} else {}
    }

    /** The cache has gained the wanted pages up to x and those that somebody else put there meanwhile. */
    ghost predicate Gained(before: set<nat>, answer: nat -> Answer, m: nat, first: nat, x: nat)
      requires m >= 1
      reads this`cache
    {
      forall p: nat :: p in cache <==>
        p in before || (first <= p < x && (Wanted(before, answer, m, p) || Raced(before, answer, m, p)))
    }

    /** The page is there already, or somebody else put it there: submit what is pending and step over it. */
    method StepOver(m: nat, x: nat, ghost before: set<nat>, ghost answer: nat -> Answer, ghost first: nat,
        ghost mark: nat)
      requires m >= 1 && first <= x && Aligned(x, m) && Standing(before, answer, m, first, x, mark)
      requires x in before || answer(x).Exists?
      modifies this`index, this`nrPages, this`submitted
      ensures Standing(before, answer, m, first, x + m, mark)
    {
      UnitOf(x, m);
      SubmitPages(submitted, index, nrPages, x + m);
      ReadPages();
      index := index + m;
      assert forall p: nat :: Taken(p) <==> old(Taken(p));
    }

    /** The unit is added to the pending batch. */
    method TakeUnit(m: nat, x: nat, mark: nat, ghost before: set<nat>, ghost answer: nat -> Answer, ghost first: nat)
      requires m >= 1 && first <= x && Aligned(x, m) && Aligned(mark, m) && Standing(before, answer, m, first, x, mark)
      requires x !in before && answer(x).Added?
      modifies this`nrPages, this`marked
      ensures Standing(before, answer, m, first, x + m, mark)
    {
      UnitOf(x, m);
      if x < mark {
        AlignedApart(x, mark, m);
      }
      if x == mark {
        marked := marked + {x};
      }
      nrPages := nrPages + m;
      assert forall p: nat :: Taken(p) <==> old(Taken(p)) || x <= p < x + m;
    }

    /** One turn of the loop at page x: false means memory ran out. */
    method Turn(answer: nat -> Answer, m: nat, x: nat, mark: nat, ghost before: set<nat>, ghost first: nat)
      returns (more: bool)
      requires m >= 1 && first <= x && Aligned(x, m) && Aligned(mark, m) && Standing(before, answer, m, first, x, mark)
      requires Gained(before, answer, m, first, x)
      modifies this
      ensures more <==> x in before || !answer(x).NoMemory?
      ensures var next := if more then x + m else x;
              Standing(before, answer, m, first, next, mark) && Gained(before, answer, m, first, next)
    {
      UnitOf(x, m);
      more := true;
      if x in cache {
        StepOver(m, x, before, answer, first, mark);
      } else if answer(x).NoMemory? {
        more := false;
      } else {
        cache := cache + Unit(x, m);
        if answer(x).Exists? {
          StepOver(m, x, before, answer, first, mark);
        } else {
          TakeUnit(m, x, mark, before, answer, first);
        }
      }
    }

    /** The loop. */
    method Fill(answer: nat -> Answer, m: nat, first: nat, end: nat, mark: nat) returns (x: nat)
      requires m >= 1 && Aligned(first, m) && Aligned(mark, m)
      requires index == first && nrPages == 0 && submitted == [] && marked == {}
      modifies this
      ensures Standing(old(cache), answer, m, first, x, mark) && Gained(old(cache), answer, m, first, x)
      ensures x == Stop(old(cache), answer, m, first, end)
    {
      ghost var before := cache;
      var i, more := 0, true;
      while first + i < end && more
        invariant Aligned(first + i, m) && Standing(before, answer, m, first, first + i, mark)
        invariant Gained(before, answer, m, first, first + i)
        invariant Stop(before, answer, m, first, end)
                  == if more then Stop(before, answer, m, first + i, end) else first + i
        decreases end - first - i, more
      {
        more := Turn(answer, m, first + i, mark, before, first);
        if more {
          i := i + m;
        }
      }
      x := first + i;
    }

    /** The last read_pages. */
    method Finish(ghost before: set<nat>, ghost answer: nat -> Answer, ghost m: nat, ghost first: nat, ghost x: nat,
        ghost mark: nat)
      requires m >= 1 && Standing(before, answer, m, first, x, mark)
      modifies this`index, this`nrPages, this`submitted
      ensures nrPages == 0 && Separate(submitted, index + 1)
      ensures forall p: nat :: InBatches(submitted, p) <==> first <= p < x && Wanted(before, answer, m, p)
      ensures marked == if InBatches(submitted, mark) then {mark} else {}
    {
      SubmitPages(submitted, index, nrPages, index + nrPages + 1);
      ReadPages();
      assert forall p: nat :: InBatches(submitted, p) <==> old(Taken(p));
    }

    /** page_cache_ra_unbounded */
    method Unbounded(answer: nat -> Answer, m: nat, nrToRead: nat, lookahead: nat)
      requires m >= 1 && nrPages == 0 && submitted == [] && marked == {}
      modifies this
      ensures nrPages == 0 && Separate(submitted, index + 1)
      ensures var first, end := RoundDown(old(index), m), old(index) + nrToRead;
              forall p: nat :: InBatches(submitted, p) <==>
                first <= p < Stop(old(cache), answer, m, first, end) && Wanted(old(cache), answer, m, p)
      ensures var first, end := RoundDown(old(index), m), old(index) + nrToRead;
              forall p: nat :: p in cache <==>
                || p in old(cache) || InBatches(submitted, p)
                || (first <= p < Stop(old(cache), answer, m, first, end) && Raced(old(cache), answer, m, p))
      ensures lookahead > nrToRead ==> marked == {}
      ensures lookahead <= nrToRead ==>
                var mark := MarkPage(old(index), nrToRead, lookahead, m);
                marked == if InBatches(submitted, mark) then {mark} else {}
    {
      var first := RoundDown(index, m);
      var end := index + nrToRead;
      var mark := if lookahead <= nrToRead then MarkPage(index, nrToRead, lookahead, m) else RoundUp(end + m, m);
      index := first;
      ghost var before := cache;
      var x := Fill(answer, m, first, end, mark);
      Finish(before, answer, m, first, x, mark);
    }
  }

  function Unit(x: nat, m: nat): (s: set<nat>)
    ensures forall p: nat :: p in s <==> x <= p < x + m
    decreases m
  {
    if m == 0 then {} else Unit(x, m - 1) + {x + m - 1}
  }

  /** With no failure the loop covers the whole aligned range. */
  lemma {:induction false} StopAtEnd(before: set<nat>, answer: nat -> Answer, m: nat, x: nat, end: nat)
    requires m >= 1 && Aligned(x, m) && x <= RoundUp(end, m) && forall q: nat :: !answer(q).NoMemory?
    ensures Stop(before, answer, m, x, end) == RoundUp(end, m)
    decreases end - x
  {
    if x < end {
      AlignedApart(x, RoundUp(end, m), m);
      StopAtEnd(before, answer, m, x + m, end);
    } else if x < RoundUp(end, m) {
      AlignedApart(x, RoundUp(end, m), m);
    }
  }

  /** ... and, folios being at least a unit large, the pages submitted are exactly the missing pages of
      that range, and never a cached one. */
  lemma {:induction false} ExactlyTheMissing(before: set<nat>, answer: nat -> Answer, m: nat, index: nat,
      nrToRead: nat, p: nat)
    requires m >= 1 && forall q: nat :: answer(q).Added?
    requires forall q: nat :: q in before <==> RoundDown(q, m) in before
    ensures var first, end := RoundDown(index, m), index + nrToRead;
            (first <= p < Stop(before, answer, m, first, end) && Wanted(before, answer, m, p))
            <==> first <= p < RoundUp(end, m) && p !in before
  {
    var first, end := RoundDown(index, m), index + nrToRead;
    StopAtEnd(before, answer, m, first, end);
  }
}
