/**
 * Read-ahead with large folios: a range of pages is tiled with folios of power-of-two
 * sizes, each as large as its position and the end of the range allow.
 */
module LargeFolios {
  import opened Align

  function Pow2(k: nat): (r: nat)
    ensures r >= 1
    decreases k
  {
    if k == 0 then 1 else 2 * Pow2(k - 1)
  }

  /** ilog2 */
  function Log2(n: nat): (k: nat)
    requires n >= 1
    ensures Pow2(k) <= n < 2 * Pow2(k)
    decreases n
  {
    if n == 1 then 0 else Log2(n / 2) + 1
  }

  /** __ffs: the number of trailing zero bits. */
  function Ffs(n: nat): (k: nat)
    requires n >= 1
    decreases n
  {
    if n % 2 == 1 then 0 else Ffs(n / 2) + 1
  }

  /** A folio: 2^order pages from index; `mark` is PG_readahead. */
  datatype Folio = Folio(index: nat, order: nat, mark: bool)

  lemma {:induction false} PowersDivide(j: nat, k: nat)
    requires j <= k
    ensures Aligned(Pow2(k), Pow2(j)) && Pow2(j) <= Pow2(k)
    decreases k - j
  {
    if j < k {
      PowersDivide(j, k - 1);
      AlignedSum(Pow2(k - 1), Pow2(k - 1), Pow2(j));
    } else {
      assert Aligned(0, Pow2(j));
    }
  }

  /** What is aligned to a larger power is aligned to a smaller one. */
  lemma {:induction false} AlignedSmaller(x: nat, j: nat, k: nat)
    requires j <= k && Aligned(x, Pow2(k))
    ensures Aligned(x, Pow2(j))
  {
    PowersDivide(j, k);
    AlignedTwice(x, Pow2(k), Pow2(j));
  }

  lemma {:induction false} DoubleAligned(x: nat, m: nat)
    requires m >= 1
    ensures Aligned(2 * x, 2 * m) <==> Aligned(x, m)
    decreases x
  {
    if x >= m {
      DoubleAligned(x - m, m);
      assert 2 * x - 2 * m == 2 * (x - m);
    }
  }

  lemma {:induction false} OddUnaligned(x: nat, m: nat)
    requires m >= 1 && x % 2 == 1
    ensures !Aligned(x, 2 * m)
    decreases x
  {
    if x >= 2 * m {
      OddUnaligned(x - 2 * m, m);
    }
  }

  /** 2^k divides n exactly for k up to the number of trailing zeros. */
  lemma {:induction false} FfsIsExact(n: nat, k: nat)
    requires n >= 1
    ensures Aligned(n, Pow2(k)) <==> k <= Ffs(n)
    decreases n
  {
    if k == 0 {
      AlignedToOne(n);
    } else if n % 2 == 1 {
      OddUnaligned(n, Pow2(k - 1));
    } else {
      assert n == 2 * (n / 2);
      DoubleAligned(n / 2, Pow2(k - 1));
      FfsIsExact(n / 2, k - 1);
    }
  }

  lemma {:induction false} AlignedToOne(n: nat)
    ensures Aligned(n, 1)
  {
    if n > 0 { AlignedToOne(n - 1); }
  }

  /** Order o is allowed at this index: the folio is aligned, and does not pass the limit unless it is
      of the minimum order. */
  predicate Permitted(index: nat, minOrder: nat, maxOrder: nat, limit: nat, o: nat) {
    minOrder <= o <= maxOrder && Aligned(index, Pow2(o)) && (o == minOrder || index + Pow2(o) - 1 <= limit)
  }

  /** The largest order allowed. */
  ghost predicate Largest(index: nat, minOrder: nat, maxOrder: nat, limit: nat, o: nat) {
    && Permitted(index, minOrder, maxOrder, limit, o)
    && forall o' :: o < o' <= maxOrder ==> !Permitted(index, minOrder, maxOrder, limit, o')
  }

  /** The choice made at each index of the loop. */
  method ChooseOrder(index: nat, minOrder: nat, newOrder: nat, limit: nat) returns (order: nat)
    requires minOrder <= newOrder && Aligned(index, Pow2(minOrder))
    ensures Largest(index, minOrder, newOrder, limit, order)
  {
    order := newOrder;
    if !Aligned(index, Pow2(order)) {
      order := Ffs(index);
      FfsIsExact(index, minOrder);
      FfsIsExact(index, newOrder);
      FfsIsExact(index, order);
    }
    ghost var top := order;
    assert forall o' :: top < o' <= newOrder ==> !Permitted(index, minOrder, newOrder, limit, o') by {
      forall o' | top < o' <= newOrder ensures !Aligned(index, Pow2(o')) {
        FfsIsExact(index, o');
      }
    }
    while order > minOrder && index + Pow2(order) - 1 > limit
      invariant minOrder <= order <= top && Aligned(index, Pow2(order))
      invariant forall o' :: order < o' <= top ==> !Permitted(index, minOrder, newOrder, limit, o')
    {
      AlignedSmaller(index, order - 1, order);
      order := order - 1;
    }
  }

  /** Folios side by side from `from` on, ending at `to`. */
  ghost predicate Tiles(fs: seq<Folio>, from: nat, to: nat)
    decreases |fs|
  {
    if fs == [] then from == to
    else
      var last := fs[|fs| - 1];
      last.index + Pow2(last.order) == to && Tiles(fs[..|fs| - 1], from, last.index)
  }

  /** Every folio is aligned and as large as allowed, and carries the mark exactly if it holds that page. */
  ghost predicate WellPlaced(fs: seq<Folio>, minOrder: nat, maxOrder: nat, limit: nat, mark: nat) {
    forall i :: 0 <= i < |fs| ==> Placed(fs[i], minOrder, maxOrder, limit, mark)
  }

  ghost predicate Placed(f: Folio, minOrder: nat, maxOrder: nat, limit: nat, mark: nat) {
    && f.index <= limit && Largest(f.index, minOrder, maxOrder, limit, f.order)
    && (f.mark <==> f.index <= mark < f.index + Pow2(f.order))
  }

  /** The order the loop starts from. */
  function StartOrder(raOrder: nat, raSize: nat, minOrder: nat, maxOrder: nat): (r: nat)
    requires raSize >= 1
    ensures minOrder <= r && (r == minOrder || (r <= raOrder && r <= maxOrder && Pow2(r) <= raSize))
  {
    var a := if maxOrder < raOrder then maxOrder else raOrder;
    var b := if a < Log2(raSize) then a else Log2(raSize);
    PowersDivide(b, Log2(raSize));
    if b > minOrder then b else minOrder
  }

  /** ... is the largest that the window, the mapping and the readahead state allow, or else the minimum order. */
  lemma {:induction false} StartOrderIsLargest(raOrder: nat, raSize: nat, minOrder: nat, maxOrder: nat, o: nat)
    requires raSize >= 1 && o <= raOrder && o <= maxOrder && Pow2(o) <= raSize
    ensures o <= StartOrder(raOrder, raSize, minOrder, maxOrder)
  {
    if Log2(raSize) < o {
      PowersDivide(Log2(raSize) + 1, o);
    }
  }

  class OrderControl {
    var index: nat           // _index
    var nrPages: nat         // _nr_pages
    var folios: seq<Folio>   // what was added to the cache, in order

    constructor (index: nat)
      ensures this.index == index && nrPages == 0 && folios == []
    {
      this.index, nrPages, folios := index, 0, [];
    }

    /** ra_alloc_folio, for an allocation and insertion that succeed. */
    method AllocFolio(at: nat, mark: nat, order: nat)
      requires Aligned(at, Pow2(order))
      modifies this`nrPages, this`folios
      ensures nrPages == old(nrPages) + Pow2(order)
      ensures folios == old(folios) + [Folio(at, order, at <= mark < at + Pow2(order))]
    {
      var m := RoundDown(mark, Pow2(order));
      RoundDownIs(mark, at, Pow2(order));
      folios := folios + [Folio(at, order, at == m)];
      nrPages := nrPages + Pow2(order);
    }

    /** The loop of page_cache_ra_order; fails tells at which index an allocation or insertion fails. */
    method TileRange(limit: nat, mark: nat, minOrder: nat, newOrder: nat, fails: nat -> bool)
      returns (err: bool, end: nat)
      requires minOrder <= newOrder && Aligned(index, Pow2(minOrder)) && nrPages == 0 && folios == []
      modifies this`nrPages, this`folios
      ensures Tiles(folios, index, end) && nrPages == end - index
      ensures WellPlaced(folios, minOrder, newOrder, limit, mark)
      ensures if err then end <= limit && fails(end) else end > limit
    {
      end := index;
      err := false;
      while end <= limit && !err
        invariant Aligned(end, Pow2(minOrder)) && Tiles(folios, index, end) && nrPages == end - index && index <= end
        invariant WellPlaced(folios, minOrder, newOrder, limit, mark)
        invariant err ==> end <= limit && fails(end)
        decreases limit + 1 - end, !err
      {
        var order := ChooseOrder(end, minOrder, newOrder, limit);
        if fails(end) {
          err := true;
        } else {
          ghost var f := Folio(end, order, end <= mark < end + Pow2(order));
          PlacedSnoc(folios, f, index, minOrder, newOrder, limit, mark);
          NextAligned(end, minOrder, order);
          AllocFolio(end, mark, order);
          end := end + Pow2(order);
        }
      }
    }

    /** page_cache_ra_order, up to the submission of the tiled range. */
    method Order(raOrder: nat, raSize: nat, asyncSize: nat, minOrder: nat, maxOrder: nat, eof: nat, fails: nat -> bool)
      returns (err: bool, end: nat)
      requires nrPages == 0 && folios == [] && 1 <= raSize && asyncSize <= raSize
      modifies this
      ensures index == RoundDown(old(index), Pow2(minOrder))
      ensures Tiles(folios, index, end) && nrPages == end - index
      ensures var limit := if eof < old(index) + raSize - 1 then eof else old(index) + raSize - 1;
              && WellPlaced(folios, minOrder, StartOrder(raOrder, raSize, minOrder, maxOrder), limit,
                            old(index) + raSize - asyncSize)
              && (if err then end <= limit && fails(end) else end > limit)
    {
      var mark := index + raSize - asyncSize;
      var limit := if eof < index + raSize - 1 then eof else index + raSize - 1;
      var newOrder := StartOrder(raOrder, raSize, minOrder, maxOrder);
      index := RoundDown(index, Pow2(minOrder));
      err, end := TileRange(limit, mark, minOrder, newOrder, fails);
    }
  }

  /** One more folio where the others end. */
  lemma {:induction false} PlacedSnoc(fs: seq<Folio>, f: Folio, from: nat, minOrder: nat, maxOrder: nat, limit: nat,
      mark: nat)
    requires Tiles(fs, from, f.index) && WellPlaced(fs, minOrder, maxOrder, limit, mark)
    requires Placed(f, minOrder, maxOrder, limit, mark)
    ensures Tiles(fs + [f], from, f.index + Pow2(f.order)) && WellPlaced(fs + [f], minOrder, maxOrder, limit, mark)
  {
    var all := fs + [f];
    assert all[..|all| - 1] == fs;
    assert forall i :: 0 <= i < |all| ==> all[i] == if i < |fs| then fs[i] else f;
  }

  lemma {:induction false} NextAligned(x: nat, j: nat, k: nat)
    requires j <= k && Aligned(x, Pow2(j))
    ensures Aligned(x + Pow2(k), Pow2(j))
  {
    PowersDivide(j, k);
    AlignedSum(x, Pow2(k), Pow2(j));
  }

  predicate Holds(f: Folio, p: nat) {
    f.index <= p < f.index + Pow2(f.order)
  }

  /** No gap and no overlap: a page of the range is in exactly one folio, any other page in none. */
  lemma {:induction false} TiledOnce(fs: seq<Folio>, from: nat, to: nat, p: nat)
    requires Tiles(fs, from, to)
    ensures from <= to
    ensures from <= p < to <==> exists i :: 0 <= i < |fs| && Holds(fs[i], p)
    ensures forall i, j :: 0 <= i < |fs| && 0 <= j < |fs| && Holds(fs[i], p) && Holds(fs[j], p) ==> i == j
    decreases |fs|
  {
    if fs != [] {
      var rest, last := fs[..|fs| - 1], fs[|fs| - 1];
      TiledOnce(rest, from, last.index, p);
      assert forall i :: 0 <= i < |rest| ==> fs[i] == rest[i];
      if from <= p < last.index {
        var i :| 0 <= i < |rest| && Holds(rest[i], p);
        assert Holds(fs[i], p);
      } else if last.index <= p < to {
        assert Holds(fs[|fs| - 1], p);
      }
    }
  }

  /** Exactly the folio that holds the mark page is flagged, when that page is covered; and only a
      folio of the minimum order can reach past the limit. */
  lemma {:induction false} FlaggedOnce(fs: seq<Folio>, from: nat, to: nat, minOrder: nat, maxOrder: nat, limit: nat,
      mark: nat)
    requires Tiles(fs, from, to) && WellPlaced(fs, minOrder, maxOrder, limit, mark)
    ensures from <= mark < to <==> exists i :: 0 <= i < |fs| && fs[i].mark
    ensures forall i, j :: 0 <= i < |fs| && 0 <= j < |fs| && fs[i].mark && fs[j].mark ==> i == j
    ensures forall i :: 0 <= i < |fs| && fs[i].index + Pow2(fs[i].order) - 1 > limit ==> fs[i].order == minOrder
  {
    TiledOnce(fs, from, to, mark);
    assert forall i :: 0 <= i < |fs| ==> Placed(fs[i], minOrder, maxOrder, limit, mark);
    assert forall i :: 0 <= i < |fs| ==> (fs[i].mark <==> Holds(fs[i], mark));
  }
}
