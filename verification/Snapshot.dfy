/** The aggregated view of the book (`GetSnapshot` in backend/internal/orderbook/engine.go). Bid and ask
    aggregation are the same code but for the direction of the sort. */
module Snapshots {
  import opened Domain
  import opened Matching
  import opened MatchingTheory
  import opened OrderHeaps
  import opened OrderBooks
  import opened Sums

  datatype PriceLevel = PriceLevel(price: real, amount: int, count: int)

  /** `x` is listed before `y`: bids from high to low, asks from low to high. */
  predicate InFront(side: Side, x: real, y: real) {
    if side.Buy? then x > y else x < y
  }

  // ---------------------------------------------------------------- the in-place insertion sorts

  ghost predicate SortedPrices(side: Side, s: seq<real>) {
    forall i, j :: 0 <= i < j < |s| ==> !InFront(side, s[j], s[i])
  }

  ghost predicate NoRepeats(s: seq<real>) {
    forall i, j :: 0 <= i < j < |s| ==> s[i] != s[j]
  }

  /** Up to position `i` only the price at `j` may stand too far back. */
  ghost predicate Sinking(side: Side, s: seq<real>, i: int, j: int)
    requires 0 <= j <= i < |s|
  {
    forall p, q :: 0 <= p < q <= i && q != j ==> !InFront(side, s[q], s[p])
  }

  lemma SinkStarts(side: Side, s: seq<real>, i: int)
    requires 0 <= i < |s| && SortedPrices(side, s[..i])
    ensures Sinking(side, s, i, i)
  {
  }

  lemma SinkStep(side: Side, s: seq<real>, i: int, j: int)
    requires 0 < j <= i < |s| && Sinking(side, s, i, j) && InFront(side, s[j], s[j - 1])
    ensures var t := s[j := s[j - 1]][j - 1 := s[j]];
      Sinking(side, t, i, j - 1) && multiset(t) == multiset(s)
  {
  }

  lemma SinkEnds(side: Side, s: seq<real>, i: int, j: int)
    requires 0 <= j <= i < |s| && Sinking(side, s, i, j) && (j == 0 || !InFront(side, s[j], s[j - 1]))
    ensures SortedPrices(side, s[..i + 1])
  {
  }

  /** The two insertion sorts, lines 262-276. */
  method SortPrices(a: array<real>, side: Side)
    modifies a
    ensures SortedPrices(side, a[..]) && multiset(a[..]) == multiset(old(a[..]))
  {
    hide Sinking, InFront;
    var i := 1;
    while i < a.Length
      invariant 1 <= i && (a.Length == 0 || i <= a.Length)
      invariant SortedPrices(side, if i <= a.Length then a[..i] else a[..])
      invariant multiset(a[..]) == multiset(old(a[..]))
    {
      Insert(a, i, side);
      i := i + 1;
    }
    assert a.Length > 0 ==> a[..i] == a[..];
  }

  /** The inner loop: the price at `i` sinks to its place. */
  method Insert(a: array<real>, i: int, side: Side)
    requires 0 <= i < a.Length && SortedPrices(side, a[..i])
    modifies a
    ensures SortedPrices(side, a[..i + 1]) && multiset(a[..]) == multiset(old(a[..]))
  {
    hide Sinking, InFront, SortedPrices;
    assert a[..][..i] == a[..i];
    SinkStarts(side, a[..], i);
    var j := i;
    while j > 0 && InFront(side, a[j], a[j - 1])
      invariant 0 <= j <= i && Sinking(side, a[..], i, j)
      invariant multiset(a[..]) == multiset(old(a[..]))
    {
      SinkStep(side, a[..], i, j);
      ghost var s := a[..];
      a[j], a[j - 1] := a[j - 1], a[j];
      assert a[..] == s[j := s[j - 1]][j - 1 := s[j]];
      j := j - 1;
    }
    SinkEnds(side, a[..], i, j);
    assert a[..][..i + 1] == a[..i + 1];
  }

  lemma {:induction false} NoRepeatsCount(s: seq<real>)
    ensures NoRepeats(s) <==> forall x | x in s :: multiset(s)[x] == 1
  {
    if s != [] {
      var t, last := s[..|s| - 1], s[|s| - 1];
      assert s == t + [last];
      NoRepeatsCount(t);
      assert multiset(s) == multiset(t) + multiset{last};
      assert last in t <==> multiset(t)[last] > 0;
      assert forall x | x in t :: x in s && multiset(t)[x] > 0;
    }
  }

  lemma Rearranges(a: seq<real>, b: seq<real>)
    requires multiset(a) == multiset(b)
    ensures |a| == |b| && (forall x :: x in a <==> x in b) && (NoRepeats(a) ==> NoRepeats(b))
  {
    NoRepeatsCount(a);
    NoRepeatsCount(b);
    assert forall x :: x in a <==> x in multiset(a);
    assert forall x :: x in b <==> x in multiset(b);
    assert |multiset(a)| == |a|;
  }

  // ---------------------------------------------------------------- levels

  /** Total remaining amount, and number, of the listed orders at a price. */
  function AmountAt(list: seq<OrderValue>, p: real): int {
    if list == [] then 0
    else
      var o := list[|list| - 1];
      AmountAt(list[..|list| - 1], p) + if o.terms.price == p then o.Remaining() else 0
  }

  function CountAt(list: seq<OrderValue>, p: real): nat {
    if list == [] then 0
    else CountAt(list[..|list| - 1], p) + if list[|list| - 1].terms.price == p then 1 else 0
  }

  ghost predicate Aggregates(list: seq<OrderValue>, side: Side, levels: seq<PriceLevel>) {
    && (forall i, j :: 0 <= i < j < |levels| ==> InFront(side, levels[i].price, levels[j].price))
    && (forall i :: 0 <= i < |levels| ==>
          levels[i].count == CountAt(list, levels[i].price) > 0 && levels[i].amount == AmountAt(list, levels[i].price))
    && (forall i :: 0 <= i < |list| ==> exists j :: 0 <= j < |levels| && levels[j].price == list[i].terms.price)
  }

  function HeapValues(h: seq<OrderEntry>): (list: seq<OrderValue>)
    reads set e | e in h :: e.order
    ensures |list| == |h| && forall i :: 0 <= i < |h| ==> list[i] == h[i].order.Value()
  {
    if h == [] then [] else HeapValues(h[..|h| - 1]) + [h[|h| - 1].order.Value()]
  }

  /** The levels collected from the first entries of a heap. */
  ghost predicate Collected(list: seq<OrderValue>, levels: map<real, PriceLevel>, prices: seq<real>) {
    && NoRepeats(prices) && (forall p :: p in prices <==> p in levels)
    && (forall p | p in levels ::
          levels[p] == PriceLevel(p, AmountAt(list, p), CountAt(list, p)) && CountAt(list, p) > 0)
    && (forall k :: 0 <= k < |list| ==> list[k].terms.price in levels)
  }

  lemma {:induction false} NoneAt(list: seq<OrderValue>, p: real)
    requires forall k :: 0 <= k < |list| ==> list[k].terms.price != p
    ensures AmountAt(list, p) == 0 && CountAt(list, p) == 0
  {
    if list != [] {
      NoneAt(list[..|list| - 1], p);
    }
  }

  lemma NoneCollected()
    ensures Collected([], map[], [])
  {
  }

  /** Lines 214-225 and 240-251: one more order joins its level or opens a new one. */
  lemma CollectOne(list: seq<OrderValue>, o: OrderValue, levels: map<real, PriceLevel>, prices: seq<real>)
    requires Collected(list, levels, prices)
    ensures var p := o.terms.price;
      if p in levels then
        Collected(list + [o], levels[p := PriceLevel(p, levels[p].amount + o.Remaining(), levels[p].count + 1)], prices)
      else
        Collected(list + [o], levels[p := PriceLevel(p, o.Remaining(), 1)], prices + [p])
  {
    var p, more := o.terms.price, list + [o];
    assert more[..|more| - 1] == list;
    if p !in levels {
      NoneAt(list, p);
    }
  }

  /** The sorted prices, looked up in the collected levels, are the aggregate. */
  lemma SortedLevelsAggregate(list: seq<OrderValue>, levels: map<real, PriceLevel>, prices: seq<real>,
                              side: Side, sorted: seq<real>, result: seq<PriceLevel>)
    requires Collected(list, levels, prices)
    requires SortedPrices(side, sorted) && multiset(sorted) == multiset(prices)
    requires |result| == |sorted| &&
      forall i :: 0 <= i < |sorted| ==> sorted[i] in levels && result[i] == levels[sorted[i]]
    ensures Aggregates(list, side, result)
  {
    Rearranges(prices, sorted);
    forall k | 0 <= k < |list|
      ensures exists j :: 0 <= j < |result| && result[j].price == list[k].terms.price
    {
      assert list[k].terms.price in sorted;
      var j :| 0 <= j < |sorted| && sorted[j] == list[k].terms.price;
      assert result[j].price == sorted[j];
    }
  }

  /** aggregateLevels and aggregateSellLevels */
  method AggregateLevels(heap: OrderHeap) returns (result: seq<PriceLevel>)
    ensures Aggregates(HeapValues(heap.h), heap.side, result)
  {
    hide Collected, Aggregates;
    ghost var list := HeapValues(heap.h);
    NoneCollected();
    var levels: map<real, PriceLevel> := map[];
    var prices: seq<real> := [];
    var i := 0;
    assert list[..0] == [];
    while i < |heap.h|
      invariant 0 <= i <= |heap.h|
      invariant Collected(list[..i], levels, prices)
    {
      var order := heap.h[i].order;
      var p := order.terms.price;
      CollectOne(list[..i], order.Value(), levels, prices);
      assert list[..i + 1] == list[..i] + [order.Value()];
      if p in levels {
        var lvl := levels[p];
        levels := levels[p := PriceLevel(p, lvl.amount + order.RemainingBase(), lvl.count + 1)];
      } else {
        levels := levels[p := PriceLevel(p, order.RemainingBase(), 1)];
        prices := prices + [p];
      }
      i := i + 1;
    }
    assert list[..i] == list;
    result := InOrder(levels, prices, heap.side, list);
  }

  /** Lines 228-233 and 254-259: sort the prices in place, then collect their levels. */
  method InOrder(levels: map<real, PriceLevel>, prices: seq<real>, side: Side, ghost list: seq<OrderValue>)
    returns (result: seq<PriceLevel>)
    requires Collected(list, levels, prices)
    ensures Aggregates(list, side, result)
  {
    hide SortedPrices, Aggregates, NoRepeats, AmountAt, CountAt, InFront;
    var a := new real[|prices|](i requires 0 <= i < |prices| => prices[i]);
    assert a[..] == prices;
    SortPrices(a, side);
    Rearranges(prices, a[..]);
    assert forall k :: 0 <= k < a.Length ==> a[k] == a[..][k] && a[..][k] in a[..];
    result := [];
    var i := 0;
    while i < a.Length
      invariant 0 <= i <= a.Length && |result| == i
      invariant forall k :: 0 <= k < a.Length ==> a[k] in a[..] && a[k] in levels
      invariant forall k :: 0 <= k < i ==> result[k] == levels[a[k]]
    {
      result := result + [levels[a[i]]];
      i := i + 1;
    }
    SortedLevelsAggregate(list, levels, prices, side, a[..], result);
  }

  // ---------------------------------------------------------------- the snapshot of a book

  /** The remaining amounts of a side's resting orders at a price. */
  ghost function AtPrice(rest: Resting, side: Side, p: real): map<string, int> {
    map id | id in rest && rest[id].terms.side == side && rest[id].terms.price == p :: rest[id].Remaining()
  }

  /** The levels of a side: strictly from best to worst, each with the total remaining amount and the
      number of the orders at its price, and every resting order on some level. */
  ghost predicate IsView(rest: Resting, side: Side, levels: seq<PriceLevel>) {
    && (forall i, j :: 0 <= i < j < |levels| ==> InFront(side, levels[i].price, levels[j].price))
    && (forall i :: 0 <= i < |levels| ==>
          var at := AtPrice(rest, side, levels[i].price);
          levels[i].count == |at| > 0 && levels[i].amount == Sum(at))
    && (forall id | id in rest && rest[id].terms.side == side ::
          exists j :: 0 <= j < |levels| && levels[j].price == rest[id].terms.price)
  }

  lemma DropLast(rest: Resting, side: Side, list: seq<OrderValue>)
    requires Book(rest) && list != [] && Lists(rest, side, list)
    ensures Lists(rest - {list[|list| - 1].terms.id}, side, list[..|list| - 1])
  {
  }

  lemma WithoutOne(rest: Resting, side: Side, p: real, o: OrderValue)
    requires o.terms.id in rest && rest[o.terms.id] == o && o.terms.side == side
    ensures var before, after := AtPrice(rest, side, p), AtPrice(rest - {o.terms.id}, side, p);
      Sum(before) == Sum(after) + (if o.terms.price == p then o.Remaining() else 0)
      && |before| == |after| + (if o.terms.price == p then 1 else 0)
  {
    var before, after := AtPrice(rest, side, p), AtPrice(rest - {o.terms.id}, side, p);
    if o.terms.price == p {
      assert after == before - {o.terms.id};
      SumWithout(before, o.terms.id);
      assert before.Keys == after.Keys + {o.terms.id};
    } else {
      assert after == before;
    }
  }

  lemma {:induction false} ListTotals(rest: Resting, side: Side, list: seq<OrderValue>, p: real)
    requires Book(rest) && Lists(rest, side, list)
    ensures AmountAt(list, p) == Sum(AtPrice(rest, side, p)) && CountAt(list, p) == |AtPrice(rest, side, p)|
    decreases |list|
  {
    if list == [] {
      assert AtPrice(rest, side, p) == map[];
    } else {
      var o := list[|list| - 1];
      DropLast(rest, side, list);
      WithoutOne(rest, side, p, o);
      hide Lists, AtPrice;
      ListTotals(rest - {o.terms.id}, side, list[..|list| - 1], p);
    }
  }

  lemma AggregateIsView(rest: Resting, side: Side, list: seq<OrderValue>, levels: seq<PriceLevel>)
    requires Book(rest) && Lists(rest, side, list) && Aggregates(list, side, levels)
    ensures IsView(rest, side, levels)
  {
    forall i | 0 <= i < |levels|
      ensures var at := AtPrice(rest, side, levels[i].price); levels[i].count == |at| > 0 && levels[i].amount == Sum(at)
    {
      ListTotals(rest, side, list, levels[i].price);
    }
    forall id | id in rest && rest[id].terms.side == side
      ensures exists j :: 0 <= j < |levels| && levels[j].price == rest[id].terms.price
    {
      var k :| 0 <= k < |list| && list[k] == rest[id];
    }
  }

  /** A side of the book has one view: it depends on the resting orders only, not on the heap's layout. */
  lemma {:induction false} ViewIsUnique(rest: Resting, side: Side, a: seq<PriceLevel>, b: seq<PriceLevel>)
    requires Book(rest) && IsView(rest, side, a) && IsView(rest, side, b)
    ensures a == b
  {
    forall i | 0 <= i < |a| && i < |b|
      ensures a[i] == b[i]
    {
      SameLevelAt(rest, side, a, b, i);
    }
    if |a| < |b| {
      var j := PriceListed(rest, side, b, |a|, a);
      SameLevelAt(rest, side, a, b, j);
    } else if |b| < |a| {
      var j := PriceListed(rest, side, a, |b|, b);
      SameLevelAt(rest, side, a, b, j);
    }
  }

  /** A price of one view is a price of any other. */
  lemma PriceListed(rest: Resting, side: Side, a: seq<PriceLevel>, i: nat, b: seq<PriceLevel>) returns (j: nat)
    requires Book(rest) && IsView(rest, side, a) && IsView(rest, side, b) && i < |a|
    ensures j < |b| && b[j].price == a[i].price
  {
    var at := AtPrice(rest, side, a[i].price);
    assert |at| > 0;
    assert at != map[];
    var id :| id in at;
    j :| 0 <= j < |b| && b[j].price == rest[id].terms.price;
  }

  lemma {:induction false} SameLevelAt(rest: Resting, side: Side, a: seq<PriceLevel>, b: seq<PriceLevel>, i: nat)
    requires Book(rest) && IsView(rest, side, a) && IsView(rest, side, b) && i < |a| && i < |b|
    ensures a[i] == b[i]
  {
    var j := PriceListed(rest, side, a, i, b);
    var k := PriceListed(rest, side, b, i, a);
    if j < i {
      SameLevelAt(rest, side, a, b, j);
    }
    if k < i {
      SameLevelAt(rest, side, a, b, k);
    }
  }

  lemma FirstLevelIsBest(rest: Resting, side: Side, levels: seq<PriceLevel>, best: string)
    requires Book(rest) && IsView(rest, side, levels) && IsBest(rest, side, best)
    ensures |levels| > 0 && levels[0].price == rest[best].terms.price
  {
  }

  /** The first level is at the price of the side's heap root. */
  lemma FirstLevelIsRoot(book: OrderBook, side: Side, levels: seq<PriceLevel>)
    requires book.Valid() && IsView(book.View(), side, levels) && |book.HeapOf(side).h| > 0
    ensures |levels| > 0 && levels[0].price == book.HeapOf(side).h[0].order.terms.price
  {
    book.RootIsBestOrder(side);
    FirstLevelIsBest(book.View(), side, levels, book.HeapOf(side).h[0].order.terms.id);
    assert book.HeapOf(side).h[0] in book.HeapOf(side).h;
  }

  function TotalAmount(levels: seq<PriceLevel>): int {
    if levels == [] then 0 else TotalAmount(levels[..|levels| - 1]) + levels[|levels| - 1].amount
  }

  ghost function OnSide(rest: Resting, side: Side): map<string, int> {
    map id | id in rest && rest[id].terms.side == side :: rest[id].Remaining()
  }

  function Prices(levels: seq<PriceLevel>): set<real> {
    if levels == [] then {} else Prices(levels[..|levels| - 1]) + {levels[|levels| - 1].price}
  }

  lemma {:induction false} PricesAreListed(levels: seq<PriceLevel>)
    ensures forall j :: 0 <= j < |levels| ==> levels[j].price in Prices(levels)
    ensures forall p | p in Prices(levels) :: exists j :: 0 <= j < |levels| && levels[j].price == p
  {
    if levels != [] {
      var before := levels[..|levels| - 1];
      PricesAreListed(before);
      forall p | p in Prices(before)
        ensures exists j :: 0 <= j < |levels| && levels[j].price == p
      {
        var j :| 0 <= j < |before| && before[j].price == p;
        assert levels[j].price == p;
      }
    }
  }

  /** The side's orders at one of the given prices. */
  ghost function Priced(rest: Resting, side: Side, prices: set<real>): map<string, int> {
    map id | id in rest && rest[id].terms.side == side && rest[id].terms.price in prices :: rest[id].Remaining()
  }

  lemma OnePriceMore(rest: Resting, side: Side, prices: set<real>, p: real)
    requires p !in prices
    ensures Sum(Priced(rest, side, prices + {p})) == Sum(Priced(rest, side, prices)) + Sum(AtPrice(rest, side, p))
  {
    SumOfThree(Priced(rest, side, prices + {p}), Priced(rest, side, prices), AtPrice(rest, side, p), map[]);
  }

  lemma LevelIsNew(rest: Resting, side: Side, levels: seq<PriceLevel>, n: nat)
    requires IsView(rest, side, levels) && n < |levels|
    ensures levels[n].amount == Sum(AtPrice(rest, side, levels[n].price))
    ensures levels[n].price !in Prices(levels[..n])
  {
    PricesAreListed(levels[..n]);
    assert levels[n].count == |AtPrice(rest, side, levels[n].price)|;
  }

  lemma {:induction false} TotalUpto(rest: Resting, side: Side, levels: seq<PriceLevel>, n: nat)
    requires IsView(rest, side, levels) && n <= |levels|
    ensures TotalAmount(levels[..n]) == Sum(Priced(rest, side, Prices(levels[..n])))
  {
    hide IsView;
    if n == 0 {
      assert Priced(rest, side, Prices(levels[..0])) == map[];
    } else {
      TotalUpto(rest, side, levels, n - 1);
      assert levels[..n][..n - 1] == levels[..n - 1];
      LevelIsNew(rest, side, levels, n - 1);
      OnePriceMore(rest, side, Prices(levels[..n - 1]), levels[n - 1].price);
    }
  }

  lemma AllPriced(rest: Resting, side: Side, levels: seq<PriceLevel>)
    requires IsView(rest, side, levels)
    ensures Priced(rest, side, Prices(levels)) == OnSide(rest, side)
  {
    PricesAreListed(levels);
    forall id | id in rest && rest[id].terms.side == side
      ensures rest[id].terms.price in Prices(levels)
    {
      var j :| 0 <= j < |levels| && levels[j].price == rest[id].terms.price;
    }
    hide IsView;
  }

  /** Nothing is lost or counted twice: the levels add up to the side's resting amount. */
  lemma LevelsAddUp(rest: Resting, side: Side, levels: seq<PriceLevel>)
    requires IsView(rest, side, levels)
    ensures TotalAmount(levels) == Sum(OnSide(rest, side))
  {
    hide IsView;
    TotalUpto(rest, side, levels, |levels|);
    AllPriced(rest, side, levels);
    assert levels[..|levels|] == levels;
  }

  datatype Snapshot = Snapshot(bids: seq<PriceLevel>, asks: seq<PriceLevel>)

  method GetSnapshot(book: OrderBook) returns (s: Snapshot)
    requires book.Valid()
    ensures IsView(book.View(), Buy, s.bids) && IsView(book.View(), Sell, s.asks)
  {
    hide Lists, IsView, Aggregates;
    var bids := AggregateLevels(book.buys);
    var asks := AggregateLevels(book.sells);
    HeapListsSide(book, Buy);
    HeapListsSide(book, Sell);
    AggregateIsView(book.View(), Buy, HeapValues(book.buys.h), bids);
    AggregateIsView(book.View(), Sell, HeapValues(book.sells.h), asks);
    s := Snapshot(bids, asks);
  }

  /** A heap holds each resting order of its side exactly once. */
  lemma HeapListsSide(book: OrderBook, side: Side)
    requires book.Valid()
    ensures Lists(book.View(), side, HeapValues(book.HeapOf(side).h)) && Book(book.View())
    ensures book.HeapOf(side).side == side
  {
    var h := book.HeapOf(side).h;
    var list := HeapValues(h);
    forall i | 0 <= i < |h|
      ensures list[i].terms.side == side && list[i].terms.id in book.View() && book.View()[list[i].terms.id] == list[i]
      ensures book.orderMap[list[i].terms.id] == h[i]
    {
      assert h[i] in h;
    }
    forall id | id in book.View() && book.View()[id].terms.side == side
      ensures book.View()[id] in list
    {
      var k :| 0 <= k < |h| && h[k] == book.orderMap[id];
      assert list[k] == book.View()[id];
    }
  }
}
