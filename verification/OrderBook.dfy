/** The matching engine of backend/internal/orderbook/engine.go. */
module OrderBooks {
  import opened Domain
  import opened Matching
  import opened OrderHeaps

  datatype MatchResult = MatchResult(
    buyOrder: Order, sellOrder: Order, fillAmount: int, quoteAmount: int, price: real) {
    function Value(): Match {
      Match(buyOrder.terms, sellOrder.terms, fillAmount, quoteAmount, price)
    }

    function Party(side: Side): Order {
      if side.Buy? then buyOrder else sellOrder
    }
  }

  function Values(ms: seq<MatchResult>): (vs: seq<Match>)
    ensures |vs| == |ms| && forall i :: 0 <= i < |ms| ==> vs[i] == ms[i].Value()
  {
    seq(|ms|, i requires 0 <= i < |ms| => ms[i].Value())
  }

  /** The specification's run of matches grows with the list of results. */
  lemma AppendMatch(s0: State, matches: seq<MatchResult>, next: MatchResult)
    requires var before := Values(matches);
      CanMatchAll(s0, before) && CanMatch(ApplyAll(s0, before), next.Value())
    ensures var before, after := Values(matches), Values(matches + [next]);
      CanMatchAll(s0, after) && ApplyAll(s0, after) == ApplyMatch(ApplyAll(s0, before), next.Value())
  {
    var after := Values(matches + [next]);
    assert after[..|after| - 1] == Values(matches);
  }

  method UpdateOrderStatus(o: Order)
    modifies o`status
    ensures o.status == StatusAfter(old(o.Value()))
  {
    if o.RemainingBase() <= 0 {
      o.status := Filled;
    } else if o.filledBase > 0 {
      o.status := PartiallyFilled;
    }
  }

  ghost function OrdersOf(orderMap: map<string, OrderEntry>): set<Order> {
    set id | id in orderMap :: orderMap[id].order
  }

  ghost function ValuesOf(orderMap: map<string, OrderEntry>): Resting
    reads OrdersOf(orderMap)
  {
    map id | id in orderMap :: orderMap[id].order.Value()
  }

  lemma ViewWithout(orderMap: map<string, OrderEntry>, id: string)
    ensures ValuesOf(orderMap - {id}) == ValuesOf(orderMap) - {id}
  {
  }

  lemma ViewWith(orderMap: map<string, OrderEntry>, e: OrderEntry)
    ensures ValuesOf(orderMap[e.order.terms.id := e]) == ValuesOf(orderMap)[e.order.terms.id := e.order.Value()]
  {
  }

  /** Every entry of a side's heap is on that side and is the one its ID maps to. */
  ghost predicate Mapped(orderMap: map<string, OrderEntry>, side: Side, h: seq<OrderEntry>) {
    forall e | e in h ::
      && e.order.terms.side == side
      && e.order.terms.id in orderMap && orderMap[e.order.terms.id] == e
  }

  /** The entry an ID maps to holds the order with that ID. */
  ghost predicate Named(orderMap: map<string, OrderEntry>) {
    forall id | id in orderMap :: orderMap[id].order.terms.id == id
  }

  /** The ID map is a bijection with the union of the two heaps. */
  ghost predicate Indexes(orderMap: map<string, OrderEntry>, bids: seq<OrderEntry>, asks: seq<OrderEntry>) {
    && Mapped(orderMap, Buy, bids) && Mapped(orderMap, Sell, asks)
    && Named(orderMap)
    && forall id | id in orderMap :: orderMap[id] in if orderMap[id].order.terms.side.Buy? then bids else asks
  }

  ghost predicate Submap(small: map<string, OrderEntry>, large: map<string, OrderEntry>) {
    forall id | id in small :: id in large && small[id] == large[id]
  }

  /** The result joins the incoming order to an order that was in the book. */
  ghost predicate Joins(r: MatchResult, orderMap0: map<string, OrderEntry>, taker: Order) {
    var own, maker := r.Party(taker.terms.side), r.Party(taker.terms.side.Opposite());
    own == taker && maker.terms.id in orderMap0 && orderMap0[maker.terms.id].order == maker
  }

  /** The matches join orders that were in the book to the incoming one, and every order that has left
      the book is filled to the end. */
  ghost predicate Traced(orderMap0: map<string, OrderEntry>, orderMap: map<string, OrderEntry>,
                         taker: Order, matches: seq<MatchResult>)
    reads OrdersOf(orderMap0)
  {
    && (forall id | id in orderMap0 && id !in orderMap :: orderMap0[id].order.Full())
    && (forall r | r in matches :: Joins(r, orderMap0, taker))
  }

  lemma GrowthKeepsTraced(orderMap0: map<string, OrderEntry>, a: map<string, OrderEntry>, b: map<string, OrderEntry>,
                          taker: Order, matches: seq<MatchResult>)
    requires Traced(orderMap0, a, taker, matches) && Submap(a, b)
    ensures Traced(orderMap0, b, taker, matches)
  {
  }

  /** `h'` is `h` without the entry `e`. */
  ghost predicate Without(h: seq<OrderEntry>, e: OrderEntry, h': seq<OrderEntry>) {
    && (forall x | x in h :: x == e || x in h')
    && (forall x | x in h' :: x != e && x in h)
  }

  class OrderBook {
    const pair: string
    const buys: OrderHeap
    const sells: OrderHeap
    var orderMap: map<string, OrderEntry>

    function HeapOf(side: Side): OrderHeap {
      if side.Buy? then buys else sells
    }

    /** Both heaps are in order and know their positions, and together they hold exactly the
        entries of the ID map. */
    ghost predicate Linked()
      reads this, buys, sells, buys.h, sells.h
    {
      && buys.side.Buy? && sells.side.Sell?
      && buys.Valid() && sells.Valid()
      && Indexes(orderMap, buys.h, sells.h)
    }

    /** The book as a value. */
    ghost function View(): Resting
      reads this, OrdersOf(orderMap)
    {
      ValuesOf(orderMap)
    }

    ghost predicate Valid()
      reads this, buys, sells, buys.h, sells.h, OrdersOf(orderMap)
    {
      Linked() && Book(View())
    }

    constructor (pair: string)
      ensures Valid() && View() == map[] && fresh(buys) && fresh(sells) && buys.h == sells.h == []
      ensures this.pair == pair
    {
      this.pair := pair;
      buys := new OrderHeap(Buy);
      sells := new OrderHeap(Sell);
      orderMap := map[];
    }

    /** The root of a side's heap is a best resting order of that side: none has a better price, and none of
        the same price is older. */
    lemma RootIsBestOrder(side: Side)
      requires Valid() && |HeapOf(side).h| > 0
      ensures IsBest(View(), side, HeapOf(side).h[0].order.terms.id)
      ensures forall id | id in View() && View()[id].terms.side == side ::
        var root, o := HeapOf(side).h[0].order.terms, View()[id].terms;
        && (if side.Buy? then root.price >= o.price else root.price <= o.price)
        && (root.price == o.price ==> root.createdAt <= o.createdAt)
    {
      var heap := HeapOf(side);
      forall id | id in View() && View()[id].terms.side == side
        ensures !Less(side, View()[id].terms, heap.h[0].order.terms)
        ensures var root, o := heap.h[0].order.terms, View()[id].terms;
          && (if side.Buy? then root.price >= o.price else root.price <= o.price)
          && (root.price == o.price ==> root.createdAt <= o.createdAt)
      {
        var k :| 0 <= k < |heap.h| && heap.h[k] == orderMap[id];
        RootIsBest(side, heap.h, k);
      }
      assert heap.h[0] in heap.h;
    }

    /** Lines 113-119 and 161-165: record the fill on both orders. */
    method RecordFill(taker: Order, maker: OrderEntry, fillAmount: int)
      requires Named(orderMap) && taker.terms.id !in orderMap
      requires maker.order.terms.id in orderMap && orderMap[maker.order.terms.id] == maker && Linked()
      modifies taker, maker.order
      ensures Linked()
      ensures taker.Value() == old(FillOrder(taker.Value(), fillAmount))
      ensures View() == old(View()[maker.order.terms.id := FillOrder(maker.order.Value(), fillAmount)])
    {
      hide Linked;
      assert taker != maker.order;
      taker.filledBase := taker.filledBase + fillAmount;
      maker.order.filledBase := maker.order.filledBase + fillAmount;
      UpdateOrderStatus(taker);
      UpdateOrderStatus(maker.order);
      assert forall id | id in orderMap && id != maker.order.terms.id ::
          orderMap[id].order.Value() == old(orderMap[id].order.Value());
    }

    ghost function OtherHeap(heap: OrderHeap): OrderHeap {
      if heap == buys then sells else buys
    }

    /** Lines 122-125 and 167-170: a filled root leaves its heap and the ID map. */
    method DropIfFilled(heap: OrderHeap, best: OrderEntry)
      requires Linked() && (heap == buys || heap == sells)
      requires |heap.h| > 0 && best == heap.h[0]
      modifies this`orderMap, heap, heap.h
      ensures Linked()
      ensures orderMap == if best.order.status.Filled? then old(orderMap) - {best.order.terms.id} else old(orderMap)
      ensures View() == if best.order.status.Filled? then old(View()) - {best.order.terms.id} else old(View())
    {
      hide Linked, View;
      if best.order.status == Filled {
        Drop(heap, best);
      }
    }

    method Drop(heap: OrderHeap, best: OrderEntry)
      requires Linked() && (heap == buys || heap == sells)
      requires |heap.h| > 0 && best == heap.h[0]
      modifies this`orderMap, heap, heap.h
      ensures Linked() && orderMap == old(orderMap) - {best.order.terms.id}
      ensures View() == old(View()) - {best.order.terms.id}
    {
      hide Linked, Indexes, OrderHeap.Valid;
      ghost var orderMap0, view0, bids, asks := orderMap, View(), buys.h, sells.h;
      Apart(heap);
      assert best in heap.h;
      ghost var other := OtherHeap(heap);
      assert forall i :: 0 <= i < |other.h| ==> other.h[i] in other.h && other.h[i] !in heap.h;
      var popped := heap.Pop();
      assert other.Valid() by {
        assert other.h == old(other.h);
      }
      orderMap := orderMap - {best.order.terms.id};
      RelinkWithout(heap, best, orderMap0, bids, asks);
      assert ValuesOf(orderMap0) == view0;
      ViewWithout(orderMap0, best.order.terms.id);
    }

    /** The heaps share no entry, so changing one leaves the other valid. */
    lemma Apart(heap: OrderHeap)
      requires Linked() && (heap == buys || heap == sells)
      ensures buys.side.Buy? && sells.side.Sell? && buys.Valid() && sells.Valid()
      ensures Indexes(orderMap, buys.h, sells.h)
      ensures var other := OtherHeap(heap);
        other != heap && other.Valid() && forall e | e in other.h :: e !in heap.h
    {
    }

    lemma RelinkWithout(heap: OrderHeap, e: OrderEntry, orderMap0: map<string, OrderEntry>,
                        bids: seq<OrderEntry>, asks: seq<OrderEntry>)
      requires buys.side.Buy? && sells.side.Sell? && buys.Valid() && sells.Valid()
      requires Indexes(orderMap0, bids, asks) && orderMap == orderMap0 - {e.order.terms.id}
      requires (heap == buys && e in bids && Without(bids, e, buys.h) && sells.h == asks)
            || (heap == sells && e in asks && Without(asks, e, sells.h) && buys.h == bids)
      ensures Linked()
    {
    }

    lemma RootIsMapped(heap: OrderHeap)
      requires Valid() && (heap == buys || heap == sells) && |heap.h| > 0
      ensures Named(orderMap) && Linked() && Book(View())
      ensures var e := heap.h[0];
        && e.order.terms.id in orderMap && orderMap[e.order.terms.id] == e
        && View()[e.order.terms.id] == e.order.Value() && e.order.Value().Live()
    {
    }

    /** Lines 113-125 and 160-170 together. */
    method FillBest(taker: Order, heap: OrderHeap, fillAmount: int, ghost m: Match)
      requires Valid() && taker.terms.id !in orderMap && heap == HeapOf(taker.terms.side.Opposite())
      requires |heap.h| > 0 && m.fill == fillAmount && 0 < fillAmount <= heap.h[0].order.RemainingBase()
      requires m.Party(taker.terms.side.Opposite()) == heap.h[0].order.terms
      modifies this`orderMap, heap, heap.h, heap.h[0].order, taker
      ensures Valid() && Submap(orderMap, old(orderMap))
      ensures State(View(), taker.Value()) == old(ApplyMatch(State(View(), taker.Value()), m))
      ensures forall id | id in old(orderMap) && id !in orderMap ::
          old(orderMap)[id] == old(heap.h[0]) && old(heap.h[0]).order.Full()
    {
      hide Linked, Book, FillOrder, ApplyMatch, Indexes, OrderHeap.Valid;
      var best := heap.h[0];
      RootIsMapped(heap);
      FilledIsFull(best.order.Value(), fillAmount);
      ApplyInSteps(State(View(), taker.Value()), m);
      RecordFill(taker, best, fillAmount);
      assert best.order.Value() == View()[best.order.terms.id];
      DropIfFilled(heap, best);
    }

    /** What both matching loops keep, from the book and order `s0` they started on. */
    ghost predicate Matching(s0: State, orderMap0: map<string, OrderEntry>, taker: Order, matches: seq<MatchResult>)
      reads this, buys, sells, buys.h, sells.h, OrdersOf(orderMap), taker
    {
      && Valid() && Submap(orderMap, orderMap0) && taker.terms.id !in orderMap0
      && Incoming(taker.Value())
      && State(View(), taker.Value()) == ApplyAll(s0, Values(matches))
      && CanMatchAll(s0, Values(matches))
    }

    lemma MatchingStarts(taker: Order)
      requires Valid() && taker.terms.id !in orderMap && Incoming(taker.Value())
      ensures Matching(State(View(), taker.Value()), orderMap, taker, []) && Traced(orderMap, orderMap, taker, [])
      ensures Named(orderMap)
      ensures forall id | id in orderMap :: orderMap[id] in HeapOf(orderMap[id].order.terms.side).h
    {
    }

    /** The root of the opposite heap decides: the next match is with it, or there is none. */
    lemma RootDecides(s0: State, orderMap0: map<string, OrderEntry>, taker: Order, matches: seq<MatchResult>)
      requires Matching(s0, orderMap0, taker, matches)
      ensures var heap, s := HeapOf(taker.terms.side.Opposite()), State(View(), taker.Value());
        if |heap.h| == 0 || taker.RemainingBase() <= 0 || !Crosses(taker.terms, heap.h[0].order.terms) then Done(s)
        else
          var maker := heap.h[0].order.Value();
          maker.Live() && taker.terms.Positive() && CanMatch(s, MakeMatch(s.taker, maker))
    {
      var side := taker.terms.side.Opposite();
      if |HeapOf(side).h| > 0 {
        RootIsBestOrder(side);
        assert HeapOf(side).h[0] in HeapOf(side).h;
      }
    }

    lemma LoopEnds(s0: State, orderMap0: map<string, OrderEntry>, taker: Order,
                   heap: OrderHeap, matches: seq<MatchResult>)
      requires Matching(s0, orderMap0, taker, matches) && heap == HeapOf(taker.terms.side.Opposite())
      requires |heap.h| == 0 || taker.RemainingBase() <= 0 || !Crosses(taker.terms, heap.h[0].order.terms)
      ensures Done(State(View(), taker.Value()))
    {
      RootDecides(s0, orderMap0, taker, matches);
    }

    /** The objects the loops touch were all in the book they started on. */
    lemma StillThere(side: Side, s0: State, orderMap0: map<string, OrderEntry>, h0: seq<OrderEntry>,
                     taker: Order, matches: seq<MatchResult>)
      requires Matching(s0, orderMap0, taker, matches)
      requires forall id | id in orderMap0 && orderMap0[id].order.terms.side == side :: orderMap0[id] in h0
      ensures forall i :: 0 <= i < |HeapOf(side).h| ==>
        HeapOf(side).h[i] in h0 && HeapOf(side).h[i].order in OrdersOf(orderMap0)
      ensures |HeapOf(side).h| > 0 ==> HeapOf(side).h[0].order.Value().Live()
    {
      assert forall i :: 0 <= i < |HeapOf(side).h| ==> HeapOf(side).h[i] in HeapOf(side).h;
      if |HeapOf(side).h| > 0 {
        var id := HeapOf(side).h[0].order.terms.id;
        assert View()[id] == HeapOf(side).h[0].order.Value();
      }
    }

    /** The orders that have left are none of those the next match fills. */
    lemma DepartedAreOthers(orderMap0: map<string, OrderEntry>, taker: Order,
                            heap: OrderHeap, matches: seq<MatchResult>)
      requires Valid() && (heap == buys || heap == sells) && |heap.h| > 0
      requires Submap(orderMap, orderMap0) && Named(orderMap0) && taker.terms.id !in orderMap0
      requires Traced(orderMap0, orderMap, taker, matches)
      ensures forall id | id in orderMap0 && id !in orderMap ::
          var o := orderMap0[id].order; o != taker && o != heap.h[0].order && o.Full()
      ensures var e := heap.h[0]; e.order.terms.id in orderMap0 && orderMap0[e.order.terms.id] == e
    {
    }

    /** `FillBest`, with what has become of the orders that were in the book. */
    method FillTraced(taker: Order, heap: OrderHeap, result: MatchResult,
                      ghost orderMap0: map<string, OrderEntry>, ghost matches: seq<MatchResult>)
      requires Valid() && Submap(orderMap, orderMap0) && Named(orderMap0) && taker.terms.id !in orderMap0
      requires heap == HeapOf(taker.terms.side.Opposite()) && |heap.h| > 0
      requires 0 < result.fillAmount <= heap.h[0].order.RemainingBase()
      requires result.Party(taker.terms.side) == taker
      requires result.Party(taker.terms.side.Opposite()) == heap.h[0].order
      requires Traced(orderMap0, orderMap, taker, matches)
      modifies this`orderMap, heap, heap.h, heap.h[0].order, taker
      ensures Valid() && Submap(orderMap, old(orderMap))
      ensures State(View(), taker.Value()) == old(ApplyMatch(State(View(), taker.Value()), result.Value()))
      ensures Traced(orderMap0, orderMap, taker, matches + [result])
    {
      hide Valid, Book, ApplyMatch;
      DepartedAreOthers(orderMap0, taker, heap, matches);
      FillBest(taker, heap, result.fillAmount, result.Value());
    }

    /** The result the loops make of the root is the next match. */
    lemma ResultIsMatch(s0: State, orderMap0: map<string, OrderEntry>, taker: Order, heap: OrderHeap,
                        matches: seq<MatchResult>, result: MatchResult)
      requires Matching(s0, orderMap0, taker, matches)
      requires heap == HeapOf(taker.terms.side.Opposite()) && |heap.h| > 0
      requires taker.RemainingBase() > 0 && result.buyOrder.terms.price >= result.sellOrder.terms.price
      requires result.fillAmount == MinBigInt(taker.RemainingBase(), heap.h[0].order.RemainingBase())
      requires result.price == heap.h[0].order.terms.price
      requires result.Party(taker.terms.side) == taker
      requires result.Party(taker.terms.side.Opposite()) == heap.h[0].order
      requires var sell := result.sellOrder.terms.data;
        sell.amountSell > 0 && result.quoteAmount == result.fillAmount * sell.amountBuy / sell.amountSell
      ensures Valid() && Submap(orderMap, orderMap0) && taker.terms.id !in orderMap0 && Incoming(taker.Value())
      ensures 0 < result.fillAmount <= heap.h[0].order.RemainingBase()
      ensures var s := State(View(), taker.Value());
        && CanMatchAll(s0, Values(matches)) && s == ApplyAll(s0, Values(matches)) && CanMatch(s, result.Value())
        && ApplyMatch(s, result.Value()).taker == FillOrder(taker.Value(), result.fillAmount)
    {
      hide Linked, CanMatch, CanMatchAll, ApplyAll;
      RootDecides(s0, orderMap0, taker, matches);
      MatchFillsTaker(State(View(), taker.Value()), result.Value());
    }

    lemma MatchingGoesOn(s0: State, orderMap0: map<string, OrderEntry>, before: map<string, OrderEntry>, s: State,
                         taker: Order, matches: seq<MatchResult>, result: MatchResult)
      requires Valid() && Submap(orderMap, before) && Submap(before, orderMap0) && taker.terms.id !in orderMap0
      requires CanMatchAll(s0, Values(matches)) && s == ApplyAll(s0, Values(matches)) && CanMatch(s, result.Value())
      requires State(View(), taker.Value()) == ApplyMatch(s, result.Value()) && Incoming(taker.Value())
      ensures Matching(s0, orderMap0, taker, matches + [result])
    {
      hide Linked, CanMatch, CanMatchAll, ApplyAll;
      AppendMatch(s0, matches, result);
    }

    /** One accepted match, as both loops carry it out: record the result, fill both orders,
        and drop the resting one when it is filled. */
    method Take(taker: Order, heap: OrderHeap, result: MatchResult,
                ghost s0: State, ghost orderMap0: map<string, OrderEntry>, ghost matches: seq<MatchResult>)
      requires Matching(s0, orderMap0, taker, matches) && Named(orderMap0)
      requires Traced(orderMap0, orderMap, taker, matches)
      requires heap == HeapOf(taker.terms.side.Opposite()) && |heap.h| > 0
      requires taker.RemainingBase() > 0 && result.buyOrder.terms.price >= result.sellOrder.terms.price
      requires result.fillAmount == MinBigInt(taker.RemainingBase(), heap.h[0].order.RemainingBase())
      requires result.price == heap.h[0].order.terms.price
      requires result.Party(taker.terms.side) == taker
      requires result.Party(taker.terms.side.Opposite()) == heap.h[0].order
      requires var sell := result.sellOrder.terms.data;
        sell.amountSell > 0 && result.quoteAmount == result.fillAmount * sell.amountBuy / sell.amountSell
      modifies this`orderMap, heap, heap.h, heap.h[0].order, taker
      ensures Matching(s0, orderMap0, taker, matches + [result])
      ensures Traced(orderMap0, orderMap, taker, matches + [result])
      ensures taker.RemainingBase() < old(taker.RemainingBase())
    {
      hide Valid, Matching, CanMatch, CanMatchAll, ApplyAll, ApplyMatch, Traced, Submap, View;
      ghost var before, s := orderMap, State(View(), taker.Value());
      ResultIsMatch(s0, orderMap0, taker, heap, matches, result);
      FillTraced(taker, heap, result, orderMap0, matches);
      MatchingGoesOn(s0, orderMap0, before, s, taker, matches, result);
    }

    method MatchBuy(buyOrder: Order) returns (matches: seq<MatchResult>)
      requires Valid() && buyOrder.terms.id !in orderMap
      requires buyOrder.terms.side.Buy? && Incoming(buyOrder.Value())
      modifies this`orderMap, sells, sells.h, OrdersOf(orderMap), buyOrder
      ensures Matching(old(State(View(), buyOrder.Value())), old(orderMap), buyOrder, matches)
      ensures Done(State(View(), buyOrder.Value()))
      ensures Traced(old(orderMap), orderMap, buyOrder, matches)
    {
      hide Valid, Matching, CanMatch, Done, Traced, Linked, Named, View, Values, ApplyAll, OrderHeap.Valid;
      ghost var s0, orderMap0, asks0 := State(View(), buyOrder.Value()), orderMap, sells.h;
      matches := [];
      MatchingStarts(buyOrder);
      var buyPrice := buyOrder.terms.price;
      while |sells.h| > 0 && buyOrder.RemainingBase() > 0
        invariant Matching(s0, orderMap0, buyOrder, matches) && Traced(orderMap0, orderMap, buyOrder, matches)
        decreases buyOrder.RemainingBase()
      {
        StillThere(Sell, s0, orderMap0, asks0, buyOrder, matches);
        var bestSell := sells.h[0];
        if buyPrice < bestSell.order.terms.price {
          break;
        }
        var fillAmount := MinBigInt(buyOrder.RemainingBase(), bestSell.order.RemainingBase());
        if fillAmount <= 0 {
          break;
        }
        var quoteAmount := fillAmount * bestSell.order.terms.data.amountBuy / bestSell.order.terms.data.amountSell;
        var result := MatchResult(buyOrder, bestSell.order, fillAmount, quoteAmount, bestSell.order.terms.price);
        Take(buyOrder, sells, result, s0, orderMap0, matches);
        matches := matches + [result];
      }
      LoopEnds(s0, orderMap0, buyOrder, sells, matches);
    }

    method MatchSell(sellOrder: Order) returns (matches: seq<MatchResult>)
      requires Valid() && sellOrder.terms.id !in orderMap
      requires sellOrder.terms.side.Sell? && Incoming(sellOrder.Value())
      modifies this`orderMap, buys, buys.h, OrdersOf(orderMap), sellOrder
      ensures Matching(old(State(View(), sellOrder.Value())), old(orderMap), sellOrder, matches)
      ensures Done(State(View(), sellOrder.Value()))
      ensures Traced(old(orderMap), orderMap, sellOrder, matches)
    {
      hide Valid, Matching, CanMatch, Done, Traced, Linked, Named, View, Values, ApplyAll, OrderHeap.Valid;
      ghost var s0, orderMap0, bids0 := State(View(), sellOrder.Value()), orderMap, buys.h;
      matches := [];
      MatchingStarts(sellOrder);
      var sellPrice := sellOrder.terms.price;
      while |buys.h| > 0 && sellOrder.RemainingBase() > 0
        invariant Matching(s0, orderMap0, sellOrder, matches) && Traced(orderMap0, orderMap, sellOrder, matches)
        decreases sellOrder.RemainingBase()
      {
        StillThere(Buy, s0, orderMap0, bids0, sellOrder, matches);
        var bestBuy := buys.h[0];
        if bestBuy.order.terms.price < sellPrice {
          break;
        }
        var fillAmount := MinBigInt(sellOrder.RemainingBase(), bestBuy.order.RemainingBase());
        if fillAmount <= 0 {
          break;
        }
        var quoteAmount := fillAmount * sellOrder.terms.data.amountBuy / sellOrder.terms.data.amountSell;
        var result := MatchResult(bestBuy.order, sellOrder, fillAmount, quoteAmount, bestBuy.order.terms.price);
        Take(sellOrder, buys, result, s0, orderMap0, matches);
        matches := matches + [result];
      }
      LoopEnds(s0, orderMap0, sellOrder, buys, matches);
    }

    /** At most one entry is new, and it is the given order's. */
    ghost predicate OnlyNew(order: Order, orderMap0: map<string, OrderEntry>)
      reads this
    {
      forall id | id in orderMap ::
        if id == order.terms.id then orderMap[id].order == order
        else id in orderMap0 && orderMap[id] == orderMap0[id]
    }

    /** Lines 71-77: a new entry for the order goes into the ID map and onto its side's heap. */
    method Enter(order: Order, heap: OrderHeap)
      requires Linked() && order.terms.id !in orderMap && heap == HeapOf(order.terms.side)
      modifies this`orderMap, heap, heap.h
      ensures Linked() && View() == old(View())[order.terms.id := order.Value()]
      ensures OnlyNew(order, old(orderMap)) && order.terms.id in orderMap && fresh(orderMap[order.terms.id])
      ensures Submap(old(orderMap), orderMap)
    {
      hide Linked, Indexes, OrderHeap.Valid;
      ghost var orderMap0, view0 := orderMap, View();
      Apart(heap);
      ghost var other := OtherHeap(heap);
      assert forall i :: 0 <= i < |other.h| ==> other.h[i] in other.h && other.h[i] !in heap.h;
      var entry := new OrderEntry(order);
      orderMap := orderMap[order.terms.id := entry];
      heap.Push(entry);
      assert other.Valid() by {
        assert other.h == old(other.h);
      }
      RelinkWith(heap, entry, orderMap0, old(buys.h), old(sells.h));
      assert ValuesOf(orderMap0) == view0;
      ViewWith(orderMap0, entry);
    }

    lemma RelinkWith(heap: OrderHeap, e: OrderEntry, orderMap0: map<string, OrderEntry>,
                     bids: seq<OrderEntry>, asks: seq<OrderEntry>)
      requires buys.side.Buy? && sells.side.Sell? && buys.Valid() && sells.Valid()
      requires Indexes(orderMap0, bids, asks) && e.order.terms.id !in orderMap0
      requires orderMap == orderMap0[e.order.terms.id := e] && heap == HeapOf(e.order.terms.side)
      requires heap == buys ==> sells.h == asks && forall x :: x in buys.h <==> x in bids || x == e
      requires heap == sells ==> buys.h == bids && forall x :: x in sells.h <==> x in asks || x == e
      ensures Linked()
    {
    }

    /** Lines 69-78. */
    method RestIfOpen(order: Order)
      requires Linked() && order.terms.id !in orderMap
      modifies this`orderMap, HeapOf(order.terms.side), HeapOf(order.terms.side).h
      ensures Linked() && View() == old(Settle(State(View(), order.Value())))
      ensures OnlyNew(order, old(orderMap)) && (order.terms.id in orderMap ==> fresh(orderMap[order.terms.id]))
      ensures Submap(old(orderMap), orderMap)
    {
      hide Linked;
      if order.RemainingBase() > 0 && order.status != Filled {
        if order.terms.side == Buy {
          Enter(order, buys);
        } else {
          Enter(order, sells);
        }
      }
    }

    /** What the matching loop has left makes the answer of `AddOrder` once the order rests. */
    lemma MatchingEnds(s0: State, orderMap0: map<string, OrderEntry>, order: Order, matches: seq<MatchResult>)
      requires Matching(s0, orderMap0, order, matches) && Done(State(View(), order.Value()))
      ensures Linked() && order.terms.id !in orderMap && Submap(orderMap, orderMap0)
      ensures var s := State(View(), order.Value());
        Book(Settle(s)) && Added(s0.rest, s0.taker, Values(matches), Settle(s), s.taker)
    {
    }

    lemma NewSince(order: Order, orderMap0: map<string, OrderEntry>, matched: map<string, OrderEntry>)
      requires OnlyNew(order, matched) && Submap(matched, orderMap0)
      ensures OnlyNew(order, orderMap0)
    {
    }

    /** Lines 63-67. */
    method MatchOrder(order: Order) returns (matches: seq<MatchResult>)
      requires Valid() && order.terms.id !in orderMap && Incoming(order.Value())
      modifies this`orderMap, buys, sells, buys.h, sells.h, OrdersOf(orderMap), order
      ensures Linked() && order.terms.id !in orderMap && Submap(orderMap, old(orderMap))
      ensures Traced(old(orderMap), orderMap, order, matches)
      ensures var s := State(View(), order.Value());
        Book(Settle(s)) && Added(old(View()), old(order.Value()), Values(matches), Settle(s), s.taker)
      ensures forall i :: 0 <= i < |HeapOf(order.terms.side).h| ==>
        HeapOf(order.terms.side).h[i] in old(HeapOf(order.terms.side).h)
    {
      hide Linked, Book, Matching, Done, Settle, Traced, Added, Values;
      ghost var s0, orderMap0, h0 := State(View(), order.Value()), orderMap, HeapOf(order.terms.side).h;
      MatchingStarts(order);
      if order.terms.side == Buy {
        matches := MatchBuy(order);
      } else {
        matches := MatchSell(order);
      }
      StillThere(order.terms.side, s0, orderMap0, h0, order, matches);
      MatchingEnds(s0, orderMap0, order, matches);
    }

    method AddOrder(order: Order) returns (matches: seq<MatchResult>)
      requires Valid() && order.terms.id !in orderMap && Incoming(order.Value())
      modifies this`orderMap, buys, sells, buys.h, sells.h, OrdersOf(orderMap), order
      ensures Valid()
      ensures Added(old(View()), old(order.Value()), Values(matches), View(), order.Value())
      ensures OnlyNew(order, old(orderMap)) && (order.terms.id in orderMap ==> fresh(orderMap[order.terms.id]))
      ensures Traced(old(orderMap), orderMap, order, matches)
    {
      hide Linked, Book, Settle, Traced, Added, Values, OnlyNew, Submap;
      matches := MatchOrder(order);
      ghost var matched := orderMap;
      RestIfOpen(order);
      GrowthKeepsTraced(old(orderMap), matched, orderMap, order, matches);
      NewSince(order, old(orderMap), matched);
    }

    /** Lines 187-194: the entry leaves the ID map and, from wherever it stands, its heap. */
    method Leave(entry: OrderEntry, heap: OrderHeap)
      requires Linked() && entry in heap.h && heap == HeapOf(entry.order.terms.side)
      modifies this`orderMap, heap, heap.h
      ensures Linked() && View() == AfterCancel(old(View()), entry.order.terms.id)
      ensures orderMap == old(orderMap) - {entry.order.terms.id}
    {
      hide Linked, Indexes, Ordered;
      ghost var orderMap0, view0 := orderMap, View();
      Apart(heap);
      ghost var other := OtherHeap(heap);
      assert forall i :: 0 <= i < |other.h| ==> other.h[i] in other.h && other.h[i] !in heap.h;
      orderMap := orderMap - {entry.order.terms.id};
      var removed := heap.Remove(entry.index);
      assert other.Valid() by {
        assert other.h == old(other.h);
      }
      RelinkWithout(heap, entry, orderMap0, old(buys.h), old(sells.h));
      assert ValuesOf(orderMap0) == view0;
      ViewWithout(orderMap0, entry.order.terms.id);
    }

    method MarkCancelled(entry: OrderEntry)
      requires Named(orderMap) && entry.order.terms.id in orderMap && orderMap[entry.order.terms.id] == entry
      modifies entry.order`status
      ensures entry.order.Value() == old(entry.order.Value()).(status := Cancelled)
      ensures View() == old(View())[entry.order.terms.id := entry.order.Value()]
    {
      entry.order.status := Cancelled;
      assert forall id | id in orderMap && id != entry.order.terms.id ::
          orderMap[id].order.Value() == old(orderMap[id].order.Value());
    }

    method CancelOrder(orderID: string) returns (order: Order?, ok: bool)
      requires Valid()
      modifies this`orderMap, buys, sells, buys.h, sells.h, OrdersOf(orderMap)
      ensures Valid() && ok == (orderID in old(orderMap))
      ensures View() == AfterCancel(old(View()), orderID) && orderMap == old(orderMap) - {orderID}
      ensures ok ==>
        order == old(orderMap[orderID].order) && order.Value() == old(View()[orderID]).(status := Cancelled)
      ensures !ok ==> order == null
    {
      if orderID !in orderMap {
        return null, false;
      }
      var entry := orderMap[orderID];
      ghost var view0 := View();
      assert entry.order.terms.id == orderID && entry in HeapOf(entry.order.terms.side).h;
      hide Linked, Book, AfterCancel;
      MarkCancelled(entry);
      CancelKeepsBook(view0, orderID, entry.order.Value());
      if entry.order.terms.side == Buy {
        Leave(entry, buys);
      } else {
        Leave(entry, sells);
      }
      return entry.order, true;
    }
  }

  /** The heaps hold nothing but entries of the ID map. */
  lemma EntriesAreMapped(book: OrderBook)
    requires book.Valid()
    ensures forall i :: 0 <= i < |book.buys.h| ==>
      var e := book.buys.h[i]; e.order.terms.id in book.orderMap && book.orderMap[e.order.terms.id] == e
    ensures forall i :: 0 <= i < |book.sells.h| ==>
      var e := book.sells.h[i]; e.order.terms.id in book.orderMap && book.orderMap[e.order.terms.id] == e
  {
  }
}
