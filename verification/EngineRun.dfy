/** Whole runs of the engine's objects: any sequence of `AddOrder` and `CancelOrder` calls performs a run
    of the history, and the order objects end up as the history says. */
module EngineRuns {
  import opened Domain
  import opened Matching
  import opened MatchingTheory
  import opened Histories
  import opened OrderHeaps
  import opened OrderBooks

  datatype EngineCall = Add(order: Order) | Cancel(id: string)

  ghost function OrdersIn(calls: seq<EngineCall>): set<Order> {
    set i | 0 <= i < |calls| && calls[i].Add? :: calls[i].order
  }

  /** An order nobody has handed to the engine yet. */
  predicate New(o: Order)
    reads o
  {
    o.terms.Positive() && o.Value() == Fresh(o.terms)
  }

  /** The orders handed to the engine have different names. */
  ghost predicate AllDifferent(calls: seq<EngineCall>) {
    forall i, j :: 0 <= i < j < |calls| && calls[i].Add? && calls[j].Add? ==>
      calls[i].order.terms.id != calls[j].order.terms.id
  }

  /** The operation of the history that a call performs. */
  ghost predicate Calls(call: EngineCall, op: Operation) {
    match call
    case Add(order) => op.SubmitOp? && op.order == order.terms
    case Cancel(id) => op == CancelOp(id)
  }

  /** Every object in the book is the submitted one of its name. */
  ghost predicate Holds(orderMap: map<string, OrderEntry>, orders: map<string, Order>) {
    && (forall id | id in orders :: orders[id].terms.id == id)
    && (forall id | id in orderMap :: id in orders && orderMap[id].order == orders[id])
  }

  /** A submitted object is filled, and in the status, as the history says. */
  ghost predicate Mirrored(h: History, o: Order)
    reads o
  {
    var id := o.terms.id;
    && id in h.terms && id in h.filled
    && o.terms == h.terms[id] && o.filledBase == h.filled[id] && o.status == StatusOf(h, id)
  }

  /** The book and all submitted objects are as the history says. */
  ghost predicate Mirrors(book: OrderBook, orders: map<string, Order>, h: History)
    reads book, book.buys, book.sells, book.buys.h, book.sells.h, OrdersOf(book.orderMap), orders.Values
  {
    && book.Valid() && book.View() == h.rest && Consistent(h)
    && orders.Keys == h.terms.Keys && Holds(book.orderMap, orders)
    && forall id | id in orders :: Mirrored(h, orders[id])
  }

  /** A submitted object's status says what has become of it. */
  lemma ObjectStatus(book: OrderBook, orders: map<string, Order>, h: History, id: string)
    requires Mirrors(book, orders, h) && id in orders
    ensures var o := orders[id];
      && (o.status.Open? <==> id in book.orderMap && o.filledBase == 0)
      && (o.status.PartiallyFilled? <==> id in book.orderMap && 0 < o.filledBase < o.terms.Base())
      && (o.status.Filled? <==> o.filledBase == o.terms.Base())
      && (o.status.Cancelled? <==> id in h.cancelled)
  {
    hide OrderBook.Valid, Consistent, StatusOf;
    BookShows(book);
    assert Mirrored(h, orders[id]);
    StatusIsExact(h, id);
  }

  // ---------------------------------------------------------------- what a submission does to an order

  lemma OtherAfterSubmit(h: History, t: Terms, ms: seq<Match>, h': History, id: string)
    requires Consistent(h) && Submitted(h, t, ms, h') && id in h.terms
    ensures id in h.filled && id in h'.filled && id in h'.terms && h'.terms[id] == h.terms[id]
    ensures id in h'.rest ==>
      id in h.rest && h'.filled[id] == h'.rest[id].filled && StatusOf(h', id) == h'.rest[id].status
    ensures id in h.rest && id !in h'.rest ==>
      h'.filled[id] == h.terms[id].Base() && StatusOf(h', id) == Filled
    ensures id !in h.rest ==> h'.filled[id] == h.filled[id] && StatusOf(h', id) == StatusOf(h, id)
  {
    assert Accounted(h, id);
    RunKeepsStart(State(h.rest, Fresh(t)), ms);
  }

  lemma TakerAfterSubmit(h: History, t: Terms, ms: seq<Match>, h': History)
    requires Consistent(h) && Submitted(h, t, ms, h')
    ensures var taker := ApplyAll(State(h.rest, Fresh(t)), ms).taker;
      && t.id in h'.terms && h'.terms[t.id] == t == taker.terms
      && t.id in h'.filled && h'.filled[t.id] == taker.filled && StatusOf(h', t.id) == taker.status
  {
    var s := State(h.rest, Fresh(t));
    RunKeepsStart(s, ms);
    TakerEnds(s, ms);
    if ms != [] {
      RunKeepsStart(s, ms[..|ms| - 1]);
      OneMatch(ApplyAll(s, ms[..|ms| - 1]), ms[|ms| - 1]);
    }
  }

  lemma BookShows(book: OrderBook)
    ensures book.View().Keys == book.orderMap.Keys
    ensures forall id | id in book.orderMap :: book.View()[id] == book.orderMap[id].order.Value()
  {
  }

  /** After a submission an order submitted before is as the history says, given that it is still as it
      was if it was not in the book. */
  lemma OtherIsMirrored(book: OrderBook, orderMap0: map<string, OrderEntry>, order: Order,
                        matches: seq<MatchResult>, h: History, h': History, o: Order)
    requires Consistent(h) && o.terms.id in h.terms && o.terms == h.terms[o.terms.id]
    requires o.terms.id != order.terms.id && orderMap0.Keys == h.rest.Keys
    requires o.terms.id in orderMap0 ==> orderMap0[o.terms.id].order == o
    requires Submitted(h, order.terms, Values(matches), h') && h'.rest == book.View()
    requires book.OnlyNew(order, orderMap0) && Traced(orderMap0, book.orderMap, order, matches)
    requires o.terms.id !in orderMap0 ==> Mirrored(h, o)
    ensures Mirrored(h', o)
  {
    hide OrderBook.View, Consistent, Submitted, StatusOf, Joins;
    OtherAfterSubmit(h, order.terms, Values(matches), h', o.terms.id);
    BookShows(book);
  }

  lemma HoldsNew(book: OrderBook, orderMap0: map<string, OrderEntry>, orders: map<string, Order>, order: Order)
    requires Holds(orderMap0, orders) && order.terms.id !in orders && book.OnlyNew(order, orderMap0)
    ensures Holds(book.orderMap, orders[order.terms.id := order])
  {
  }

  /** After a submission every object is as the history says, given that those outside the book are
      still as they were. */
  lemma SubmittedMirrors(book: OrderBook, orderMap0: map<string, OrderEntry>, orders: map<string, Order>,
                         order: Order, matches: seq<MatchResult>, h: History, h': History)
    requires book.Valid() && Consistent(h) && Holds(orderMap0, orders) && orderMap0.Keys == h.rest.Keys
    requires orders.Keys == h.terms.Keys && order.terms.id !in orders
    requires forall id | id in orders :: orders[id].terms == h.terms[id]
    requires Submitted(h, order.terms, Values(matches), h') && h'.rest == book.View()
    requires order.Value() == ApplyAll(State(h.rest, Fresh(order.terms)), Values(matches)).taker
    requires book.OnlyNew(order, orderMap0) && Traced(orderMap0, book.orderMap, order, matches)
    requires forall id | id in orders && id !in orderMap0 :: Mirrored(h, orders[id])
    ensures Mirrors(book, orders[order.terms.id := order], h')
  {
    hide OrderBook.Valid, OrderBook.View, Consistent, Submitted, ApplyAll, StatusOf, Traced, OrderBook.OnlyNew;
    var orders' := orders[order.terms.id := order];
    TakerAfterSubmit(h, order.terms, Values(matches), h');
    SubmitTerms(h, order.terms, Values(matches), h');
    HoldsNew(book, orderMap0, orders, order);
    SubmitKeepsConsistent(h, order.terms, Values(matches), h');
    forall id | id in orders'
      ensures Mirrored(h', orders'[id])
    {
      if id != order.terms.id {
        OtherIsMirrored(book, orderMap0, order, matches, h, h', orders[id]);
      }
    }
  }

  /** What `AddOrder` answers makes a submission of the history. */
  lemma AddSubmits(h: History, t: Terms, ms: seq<Match>, rest': Resting, taker: OrderValue)
    requires Consistent(h) && t.id !in h.terms && t.Positive() && Added(h.rest, Fresh(t), ms, rest', taker)
    ensures h.filled.Keys == h.terms.Keys && Submitted(h, t, ms, AfterSubmit(h, t, ms))
    ensures AfterSubmit(h, t, ms).rest == rest' && ApplyAll(State(h.rest, Fresh(t)), ms).taker == taker
  {
  }

  lemma MirrorsFacts(book: OrderBook, orders: map<string, Order>, h: History)
    requires Mirrors(book, orders, h)
    ensures book.Valid() && book.View() == h.rest && Consistent(h) && book.orderMap.Keys == h.rest.Keys
    ensures orders.Keys == h.terms.Keys && Holds(book.orderMap, orders) && book.orderMap.Keys <= orders.Keys
    ensures forall id | id in orders :: orders[id].terms == h.terms[id] && orders[id].terms.id == id
    ensures forall id | id in orders && id !in book.orderMap ::
        orders[id] !in OrdersOf(book.orderMap) && Mirrored(h, orders[id])
  {
    hide OrderBook.Valid, Consistent;
    BookShows(book);
  }

  method Submit(book: OrderBook, order: Order, ghost orders: map<string, Order>, ghost h: History)
    returns (ghost h': History, ghost op: Operation)
    requires Mirrors(book, orders, h) && order.terms.id !in orders
    requires New(order)
    modifies book`orderMap, book.buys, book.sells, book.buys.h, book.sells.h, OrdersOf(book.orderMap), order
    ensures Performs(h, op, h') && op.SubmitOp? && op.order == order.terms
    ensures Mirrors(book, orders[order.terms.id := order], h')
    ensures forall id | id in book.orderMap ::
        fresh(book.orderMap[id]) || (id in old(book.orderMap) && book.orderMap[id] == old(book.orderMap[id]))
  {
    hide OrderBook.Valid, Consistent, Added, ApplyAll, Values, Traced, OrderBook.View,
         Submitted, Mirrors, Holds, Mirrored, OrdersOf;
    ghost var orderMap0 := book.orderMap;
    MirrorsFacts(book, orders, h);
    var matches := book.AddOrder(order);
    AddSubmits(h, order.terms, Values(matches), book.View(), order.Value());
    h', op := AfterSubmit(h, order.terms, Values(matches)), SubmitOp(order.terms, Values(matches));
    SubmittedMirrors(book, orderMap0, orders, order, matches, h, h');
  }

  lemma OtherIsWithdrawn(book: OrderBook, orderMap0: map<string, OrderEntry>, h: History, id: string, o: Order)
    requires Consistent(h) && o.terms.id in h.terms && o.terms == h.terms[o.terms.id]
    requires book.orderMap == orderMap0 - {id} && book.View() == AfterCancel(h.rest, id)
    requires orderMap0.Keys == h.rest.Keys
    requires o.terms.id in orderMap0 ==> orderMap0[o.terms.id].order == o
    requires o.terms.id !in orderMap0 ==> Mirrored(h, o)
    requires o.terms.id == id && id in orderMap0 ==> o.Value() == h.rest[id].(status := Cancelled)
    ensures Mirrored(CancelledOffChain(h, id), o)
  {
    hide OrderBook.View;
    BookShows(book);
    assert Accounted(h, o.terms.id);
    if o.terms.id in book.orderMap {
      assert o.Value() == h.rest[o.terms.id];
    }
  }

  lemma WithdrawnMirrors(book: OrderBook, orderMap0: map<string, OrderEntry>, orders: map<string, Order>,
                         h: History, id: string)
    requires book.Valid() && Consistent(h) && Holds(orderMap0, orders) && orders.Keys == h.terms.Keys
    requires forall j | j in orders :: orders[j].terms == h.terms[j]
    requires book.orderMap == orderMap0 - {id} && book.View() == AfterCancel(h.rest, id)
    requires orderMap0.Keys == h.rest.Keys
    requires forall j | j in orders && j !in orderMap0 :: Mirrored(h, orders[j])
    requires id in orderMap0 ==> orderMap0[id].order.Value() == h.rest[id].(status := Cancelled)
    ensures Mirrors(book, orders, CancelledOffChain(h, id))
  {
    hide OrderBook.View, OrderBook.Valid, Consistent, Mirrored;
    CancelKeepsConsistent(h, id);
    forall j | j in orders
      ensures Mirrored(CancelledOffChain(h, id), orders[j])
    {
      OtherIsWithdrawn(book, orderMap0, h, id, orders[j]);
    }
  }

  method Withdraw(book: OrderBook, id: string, ghost orders: map<string, Order>, ghost h: History)
    requires Mirrors(book, orders, h)
    modifies book`orderMap, book.buys, book.sells, book.buys.h, book.sells.h, OrdersOf(book.orderMap)
    ensures Mirrors(book, orders, CancelledOffChain(h, id))
    ensures book.orderMap == old(book.orderMap) - {id}
  {
    hide OrderBook.Valid, Consistent, OrderBook.View, Mirrors, Holds, Mirrored,
         CancelledOffChain, AfterCancel, OrdersOf;
    ghost var orderMap0 := book.orderMap;
    MirrorsFacts(book, orders, h);
    var order, ok := book.CancelOrder(id);
    WithdrawnMirrors(book, orderMap0, orders, h, id);
  }

  /** One call, and the operation of the history it performs. */
  method Perform(book: OrderBook, call: EngineCall, ghost orders: map<string, Order>, ghost h: History)
    returns (ghost h': History, ghost op: Operation)
    requires Mirrors(book, orders, h)
    requires call.Add? ==> New(call.order) && call.order.terms.id !in orders
    modifies book`orderMap, book.buys, book.sells, book.buys.h, book.sells.h, OrdersOf(book.orderMap)
    modifies if call.Add? then {call.order} else {}
    ensures Performs(h, op, h') && Calls(call, op)
    ensures Mirrors(book, Known(orders, call), h')
    ensures forall id | id in book.orderMap ::
        fresh(book.orderMap[id]) || (id in old(book.orderMap) && book.orderMap[id] == old(book.orderMap[id]))
  {
    hide Mirrors, Submitted;
    match call
    case Add(order) =>
      h', op := Submit(book, order, orders, h);
    case Cancel(id) =>
      h', op := CancelledOffChain(h, id), CancelOp(id);
      Withdraw(book, id, orders, h);
  }

  function Known(orders: map<string, Order>, call: EngineCall): map<string, Order> {
    if call.Add? then orders[call.order.terms.id := call.order] else orders
  }

  /** The history before each call, and the operation each call performs. */
  ghost predicate Follows(hs: seq<History>, ops: seq<Operation>, calls: seq<EngineCall>, n: nat) {
    && n <= |calls| && |ops| == n && |hs| == n + 1 && IsEngineRun(hs, ops)
    && forall i :: 0 <= i < n ==> Calls(calls[i], ops[i])
  }

  /** The objects submitted by the first `n` calls. */
  function Submissions(calls: seq<EngineCall>, n: nat): map<string, Order>
    requires n <= |calls|
  {
    if n == 0 then map[] else Known(Submissions(calls, n - 1), calls[n - 1])
  }

  lemma {:induction false} SubmissionsAreNamed(calls: seq<EngineCall>, n: nat)
    requires n <= |calls|
    ensures forall id | id in Submissions(calls, n) ::
        exists i ::
          0 <= i < n && calls[i].Add? && calls[i].order.terms.id == id && calls[i].order == Submissions(calls, n)[id]
    ensures AllDifferent(calls) ==> forall i :: 0 <= i < n && calls[i].Add? ==>
        calls[i].order.terms.id in Submissions(calls, n) &&
        Submissions(calls, n)[calls[i].order.terms.id] == calls[i].order
  {
    if n > 0 {
      SubmissionsAreNamed(calls, n - 1);
    }
  }

  /** What the next call may touch, and what it leaves alone. */
  lemma NextCall(book: OrderBook, calls: seq<EngineCall>, n: nat, h: History)
    requires n < |calls| && AllDifferent(calls) && Mirrors(book, Submissions(calls, n), h)
    ensures forall o | o in OrdersOf(book.orderMap) :: o in OrdersIn(calls)
    ensures forall i :: n <= i < |calls| && calls[i].Add? ==>
      calls[i].order.terms.id !in Submissions(calls, n) && calls[i].order !in OrdersOf(book.orderMap)
    ensures forall i :: n < i < |calls| && calls[i].Add? && calls[n].Add? ==> calls[i].order != calls[n].order
  {
    hide OrderBook.Valid, Consistent, Mirrored, Submissions;
    SubmissionsAreNamed(calls, n);
  }

  lemma RunStarts(book: OrderBook, calls: seq<EngineCall>)
    requires book.Valid() && book.orderMap == map[]
    ensures Follows([Empty()], [], calls, 0) && Mirrors(book, Submissions(calls, 0), Empty())
  {
  }

  lemma RunGoesOn(hs: seq<History>, ops: seq<Operation>, calls: seq<EngineCall>, n: nat, h': History, op: Operation)
    requires n < |calls| && Follows(hs, ops, calls, n) && Performs(hs[n], op, h') && Calls(calls[n], op)
    ensures Follows(hs + [h'], ops + [op], calls, n + 1)
    ensures Submissions(calls, n + 1) == Known(Submissions(calls, n), calls[n])
  {
    hide Performs;
    var hs', ops' := hs + [h'], ops + [op];
    forall i | 0 <= i < n + 1
      ensures Performs(hs'[i], ops'[i], hs'[i + 1])
    {
      assert i < n ==> Performs(hs[i], ops[i], hs[i + 1]);
    }
  }

  /** Every sequence of calls on an empty book performs a run of the history, at whose end the book and
      every submitted object are as the history says. */
  method RunEngine(book: OrderBook, calls: seq<EngineCall>) returns (ghost hs: seq<History>, ghost ops: seq<Operation>)
    requires book.Valid() && book.orderMap == map[] && AllDifferent(calls)
    requires forall i :: 0 <= i < |calls| && calls[i].Add? ==> New(calls[i].order)
    modifies book`orderMap, book.buys, book.sells, OrdersIn(calls)
    ensures Follows(hs, ops, calls, |calls|)
    ensures Mirrors(book, Submissions(calls, |calls|), hs[|calls|])
    ensures forall i :: 0 <= i < |calls| && calls[i].Add? ==> Mirrored(hs[|calls|], calls[i].order)
    ensures forall i :: 0 <= i < |calls| && calls[i].Add? ==>
      var o := calls[i].order;
      && (o.status.Open? <==> o.terms.id in book.orderMap && o.filledBase == 0)
      && (o.status.PartiallyFilled? <==> o.terms.id in book.orderMap && 0 < o.filledBase < o.terms.Base())
      && (o.status.Filled? <==> o.filledBase == o.terms.Base())
      && (o.status.Cancelled? <==> o.terms.id in hs[|calls|].cancelled)
  {
    hide OrderBook.Valid, Mirrors, AllDifferent, Follows, Submissions, Performs, Calls, New, Known;
    hs, ops := [Empty()], [];
    RunStarts(book, calls);
    for i := 0 to |calls|
      invariant |hs| == i + 1 && Follows(hs, ops, calls, i)
      invariant Mirrors(book, Submissions(calls, i), hs[i])
      invariant forall j :: i <= j < |calls| && calls[j].Add? ==> New(calls[j].order)
      invariant forall id | id in book.orderMap :: fresh(book.orderMap[id])
    {
      NextCall(book, calls, i, hs[i]);
      MirrorsEntries(book, Submissions(calls, i), hs[i]);
      ghost var h', op := Perform(book, calls[i], Submissions(calls, i), hs[i]);
      RunGoesOn(hs, ops, calls, i, h', op);
      hs, ops := hs + [h'], ops + [op];
    }
    AllMirrored(book, calls, hs[|calls|]);
  }

  lemma AllMirrored(book: OrderBook, calls: seq<EngineCall>, h: History)
    requires AllDifferent(calls) && Mirrors(book, Submissions(calls, |calls|), h)
    ensures forall i :: 0 <= i < |calls| && calls[i].Add? ==> Mirrored(h, calls[i].order)
    ensures forall i :: 0 <= i < |calls| && calls[i].Add? ==>
      var o := calls[i].order;
      && (o.status.Open? <==> o.terms.id in book.orderMap && o.filledBase == 0)
      && (o.status.PartiallyFilled? <==> o.terms.id in book.orderMap && 0 < o.filledBase < o.terms.Base())
      && (o.status.Filled? <==> o.filledBase == o.terms.Base())
      && (o.status.Cancelled? <==> o.terms.id in h.cancelled)
  {
    hide OrderBook.Valid, Consistent, Mirrored, AllDifferent;
    SubmissionsAreNamed(calls, |calls|);
    forall i | 0 <= i < |calls| && calls[i].Add?
      ensures var o := calls[i].order;
        && (o.status.Open? <==> o.terms.id in book.orderMap && o.filledBase == 0)
        && (o.status.PartiallyFilled? <==> o.terms.id in book.orderMap && 0 < o.filledBase < o.terms.Base())
        && (o.status.Filled? <==> o.filledBase == o.terms.Base())
        && (o.status.Cancelled? <==> o.terms.id in h.cancelled)
    {
      ObjectStatus(book, Submissions(calls, |calls|), h, calls[i].order.terms.id);
    }
  }

  lemma MirrorsEntries(book: OrderBook, orders: map<string, Order>, h: History)
    requires Mirrors(book, orders, h)
    ensures forall i :: 0 <= i < |book.buys.h| ==>
      var e := book.buys.h[i]; e.order.terms.id in book.orderMap && book.orderMap[e.order.terms.id] == e
    ensures forall i :: 0 <= i < |book.sells.h| ==>
      var e := book.sells.h[i]; e.order.terms.id in book.orderMap && book.orderMap[e.order.terms.id] == e
  {
  }
}
