/** The service around the engine (backend/internal/service/order_service.go), for one pair; the
    database is reduced to its answers and the settlement channel to the jobs sent on it. */
module Services {
  import opened Domain
  import opened Matching
  import opened OrderBooks
  import opened OrderHeaps
  import opened Rebuild
  import opened Settlement
  import Ex = Exchange

  /** The matches whose trade was stored, in order. */
  function Stored(ms: seq<Match>, stored: nat -> bool): seq<Match> {
    if ms == [] then []
    else Stored(ms[..|ms| - 1], stored) + if stored(|ms| - 1) then [ms[|ms| - 1]] else []
  }

  /** What the service asks the database to write of an order. */
  datatype RowUpdate = RowUpdate(id: string, status: Status, filled: int)

  function RowOf(o: Order): RowUpdate
    reads o
  {
    RowUpdate(o.terms.id, o.status, o.filledBase)
  }

  /** Both orders of every job are written, in order, as they are now. */
  ghost predicate Wrote(jobs: seq<MatchResult>, updates: seq<RowUpdate>)
    reads set j | j in jobs :: j.buyOrder, set j | j in jobs :: j.sellOrder
  {
    && |updates| == 2 * |jobs|
    && forall i :: 0 <= i < |jobs| ==>
      updates[2 * i] == RowOf(jobs[i].buyOrder) && updates[2 * i + 1] == RowOf(jobs[i].sellOrder)
  }

  /** The update says what has become of the order in the engine: the submitted one as it is, one in the
      book as it rests there, and one that has left the book filled to the end. */
  ghost predicate Current(u: RowUpdate, order: Order, book: OrderBook, orderMap0: map<string, OrderEntry>)
    reads order, book, OrdersOf(book.orderMap)
  {
    if u.id == order.terms.id then u == RowOf(order)
    else if u.id in book.orderMap then u == RowOf(book.orderMap[u.id].order)
    else u.id in orderMap0 && u == RowUpdate(u.id, Filled, orderMap0[u.id].order.terms.Base())
  }

  datatype Answer = Accepted | SignerMismatch | NotPersisted

  /** Lines 87-162: an order that is signed by its maker and could be persisted is matched; for every match
      whose trade is stored, both orders are written and a job is sent. */
  method SubmitOrder(book: OrderBook, order: Order, signed: bool, persisted: bool, stored: nat -> bool)
    returns (answer: Answer, matches: seq<MatchResult>, jobs: seq<MatchResult>, updates: seq<RowUpdate>)
    requires book.Valid() && order.terms.id !in book.orderMap
    requires order.terms.Positive() && order.filledBase == 0 && order.status == Open
    modifies book`orderMap, book.buys, book.sells, book.buys.h, book.sells.h, OrdersOf(book.orderMap), order
    ensures book.Valid()
    ensures answer == if !signed then SignerMismatch else if !persisted then NotPersisted else Accepted
    ensures !answer.Accepted? ==>
      matches == [] && jobs == [] && updates == []
      && book.View() == old(book.View()) && order.Value() == old(order.Value())
    ensures answer.Accepted? ==>
      && Added(old(book.View()), old(order.Value()), Values(matches), book.View(), order.Value())
      && Traced(old(book.orderMap), book.orderMap, order, matches) && book.OnlyNew(order, old(book.orderMap))
    ensures !answer.Accepted? ==> book.orderMap == old(book.orderMap)
    ensures forall id | id in book.orderMap ::
        fresh(book.orderMap[id]) || (id in old(book.orderMap) && book.orderMap[id] == old(book.orderMap[id]))
    ensures Values(jobs) == Stored(Values(matches), stored)
    ensures Wrote(jobs, updates) && forall u | u in updates :: Current(u, order, book, old(book.orderMap))
  {
    hide OrderBook.Valid, Added, Stored, OrderBook.View, Values, Traced, Wrote, Current;
    jobs, updates := [], [];
    NoJobs(stored);
    if !signed {
      return SignerMismatch, [], jobs, updates;
    }
    if !persisted {
      return NotPersisted, [], jobs, updates;
    }
    answer := Accepted;
    ghost var orderMap0 := book.orderMap;
    matches := book.AddOrder(order);
    for i := 0 to |matches|
      invariant book.Valid() && Added(old(book.View()), old(order.Value()), Values(matches), book.View(), order.Value())
      invariant Traced(orderMap0, book.orderMap, order, matches) && book.OnlyNew(order, orderMap0)
      invariant forall id | id in book.orderMap ::
          fresh(book.orderMap[id]) || (id in orderMap0 && book.orderMap[id] == orderMap0[id])
      invariant Values(jobs) == Stored(Values(matches[..i]), stored)
      invariant Wrote(jobs, updates) && forall j | j in jobs :: j in matches
    {
      NextJob(matches, i, jobs, stored);
      if !stored(i) {
        continue;
      }
      var buyOrder, sellOrder := matches[i].buyOrder, matches[i].sellOrder;
      NextWrite(jobs, updates, matches[i]);
      updates := updates + [RowOf(buyOrder), RowOf(sellOrder)];
      jobs := jobs + [matches[i]];
    }
    assert matches[..|matches|] == matches;
    WritesAreCurrent(book, orderMap0, order, matches, jobs, updates);
  }

  lemma NextWrite(jobs: seq<MatchResult>, updates: seq<RowUpdate>, job: MatchResult)
    requires Wrote(jobs, updates)
    ensures Wrote(jobs + [job], updates + [RowOf(job.buyOrder), RowOf(job.sellOrder)])
  {
  }

  lemma WritesAreCurrent(book: OrderBook, orderMap0: map<string, OrderEntry>, order: Order,
                         matches: seq<MatchResult>, jobs: seq<MatchResult>, updates: seq<RowUpdate>)
    requires Wrote(jobs, updates) && (forall j | j in jobs :: j in matches) && order.terms.id !in orderMap0
    requires Traced(orderMap0, book.orderMap, order, matches) && book.OnlyNew(order, orderMap0)
    ensures forall u | u in updates :: Current(u, order, book, orderMap0)
  {
    forall u | u in updates
      ensures Current(u, order, book, orderMap0)
    {
      var i :| 0 <= i < |updates| && updates[i] == u;
      var job := jobs[i / 2];
      assert Joins(job, orderMap0, order);
      assert u == RowOf(if i % 2 == 0 then job.buyOrder else job.sellOrder) by {
        assert i == 2 * (i / 2) + i % 2;
      }
    }
  }

  lemma NoJobs(stored: nat -> bool)
    ensures Values([]) == [] && Stored([], stored) == [] && Wrote([], [])
  {
  }

  lemma NextJob(matches: seq<MatchResult>, i: nat, jobs: seq<MatchResult>, stored: nat -> bool)
    requires i < |matches| && Values(jobs) == Stored(Values(matches[..i]), stored)
    ensures Stored(Values(matches[..i + 1]), stored) == Values(if stored(i) then jobs + [matches[i]] else jobs)
  {
    assert Values(matches[..i + 1])[..i] == Values(matches[..i]);
    assert Values(jobs + [matches[i]]) == Values(jobs) + [matches[i].Value()];
  }

  /** The jobs are the matches at exactly the places whose trade was stored, in order. */
  lemma {:induction false} StoredInOrder(ms: seq<Match>, stored: nat -> bool) returns (places: seq<nat>)
    ensures |places| == |Stored(ms, stored)|
    ensures forall i :: 0 <= i < |places| ==>
      places[i] < |ms| && stored(places[i]) && Stored(ms, stored)[i] == ms[places[i]]
    ensures forall i, j :: 0 <= i < j < |places| ==> places[i] < places[j]
    ensures forall n: nat :: n < |ms| && stored(n) ==> n in places
  {
    places := [];
    if ms != [] {
      places := StoredInOrder(ms[..|ms| - 1], stored);
      if stored(|ms| - 1) {
        places := places + [|ms| - 1];
      }
    }
  }

  /** Losing the trades that are not stored is a run of `Drop` steps after the submission. */
  lemma {:induction false} UnstoredAreDropped(k: Ex.Contract, w: World, before: seq<Match>, ms: seq<Match>,
                                              after: seq<Match>, stored: nat -> bool)
    returns (ws: seq<World>, drops: seq<Action>)
    requires w.jobs == before + ms + after
    ensures Leads(k, ws, drops, w, w.(jobs := before + Stored(ms, stored) + after))
    ensures forall i :: 0 <= i < |drops| ==> drops[i].Drop?
    decreases |ms|
  {
    if ms == [] {
      return [w], [];
    }
    var rest, last := ms[..|ms| - 1], ms[|ms| - 1];
    assert ms == rest + [last];
    if stored(|rest|) {
      assert w.jobs == before + rest + ([last] + after);
      ws, drops := UnstoredAreDropped(k, w, before, rest, [last] + after, stored);
      assert before + Stored(rest, stored) + ([last] + after) == before + Stored(ms, stored) + after;
    } else {
      var i := |before + rest|;
      var w' := w.(jobs := Settlement.Without(w.jobs, i));
      assert w'.jobs == before + rest + after;
      ws, drops := UnstoredAreDropped(k, w', before, rest, after, stored);
      ws, drops := [w] + ws, [Drop(i)] + drops;
    }
  }

  datatype CancelAnswer = Withdrawn | NotFound | NotUpdated

  /** Lines 170-189: the order leaves the book if it is there, and its row is marked cancelled either way,
      with the fill the row had. */
  method CancelOrder(book: OrderBook, orderID: string, row: Option<RowUpdate>, written: bool)
    returns (answer: CancelAnswer, updates: seq<RowUpdate>)
    requires book.Valid()
    modifies book`orderMap, book.buys, book.sells, book.buys.h, book.sells.h, OrdersOf(book.orderMap)
    ensures book.Valid()
    ensures answer == if row.None? then NotFound else if written then Withdrawn else NotUpdated
    ensures book.View() == if row.None? then old(book.View()) else old(book.View()) - {orderID}
    ensures updates == if row.None? then [] else [RowUpdate(orderID, Cancelled, row.value.filled)]
    ensures book.orderMap == if row.None? then old(book.orderMap) else old(book.orderMap) - {orderID}
    ensures row.Some? && orderID in old(book.orderMap) ==>
      old(book.orderMap[orderID]).order.Value() == old(book.View()[orderID]).(status := Cancelled)
  {
    if row.None? {
      return NotFound, [];
    }
    var order, ok := book.CancelOrder(orderID);
    updates := [RowUpdate(orderID, Cancelled, row.value.filled)];
    answer := if written then Withdrawn else NotUpdated;
  }

  // ---------------------------------------------------------------- loading open orders

  /** The orders have the given values from position `i` on. */
  ghost predicate Have(orders: seq<Order>, vs: seq<OrderValue>, i: nat)
    reads orders
  {
    |orders| == |vs| && forall j :: i <= j < |orders| ==> orders[j].Value() == vs[j]
  }

  /** Every order of the book was in the given one or is in the list. */
  ghost predicate Drawn(orderMap: map<string, OrderEntry>, orderMap0: map<string, OrderEntry>, orders: seq<Order>) {
    forall o | o in OrdersOf(orderMap) :: o in OrdersOf(orderMap0) || o in orders
  }

  /** Orders not yet loaded are not in the book. */
  ghost predicate Absent(orderMap: map<string, OrderEntry>, orders: seq<Order>, i: nat) {
    forall j :: i <= j < |orders| ==> orders[j].terms.id !in orderMap
  }

  /** Lines 207-217: add the open orders of the database one after the other. The book after each and
      the matches of each are returned for the specification. */
  method LoadOpenOrders(book: OrderBook, orders: seq<Order>, ghost vs: seq<OrderValue>)
    returns (ghost books: seq<Resting>, ghost answers: seq<seq<Match>>)
    requires book.Valid() && Have(orders, vs, 0) && Loadable(vs) && Absent(book.orderMap, orders, 0)
    modifies book`orderMap, book.buys, book.sells, book.buys.h, book.sells.h, OrdersOf(book.orderMap), orders
    ensures book.Valid() && IsLoading(old(book.View()), vs, books, answers) && book.View() == books[|vs|]
  {
    hide OrderBook.Valid, OrderBook.View, Have, Loadable, Absent, Drawn, Adds, IsLoading;
    ghost var orderMap0, rest0 := book.orderMap, book.View();
    books, answers := [rest0], [];
    LoadingStarts(book, orders, vs, rest0);
    var i := 0;
    while i < |orders|
      invariant 0 <= i <= |orders| == |vs| && |books| == i + 1 && |answers| == i
      invariant book.Valid() && Have(orders, vs, i) && Absent(book.orderMap, orders, i)
      invariant Drawn(book.orderMap, orderMap0, orders)
      invariant forall id | id in book.orderMap ::
          fresh(book.orderMap[id]) || (id in orderMap0 && book.orderMap[id] == orderMap0[id])
      invariant IsLoading(rest0, vs[..i], books, answers) && book.View() == books[i]
    {
      EntriesAreMapped(book);
      DrawnFrom(book.orderMap, orderMap0, orders);
      ghost var before := book.orderMap;
      ghost var answer := LoadOne(book, orders, i, vs);
      StillDrawn(book, before, orderMap0, orders, i);
      LoadingGoesOn(rest0, vs, books, answers, answer, book.View());
      books, answers := books + [book.View()], answers + [answer];
      i := i + 1;
    }
    assert vs[..i] == vs;
  }

  lemma LoadingStarts(book: OrderBook, orders: seq<Order>, vs: seq<OrderValue>, rest: Resting)
    requires book.Valid() && Have(orders, vs, 0)
    ensures |orders| == |vs| && IsLoading(rest, vs[..0], [rest], []) && Drawn(book.orderMap, book.orderMap, orders)
    ensures forall id | id in book.orderMap :: book.orderMap[id] in book.buys.h || book.orderMap[id] in book.sells.h
  {
  }

  lemma DrawnFrom(orderMap: map<string, OrderEntry>, orderMap0: map<string, OrderEntry>, orders: seq<Order>)
    requires Drawn(orderMap, orderMap0, orders)
    ensures forall o | o in OrdersOf(orderMap) :: o in OrdersOf(orderMap0) || o in orders
  {
  }

  lemma StillDrawn(book: OrderBook, before: map<string, OrderEntry>, orderMap0: map<string, OrderEntry>,
                   orders: seq<Order>, i: nat)
    requires i < |orders| && book.OnlyNew(orders[i], before) && Drawn(before, orderMap0, orders)
    ensures Drawn(book.orderMap, orderMap0, orders)
  {
  }

  lemma LoadingGoesOn(start: Resting, vs: seq<OrderValue>, books: seq<Resting>, answers: seq<seq<Match>>,
                      answer: seq<Match>, rest: Resting)
    requires |answers| < |vs| && |books| == |answers| + 1
    requires IsLoading(start, vs[..|answers|], books, answers) && Adds(books[|answers|], vs[|answers|], answer, rest)
    ensures IsLoading(start, vs[..|answers| + 1], books + [rest], answers + [answer])
  {
  }

  method LoadOne(book: OrderBook, orders: seq<Order>, i: nat, ghost vs: seq<OrderValue>)
    returns (ghost answer: seq<Match>)
    requires i < |orders| && book.Valid() && Have(orders, vs, i) && Loadable(vs) && Absent(book.orderMap, orders, i)
    modifies book`orderMap, book.buys, book.sells, book.buys.h, book.sells.h, OrdersOf(book.orderMap), orders[i]
    ensures book.Valid() && Have(orders, vs, i + 1) && Absent(book.orderMap, orders, i + 1)
    ensures book.OnlyNew(orders[i], old(book.orderMap))
    ensures forall id | id in book.orderMap ::
        fresh(book.orderMap[id]) || (id in old(book.orderMap) && book.orderMap[id] == old(book.orderMap[id]))
    ensures i < |vs| && Adds(old(book.View()), vs[i], answer, book.View())
  {
    hide OrderBook.Valid, OrderBook.View, Loadable, Absent, Adds, Added, Values;
    NextIsLoadable(book, orders, vs, i);
    ghost var orderMap0, rest0 := book.orderMap, book.View();
    var matches := book.AddOrder(orders[i]);
    answer := Values(matches);
    AddedAdds(rest0, vs[i], answer, book.View(), orders[i].Value());
    StillAbsent(book, orderMap0, orders, vs, i);
  }

  lemma NextIsLoadable(book: OrderBook, orders: seq<Order>, vs: seq<OrderValue>, i: nat)
    requires i < |orders| && Have(orders, vs, i) && Loadable(vs) && book.Valid() && Absent(book.orderMap, orders, i)
    ensures i < |vs| && orders[i].Value() == vs[i] && Incoming(vs[i]) && orders[i].terms.id !in book.orderMap
    ensures forall j :: i < j < |orders| ==> orders[j] != orders[i] && orders[j] !in OrdersOf(book.orderMap)
  {
  }

  lemma AddedAdds(rest: Resting, o: OrderValue, ms: seq<Match>, rest': Resting, o': OrderValue)
    requires Added(rest, o, ms, rest', o')
    ensures Adds(rest, o, ms, rest')
  {
  }

  lemma StillAbsent(book: OrderBook, orderMap0: map<string, OrderEntry>,
                    orders: seq<Order>, vs: seq<OrderValue>, i: nat)
    requires i < |orders| && Absent(orderMap0, orders, i) && book.OnlyNew(orders[i], orderMap0)
    requires Loadable(vs) && Have(orders, vs, i + 1) && i < |vs| && orders[i].terms == vs[i].terms
    ensures Absent(book.orderMap, orders, i + 1)
  {
  }
}
