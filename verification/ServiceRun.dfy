/** The service's calls as steps: each call of the service leads the whole protocol, the engine's objects and
    the database rows from one state to the next. */
module ServiceRuns {
  import opened Domain
  import opened Matching
  import opened MatchingTheory
  import opened Histories
  import opened OrderHeaps
  import opened OrderBooks
  import opened EngineRuns
  import opened Settlement
  import opened Services
  import opened Rows
  import opened Sums
  import Ex = Exchange

  // ---------------------------------------------------------------- rows

  /** The rows once those updates that went through are applied, in order. */
  function Applied(rows: map<string, Row>, updates: seq<RowUpdate>, went: nat -> bool): map<string, Row> {
    if updates == [] then rows
    else
      var last := |updates| - 1;
      var before := Applied(rows, updates[..last], went);
      if went(last) then before[updates[last].id := Row(updates[last].status, updates[last].filled)] else before
  }

  function Written(updates: seq<RowUpdate>, went: nat -> bool): set<string> {
    if updates == [] then {}
    else
      var last := |updates| - 1;
      Written(updates[..last], went) + if went(last) then {updates[last].id} else {}
  }

  lemma {:induction false} AppliedRows(rows: map<string, Row>, updates: seq<RowUpdate>, went: nat -> bool, h: History)
    requires forall u | u in updates :: Row(u.status, u.filled) == RowIn(h, u.id)
    ensures var written := Written(updates, went);
      Applied(rows, updates, went) ==
        map id | id in rows.Keys + written :: if id in written then RowIn(h, id) else rows[id]
    ensures forall id | id in Written(updates, went) :: exists u :: u in updates && u.id == id
  {
    hide RowIn;
    if updates != [] {
      var before, last := updates[..|updates| - 1], updates[|updates| - 1];
      assert updates == before + [last];
      AppliedRows(rows, before, went, h);
    }
  }

  // ---------------------------------------------------------------- submissions

  lemma {:induction false} StoredAreMatches(ms: seq<Match>, stored: nat -> bool)
    ensures forall m | m in Stored(ms, stored) :: m in ms
  {
    if ms != [] {
      StoredAreMatches(ms[..|ms| - 1], stored);
    }
  }

  /** The orders whose rows are written are among those matched. */
  lemma WritesAreTouched(matches: seq<MatchResult>, jobs: seq<MatchResult>, updates: seq<RowUpdate>,
                         stored: nat -> bool)
    requires Wrote(jobs, updates) && Values(jobs) == Stored(Values(matches), stored)
    ensures forall u | u in updates :: Touches(Values(matches), u.id)
  {
    StoredAreMatches(Values(matches), stored);
    forall u | u in updates
      ensures Touches(Values(matches), u.id)
    {
      var i :| 0 <= i < |updates| && updates[i] == u;
      assert i == 2 * (i / 2) + i % 2;
      var m := Values(jobs)[i / 2];
      assert Involves(m, u.id);
      assert m in Stored(Values(matches), stored);
      var n :| 0 <= n < |matches| && Values(matches)[n] == m;
    }
  }

  /** An update that is current is what the engine has made of the order. */
  lemma UpdateIsEngines(book: OrderBook, orderMap0: map<string, OrderEntry>, orders: map<string, Order>, order: Order,
                        matches: seq<MatchResult>, h: History, u: RowUpdate)
    requires Mirrors(book, orders, h) && order.terms.id in orders && orders[order.terms.id] == order
    requires Traced(orderMap0, book.orderMap, order, matches) && Current(u, order, book, orderMap0)
    requires forall id | id in orderMap0 :: id in orders && orderMap0[id].order == orders[id]
    ensures u.id in orders && u == RowOf(orders[u.id]) && Row(u.status, u.filled) == RowIn(h, u.id)
  {
    hide OrderBook.Valid, OrderBook.View, Consistent, StatusOf, Joins;
    assert u.id in orders;
    assert u == RowOf(orders[u.id]);
    assert Mirrored(h, orders[u.id]);
  }

  lemma LeadsFrom(k: Ex.Contract, w: World, a: Action, ws: seq<World>, actions: seq<Action>, w': World, w'': World)
    requires Steps(k, w, a, w') && Leads(k, ws, actions, w', w'')
    ensures Leads(k, [w] + ws, [a] + actions, w, w'')
  {
    hide Steps;
    var ws', actions' := [w] + ws, [a] + actions;
    forall i | 0 <= i < |actions'|
      ensures Steps(k, ws'[i], actions'[i], ws'[i + 1])
    {
      assert i > 0 ==> Steps(k, ws[i - 1], actions[i - 1], ws[i - 1 + 1]);
    }
  }

  lemma Unchanged(book: OrderBook, orders: map<string, Order>, h: History)
    requires book.Valid() && book.View() == h.rest && Consistent(h)
    requires orders.Keys == h.terms.Keys && Holds(book.orderMap, orders)
    requires forall id | id in orders :: orders[id].terms == h.terms[id]
    requires forall id | id in orders && id !in book.orderMap :: Mirrored(h, orders[id])
    ensures Mirrors(book, orders, h)
  {
    hide OrderBook.Valid, Consistent, OrderBook.View, StatusOf;
    BookShows(book);
    forall id | id in orders
      ensures Mirrored(h, orders[id])
    {
      if id in book.orderMap {
        RestingIsMirrored(h, id);
        assert book.View()[id] == orders[id].Value();
      }
    }
  }

  lemma RestingIsMirrored(h: History, id: string)
    requires Consistent(h) && id in h.rest
    ensures id in h.filled && h.rest[id].filled == h.filled[id] && h.rest[id].status == StatusOf(h, id)
  {
    assert Accounted(h, id);
  }

  /** The world after a submission, before any trade is lost. */
  function Matched(w: World, pair: string, t: Terms, ms: seq<Match>, h': History): World {
    World(w.books[pair := h'], w.orders[t.id := t], w.pairOf[t.id := pair], w.matches + ms, w.jobs + ms, w.chain)
  }

  lemma SubmitSteps(k: Ex.Contract, w: World, pair: string, t: Terms, ms: seq<Match>, h': History, stored: nat -> bool)
    returns (ws: seq<World>, actions: seq<Action>)
    requires Representable(t) && t.id !in w.orders && Submitted(BookOf(w, pair), t, ms, h')
    ensures Leads(k, ws, actions, w, Matched(w, pair, t, ms, h').(jobs := w.jobs + Stored(ms, stored)))
    ensures |actions| > 0 && actions[0] == Action.Submit(pair, t, ms)
    ensures forall i :: 0 < i < |actions| ==> actions[i].Drop?
  {
    hide Submitted, Representable, Leads, Stored;
    var w1 := Matched(w, pair, t, ms, h');
    assert w.jobs + ms + [] == w.jobs + ms && w.jobs + Stored(ms, stored) + [] == w.jobs + Stored(ms, stored);
    ws, actions := UnstoredAreDropped(k, w1, w.jobs, ms, [], stored);
    LeadsFrom(k, w, Action.Submit(pair, t, ms), ws, actions, w1, w1.(jobs := w.jobs + Stored(ms, stored)));
    ws, actions := [w] + ws, [Action.Submit(pair, t, ms)] + actions;
  }

  lemma MatchedBook(w: World, pair: string, t: Terms, ms: seq<Match>, h': History, w': World)
    requires w' == Matched(w, pair, t, ms, h').(jobs := w'.jobs)
    ensures BookOf(w', pair) == h'
  {
  }

  /** The rows of a submission, update by update, are those of the call as a whole. */
  lemma SubmitServes(book: OrderBook, orderMap0: map<string, OrderEntry>, orders: map<string, Order>, order: Order,
                     matches: seq<MatchResult>, jobs: seq<MatchResult>, updates: seq<RowUpdate>,
                     stored: nat -> bool, went: nat -> bool, h: History, h': History, rows: map<string, Row>)
    requires Mirrors(book, orders, h') && order.terms.id in orders && orders[order.terms.id] == order
    requires forall id | id in orderMap0 :: id in orders && orderMap0[id].order == orders[id]
    requires Traced(orderMap0, book.orderMap, order, matches) && order.terms.id !in rows
    requires forall u | u in updates :: Current(u, order, book, orderMap0)
    requires Wrote(jobs, updates) && Values(jobs) == Stored(Values(matches), stored)
    requires Submitted(h, order.terms, Values(matches), h')
    requires orders.Keys == rows.Keys + {order.terms.id}
    ensures Serves(Ledger(h, rows), Submission(order.terms, Values(matches), Written(updates, went)),
                   Ledger(h', Applied(rows[order.terms.id := Row(Open, 0)], updates, went)))
    ensures Applied(rows[order.terms.id := Row(Open, 0)], updates, went).Keys == orders.Keys
  {
    hide Mirrors, Traced, Current, Wrote, Values, Stored, Submitted, RowIn, Touches;
    var t, written := order.terms, Written(updates, went);
    forall u | u in updates
      ensures u.id in orders && Row(u.status, u.filled) == RowIn(h', u.id)
    {
      UpdateIsEngines(book, orderMap0, orders, order, matches, h', u);
    }
    AppliedRows(rows[t.id := Row(Open, 0)], updates, went, h');
    WritesAreTouched(matches, jobs, updates, stored);
    assert Applied(rows[t.id := Row(Open, 0)], updates, went) == RowsAfter(rows, t, h', written);
  }

  lemma HeldStill(orderMap0: map<string, OrderEntry>, orders: map<string, Order>, order: Order)
    requires Holds(orderMap0, orders) && order.terms.id !in orders
    ensures var orders' := orders[order.terms.id := order];
      forall id | id in orderMap0 :: id in orders' && orderMap0[id].order == orders'[id]
  {
  }

  lemma NoSteps(k: Ex.Contract, w: World)
    ensures Leads(k, [w], [], w, w) && w.jobs + [] == w.jobs
  {
  }

  lemma CapOf(h: History, id: string)
    requires Consistent(h) && id in h.terms
    ensures Get(h.filled, id) <= h.terms[id].Base()
  {
    assert Accounted(h, id);
  }

  /** The update is about one of the orders, and says what has become of it: filled in part exactly if it
      rests with less than its base filled, filled exactly if all of it is. */
  ghost predicate SaysFate(u: RowUpdate, orders: map<string, Order>, book: OrderBook)
    reads book, orders.Values
  {
    u.id in orders &&
    var o := orders[u.id];
    && u.id == o.terms.id && u.filled == o.filledBase && 0 < u.filled <= o.terms.Base()
    && (u.status.PartiallyFilled? <==> u.id in book.orderMap && u.filled < o.terms.Base())
    && (u.status.Filled? <==> u.filled == o.terms.Base())
    && !u.status.Open? && !u.status.Cancelled?
  }

  /** Every order that a submission writes is filled in part and rests, or is filled to the end. */
  lemma UpdatesSayFate(book: OrderBook, orderMap0: map<string, OrderEntry>, orders: map<string, Order>, order: Order,
                       matches: seq<MatchResult>, jobs: seq<MatchResult>, updates: seq<RowUpdate>,
                       stored: nat -> bool, h: History, h': History)
    requires Mirrors(book, orders, h') && order.terms.id in orders && orders[order.terms.id] == order
    requires forall id | id in orderMap0 :: id in orders && orderMap0[id].order == orders[id]
    requires Traced(orderMap0, book.orderMap, order, matches)
    requires forall u | u in updates :: Current(u, order, book, orderMap0)
    requires Wrote(jobs, updates) && Values(jobs) == Stored(Values(matches), stored)
    requires Consistent(h) && Submitted(h, order.terms, Values(matches), h')
    ensures forall u | u in updates :: SaysFate(u, orders, book)
  {
    hide Mirrors, Traced, Current, Wrote, Values, Stored, Submitted, Touches, Consistent, StatusOf;
    WritesAreTouched(matches, jobs, updates, stored);
    forall u | u in updates
      ensures SaysFate(u, orders, book)
    {
      UpdateIsEngines(book, orderMap0, orders, order, matches, h', u);
      MirrorsFacts(book, orders, h');
      ObjectStatus(book, orders, h', u.id);
      SubmissionFills(h, order.terms, Values(matches), h', u.id);
      TouchedStatus(h, order.terms, Values(matches), h', u.id);
      CapOf(h', u.id);
    }
  }

  /** A call of `SubmitOrder` leads the protocol by a submission and then the losses of the trades that
      were not stored; objects and rows follow. A refused call changes nothing. */
  method PlaceOrder(pair: string, book: OrderBook, order: Order, signed: bool, persisted: bool,
                    stored: nat -> bool, went: nat -> bool, ghost k: Ex.Contract, ghost w: World,
                    ghost orders: map<string, Order>, ghost rows: map<string, Row>)
    returns (answer: Answer, jobs: seq<MatchResult>, updates: seq<RowUpdate>, ghost w': World,
             ghost ws: seq<World>, ghost actions: seq<Action>, ghost ms: seq<Match>, ghost written: set<string>,
             ghost rows': map<string, Row>)
    requires Mirrors(book, orders, BookOf(w, pair)) && New(order) && Representable(order.terms)
    requires order.terms.id !in w.orders && order.terms.id !in orders && rows.Keys == orders.Keys
    modifies book`orderMap, book.buys, book.sells, book.buys.h, book.sells.h, OrdersOf(book.orderMap), order
    ensures answer.Accepted? <==> signed && persisted
    ensures Leads(k, ws, actions, w, w') && w'.jobs == w.jobs + Values(jobs)
    ensures Mirrors(book, if answer.Accepted? then orders[order.terms.id := order] else orders, BookOf(w', pair))
    ensures rows'.Keys == if answer.Accepted? then orders.Keys + {order.terms.id} else orders.Keys
    ensures if answer.Accepted? then
        && |actions| > 0 && actions[0] == Action.Submit(pair, order.terms, ms)
        && (forall i :: 0 < i < |actions| ==> actions[i].Drop?)
        && Serves(Ledger(BookOf(w, pair), rows), Submission(order.terms, ms, written), Ledger(BookOf(w', pair), rows'))
      else actions == [] && w' == w && rows' == rows && updates == []
    ensures forall u | u in updates :: SaysFate(u, orders[order.terms.id := order], book)
  {
    hide OrderBook.Valid, Consistent, Added, ApplyAll, Values, Traced, OrderBook.View, Submitted, Mirrors, Holds,
         Mirrored, OrdersOf, Stored, Wrote, Current, Steps, Leads, Serves, Representable, BookOf, Matched, Applied,
         Written, AfterSubmit, OrderBook.OnlyNew, MatchResult.Value, SaysFate;
    ghost var h, orderMap0 := BookOf(w, pair), book.orderMap;
    MirrorsFacts(book, orders, h);
    var matches;
    answer, matches, jobs, updates := SubmitOrder(book, order, signed, persisted, stored);
    if answer.Accepted? {
      ms := Values(matches);
      AddSubmits(h, order.terms, ms, book.View(), order.Value());
      ghost var h' := AfterSubmit(h, order.terms, ms);
      SubmittedMirrors(book, orderMap0, orders, order, matches, h, h');
      ws, actions := SubmitSteps(k, w, pair, order.terms, ms, h', stored);
      w' := Matched(w, pair, order.terms, ms, h').(jobs := w.jobs + Values(jobs));
      MatchedBook(w, pair, order.terms, ms, h', w');
      written := Written(updates, went);
      rows' := Applied(rows[order.terms.id := Row(Open, 0)], updates, went);
      HeldStill(orderMap0, orders, order);
      UpdatesSayFate(book, orderMap0, orders[order.terms.id := order], order, matches, jobs, updates, stored, h, h');
      SubmitServes(book, orderMap0, orders[order.terms.id := order], order, matches, jobs, updates, stored, went,
                   h, h', rows);
    } else {
      w', ws, actions, ms, written, rows' := w, [w], [], [], {}, rows;
      Unchanged(book, orders, h);
      NoSteps(k, w);
      NoJobs(stored);
    }
  }

  // ---------------------------------------------------------------- cancellations

  lemma WithdrawnStatus(h: History, id: string)
    requires Consistent(h)
    ensures var h' := CancelledOffChain(h, id);
      Get(h'.filled, id) == Get(h.filled, id)
      && StatusOf(h', id) == if id in h.rest then Cancelled else StatusOf(h, id)
  {
  }

  lemma ObjectIs(book: OrderBook, orders: map<string, Order>, h: History, id: string)
    requires Mirrors(book, orders, h)
    ensures id in orders ==>
      RowOf(orders[id]) == RowUpdate(id, StatusOf(h, id), Get(h.filled, id)) && orders[id].terms.id == id
  {
    hide OrderBook.Valid, Consistent, StatusOf;
  }

  /** A call of `CancelOrder` leads the protocol by an off-chain cancellation, unless the order has no row.
      The row it writes is what has become of the order object if and only if the order was in the book,
      or cancelled already, and the row had the object's fill. */
  method WithdrawOrder(pair: string, book: OrderBook, id: string, row: Option<RowUpdate>, marked: bool,
                       ghost k: Ex.Contract, ghost w: World, ghost orders: map<string, Order>,
                       ghost rows: map<string, Row>)
    returns (answer: CancelAnswer, updates: seq<RowUpdate>, ghost w': World, ghost rows': map<string, Row>)
    requires Mirrors(book, orders, BookOf(w, pair))
    requires if id in rows then row.Some? && row.value == RowUpdate(id, rows[id].status, rows[id].filled) else row.None?
    modifies book`orderMap, book.buys, book.sells, book.buys.h, book.sells.h, OrdersOf(book.orderMap)
    ensures if row.None? then w' == w else Steps(k, w, Action.CancelOffChain(pair, id), w')
    ensures Mirrors(book, orders, BookOf(w', pair))
    ensures Serves(Ledger(BookOf(w, pair), rows), Cancellation(id, marked), Ledger(BookOf(w', pair), rows'))
    ensures rows' == Applied(rows, updates, _ => marked)
    ensures row.Some? && id in orders ==>
      (updates == [RowOf(orders[id])] <==>
        (id in old(book.orderMap) || old(orders[id].status).Cancelled?) &&
        row.value.filled == old(orders[id].filledBase))
  {
    hide OrderBook.Valid, Consistent, OrderBook.View, Mirrors, Holds, Mirrored, StatusOf, OrdersOf, CancelledOffChain;
    ghost var h, orderMap0 := BookOf(w, pair), book.orderMap;
    MirrorsFacts(book, orders, h);
    ObjectIs(book, orders, h, id);
    answer, updates := CancelOrder(book, id, row, marked);
    if row.None? {
      w', rows' := w, rows;
      Unchanged(book, orders, h);
    } else {
      w' := w.(books := w.books[pair := CancelledOffChain(h, id)]);
      rows' := if marked then rows[id := Row(Cancelled, rows[id].filled)] else rows;
      WithdrawnMirrors(book, orderMap0, orders, h, id);
      WithdrawnStatus(h, id);
      ObjectIs(book, orders, CancelledOffChain(h, id), id);
    }
  }
}
