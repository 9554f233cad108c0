/** Rebuilding a book from its resting orders, as `LoadOpenOrders` does on startup
    (backend/internal/service/order_service.go). */
module Rebuild {
  import opened Domain
  import opened Matching
  import opened MatchingTheory
  import opened Histories
  import opened Snapshots

  ghost predicate Adds(rest: Resting, o: OrderValue, ms: seq<Match>, rest': Resting) {
    Added(rest, o, ms, rest', ApplyAll(State(rest, o), ms).taker)
  }

  /** The orders are added one after the other to the book `start`. */
  ghost predicate IsLoading(start: Resting, os: seq<OrderValue>, books: seq<Resting>, answers: seq<seq<Match>>) {
    && |books| == |os| + 1 && |answers| == |os| && books[0] == start
    && forall i :: 0 <= i < |os| ==> Adds(books[i], os[i], answers[i], books[i + 1])
  }

  /** The orders are ones the engine takes, and have different names. */
  ghost predicate Loadable(vs: seq<OrderValue>) {
    && (forall j :: 0 <= j < |vs| ==> Incoming(vs[j]))
    && forall i, j :: 0 <= i < j < |vs| ==> vs[i].terms.id != vs[j].terms.id
  }

  /** The list holds each resting order exactly once. */
  ghost predicate ListsBook(rest: Resting, os: seq<OrderValue>) {
    && (forall i :: 0 <= i < |os| ==> os[i].terms.id in rest && rest[os[i].terms.id] == os[i])
    && (forall i, j :: 0 <= i < j < |os| ==> os[i].terms.id != os[j].terms.id)
    && (forall id | id in rest :: rest[id] in os)
  }

  /** An order that crosses nothing in the book is added unchanged and without a match. */
  lemma AddsQuietly(rest: Resting, o: OrderValue, ms: seq<Match>, rest': Resting)
    requires Book(rest[o.terms.id := o]) && Uncrossed(rest[o.terms.id := o]) && o.terms.id !in rest
    requires Adds(rest, o, ms, rest')
    ensures ms == [] && rest' == rest[o.terms.id := o]
  {
    var all := rest[o.terms.id := o];
    assert all[o.terms.id] == o && forall id | id in rest :: all[id] == rest[id];
    if ms != [] {
      FromFront(State(rest, o), ms);
    }
  }

  function Loaded(os: seq<OrderValue>, n: nat): Resting
    requires n <= |os|
  {
    if n == 0 then map[] else Loaded(os, n - 1)[os[n - 1].terms.id := os[n - 1]]
  }

  lemma {:induction false} LoadedIsPart(rest: Resting, os: seq<OrderValue>, n: nat)
    requires ListsBook(rest, os) && n <= |os|
    ensures forall id | id in Loaded(os, n) :: id in rest && Loaded(os, n)[id] == rest[id]
    ensures forall i :: 0 <= i < n ==> os[i].terms.id in Loaded(os, n)
    ensures forall i :: n <= i < |os| ==> os[i].terms.id !in Loaded(os, n)
  {
    if n > 0 {
      LoadedIsPart(rest, os, n - 1);
    }
  }

  lemma LoadNext(rest: Resting, os: seq<OrderValue>, n: nat)
    requires Book(rest) && Uncrossed(rest) && ListsBook(rest, os) && n < |os|
    ensures Book(Loaded(os, n + 1)) && Uncrossed(Loaded(os, n + 1)) && os[n].terms.id !in Loaded(os, n)
  {
    LoadedIsPart(rest, os, n);
    LoadedIsPart(rest, os, n + 1);
  }

  /** Loading any part of an uncrossed book, in any order, rebuilds that part and matches nothing. */
  lemma {:induction false} LoadsPrefix(rest: Resting, os: seq<OrderValue>,
                                      books: seq<Resting>, answers: seq<seq<Match>>, n: nat)
    requires Book(rest) && Uncrossed(rest) && ListsBook(rest, os) && IsLoading(map[], os, books, answers) && n <= |os|
    ensures forall i :: 0 <= i < n ==> answers[i] == []
    ensures books[n] == Loaded(os, n)
  {
    hide Adds, Book, Uncrossed, ListsBook;
    if n > 0 {
      LoadsPrefix(rest, os, books, answers, n - 1);
      LoadNext(rest, os, n - 1);
      assert Adds(books[n - 1], os[n - 1], answers[n - 1], books[n - 1 + 1]);
      AddsQuietly(books[n - 1], os[n - 1], answers[n - 1], books[n]);
    }
  }

  /** Round trip: a book rebuilt from its own resting orders, whatever order they come in, is the same
      book, and rebuilding it trades nothing. */
  lemma LoadingRebuilds(rest: Resting, os: seq<OrderValue>, books: seq<Resting>, answers: seq<seq<Match>>)
    requires Book(rest) && Uncrossed(rest) && ListsBook(rest, os) && IsLoading(map[], os, books, answers)
    ensures books[|os|] == rest
    ensures forall i :: 0 <= i < |os| ==> answers[i] == []
  {
    LoadsPrefix(rest, os, books, answers, |os|);
    LoadedIsPart(rest, os, |os|);
    forall id | id in rest
      ensures id in books[|os|]
    {
      var i :| 0 <= i < |os| && os[i] == rest[id];
    }
  }

  /** Restart of a reachable book: rebuilt from its resting orders, in any order, it shows the same levels. */
  lemma RestartKeepsSnapshot(hs: seq<History>, ops: seq<Operation>, n: nat, os: seq<OrderValue>, books: seq<Resting>,
                             answers: seq<seq<Match>>, side: Side, before: seq<PriceLevel>, after: seq<PriceLevel>)
    requires IsEngineRun(hs, ops) && n < |hs|
    requires ListsBook(hs[n].rest, os) && IsLoading(map[], os, books, answers)
    requires IsView(hs[n].rest, side, before) && IsView(books[|os|], side, after)
    ensures books[|os|] == hs[n].rest && before == after
    ensures forall i :: 0 <= i < |os| ==> answers[i] == []
  {
    hide ListsBook, IsView, IsLoading, IsEngineRun;
    EveryRunIsConsistent(hs, ops, n);
    LoadingRebuilds(hs[n].rest, os, books, answers);
    ViewIsUnique(hs[n].rest, side, before, after);
  }

  // ---------------------------------------------------------------- books that started from stored orders

  datatype BookOp = AddOp(order: OrderValue, matches: seq<Match>) | RemoveOp(id: string)

  /** One call on a book; the order added may be filled in part. */
  ghost predicate Moves(rest: Resting, op: BookOp, rest': Resting) {
    match op
    case AddOp(o, ms) => Incoming(o) && o.terms.id !in rest && Adds(rest, o, ms, rest')
    case RemoveOp(id) => rest' == AfterCancel(rest, id)
  }

  ghost predicate IsBookRun(books: seq<Resting>, ops: seq<BookOp>) {
    && |books| == |ops| + 1
    && forall i :: 0 <= i < |ops| ==> Moves(books[i], ops[i], books[i + 1])
  }

  /** From any live and uncrossed book on, every book is live and uncrossed. */
  lemma {:induction false} BooksStayUncrossed(books: seq<Resting>, ops: seq<BookOp>, n: nat)
    requires IsBookRun(books, ops) && n < |books| && Book(books[0]) && Uncrossed(books[0])
    ensures Book(books[n]) && Uncrossed(books[n])
  {
    hide Book, Uncrossed, Adds;
    if n > 0 {
      BooksStayUncrossed(books, ops, n - 1);
      assert Moves(books[n - 1], ops[n - 1], books[n - 1 + 1]);
      match ops[n - 1]
      case AddOp(o, ms) => AddStaysUncrossed(books[n - 1], o, ms, books[n]);
      case RemoveOp(id) => RemovalStaysUncrossed(books[n - 1], id);
    }
  }

  lemma AddStaysUncrossed(rest: Resting, o: OrderValue, ms: seq<Match>, rest': Resting)
    requires Book(rest) && Uncrossed(rest) && Incoming(o) && o.terms.id !in rest && Adds(rest, o, ms, rest')
    ensures Book(rest') && Uncrossed(rest') && rest'.Keys <= rest.Keys + {o.terms.id}
  {
    AddKeepsBook(rest, o, ms, rest', ApplyAll(State(rest, o), ms).taker);
  }

  lemma RemovalStaysUncrossed(rest: Resting, id: string)
    requires Book(rest) && Uncrossed(rest)
    ensures Book(AfterCancel(rest, id)) && Uncrossed(AfterCancel(rest, id))
  {
  }

  /** So is every book on the way while orders with new names are loaded. */
  lemma {:induction false} LoadingStaysUncrossed(start: Resting, os: seq<OrderValue>, books: seq<Resting>,
                                        answers: seq<seq<Match>>, n: nat)
    requires Book(start) && Uncrossed(start) && Loadable(os) && IsLoading(start, os, books, answers) && n <= |os|
    requires forall i :: 0 <= i < |os| ==> os[i].terms.id !in start
    ensures Book(books[n]) && Uncrossed(books[n])
    ensures forall id | id in books[n] :: id in start || exists i :: 0 <= i < n && os[i].terms.id == id
  {
    hide Book, Uncrossed, Adds;
    if n > 0 {
      LoadingStaysUncrossed(start, os, books, answers, n - 1);
      assert Adds(books[n - 1], os[n - 1], answers[n - 1], books[n - 1 + 1]);
      AddStaysUncrossed(books[n - 1], os[n - 1], answers[n - 1], books[n]);
    }
  }

  /** Whatever orders the service starts from, and whatever is added and cancelled after that, the book is
      live and never crossed. */
  lemma LoadedStaysUncrossed(os: seq<OrderValue>, loads: seq<Resting>, answers: seq<seq<Match>>,
                             books: seq<Resting>, ops: seq<BookOp>, n: nat)
    requires Loadable(os) && IsLoading(map[], os, loads, answers)
    requires IsBookRun(books, ops) && books[0] == loads[|os|] && n < |books|
    ensures Book(books[n]) && Uncrossed(books[n])
  {
    hide Loadable, IsLoading, IsBookRun;
    LoadingStaysUncrossed(map[], os, loads, answers, |os|);
    BooksStayUncrossed(books, ops, n);
  }
}
