/** The database rows that the service keeps of its orders (backend/internal/service/order_service.go), next
    to the engine's run on the same pair: when a row is what the engine has made of the order. */
module Rows {
  import opened Domain
  import opened Matching
  import opened MatchingTheory
  import opened Histories
  import opened EngineRuns
  import opened Sums

  datatype Row = Row(status: Status, filled: int)

  datatype Ledger = Ledger(history: History, rows: map<string, Row>)

  datatype ServiceOp =
    | Submission(order: Terms, matches: seq<Match>, written: set<string>)   // whose updates went through
    | Cancellation(id: string, marked: bool)

  /** What the engine has made of an order, as a row. */
  function RowIn(h: History, id: string): Row {
    Row(StatusOf(h, id), Get(h.filled, id))
  }

  /** Some match of the run is with the order. */
  ghost predicate Touches(ms: seq<Match>, id: string) {
    exists i :: 0 <= i < |ms| && Involves(ms[i], id)
  }

  /** A new order gets a row; then the rows in `written` become what the engine has made of the orders. */
  function RowsAfter(rows: map<string, Row>, t: Terms, h': History, written: set<string>): map<string, Row> {
    map id | id in rows.Keys + {t.id} ::
      if id in written then RowIn(h', id) else if id == t.id then Row(Open, 0) else rows[id]
  }

  /** One call of the service. A submission writes rows of orders it matched, but perhaps not all: a trade
      may not be stored, and failed updates go unnoticed. A cancellation keeps the fill of the row. */
  ghost predicate Serves(l: Ledger, op: ServiceOp, l': Ledger) {
    match op
    case Submission(t, ms, written) =>
      Submitted(l.history, t, ms, l'.history) && t.id !in l.rows &&
      (forall id | id in written :: Touches(ms, id)) &&
      l'.rows == RowsAfter(l.rows, t, l'.history, written)
    case Cancellation(id, marked) =>
      if id !in l.rows then l' == l
      else
        l'.history == CancelledOffChain(l.history, id) &&
        l'.rows == if marked then l.rows[id := Row(Cancelled, l.rows[id].filled)] else l.rows
  }

  ghost predicate IsServiceRun(ls: seq<Ledger>, ops: seq<ServiceOp>) {
    && |ls| == |ops| + 1 && ls[0] == Ledger(Empty(), map[])
    && forall i :: 0 <= i < |ops| ==> Serves(ls[i], ops[i], ls[i + 1])
  }

  // ---------------------------------------------------------------- the two conditions

  /** The last of the first `n` calls that matched the order wrote its row, if any matched it. */
  ghost predicate FillWritten(ops: seq<ServiceOp>, n: nat, id: string)
    requires n <= |ops|
  {
    n == 0 ||
    if ops[n - 1].Submission? && Touches(ops[n - 1].matches, id) then id in ops[n - 1].written
    else FillWritten(ops, n - 1, id)
  }

  /** One of the first `n` calls wrote the order's row as cancelled. */
  predicate Withdrawn(ls: seq<Ledger>, ops: seq<ServiceOp>, n: nat, id: string)
    requires n <= |ops| < |ls|
  {
    n > 0 && ((ops[n - 1] == Cancellation(id, true) && id in ls[n - 1].rows) || Withdrawn(ls, ops, n - 1, id))
  }

  // ---------------------------------------------------------------- what a submission does to one order

  lemma {:induction false} TouchedIsFilled(terms: map<string, Terms>, ms: seq<Match>, id: string)
    requires forall i :: 0 <= i < |ms| ==> Genuine(terms, ms[i])
    ensures FillsOf(ms, id) >= 0 && (FillsOf(ms, id) > 0 <==> Touches(ms, id))
  {
    if ms != [] {
      var before, last := ms[..|ms| - 1], |ms| - 1;
      TouchedIsFilled(terms, before, id);
      assert Genuine(terms, ms[last]);
      if Touches(before, id) {
        var i :| 0 <= i < |before| && Involves(before[i], id);
        assert Involves(ms[i], id);
      }
    }
  }

  /** A resting order that no match is with stays as it is, and a run of matches touches its taker. */
  lemma {:induction false} UntouchedStays(s: State, ms: seq<Match>, id: string)
    requires Start(s) && CanMatchAll(s, ms) && !Touches(ms, id)
    ensures id in s.rest ==> id in ApplyAll(s, ms).rest && ApplyAll(s, ms).rest[id] == s.rest[id]
    ensures id == s.taker.terms.id ==> ms == []
  {
    if ms != [] {
      hide CanMatch, ApplyMatch;
      var before, m := ms[..|ms| - 1], ms[|ms| - 1];
      assert !Touches(before, id) by {
        assert forall i :: 0 <= i < |before| ==> before[i] == ms[i];
      }
      UntouchedStays(s, before, id);
      RunKeepsStart(s, before);
      OneMatch(ApplyAll(s, before), m);
      assert !Involves(m, id);
    }
  }

  /** A submission raises the engine's fill of exactly the orders it matched. */
  lemma SubmissionFills(h: History, t: Terms, ms: seq<Match>, h': History, id: string)
    requires Consistent(h) && Submitted(h, t, ms, h') && id in h'.terms
    ensures Consistent(h') && h'.cancelled == h.cancelled
    ensures Get(h'.filled, id) >= (if id == t.id then 0 else Get(h.filled, id)) >= 0
    ensures Touches(ms, id) <==> Get(h'.filled, id) > if id == t.id then 0 else Get(h.filled, id)
  {
    hide Consistent, Submitted, FillsOf, Genuine;
    SubmitKeepsConsistent(h, t, ms, h');
    SubmitTerms(h, t, ms, h');
    FillsAdd(h.matches, ms, id);
    FilledIsFills(h', id);
    AllGenuine(h');
    assert forall i :: 0 <= i < |ms| ==> ms[i] == h'.matches[|h.matches| + i];
    TouchedIsFilled(h'.terms, ms, id);
    if id == t.id {
      UnknownHasNoFills(h, id);
    } else {
      FilledIsFills(h, id);
      FillIsPositive(h, id);
    }
    SameCancelled(h, t, ms, h');
  }

  lemma SameCancelled(h: History, t: Terms, ms: seq<Match>, h': History)
    requires Submitted(h, t, ms, h')
    ensures h'.cancelled == h.cancelled
  {
  }

  lemma AllGenuine(h: History)
    requires Consistent(h)
    ensures forall i :: 0 <= i < |h.matches| ==> Genuine(h.terms, h.matches[i])
  {
  }

  lemma FillIsPositive(h: History, id: string)
    requires Consistent(h) && id in h.terms
    ensures Get(h.filled, id) >= 0
  {
    assert Accounted(h, id);
  }

  lemma SubmitRest(h: History, t: Terms, ms: seq<Match>, h': History)
    requires Consistent(h) && Submitted(h, t, ms, h')
    ensures Start(State(h.rest, Fresh(t))) && CanMatchAll(State(h.rest, Fresh(t)), ms)
    ensures h'.rest == Settle(ApplyAll(State(h.rest, Fresh(t)), ms))
    ensures ApplyAll(State(h.rest, Fresh(t)), ms).taker.terms == t
  {
    RunKeepsStart(State(h.rest, Fresh(t)), ms);
  }

  /** An order that a submission does not match keeps its status; a new one is open. */
  lemma UntouchedStatus(h: History, t: Terms, ms: seq<Match>, h': History, id: string)
    requires Consistent(h) && Submitted(h, t, ms, h') && id in h'.terms && !Touches(ms, id)
    ensures StatusOf(h', id) == if id == t.id then Open else StatusOf(h, id)
  {
    hide ApplyAll, CanMatchAll, Consistent, Submitted, Start, Touches;
    var s := State(h.rest, Fresh(t));
    SubmitRest(h, t, ms, h');
    SubmitTerms(h, t, ms, h');
    UntouchedStays(s, ms, id);
    if id == t.id {
      TakerAfterSubmit(h, t, ms, h');
      NoMatches(s);
    } else {
      OtherAfterSubmit(h, t, ms, h', id);
    }
  }

  lemma NoMatches(s: State)
    ensures ApplyAll(s, []) == s
  {
  }

  /** An order that a submission matches was resting or is the new one, and is not cancelled after it. */
  lemma TouchedStatus(h: History, t: Terms, ms: seq<Match>, h': History, id: string)
    requires Consistent(h) && Submitted(h, t, ms, h') && id in h'.terms && Touches(ms, id)
    ensures (id == t.id || id in h.rest) && !StatusOf(h', id).Cancelled? && id !in h'.cancelled
  {
    hide Consistent, Submitted, Touches;
    SubmissionFills(h, t, ms, h', id);
    SubmitTerms(h, t, ms, h');
    CancelledLeft(h', id);
    if id == t.id {
      NewIsNotCancelled(h', h, t);
    } else {
      OtherAfterSubmit(h, t, ms, h', id);
      CancelledLeft(h, id);
    }
  }

  lemma NewIsNotCancelled(h': History, h: History, t: Terms)
    requires Consistent(h) && t.id !in h.terms && h'.cancelled == h.cancelled
    ensures t.id !in h'.cancelled
  {
  }
  // ---------------------------------------------------------------- what every call keeps

  ghost predicate Tracked(l: Ledger) {
    Consistent(l.history) && l.rows.Keys == l.history.terms.Keys
  }

  /** What is kept of one row, given whether its fill is written and whether it was withdrawn. */
  ghost predicate Kept(l: Ledger, filled: bool, withdrawn: bool, id: string) {
    && id in l.rows && id in l.history.terms
    && var row, h := l.rows[id], l.history;
    && 0 <= row.filled <= Get(h.filled, id) && (filled <==> row.filled == Get(h.filled, id))
    && (withdrawn <==> row.status.Cancelled?)
    && (filled && !withdrawn && id !in h.cancelled ==> row.status == StatusOf(h, id))
    && (withdrawn ==> id !in h.rest)
  }

  lemma SubmissionTracks(l: Ledger, t: Terms, ms: seq<Match>, written: set<string>, l': Ledger)
    requires Tracked(l) && Serves(l, Submission(t, ms, written), l')
    ensures Tracked(l') && l'.rows.Keys == l.rows.Keys + {t.id}
  {
    hide Consistent, Submitted;
    SubmitKeepsConsistent(l.history, t, ms, l'.history);
    SubmitTerms(l.history, t, ms, l'.history);
  }

  lemma SubmissionKeeps(l: Ledger, t: Terms, ms: seq<Match>, written: set<string>, l': Ledger,
                        filled: bool, withdrawn: bool, id: string)
    requires Tracked(l) && Serves(l, Submission(t, ms, written), l') && id in l'.rows
    requires if id in l.rows then Kept(l, filled, withdrawn, id) else filled && !withdrawn
    ensures Kept(l', if Touches(ms, id) then id in written else filled, withdrawn, id)
  {
    hide Consistent, Submitted, StatusOf, Touches;
    var h, h' := l.history, l'.history;
    SubmissionTracks(l, t, ms, written, l');
    SubmissionFills(h, t, ms, h', id);
    RestComesFrom(h, t, ms, h');
    if Touches(ms, id) {
      TouchedStatus(h, t, ms, h', id);
    } else {
      UntouchedStatus(h, t, ms, h', id);
    }
  }

  lemma RestComesFrom(h: History, t: Terms, ms: seq<Match>, h': History)
    requires Consistent(h) && Submitted(h, t, ms, h')
    ensures h'.rest.Keys <= h.rest.Keys + {t.id} && t.id !in h.terms
  {
    AddKeepsBook(h.rest, Fresh(t), ms, h'.rest, ApplyAll(State(h.rest, Fresh(t)), ms).taker);
  }

  lemma CancellationKeeps(l: Ledger, c: string, marked: bool, l': Ledger, filled: bool, withdrawn: bool, id: string)
    requires Tracked(l) && Serves(l, Cancellation(c, marked), l')
    requires id in l.rows ==> Kept(l, filled, withdrawn, id)
    ensures Tracked(l') && l'.rows.Keys == l.rows.Keys
    ensures id in l.rows ==> Kept(l', filled, withdrawn || (c == id && marked), id)
  {
    hide Consistent;
    CancelKeepsConsistent(l.history, c);
    CancelledLeft(l.history, id);
    CancelledLeft(l'.history, id);
  }

  lemma CancelledLeft(h: History, id: string)
    requires Consistent(h)
    ensures id in h.rest ==> id in h.terms && id !in h.cancelled && !h.rest[id].status.Cancelled?
  {
    if id in h.rest {
      assert Accounted(h, id) && h.rest[id].Live();
    }
  }

  /** A call that matches an order has its row. */
  lemma TouchedHasRow(l: Ledger, t: Terms, ms: seq<Match>, written: set<string>, l': Ledger, id: string)
    requires Tracked(l) && Serves(l, Submission(t, ms, written), l') && Touches(ms, id)
    ensures id in l'.rows
  {
    hide Consistent, Submitted, Genuine;
    SubmissionTracks(l, t, ms, written, l');
    SubmitTerms(l.history, t, ms, l'.history);
    AllGenuine(l'.history);
    var i :| 0 <= i < |ms| && Involves(ms[i], id);
    assert ms[i] == l'.history.matches[|l.history.matches| + i];
    PartiesAreKnown(l'.history.terms, ms[i]);
  }

  lemma PartiesAreKnown(terms: map<string, Terms>, m: Match)
    requires Genuine(terms, m)
    ensures m.buy.id in terms && m.sell.id in terms
  {
  }

  /** What is kept of every row over every run; an order without a row was neither matched nor withdrawn. */
  lemma {:induction false} RowsAreKept(ls: seq<Ledger>, ops: seq<ServiceOp>, n: nat, id: string)
    requires IsServiceRun(ls, ops) && n < |ls|
    ensures Tracked(ls[n])
    ensures if id in ls[n].rows then Kept(ls[n], FillWritten(ops, n, id), Withdrawn(ls, ops, n, id), id)
      else FillWritten(ops, n, id) && !Withdrawn(ls, ops, n, id)
  {
    hide Serves, Kept, Touches, Tracked;
    if n == 0 {
      EmptyIsTracked();
    } else {
      RowsAreKept(ls, ops, n - 1, id);
      assert Serves(ls[n - 1], ops[n - 1], ls[n - 1 + 1]);
      var filled, withdrawn := FillWritten(ops, n - 1, id), Withdrawn(ls, ops, n - 1, id);
      match ops[n - 1]
      case Submission(t, ms, written) =>
        SubmissionTracks(ls[n - 1], t, ms, written, ls[n]);
        if id in ls[n].rows {
          SubmissionKeeps(ls[n - 1], t, ms, written, ls[n], filled, withdrawn, id);
        } else if Touches(ms, id) {
          TouchedHasRow(ls[n - 1], t, ms, written, ls[n], id);
        }
      case Cancellation(c, marked) =>
        CancellationKeeps(ls[n - 1], c, marked, ls[n], filled, withdrawn, id);
    }
  }

  lemma EmptyIsTracked()
    ensures Tracked(Ledger(Empty(), map[]))
  {
  }

  /** Over every run, a row is what the engine has made of the order if and only if the last call that
      matched the order wrote the row, and the row was marked cancelled exactly if the engine cancelled it:
      neither a resting order whose mark was lost, nor one that had left the book filled. */
  lemma RowIsExact(ls: seq<Ledger>, ops: seq<ServiceOp>, n: nat, id: string)
    requires IsServiceRun(ls, ops) && n < |ls| && id in ls[n].history.terms
    ensures id in ls[n].rows
    ensures ls[n].rows[id] == RowIn(ls[n].history, id) <==>
      FillWritten(ops, n, id) && (Withdrawn(ls, ops, n, id) <==> id in ls[n].history.cancelled)
  {
    hide IsServiceRun, FillWritten, Withdrawn, Consistent;
    RowsAreKept(ls, ops, n, id);
    CancelledLeft(ls[n].history, id);
  }

  /** One cancellation that goes through leaves a row that is what the engine has made of the order if and
      only if the order was in the book, or cancelled before, and the row had the order's fill. */
  lemma CancelledRowIsExact(l: Ledger, id: string, l': Ledger)
    requires Tracked(l) && id in l.rows && Serves(l, Cancellation(id, true), l')
    ensures l'.rows[id] == RowIn(l'.history, id) <==>
      (id in l.history.rest || StatusOf(l.history, id).Cancelled?) && l.rows[id].filled == Get(l.history.filled, id)
  {
    hide Consistent;
    CancelledLeft(l.history, id);
  }
}
