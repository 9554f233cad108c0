/** The engine over a whole run: every order ever submitted, the book, and all matches so far. */
module Histories {
  import opened Domain
  import opened Matching
  import opened MatchingTheory
  import opened Sums

  datatype History = History(
    terms: map<string, Terms>,       // every submitted order
    filled: map<string, int>,        // its FilledBase
    rest: Resting,                   // the book
    cancelled: map<string, int>,     // what was left of an order when it was cancelled
    matches: seq<Match>)             // all matches, oldest first

  function Empty(): History {
    History(map[], map[], map[], map[], [])
  }

  function Fresh(t: Terms): OrderValue {
    OrderValue(t, 0, Open)
  }

  /** `FilledBase` of every order after `AddOrder`: the engine's values for the incoming order and the
      resting ones, full for an order that left the book, and unchanged for the others. */
  function FilledAfter(h: History, t: Terms, s: State): map<string, int>
    requires h.filled.Keys == h.terms.Keys
  {
    map id | id in h.terms.Keys + {t.id} ::
      if id == t.id then s.taker.filled
      else if id in s.rest then s.rest[id].filled
      else if id in h.rest then h.terms[id].Base()
      else h.filled[id]
  }

  /** The history once an order has been answered with the matches `ms`. */
  function AfterSubmit(h: History, t: Terms, ms: seq<Match>): History
    requires h.filled.Keys == h.terms.Keys
  {
    var s := ApplyAll(State(h.rest, Fresh(t)), ms);
    History(h.terms[t.id := t], FilledAfter(h, t, s), Settle(s), h.cancelled, h.matches + ms)
  }

  /** `SubmitOrder` hands a new order to the engine, which may answer with the matches `ms`. */
  ghost predicate Submitted(h: History, t: Terms, ms: seq<Match>, h': History) {
    var s0 := State(h.rest, Fresh(t));
    var s := ApplyAll(s0, ms);
    && h.filled.Keys == h.terms.Keys
    && t.id !in h.terms && t.Positive()
    && Added(h.rest, Fresh(t), ms, h'.rest, s.taker)
    && h' == AfterSubmit(h, t, ms)
  }

  /** The status of a submitted order. */
  function StatusOf(h: History, id: string): Status {
    if id in h.rest then h.rest[id].status
    else if id in h.cancelled then Cancelled
    else Filled
  }

  /** `CancelOrder` takes an order out of the book if it is there. */
  function CancelledOffChain(h: History, id: string): History {
    if id !in h.rest then h
    else h.(rest := AfterCancel(h.rest, id), cancelled := h.cancelled[id := h.rest[id].Remaining()])
  }

  /** A match between a submitted buy and a submitted sell whose prices cross. */
  predicate Genuine(terms: map<string, Terms>, m: Match) {
    && m.buy.id in terms && terms[m.buy.id] == m.buy && m.buy.side.Buy?
    && m.sell.id in terms && terms[m.sell.id] == m.sell && m.sell.side.Sell?
    && m.buy.Positive() && m.sell.Positive() && m.fill > 0
    && m.quote == Quote(m.sell, m.fill)
    && m.buy.price >= m.sell.price
  }

  /** Each submitted order is resting, cancelled or filled, and its base is accounted for. */
  ghost predicate Accounted(h: History, id: string) {
    && id in h.terms && id in h.filled
    && h.terms[id].id == id && h.terms[id].Positive()
    && h.filled[id] == FillsOf(h.matches, id)
    && 0 <= h.filled[id] <= h.terms[id].Base()
    && (if id in h.rest then
          id !in h.cancelled && h.rest[id].terms == h.terms[id] && h.rest[id].filled == h.filled[id]
        else
          h.terms[id].Base() == h.filled[id] + if id in h.cancelled then h.cancelled[id] else 0)
  }

  ghost predicate Consistent(h: History) {
    && Book(h.rest) && Uncrossed(h.rest) && AllLabelled(h.rest)
    && (forall id | id in h.cancelled :: h.cancelled[id] > 0)
    && h.filled.Keys == h.terms.Keys && h.rest.Keys <= h.terms.Keys && h.cancelled.Keys <= h.terms.Keys
    && (forall id | id in h.terms :: Accounted(h, id))
    && (forall i :: 0 <= i < |h.matches| ==> Genuine(h.terms, h.matches[i]))
  }

  lemma EmptyIsConsistent()
    ensures Consistent(Empty())
  {
  }

  lemma {:induction false} FillsAdd(a: seq<Match>, b: seq<Match>, id: string)
    ensures FillsOf(a + b, id) == FillsOf(a, id) + FillsOf(b, id)
    decreases |b|
  {
    if b == [] {
      assert a + b == a;
    } else {
      assert (a + b)[..|a + b| - 1] == a + b[..|b| - 1];
      FillsAdd(a, b[..|b| - 1], id);
    }
  }

  lemma {:induction false} NoFills(ms: seq<Match>, terms: map<string, Terms>, id: string)
    requires id !in terms && forall i :: 0 <= i < |ms| ==> Genuine(terms, ms[i])
    ensures FillsOf(ms, id) == 0
  {
    if ms != [] {
      NoFills(ms[..|ms| - 1], terms, id);
    }
  }

  /** The matches of one submission are genuine. */
  lemma {:induction false} RunIsGenuine(h: History, t: Terms, ms: seq<Match>, i: nat)
    requires Consistent(h) && t.id !in h.terms && t.Positive()
    requires CanMatchAll(State(h.rest, Fresh(t)), ms) && i < |ms|
    ensures Genuine(h.terms[t.id := t], ms[i])
    decreases |ms|
  {
    var s0 := State(h.rest, Fresh(t));
    var before := ms[..|ms| - 1];
    if i < |ms| - 1 {
      RunIsGenuine(h, t, before, i);
    } else {
      RunKeepsStart(s0, before);
      var s := ApplyAll(s0, before);
      OneMatch(s, ms[i]);
      assert Accounted(h, MakerOf(s, ms[i]));
    }
  }

  lemma SubmitAccounts(h: History, t: Terms, ms: seq<Match>, h': History, id: string)
    requires Consistent(h) && Submitted(h, t, ms, h') && id in h'.terms
    ensures Accounted(h', id)
  {
    hide FillsOf, CanMatchAll, ApplyAll, Genuine, Done;
    var s0 := State(h.rest, Fresh(t));
    assert id in h.terms ==> Accounted(h, id);
    RunKeepsStart(s0, ms);
    FillsAreExact(s0, ms, id);
    FillsAdd(h.matches, ms, id);
    if id == t.id {
      NoFills(h.matches, h.terms, id);
      TakerEnds(s0, ms);
    }
  }

  /** A matching run ends with the incoming order within its capacity, and resting unless it is full. */
  lemma TakerEnds(s: State, ms: seq<Match>)
    requires Start(s) && CanMatchAll(s, ms) && s.taker.Remaining() > 0 && !s.taker.status.Filled?
    ensures var e := ApplyAll(s, ms); e.taker.Remaining() >= 0 && (e.taker.Remaining() > 0 <==> Rests(e.taker))
  {
  }

  lemma SubmitKeepsGenuine(h: History, t: Terms, ms: seq<Match>, h': History, i: nat)
    requires Consistent(h) && Submitted(h, t, ms, h') && i < |h'.matches|
    ensures Genuine(h'.terms, h'.matches[i])
  {
    if i < |h.matches| {
      assert Genuine(h.terms, h.matches[i]);
    } else {
      RunIsGenuine(h, t, ms, i - |h.matches|);
    }
  }

  lemma SubmitKeepsBook(h: History, t: Terms, ms: seq<Match>, h': History)
    requires Consistent(h) && Submitted(h, t, ms, h')
    ensures Book(h'.rest) && Uncrossed(h'.rest) && h'.rest.Keys <= h'.terms.Keys && h'.cancelled == h.cancelled
  {
    AddKeepsBook(h.rest, Fresh(t), ms, h'.rest, ApplyAll(State(h.rest, Fresh(t)), ms).taker);
  }

  lemma SubmitKeepsLabels(h: History, t: Terms, ms: seq<Match>, h': History)
    requires Consistent(h) && Submitted(h, t, ms, h')
    ensures AllLabelled(h'.rest)
  {
    var s0 := State(h.rest, Fresh(t));
    RunKeepsStart(s0, ms);
    RunKeepsLabels(s0, ms);
  }

  lemma SubmitKeepsConsistent(h: History, t: Terms, ms: seq<Match>, h': History)
    requires Consistent(h) && Submitted(h, t, ms, h')
    ensures Consistent(h')
  {
    hide Book, Uncrossed, AllLabelled, Accounted, Genuine, Added, ApplyAll, CanMatchAll;
    SubmitKeepsBook(h, t, ms, h');
    SubmitKeepsLabels(h, t, ms, h');
    forall id | id in h'.terms
      ensures Accounted(h', id)
    {
      SubmitAccounts(h, t, ms, h', id);
    }
    forall i | 0 <= i < |h'.matches|
      ensures Genuine(h'.terms, h'.matches[i])
    {
      SubmitKeepsGenuine(h, t, ms, h', i);
    }
  }

  lemma SubmitTerms(h: History, t: Terms, ms: seq<Match>, h': History)
    requires Submitted(h, t, ms, h')
    ensures h'.terms == h.terms[t.id := t] && h'.matches == h.matches + ms && t.id !in h.terms
  {
  }

  lemma UnknownHasNoFills(h: History, id: string)
    requires Consistent(h) && id !in h.terms
    ensures FillsOf(h.matches, id) == 0
  {
    NoFills(h.matches, h.terms, id);
  }

  lemma FilledIsFills(h: History, id: string)
    requires Consistent(h) && id in h.terms
    ensures id in h.filled && Get(h.filled, id) == FillsOf(h.matches, id)
  {
  }

  lemma CancelKeepsConsistent(h: History, id: string)
    requires Consistent(h)
    ensures Consistent(CancelledOffChain(h, id))
  {
    hide Genuine, FillsOf;
    var h' := CancelledOffChain(h, id);
    if id in h.rest {
      assert h.rest[id].Live();
    }
    forall j | j in h'.terms
      ensures Accounted(h', j)
    {
      assert Accounted(h, j);
    }
  }

  // ---------------------------------------------------------------- runs

  datatype Operation = SubmitOp(order: Terms, matches: seq<Match>) | CancelOp(id: string)

  ghost predicate Performs(h: History, op: Operation, h': History) {
    match op
    case SubmitOp(t, ms) => Submitted(h, t, ms, h')
    case CancelOp(id) => h' == CancelledOffChain(h, id)
  }

  ghost predicate IsEngineRun(hs: seq<History>, ops: seq<Operation>) {
    && |hs| == |ops| + 1 && hs[0] == Empty()
    && forall i :: 0 <= i < |ops| ==> Performs(hs[i], ops[i], hs[i + 1])
  }

  /** In every run of submissions and cancellations, after every operation: the book holds live orders
      only, is never crossed, and every order's base is accounted for. */
  lemma {:induction false} EveryRunIsConsistent(hs: seq<History>, ops: seq<Operation>, i: nat)
    requires IsEngineRun(hs, ops) && i < |hs|
    ensures Consistent(hs[i])
  {
    if i > 0 {
      EveryRunIsConsistent(hs, ops, i - 1);
      assert Performs(hs[i - 1], ops[i - 1], hs[i - 1 + 1]);
      match ops[i - 1]
      case SubmitOp(t, ms) => SubmitKeepsConsistent(hs[i - 1], t, ms, hs[i]);
      case CancelOp(id) => CancelKeepsConsistent(hs[i - 1], id);
    }
  }

  /** After every operation of every run each order's status says what has become of it: open or partially
      filled as it rests with nothing or something filled, filled when all of it is, and cancelled when the
      rest of it was. */
  lemma StatusIsExact(h: History, id: string)
    requires Consistent(h) && id in h.terms
    ensures StatusOf(h, id).Open? <==> id in h.rest && Get(h.filled, id) == 0
    ensures StatusOf(h, id).PartiallyFilled? <==> id in h.rest && 0 < Get(h.filled, id) < h.terms[id].Base()
    ensures StatusOf(h, id).Filled? <==> Get(h.filled, id) == h.terms[id].Base()
    ensures StatusOf(h, id).Cancelled? <==> id in h.cancelled
  {
    assert Accounted(h, id);
    assert id in h.rest ==> h.rest[id].Live();
  }

  // ---------------------------------------------------------------- conservation of base

  /** What each order of a side has filled. */
  ghost function SideFills(terms: map<string, Terms>, side: Side, ms: seq<Match>): map<string, int> {
    map id | id in terms && terms[id].side == side :: FillsOf(ms, id)
  }

  lemma NothingFilled()
    ensures forall id :: FillsOf([], id) == 0
  {
  }

  lemma {:induction false} SideFillsTotal(terms: map<string, Terms>, side: Side, ms: seq<Match>)
    requires forall id | id in terms :: terms[id].id == id
    requires forall i :: 0 <= i < |ms| ==> Genuine(terms, ms[i])
    ensures Sum(SideFills(terms, side, ms)) == TotalFill(ms)
  {
    hide FillsOf;
    if ms == [] {
      NothingFilled();
      ZeroSum(SideFills(terms, side, ms));
    } else {
      var before, m := ms[..|ms| - 1], ms[|ms| - 1];
      SideFillsTotal(terms, side, before);
      var id := m.Party(side).id;
      assert Genuine(terms, m) && ms == before + [m];
      OneMoreFill(before, m);
      assert SideFills(terms, side, ms) == SideFills(terms, side, before)[id := FillsOf(before, id) + m.fill];
      SumUpdate(SideFills(terms, side, before), id, FillsOf(before, id) + m.fill);
    }
  }

  /** Whatever is bought is sold: over any run, what the buy orders have filled, what the sell orders have
      filled and what the matches report are one amount of base. */
  lemma BaseIsConserved(h: History)
    requires Consistent(h)
    ensures Sum(FilledOn(h, Buy)) == Sum(FilledOn(h, Sell)) == TotalFill(h.matches)
  {
    assert forall id | id in h.terms :: Accounted(h, id);
    SideFillsTotal(h.terms, Buy, h.matches);
    SideFillsTotal(h.terms, Sell, h.matches);
    assert FilledOn(h, Buy) == SideFills(h.terms, Buy, h.matches);
    assert FilledOn(h, Sell) == SideFills(h.terms, Sell, h.matches);
  }

  ghost function FilledOn(h: History, side: Side): map<string, int>
    requires h.filled.Keys == h.terms.Keys
  {
    map id | id in h.terms && h.terms[id].side == side :: h.filled[id]
  }

  ghost function SubmittedOn(h: History, side: Side): map<string, int> {
    map id | id in h.terms && h.terms[id].side == side :: h.terms[id].Base()
  }

  ghost function RestingOn(h: History, side: Side): map<string, int> {
    map id | id in h.rest && h.rest[id].terms.side == side :: h.rest[id].Remaining()
  }

  ghost function CancelledOn(h: History, side: Side): map<string, int> {
    map id | id in h.cancelled && id in h.terms && h.terms[id].side == side :: h.cancelled[id]
  }

  /** On each side, submitted base is filled, still resting, or cancelled. */
  lemma SubmittedIsAccounted(h: History, side: Side)
    requires Consistent(h)
    ensures Sum(SubmittedOn(h, side)) == Sum(FilledOn(h, side)) + Sum(RestingOn(h, side)) + Sum(CancelledOn(h, side))
  {
    forall id | id in SubmittedOn(h, side)
      ensures SubmittedOn(h, side)[id] ==
        Get(FilledOn(h, side), id) + Get(RestingOn(h, side), id) + Get(CancelledOn(h, side), id)
    {
      assert Accounted(h, id);
    }
    forall id | id in h.rest && h.rest[id].terms.side == side
      ensures id in SubmittedOn(h, side)
    {
      assert Accounted(h, id);
    }
    SumOfThree(SubmittedOn(h, side), FilledOn(h, side), RestingOn(h, side), CancelledOn(h, side));
  }
}
