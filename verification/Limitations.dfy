/** Concrete inputs on which the code does less than one might expect, each the other half of a condition
    proved in Settlement or Rows. */
module Limitations {
  import opened Domain
  import opened OrderEncoding
  import opened Matching
  import opened Histories
  import opened Settlement
  import opened Rows
  import Ex = Exchange
  import Th = ExchangeTheory

  // ---------------------------------------------------------------- two orders that meet in an empty book

  /** The match of an incoming buy with a resting sell of the same size. */
  function Meeting(buy: Terms, sell: Terms): Match
    requires sell.Positive()
  {
    Match(buy, sell, buy.Base(), Quote(sell, buy.Base()), sell.price)
  }

  lemma SellRests(h: History, sell: Terms) returns (h': History)
    requires h.rest == map[] && h.filled.Keys == h.terms.Keys && sell.id !in h.terms
    requires sell.side.Sell? && sell.Positive()
    ensures Submitted(h, sell, [], h') && h'.rest == map[sell.id := Fresh(sell)]
    ensures h'.terms == h.terms[sell.id := sell] && h'.filled.Keys == h'.terms.Keys && h'.cancelled == h.cancelled
  {
    h' := AfterSubmit(h, sell, []);
  }

  lemma SingleRun(s: State, m: Match)
    requires CanMatch(s, m)
    ensures CanMatchAll(s, [m]) && ApplyAll(s, [m]) == ApplyMatch(s, m)
  {
  }

  lemma OneFill(buy: Terms, sell: Terms)
    requires buy.side.Buy? && sell.side.Sell? && buy.Positive() && sell.Positive() && buy.id != sell.id
    requires buy.Base() == sell.Base() && buy.price >= sell.price
    ensures var s := State(map[sell.id := Fresh(sell)], Fresh(buy));
      CanMatch(s, Meeting(buy, sell))
      && ApplyMatch(s, Meeting(buy, sell)) == State(map[], OrderValue(buy, buy.Base(), Filled))
  {
  }

  lemma BuyMatches(h: History, buy: Terms, sell: Terms) returns (h': History)
    requires h.rest == map[sell.id := Fresh(sell)] && h.filled.Keys == h.terms.Keys
    requires sell.id in h.terms && h.terms[sell.id] == sell && buy.id !in h.terms
    requires buy.side.Buy? && sell.side.Sell? && buy.Positive() && sell.Positive()
    requires buy.Base() == sell.Base() && buy.price >= sell.price
    ensures Submitted(h, buy, [Meeting(buy, sell)], h') && h'.rest == map[]
    ensures h'.terms == h.terms[buy.id := buy] && h'.filled.Keys == h'.terms.Keys && h'.cancelled == h.cancelled
    ensures h'.filled[sell.id] == sell.Base() && h'.filled[buy.id] == buy.Base()
  {
    hide ApplyMatch, ApplyAll, CanMatchAll, CanMatch, Meeting;
    OneFill(buy, sell);
    SingleRun(State(h.rest, Fresh(buy)), Meeting(buy, sell));
    h' := AfterSubmit(h, buy, [Meeting(buy, sell)]);
  }

  const CONTRACT := Ex.Contract(99, 98)

  function Begun(s: Ex.State): World {
    World(map[], map[], map[], [], [], s)
  }

  function Afterwards(w: World, pair: string, t: Terms, ms: seq<Match>, h': History): World {
    World(w.books[pair := h'], w.orders[t.id := t], w.pairOf[t.id := pair], w.matches + ms, w.jobs + ms, w.chain)
  }

  lemma SubmitStep(w: World, pair: string, t: Terms, ms: seq<Match>, h': History)
    requires Submitted(BookOf(w, pair), t, ms, h') && Representable(t) && t.id !in w.orders
    ensures Steps(CONTRACT, w, Submit(pair, t, ms), Afterwards(w, pair, t, ms, h'))
  {
  }

  const SUPPLY: map<Ex.Account, int> := Ex.Add(Ex.Add(map[], (11, 2), 10), (10, 1), 10)

  /** A fresh contract over ledgers in which the buyer has ten quote and the seller ten base. */
  function Deployment(): Ex.State {
    Ex.State(map[], map[], {}, map[], SUPPLY, [])
  }

  lemma DeploymentIsSolvent()
    ensures Ex.Deployed(Deployment()) && Th.Solvent(CONTRACT, Deployment())
  {
  }

  function Funded(): Ex.State {
    var s1 := Ex.Step(CONTRACT, Deployment(), Ex.DepositCall(11, 2, 10, true));
    Ex.Step(CONTRACT, s1, Ex.DepositCall(10, 1, 10, true))
  }

  lemma FundedBalances()
    ensures Funded().balances == map[(11, 2) := 10, (10, 1) := 10]
    ensures Funded().orderFills == map[] && Funded().orderCancelled == {} && Funded().minNonce == map[]
  {
  }

  // ---------------------------------------------------------------- rounded prices

  /** `d`, a double of 53 significant bits whose last place is worth `ulp`, is nearest to `x`, which is not
      below it. */
  predicate RoundsTo(x: real, d: real, ulp: real) {
    && 4503599627370496.0 * ulp <= d < 9007199254740992.0 * ulp   // 2^52 and 2^53
    && (d / ulp).Floor as real * ulp == d
    && 0.0 <= x - d < ulp / 2.0
  }

  const ULP_AT_1 := 1.0 / 4503599627370496.0   // 2^-52
  const ULP_AT_UNIT := 256.0                   // at 2^60

  const UNIT: nat := 1152921504606846976   // 2^60, a little more than one token of 18 decimals

  /** Two orders of one token each whose prices differ by one unit in 2^60 have the same double as price,
      so the engine matches them; the contract's price guard refuses the fill. */
  lemma RoundedKeysCross() returns (buy: Terms, sell: Terms)
    ensures buy.side.Buy? && sell.side.Sell? && buy.Positive() && sell.Positive()
    ensures RoundsTo(buy.ExactPrice(), buy.price, ULP_AT_1)
    ensures RoundsTo(sell.ExactPrice(), sell.price, ULP_AT_1)
    ensures Crosses(buy, sell) && !ExactlyCross(buy.data, sell.data)
    ensures buy.data == OrderData(11, 2, 1, UNIT, UNIT, 100, 0, 0)
    ensures sell.data == OrderData(10, 1, 2, UNIT, UNIT + 1, 100, 0, 0)
    ensures Representable(buy) && Representable(sell) && buy.id == "b" && sell.id == "s"
    ensures buy.Base() == sell.Base() == UNIT && !PassesGuard(buy.data, sell.data, UNIT)
  {
    buy := Terms("b", Buy, OrderData(11, 2, 1, UNIT, UNIT, 100, 0, 0), 1.0, 1);
    sell := Terms("s", Sell, OrderData(10, 1, 2, UNIT, UNIT + 1, 100, 0, 0), 1.0, 0);
  }

  /** A run that ends with such a job at the head of the queue, which the contract refuses for its price. */
  lemma RoundedKeysRun(pair: string) returns (ws: seq<World>, actions: seq<Action>, buy: Terms, sell: Terms)
    ensures IsRun(CONTRACT, ws, actions) && buy.Positive() && sell.Positive()
    ensures RoundsTo(buy.ExactPrice(), buy.price, ULP_AT_1)
    ensures RoundsTo(sell.ExactPrice(), sell.price, ULP_AT_1)
    ensures var last := ws[|ws| - 1];
      && last.jobs == [Meeting(buy, sell)] && Unique(last, buy.id) && Unique(last, sell.id)
      && Ex.Execute(CONTRACT, last.chain, JobCall(CONTRACT, last.jobs[0], true, true, 50))
         == Ex.Revert(Ex.PriceIncompatible)
  {
    hide Submitted, Steps, RoundsTo, Ex.Deployed, Th.Solvent, Deployment, Ex.Execute, Meeting, Ex.QuotesDefined;
    buy, sell := RoundedKeysCross();
    DeploymentIsSolvent();
    var w0 := Begun(Deployment());
    var h1 := SellRests(Empty(), sell);
    var w1 := Afterwards(w0, pair, sell, [], h1);
    SubmitStep(w0, pair, sell, [], h1);
    var h2 := BuyMatches(h1, buy, sell);
    var w2 := Afterwards(w1, pair, buy, [Meeting(buy, sell)], h2);
    SubmitStep(w1, pair, buy, [Meeting(buy, sell)], h2);
    RefusedForPrice(buy, sell);
    ws, actions := [w0, w1, w2], [Submit(pair, sell, []), Submit(pair, buy, [Meeting(buy, sell)])];
  }

  /** The invariant has instances with jobs in flight: such a run ends in one. */
  lemma SoundWithJob(pair: string) returns (k: Ex.Contract, w: World)
    ensures Sound(k, w) && |w.jobs| == 1
  {
    hide Sound, Steps, Initial, Meeting, RoundsTo, Ex.Execute, Unique;
    var ws, actions, buy, sell := RoundedKeysRun(pair);
    EveryRunIsSound(CONTRACT, ws, actions, |ws| - 1);
    k, w := CONTRACT, ws[|ws| - 1];
  }

  lemma RefusedForPrice(buy: Terms, sell: Terms)
    requires buy.Positive() && sell.Positive() && buy.Base() == sell.Base() == UNIT
    requires buy.data == OrderData(11, 2, 1, UNIT, UNIT, 100, 0, 0)
    requires sell.data == OrderData(10, 1, 2, UNIT, UNIT + 1, 100, 0, 0)
    ensures Ex.Execute(CONTRACT, Deployment(), JobCall(CONTRACT, Meeting(buy, sell), true, true, 50))
         == Ex.Revert(Ex.PriceIncompatible)
  {
    hide OrderHash;
  }

  /** Two orders with the same double as price that do not cross without rounding, but whose gap is less
      than a unit of quote over every fill both can take: the price guard passes them all. */
  lemma NarrowGapPasses() returns (buy: Terms, sell: Terms)
    ensures buy.side.Buy? && sell.side.Sell? && Representable(buy) && Representable(sell)
    ensures RoundsTo(buy.ExactPrice(), buy.price, ULP_AT_UNIT) && RoundsTo(sell.ExactPrice(), sell.price, ULP_AT_UNIT)
    ensures Crosses(buy, sell) && !ExactlyCross(buy.data, sell.data)
    ensures forall fill: nat :: fill <= buy.Base() && fill <= sell.Base() ==> PassesGuard(buy.data, sell.data, fill)
  {
    buy := Terms("b", Buy, OrderData(11, 2, 1, UNIT, 1, 100, 0, 0), UNIT as real, 1);
    sell := Terms("s", Sell, OrderData(10, 1, 2, 2, 2 * UNIT + 1, 100, 0, 0), UNIT as real, 0);
  }

  // ---------------------------------------------------------------- one signed order, submitted twice

  const BUY := OrderData(11, 2, 1, 10, 10, 100, 0, 0)
  const FIRST := Terms("a", Buy, BUY, 1.0, 1)
  const SECOND := Terms("b", Buy, BUY, 1.0, 2)
  const SELL := Terms("s", Sell, OrderData(10, 1, 2, 10, 10, 100, 0, 0), 1.0, 0)
  const OTHER_SELL := Terms("t", Sell, OrderData(10, 1, 2, 10, 10, 100, 0, 1), 1.0, 0)

  lemma DifferentHashes()
    ensures OrderHash(BUY) != OrderHash(SELL.data) && OrderHash(BUY) != OrderHash(OTHER_SELL.data)
      && OrderHash(SELL.data) != OrderHash(OTHER_SELL.data)
  {
    if OrderHash(BUY) == OrderHash(SELL.data) {
      HashIsInjective(BUY, SELL.data);
    }
    if OrderHash(BUY) == OrderHash(OTHER_SELL.data) {
      HashIsInjective(BUY, OTHER_SELL.data);
    }
    if OrderHash(SELL.data) == OrderHash(OTHER_SELL.data) {
      HashIsInjective(SELL.data, OTHER_SELL.data);
    }
  }

  function Job(buy: Terms, sell: Terms): Ex.Call
    requires sell.Positive()
  {
    JobCall(CONTRACT, Meeting(buy, sell), true, true, 50)
  }

  lemma FirstJobSettles()
    ensures Ex.Execute(CONTRACT, Funded(), Job(FIRST, SELL)).Success?
    ensures var s := Ex.Step(CONTRACT, Funded(), Job(FIRST, SELL));
      s.orderCancelled == {} && s.minNonce == map[] && OrderHash(BUY) in s.orderFills
      && s.orderFills[OrderHash(BUY)] == 10 && OrderHash(OTHER_SELL.data) !in s.orderFills
  {
    hide OrderHash, Funded;
    FundedBalances();
    DifferentHashes();
  }

  lemma OverfillIsRefused(s: Ex.State)
    requires s.orderCancelled == {} && s.minNonce == map[] && OrderHash(BUY) in s.orderFills
    requires s.orderFills[OrderHash(BUY)] == 10 && OrderHash(OTHER_SELL.data) !in s.orderFills
    ensures Ex.Execute(CONTRACT, s, Job(SECOND, OTHER_SELL)) == Ex.Revert(Ex.BuyOverfill)
  {
    hide OrderHash;
  }

  /** The first of the two jobs settles, and then the second one overfills. */
  lemma SecondJobOverfills()
    ensures Ex.Execute(CONTRACT, Funded(), Job(FIRST, SELL)).Success?
    ensures Ex.Execute(CONTRACT, Ex.Step(CONTRACT, Funded(), Job(FIRST, SELL)), Job(SECOND, OTHER_SELL))
         == Ex.Revert(Ex.BuyOverfill)
  {
    hide OrderHash, Funded, Ex.Execute, Ex.Step, Job;
    FirstJobSettles();
    OverfillIsRefused(Ex.Step(CONTRACT, Funded(), Job(FIRST, SELL)));
  }

  /** A run in which one signed order is submitted twice, under any two pair names or twice under one; both
      submissions are matched in full, and the second job is refused for overfilling. */
  lemma SubmittedTwice(p: string, q: string) returns (ws: seq<World>, actions: seq<Action>)
    ensures IsRun(CONTRACT, ws, actions)
    ensures var last := ws[|ws| - 1];
      && last.pairOf == map[SELL.id := p, FIRST.id := p, OTHER_SELL.id := q, SECOND.id := q]
      && last.jobs == [Meeting(SECOND, OTHER_SELL)]
      && Ex.Execute(CONTRACT, last.chain, Job(SECOND, OTHER_SELL)) == Ex.Revert(Ex.BuyOverfill)
  {
    hide Submitted, Ex.Deployed, Th.Solvent, Deployment, Ex.Execute, Meeting, Ex.Step, Steps, Funded;
    DeploymentIsSolvent();
    SecondJobOverfills();
    var m1, m2 := Meeting(FIRST, SELL), Meeting(SECOND, OTHER_SELL);
    var w0 := Begun(Deployment());
    var h1 := SellRests(BookOf(w0, p), SELL);
    var w1 := Afterwards(w0, p, SELL, [], h1);
    SubmitStep(w0, p, SELL, [], h1);
    var h2 := BuyMatches(h1, FIRST, SELL);
    var w2 := Afterwards(w1, p, FIRST, [m1], h2);
    SubmitStep(w1, p, FIRST, [m1], h2);
    var h3 := SellRests(BookOf(w2, q), OTHER_SELL);
    var w3 := Afterwards(w2, q, OTHER_SELL, [], h3);
    SubmitStep(w2, q, OTHER_SELL, [], h3);
    var h4 := BuyMatches(h3, SECOND, OTHER_SELL);
    var w4 := Afterwards(w3, q, SECOND, [m2], h4);
    SubmitStep(w3, q, SECOND, [m2], h4);
    var w5, w6, w7 := Delivered(w4, m1, m2);
    actions := [Submit(p, SELL, []), Submit(p, FIRST, [m1]), Submit(q, OTHER_SELL, []), Submit(q, SECOND, [m2]),
      Transact(Ex.DepositCall(11, 2, 10, true)), Transact(Ex.DepositCall(10, 1, 10, true)),
      SettleOk(0, true, true, 50)];
    ws := [w0, w1, w2, w3, w4, w5, w6, w7];
  }

  /** The vault is funded, and the first of the two jobs is delivered. */
  lemma Delivered(w: World, m1: Match, m2: Match) returns (w1: World, w2: World, w3: World)
    requires w.jobs == [m1, m2] && w.chain == Deployment() && m1 == Meeting(FIRST, SELL)
    ensures Steps(CONTRACT, w, Transact(Ex.DepositCall(11, 2, 10, true)), w1)
    ensures Steps(CONTRACT, w1, Transact(Ex.DepositCall(10, 1, 10, true)), w2)
    ensures Steps(CONTRACT, w2, SettleOk(0, true, true, 50), w3)
    ensures w3 == w.(jobs := [m2], chain := Ex.Step(CONTRACT, Funded(), Job(FIRST, SELL)))
  {
    hide Ex.Execute, Ex.Step, Deployment, Meeting;
    SecondJobOverfills();
    w1 := w.(chain := Ex.Step(CONTRACT, w.chain, Ex.DepositCall(11, 2, 10, true)));
    w2 := w1.(chain := Ex.Step(CONTRACT, w1.chain, Ex.DepositCall(10, 1, 10, true)));
    w3 := w2.(jobs := Without(w2.jobs, 0), chain := Ex.Step(CONTRACT, w2.chain, Job(FIRST, SELL)));
  }

  // ---------------------------------------------------------------- a filled order, cancelled

  /** A run in which a resting order is filled, its row says so, and a cancellation then marks the row
      cancelled, while the engine's order stays filled. */
  lemma FilledThenCancelled() returns (ls: seq<Ledger>, ops: seq<ServiceOp>)
    ensures IsServiceRun(ls, ops) && |ops| == 3 && ops[2] == Cancellation(SELL.id, true)
    ensures SELL.id in ls[2].rows && SELL.id in ls[3].rows
    ensures ls[2].rows[SELL.id] == Row(Filled, SELL.Base()) == RowIn(ls[2].history, SELL.id)
    ensures ls[3].rows[SELL.id] == Row(Cancelled, SELL.Base())
    ensures RowIn(ls[3].history, SELL.id) == Row(Filled, SELL.Base())
  {
    hide Submitted;
    var m, both := Meeting(FIRST, SELL), {SELL.id, FIRST.id};
    var h1 := SellRests(Empty(), SELL);
    var h2 := BuyMatches(h1, FIRST, SELL);
    var l0 := Ledger(Empty(), map[]);
    var l1 := Ledger(h1, RowsAfter(l0.rows, SELL, h1, {}));
    var l2 := Ledger(h2, RowsAfter(l1.rows, FIRST, h2, both));
    var l3 := Ledger(h2, l2.rows[SELL.id := Row(Cancelled, l2.rows[SELL.id].filled)]);
    assert Touches([m], SELL.id) && Touches([m], FIRST.id) by {
      assert MatchingTheory.Involves([m][0], SELL.id) && MatchingTheory.Involves([m][0], FIRST.id);
    }
    ls := [l0, l1, l2, l3];
    ops := [Submission(SELL, [], {}), Submission(FIRST, [m], both), Cancellation(SELL.id, true)];
  }
}
