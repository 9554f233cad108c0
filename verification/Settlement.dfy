/** From match to settlement (backend/internal/service/order_service.go, backend/internal/blockchain/settlement.go):
    matches leave the engine, wait as jobs, and are applied to the contract or lost, while users go on
    submitting, cancelling and transacting. */
module Settlement {
  import opened Domain
  import opened OrderEncoding
  import opened Matching
  import opened MatchingTheory
  import opened Histories
  import opened Sums
  import Ex = Exchange
  import Th = ExchangeTheory

  /** The whole service: one engine book per pair name, and one queue of jobs and one contract for all. */
  datatype World = World(
    books: map<string, History>,     // the run of the engine on each pair
    orders: map<string, Terms>,      // every order submitted, under whatever pair
    pairOf: map<string, string>,     // the pair name it was submitted under
    matches: seq<Match>,             // all matches on all pairs, oldest first
    jobs: seq<Match>,                // queued, or sent and not yet mined or given up
    chain: Ex.State)

  datatype Action =
    | Submit(pair: string, order: Terms, matches: seq<Match>)
    | CancelOffChain(pair: string, id: string)
    | SettleOk(job: nat, buySigned: bool, sellSigned: bool, now: nat)
    | Drop(job: nat)                 // the trade was not stored, or its transaction failed or was lost
    | Transact(call: Ex.Call)        // anybody's transaction but the settlement key's

  /** What `settle` sends for a match: the signed fields of both orders and the fill (`tuplifyOrder`). */
  function JobCall(k: Ex.Contract, m: Match, buySigned: bool, sellSigned: bool, now: nat): Ex.Call
    requires m.fill >= 0
  {
    Ex.SettleCall(k.owner, m.buy.data, buySigned, m.sell.data, sellSigned, m.fill, now)
  }

  /** The hypothesis on submitted orders: positive amounts, and field values the contract's types can hold.
      The service checks neither, nor that side, tokens and pair name agree, which is not assumed here. */
  predicate Representable(t: Terms) {
    InRange(t.data) && t.Positive()
  }

  /** `GetOrCreateOrderBook` */
  function BookOf(w: World, pair: string): History {
    if pair in w.books then w.books[pair] else Empty()
  }

  function Without(jobs: seq<Match>, i: nat): seq<Match>
    requires i < |jobs|
  {
    jobs[..i] + jobs[i + 1..]
  }

  /** A transaction of anyone who does not hold the settlement key. */
  predicate ByOthers(k: Ex.Contract, c: Ex.Call) {
    Ex.Possible(k, c) && (c.SettleCall? ==> c.sender != k.owner)
  }

  ghost predicate Steps(k: Ex.Contract, w: World, a: Action, w': World) {
    match a
    case Submit(pair, t, ms) =>
      Representable(t) && t.id !in w.orders &&
      Submitted(BookOf(w, pair), t, ms, BookOf(w', pair)) &&
      w' == World(w.books[pair := BookOf(w', pair)], w.orders[t.id := t], w.pairOf[t.id := pair],
                  w.matches + ms, w.jobs + ms, w.chain)
    case CancelOffChain(pair, id) =>
      w' == w.(books := w.books[pair := CancelledOffChain(BookOf(w, pair), id)])
    case SettleOk(i, buySigned, sellSigned, now) =>
      i < |w.jobs| && w.jobs[i].fill >= 0 &&
      var c := JobCall(k, w.jobs[i], buySigned, sellSigned, now);
      Ex.Execute(k, w.chain, c).Success? &&
      w' == w.(jobs := Without(w.jobs, i), chain := Ex.Step(k, w.chain, c))
    case Drop(i) =>
      i < |w.jobs| && w' == w.(jobs := Without(w.jobs, i))
    case Transact(c) =>
      ByOthers(k, c) && w' == w.(chain := Ex.Step(k, w.chain, c))
  }

  ghost predicate Initial(k: Ex.Contract, w: World) {
    && w.books == map[] && w.orders == map[] && w.pairOf == map[] && w.matches == [] && w.jobs == []
    && Ex.Deployed(w.chain) && Th.Solvent(k, w.chain)
  }

  ghost predicate IsRun(k: Ex.Contract, ws: seq<World>, actions: seq<Action>) {
    && |ws| == |actions| + 1 && Initial(k, ws[0])
    && forall i :: 0 <= i < |actions| ==> Steps(k, ws[i], actions[i], ws[i + 1])
  }

  /** Consecutive steps of the protocol from one world to another. */
  ghost predicate Leads(k: Ex.Contract, ws: seq<World>, actions: seq<Action>, w: World, w': World) {
    && |ws| == |actions| + 1 && ws[0] == w && ws[|actions|] == w'
    && forall i :: 0 <= i < |actions| ==> Steps(k, ws[i], actions[i], ws[i + 1])
  }

  lemma OneMore(k: Ex.Contract, ws: seq<World>, actions: seq<Action>, w: World, w': World, a: Action, w'': World)
    requires Leads(k, ws, actions, w, w') && Steps(k, w', a, w'')
    ensures Leads(k, ws + [w''], actions + [a], w, w'')
  {
    hide Steps;
    var ws', actions' := ws + [w''], actions + [a];
    forall i | 0 <= i < |actions'|
      ensures Steps(k, ws'[i], actions'[i], ws'[i + 1])
    {
      assert i < |actions| ==> Steps(k, ws[i], actions[i], ws[i + 1]);
    }
  }

  // ---------------------------------------------------------------- fills by order hash

  function FillUnder(m: Match, h: Hash): int {
    (if OrderHash(m.buy.data) == h then m.fill else 0) + (if OrderHash(m.sell.data) == h then m.fill else 0)
  }

  /** Base matched under an order hash. */
  function MatchedUnder(ms: seq<Match>, h: Hash): int {
    if ms == [] then 0 else MatchedUnder(ms[..|ms| - 1], h) + FillUnder(ms[|ms| - 1], h)
  }

  lemma {:induction false} MatchedAdds(a: seq<Match>, b: seq<Match>, h: Hash)
    ensures MatchedUnder(a + b, h) == MatchedUnder(a, h) + MatchedUnder(b, h)
    decreases |b|
  {
    if b == [] {
      assert a + b == a;
    } else {
      assert (a + b)[..|a + b| - 1] == a + b[..|b| - 1];
      MatchedAdds(a, b[..|b| - 1], h);
    }
  }

  lemma MatchedWithout(jobs: seq<Match>, i: nat, h: Hash)
    requires i < |jobs|
    ensures MatchedUnder(Without(jobs, i), h) == MatchedUnder(jobs, h) - FillUnder(jobs[i], h)
  {
    assert jobs == jobs[..i] + ([jobs[i]] + jobs[i + 1..]);
    MatchedAdds(jobs[..i], [jobs[i]] + jobs[i + 1..], h);
    MatchedAdds([jobs[i]], jobs[i + 1..], h);
    MatchedAdds(jobs[..i], jobs[i + 1..], h);
    assert [jobs[i]][..0] == [];
  }

  lemma {:induction false} MatchedBounds(ms: seq<Match>, h: Hash, i: nat)
    requires forall j :: 0 <= j < |ms| ==> ms[j].fill >= 0
    ensures MatchedUnder(ms, h) >= 0
    ensures i < |ms| ==> FillUnder(ms[i], h) <= MatchedUnder(ms, h)
  {
    if ms != [] {
      MatchedBounds(ms[..|ms| - 1], h, i);
    }
  }

  // ---------------------------------------------------------------- the invariant

  /** What the engine matched under a hash and is neither on chain nor in flight. */
  function Slack(w: World, h: Hash): int {
    MatchedUnder(w.matches, h) - MatchedUnder(w.jobs, h) - Get(w.chain.orderFills, h)
  }

  /** On chain plus in flight never exceeds what the engine has matched. */
  ghost predicate Covered(w: World) {
    forall h: Hash :: Slack(w, h) >= 0
  }

  /** The engine's `FilledBase` of an order. */
  function FilledBase(w: World, id: string): int {
    if id in w.pairOf then Get(BookOf(w, w.pairOf[id]).filled, id) else 0
  }

  /** An order is in the history of the pair it was submitted under, filled by what was matched for it. */
  ghost predicate Placed(w: World, id: string)
    requires id in w.orders && id in w.pairOf
  {
    var h := BookOf(w, w.pairOf[id]);
    && w.orders[id].id == id && Representable(w.orders[id])
    && id in h.terms && h.terms[id] == w.orders[id]
    && Get(h.filled, id) == FillsOf(w.matches, id)
  }

  /** Every pair's engine is consistent, and no order is in two of them. */
  ghost predicate Booked(w: World) {
    && w.pairOf.Keys == w.orders.Keys
    && (forall p | p in w.books :: Consistent(w.books[p]))
    && (forall id | id in w.orders :: Placed(w, id))
    && (forall p, id | p in w.books && id in w.books[p].terms :: id in w.orders && w.pairOf[id] == p)
  }

  ghost predicate AllGenuine(orders: map<string, Terms>, ms: seq<Match>) {
    forall i :: 0 <= i < |ms| ==> Genuine(orders, ms[i])
  }

  /** No order buys or sells more on chain than it offers. */
  ghost predicate Limited(s: Ex.State) {
    forall o: OrderData | InRange(o) :: Th.WithinLimits(s, o)
  }

  ghost predicate Sound(k: Ex.Contract, w: World) {
    && Booked(w) && AllGenuine(w.orders, w.matches) && AllGenuine(w.orders, w.jobs)
    && Th.Solvent(k, w.chain) && Limited(w.chain)
    && Covered(w)
  }

  // ---------------------------------------------------------------- each step keeps the invariant

  lemma BookIsConsistent(w: World, pair: string)
    requires Booked(w)
    ensures Consistent(BookOf(w, pair))
    ensures forall id | id in BookOf(w, pair).terms :: id in w.orders && w.pairOf[id] == pair
    ensures forall id | id in BookOf(w, pair).terms :: BookOf(w, pair).terms[id] == w.orders[id]
  {
    hide Consistent, Representable;
    EmptyIsConsistent();
    forall id | id in BookOf(w, pair).terms
      ensures id in w.orders && w.pairOf[id] == pair && BookOf(w, pair).terms[id] == w.orders[id]
    {
      assert Placed(w, id);
    }
  }

  /** The matches of one pair's submission are genuine, and fill no order of another pair. */
  lemma SubmitIsGenuine(k: Ex.Contract, w: World, pair: string, t: Terms, ms: seq<Match>, w': World)
    requires Booked(w) && Steps(k, w, Submit(pair, t, ms), w')
    ensures Consistent(BookOf(w', pair)) && BookOf(w', pair).terms == BookOf(w, pair).terms[t.id := t]
    ensures BookOf(w', pair).matches == BookOf(w, pair).matches + ms
    ensures AllGenuine(BookOf(w', pair).terms, ms) && AllGenuine(w'.orders, ms)
  {
    hide Consistent, Genuine, Submitted, Representable;
    BookIsConsistent(w, pair);
    var h, h' := BookOf(w, pair), BookOf(w', pair);
    SubmitKeepsConsistent(h, t, ms, h');
    SubmitTerms(h, t, ms, h');
    forall i | 0 <= i < |ms|
      ensures Genuine(h'.terms, ms[i]) && Genuine(w'.orders, ms[i])
    {
      assert h'.matches[|h.matches| + i] == ms[i];
      SubmitKeepsGenuine(h, t, ms, h', |h.matches| + i);
      StillGenuine(h'.terms, w'.orders, ms[i]);
    }
  }

  lemma StillGenuine(terms: map<string, Terms>, orders: map<string, Terms>, m: Match)
    requires Genuine(terms, m) && forall id | id in terms :: id in orders && orders[id] == terms[id]
    ensures Genuine(orders, m)
  {
  }

  lemma SubmitPlacesNew(k: Ex.Contract, w: World, pair: string, t: Terms, ms: seq<Match>, w': World)
    requires Booked(w) && AllGenuine(w.orders, w.matches) && Steps(k, w, Submit(pair, t, ms), w')
    ensures t.id in w'.pairOf && Placed(w', t.id)
  {
    hide Consistent, Genuine, Submitted, Representable, FillsOf;
    var h, h' := BookOf(w, pair), BookOf(w', pair);
    SubmitIsGenuine(k, w, pair, t, ms, w');
    BookIsConsistent(w, pair);
    UnknownHasNoFills(h, t.id);
    NoFills(w.matches, w.orders, t.id);
    FillsAdd(w.matches, ms, t.id);
    FillsAdd(h.matches, ms, t.id);
    hide Booked, AllGenuine;
    FilledIsFills(h', t.id);
  }

  lemma SubmitPlacesOld(k: Ex.Contract, w: World, pair: string, t: Terms, ms: seq<Match>, w': World, id: string)
    requires Booked(w) && Steps(k, w, Submit(pair, t, ms), w') && id in w.orders
    ensures id in w'.orders && id in w'.pairOf && Placed(w', id)
  {
    hide Consistent, Genuine, Submitted, Representable, FillsOf;
    var h, h' := BookOf(w, pair), BookOf(w', pair);
    SubmitIsGenuine(k, w, pair, t, ms, w');
    BookIsConsistent(w, pair);
    FillsAdd(w.matches, ms, id);
    assert Placed(w, id);
    if w.pairOf[id] == pair {
      FilledIsFills(h, id);
      FilledIsFills(h', id);
      FillsAdd(h.matches, ms, id);
    } else {
      NoFills(ms, h'.terms, id);
    }
  }

  lemma SubmitKeepsBooked(k: Ex.Contract, w: World, pair: string, t: Terms, ms: seq<Match>, w': World)
    requires Booked(w) && AllGenuine(w.orders, w.matches) && Steps(k, w, Submit(pair, t, ms), w')
    ensures Booked(w')
  {
    hide Consistent, Genuine, Submitted, Placed, AllGenuine;
    SubmitIsGenuine(k, w, pair, t, ms, w');
    BookIsConsistent(w, pair);
    forall id | id in w'.orders
      ensures Placed(w', id)
    {
      if id == t.id {
        SubmitPlacesNew(k, w, pair, t, ms, w');
      } else {
        SubmitPlacesOld(k, w, pair, t, ms, w', id);
      }
    }
  }

  lemma CancelPlaces(k: Ex.Contract, w: World, pair: string, id: string, w': World, j: string)
    requires Steps(k, w, CancelOffChain(pair, id), w') && j in w.orders && j in w.pairOf && Placed(w, j)
    ensures Placed(w', j)
  {
    hide Representable, FillsOf, CancelledOffChain;
    CancelTerms(BookOf(w, pair), id);
  }

  lemma CancelKeepsBooked(k: Ex.Contract, w: World, pair: string, id: string, w': World)
    requires Booked(w) && Steps(k, w, CancelOffChain(pair, id), w')
    ensures Booked(w')
  {
    hide Consistent, Placed, CancelledOffChain;
    BookIsConsistent(w, pair);
    CancelKeepsConsistent(BookOf(w, pair), id);
    CancelTerms(BookOf(w, pair), id);
    forall j | j in w'.orders
      ensures Placed(w', j)
    {
      CancelPlaces(k, w, pair, id, w', j);
    }
  }

  lemma CancelTerms(h: History, id: string)
    ensures var h' := CancelledOffChain(h, id); h'.terms == h.terms && h'.filled == h.filled
  {
  }

  lemma SubmitKeepsSlack(w: World, ms: seq<Match>, w': World, h: Hash)
    requires w'.chain == w.chain && w'.jobs == w.jobs + ms && w'.matches == w.matches + ms
    ensures Slack(w', h) == Slack(w, h)
  {
    hide MatchedUnder;
    MatchedAdds(w.jobs, ms, h);
    MatchedAdds(w.matches, ms, h);
  }

  /** A delivered job moves its fill from in flight to on chain. */
  lemma SettleKeepsSlack(k: Ex.Contract, w: World, a: Action, w': World, h: Hash)
    requires a.SettleOk? && Steps(k, w, a, w')
    ensures Slack(w', h) == Slack(w, h)
  {
    hide MatchedUnder, Ex.Execute, Ex.Step, OrderHash, Without;
    Th.SettleFacts(k, w.chain, JobCall(k, w.jobs[a.job], a.buySigned, a.sellSigned, a.now), h);
    MatchedWithout(w.jobs, a.job, h);
  }

  /** A lost job's fill is missing from then on. */
  lemma DropAddsSlack(w: World, i: nat, w': World, h: Hash)
    requires i < |w.jobs| && w' == w.(jobs := Without(w.jobs, i))
    ensures Slack(w', h) == Slack(w, h) + FillUnder(w.jobs[i], h)
  {
    hide MatchedUnder, OrderHash, Without;
    MatchedWithout(w.jobs, i, h);
  }

  /** Nobody but the settlement key changes a fill. */
  lemma OthersKeepFills(k: Ex.Contract, s: Ex.State, c: Ex.Call)
    requires ByOthers(k, c)
    ensures Ex.Step(k, s, c).orderFills == s.orderFills
  {
  }

  function LostBy(w: World, a: Action, h: Hash): int {
    if a.Drop? && a.job < |w.jobs| then FillUnder(w.jobs[a.job], h) else 0
  }

  lemma StepSlack(k: Ex.Contract, w: World, a: Action, w': World, h: Hash)
    requires Steps(k, w, a, w')
    ensures Slack(w', h) == Slack(w, h) + LostBy(w, a, h)
  {
    hide MatchedUnder, Submitted, Ex.Execute, Ex.Step;
    match a
    case Submit(pair, t, ms) => SubmitKeepsSlack(w, ms, w', h);
    case CancelOffChain(pair, id) =>
    case SettleOk(_, _, _, _) => SettleKeepsSlack(k, w, a, w', h);
    case Drop(i) => DropAddsSlack(w, i, w', h);
    case Transact(c) => OthersKeepFills(k, w.chain, c);
  }

  lemma LossIsPositive(w: World, a: Action, h: Hash)
    requires AllGenuine(w.orders, w.jobs)
    ensures LostBy(w, a, h) >= 0
  {
  }

  lemma StepKeepsCovered(k: Ex.Contract, w: World, a: Action, w': World)
    requires Covered(w) && AllGenuine(w.orders, w.jobs) && Steps(k, w, a, w')
    ensures Covered(w')
  {
    hide Slack, Steps, LostBy, AllGenuine;
    forall h: Hash
      ensures Slack(w', h) >= 0
    {
      StepSlack(k, w, a, w', h);
      LossIsPositive(w, a, h);
    }
  }

  lemma GenuineJoin(orders: map<string, Terms>, a: seq<Match>, b: seq<Match>)
    requires AllGenuine(orders, a) && AllGenuine(orders, b)
    ensures AllGenuine(orders, a + b)
  {
  }

  lemma GenuineGrows(orders: map<string, Terms>, t: Terms, ms: seq<Match>)
    requires AllGenuine(orders, ms) && t.id !in orders
    ensures AllGenuine(orders[t.id := t], ms)
  {
  }

  lemma GenuineWithout(orders: map<string, Terms>, jobs: seq<Match>, i: nat)
    requires AllGenuine(orders, jobs) && i < |jobs|
    ensures AllGenuine(orders, Without(jobs, i))
  {
  }

  lemma StepKeepsOrders(k: Ex.Contract, w: World, a: Action, w': World)
    requires Booked(w) && AllGenuine(w.orders, w.matches) && AllGenuine(w.orders, w.jobs) && Steps(k, w, a, w')
    ensures Booked(w') && AllGenuine(w'.orders, w'.matches) && AllGenuine(w'.orders, w'.jobs)
  {
    hide AllGenuine, Submitted, Consistent, Placed, Without, Ex.Execute, Ex.Step;
    match a
    case Submit(pair, t, ms) =>
      SubmitKeepsBooked(k, w, pair, t, ms, w');
      SubmitIsGenuine(k, w, pair, t, ms, w');
      GenuineGrows(w.orders, t, w.matches);
      GenuineGrows(w.orders, t, w.jobs);
      GenuineJoin(w'.orders, w.matches, ms);
      GenuineJoin(w'.orders, w.jobs, ms);
    case CancelOffChain(pair, id) => CancelKeepsBooked(k, w, pair, id, w');
    case SettleOk(i, _, _, _) =>
      GenuineWithout(w.orders, w.jobs, i);
      SameOrders(w, w');
    case Drop(i) =>
      GenuineWithout(w.orders, w.jobs, i);
      SameOrders(w, w');
    case Transact(c) => SameOrders(w, w');
  }

  lemma SameOrders(w: World, w': World)
    requires Booked(w) && w' == w.(jobs := w'.jobs, chain := w'.chain)
    ensures Booked(w')
  {
    hide Consistent, Representable;
    forall id | id in w'.orders
      ensures Placed(w', id)
    {
      assert Placed(w, id);
    }
  }

  /** A job carries two different orders the contract can represent. */
  lemma JobIsPossible(k: Ex.Contract, w: World, i: nat, c: Ex.Call)
    requires Booked(w) && AllGenuine(w.orders, w.jobs) && i < |w.jobs|
    requires c.SettleCall? && c.buy == w.jobs[i].buy.data && c.sell == w.jobs[i].sell.data
    ensures Ex.Possible(k, c) && w.jobs[i].buy.id != w.jobs[i].sell.id
  {
    hide Consistent;
    var j := w.jobs[i];
    assert Genuine(w.orders, j);
    assert Placed(w, j.buy.id) && Placed(w, j.sell.id);
  }

  lemma StepKeepsChain(k: Ex.Contract, w: World, a: Action, w': World)
    requires Booked(w) && AllGenuine(w.orders, w.jobs) && Steps(k, w, a, w')
    requires Th.Solvent(k, w.chain) && Limited(w.chain)
    ensures Th.Solvent(k, w'.chain) && Limited(w'.chain)
  {
    hide Booked, Th.Solvent, Limited, Ex.Execute, Ex.Step, Submitted, AllGenuine, Ex.Possible;
    if a.SettleOk? {
      var c := JobCall(k, w.jobs[a.job], a.buySigned, a.sellSigned, a.now);
      JobIsPossible(k, w, a.job, c);
      Th.StepKeepsSolvent(k, w.chain, c);
      StepKeepsLimited(k, w.chain, c);
    } else if a.Transact? {
      Th.StepKeepsSolvent(k, w.chain, a.call);
      StepKeepsLimited(k, w.chain, a.call);
    }
  }

  lemma StepKeepsLimited(k: Ex.Contract, s: Ex.State, c: Ex.Call)
    requires Limited(s) && Ex.Possible(k, c)
    ensures Limited(Ex.Step(k, s, c))
  {
    hide Th.WithinLimits, Ex.Step, Ex.Possible, InRange;
    forall o: OrderData | InRange(o)
      ensures Th.WithinLimits(Ex.Step(k, s, c), o)
    {
      Th.StepKeepsLimits(k, s, c, o);
    }
  }

  lemma StepKeepsSound(k: Ex.Contract, w: World, a: Action, w': World)
    requires Sound(k, w) && Steps(k, w, a, w')
    ensures Sound(k, w')
  {
    hide Steps, Booked, AllGenuine, Th.Solvent, Limited, Covered;
    StepKeepsOrders(k, w, a, w');
    StepKeepsChain(k, w, a, w');
    StepKeepsCovered(k, w, a, w');
  }

  lemma InitialIsSound(k: Ex.Contract, w: World)
    requires Initial(k, w)
    ensures Sound(k, w) && forall h: Hash :: Slack(w, h) == 0
  {
  }

  /** The invariant over every run, whatever is submitted on whatever pair, cancelled, settled, lost or
      transacted. */
  lemma {:induction false} EveryRunIsSound(k: Ex.Contract, ws: seq<World>, actions: seq<Action>, i: nat)
    requires IsRun(k, ws, actions) && i < |ws|
    ensures Sound(k, ws[i])
  {
    hide Sound, Steps, Initial;
    if i == 0 {
      InitialIsSound(k, ws[0]);
    } else {
      EveryRunIsSound(k, ws, actions, i - 1);
      assert Steps(k, ws[i - 1], actions[i - 1], ws[i - 1 + 1]);
      StepKeepsSound(k, ws[i - 1], actions[i - 1], ws[i]);
    }
  }

  /** Base lost under a hash by the first `n` steps of a run. */
  function Lost(ws: seq<World>, actions: seq<Action>, h: Hash, n: nat): int
    requires n <= |actions| < |ws|
  {
    if n == 0 then 0 else Lost(ws, actions, h, n - 1) + LostBy(ws[n - 1], actions[n - 1], h)
  }

  /** Conservation over every run: what the engine matched under a hash is on chain, in flight, or lost,
      and nothing else. */
  lemma {:induction false} MatchedIsAccounted(k: Ex.Contract, ws: seq<World>, actions: seq<Action>, h: Hash, n: nat)
    requires IsRun(k, ws, actions) && n < |ws|
    ensures MatchedUnder(ws[n].matches, h)
         == Get(ws[n].chain.orderFills, h) + MatchedUnder(ws[n].jobs, h) + Lost(ws, actions, h, n)
  {
    hide Steps, LostBy, MatchedUnder, Initial;
    if n == 0 {
      InitialIsSound(k, ws[0]);
      assert Slack(ws[0], h) == 0;
    } else {
      MatchedIsAccounted(k, ws, actions, h, n - 1);
      assert Steps(k, ws[n - 1], actions[n - 1], ws[n - 1 + 1]);
      StepSlack(k, ws[n - 1], actions[n - 1], ws[n], h);
    }
  }

  // ---------------------------------------------------------------- matched is filled

  /** What the engine filled for each submission of the signed order with a hash. */
  ghost function FilledUnder(w: World, h: Hash): map<string, int> {
    map id | id in w.orders && OrderHash(w.orders[id].data) == h :: FilledBase(w, id)
  }

  ghost function FillsUnder(orders: map<string, Terms>, ms: seq<Match>, h: Hash): map<string, int> {
    map id | id in orders && OrderHash(orders[id].data) == h :: FillsOf(ms, id)
  }

  /** One party's fill raises the sum by the fill if its hash is the one looked at. */
  lemma OnePartyFills(orders: map<string, Terms>, fills: map<string, int>, t: Terms, fill: int, h: Hash)
    requires t.id in orders && orders[t.id] == t
    requires forall id :: id in fills <==> id in orders && OrderHash(orders[id].data) == h
    ensures Sum(Raised(fills, t, fill, h)) == Sum(fills) + if OrderHash(t.data) == h then fill else 0
  {
    hide OrderHash;
    SumUpdate(fills, t.id, Get(fills, t.id) + fill);
  }

  /** What an order's fill makes of the amounts filled under a hash. */
  function Raised(fills: map<string, int>, t: Terms, fill: int, h: Hash): map<string, int> {
    if OrderHash(t.data) == h then fills[t.id := Get(fills, t.id) + fill] else fills
  }

  lemma FillsRaised(orders: map<string, Terms>, ms: seq<Match>, m: Match, h: Hash)
    requires Genuine(orders, m) && forall id | id in orders :: orders[id].id == id
    ensures FillsUnder(orders, ms + [m], h) ==
      Raised(Raised(FillsUnder(orders, ms, h), m.buy, m.fill, h), m.sell, m.fill, h)
  {
    hide OrderHash, FillsOf;
    var before, after := FillsUnder(orders, ms, h), FillsUnder(orders, ms + [m], h);
    var raised := Raised(Raised(before, m.buy, m.fill, h), m.sell, m.fill, h);
    OneMoreFill(ms, m);
    assert raised.Keys == before.Keys == after.Keys;
    forall id | id in after
      ensures after[id] == raised[id]
    {
    }
  }

  lemma OneMatchFills(orders: map<string, Terms>, ms: seq<Match>, m: Match, h: Hash)
    requires Genuine(orders, m) && forall id | id in orders :: orders[id].id == id
    ensures Sum(FillsUnder(orders, ms + [m], h)) == Sum(FillsUnder(orders, ms, h)) + FillUnder(m, h)
  {
    hide OrderHash, FillsOf;
    var before := FillsUnder(orders, ms, h);
    FillsRaised(orders, ms, m, h);
    OnePartyFills(orders, before, m.buy, m.fill, h);
    OnePartyFills(orders, Raised(before, m.buy, m.fill, h), m.sell, m.fill, h);
  }

  /** What was matched under a hash is what the submissions of the signed order were filled. */
  lemma {:induction false} MatchedIsFilled(orders: map<string, Terms>, ms: seq<Match>, h: Hash)
    requires AllGenuine(orders, ms) && forall id | id in orders :: orders[id].id == id
    ensures MatchedUnder(ms, h) == Sum(FillsUnder(orders, ms, h))
  {
    if ms == [] {
      ZeroSum(FillsUnder(orders, ms, h));
    } else {
      var before, m := ms[..|ms| - 1], ms[|ms| - 1];
      MatchedIsFilled(orders, before, h);
      assert Genuine(orders, m) && ms == before + [m];
      OneMatchFills(orders, before, m, h);
    }
  }

  lemma MatchedUnderIsFilled(w: World, h: Hash)
    requires Booked(w) && AllGenuine(w.orders, w.matches)
    ensures MatchedUnder(w.matches, h) == Sum(FilledUnder(w, h))
  {
    hide Consistent, Genuine, OrderHash, MatchedUnder, FillsOf;
    forall id | id in w.orders
      ensures w.orders[id].id == id && FilledBase(w, id) == FillsOf(w.matches, id)
    {
      assert Placed(w, id);
    }
    MatchedIsFilled(w.orders, w.matches, h);
    assert FilledUnder(w, h) == FillsUnder(w.orders, w.matches, h);
  }

  lemma FilledIsCapped(w: World, id: string)
    requires Booked(w) && id in w.orders
    ensures 0 <= FilledBase(w, id) <= w.orders[id].Base()
  {
    BookIsConsistent(w, w.pairOf[id]);
    assert Placed(w, id) && Accounted(BookOf(w, w.pairOf[id]), id);
  }

  /** No other submission, under whatever pair name, has the same signed fields. */
  ghost predicate Unique(w: World, id: string) {
    && id in w.orders
    && forall j | j in w.orders && j != id :: w.orders[j].data != w.orders[id].data
  }

  lemma HashesDiffer(w: World, id: string, j: string)
    requires Booked(w) && id in w.orders && j in w.orders && w.orders[j].data != w.orders[id].data
    ensures OrderHash(w.orders[j].data) != OrderHash(w.orders[id].data)
  {
    hide Consistent, OrderHash;
    assert Placed(w, j) && Placed(w, id);
    if OrderHash(w.orders[j].data) == OrderHash(w.orders[id].data) {
      HashIsInjective(w.orders[j].data, w.orders[id].data);
    }
  }

  lemma UniqueFilled(w: World, id: string)
    requires Booked(w) && Unique(w, id)
    ensures Sum(FilledUnder(w, OrderHash(w.orders[id].data))) == FilledBase(w, id)
  {
    hide Booked, FilledBase, OrderHash;
    var h := OrderHash(w.orders[id].data);
    forall j | j in w.orders && j != id
      ensures OrderHash(w.orders[j].data) != h
    {
      HashesDiffer(w, id, j);
    }
    assert FilledUnder(w, h) == map[id := FilledBase(w, id)];
    SumWithout(FilledUnder(w, h), id);
    assert FilledUnder(w, h) - {id} == map[];
  }

  /** On chain plus in flight never exceeds what the engine filled over all submissions of the signed
      order, each of which stays within its capacity; for an order submitted once that is its `FilledBase`. */
  lemma FillsAreCovered(k: Ex.Contract, w: World, id: string)
    requires Sound(k, w) && id in w.orders
    ensures var h := OrderHash(w.orders[id].data);
      && Get(w.chain.orderFills, h) + MatchedUnder(w.jobs, h) <= Sum(FilledUnder(w, h))
      && (Unique(w, id) ==> Sum(FilledUnder(w, h)) == FilledBase(w, id))
    ensures forall j | j in w.orders :: 0 <= FilledBase(w, j) <= w.orders[j].Base()
  {
    hide Booked, OrderHash, MatchedUnder, Unique, FilledBase, Limited, Th.Solvent;
    var h := OrderHash(w.orders[id].data);
    MatchedUnderIsFilled(w, h);
    assert Slack(w, h) >= 0;
    if Unique(w, id) {
      UniqueFilled(w, id);
    }
    forall j | j in w.orders
      ensures 0 <= FilledBase(w, j) <= w.orders[j].Base()
    {
      FilledIsCapped(w, j);
    }
  }

  lemma {:induction false} NothingLost(ws: seq<World>, actions: seq<Action>, h: Hash, n: nat)
    requires n <= |actions| < |ws| && forall i :: 0 <= i < n ==> !actions[i].Drop?
    ensures Lost(ws, actions, h, n) == 0
  {
    if n > 0 {
      NothingLost(ws, actions, h, n - 1);
    }
  }

  /** In every run that has lost no job and has none left, the contract agrees with the engine on what
      each signed order has been filled, whatever users did meanwhile. */
  lemma SettledRunAgrees(k: Ex.Contract, ws: seq<World>, actions: seq<Action>, n: nat, id: string)
    requires IsRun(k, ws, actions) && n < |ws| && ws[n].jobs == [] && id in ws[n].orders
    requires forall i :: 0 <= i < n ==> !actions[i].Drop?
    ensures var h := OrderHash(ws[n].orders[id].data);
      && Get(ws[n].chain.orderFills, h) == Sum(FilledUnder(ws[n], h))
      && (Unique(ws[n], id) ==> Get(ws[n].chain.orderFills, h) == FilledBase(ws[n], id))
  {
    hide Steps, Booked, OrderHash, Unique, FilledBase, Covered;
    var h := OrderHash(ws[n].orders[id].data);
    EveryRunIsSound(k, ws, actions, n);
    MatchedIsAccounted(k, ws, actions, h, n);
    NothingLost(ws, actions, h, n);
    MatchedUnderIsFilled(ws[n], h);
    if Unique(ws[n], id) {
      UniqueFilled(ws[n], id);
    }
  }

  // ---------------------------------------------------------------- the price guard

  /** The two orders' prices cross without rounding. */
  predicate ExactlyCross(buy: OrderData, sell: OrderData) {
    buy.amountSell * sell.amountSell >= sell.amountBuy * buy.amountBuy
  }

  /** The price guard of `settleMatch`. */
  predicate PassesGuard(buy: OrderData, sell: OrderData, fill: nat)
    requires buy.amountBuy > 0 && sell.amountSell > 0
  {
    Ex.AtSellRatio(sell, fill) <= Ex.AtBuyRatio(buy, fill)
  }

  lemma TimesPositive(a: int, b: int, c: int)
    requires c > 0
    ensures a <= b <==> a * c <= b * c
  {
  }

  lemma FloorAtLeast(x: nat, y: nat, d: nat)
    requires d > 0
    ensures x * d <= y <==> x <= y / d
  {
    Th.FloorBounds(y, d);
    if x * d <= y {
      Th.CancelFactor(x, y / d, d);
    } else {
      Th.CancelFactor(y / d, x - 1, d);
    }
  }

  /** `q` is more than the buyer's exact price of the fill and no more than the seller's. */
  predicate Between(buy: OrderData, sell: OrderData, fill: nat, q: nat) {
    fill * buy.amountSell < q * buy.amountBuy && q * sell.amountSell <= fill * sell.amountBuy
  }

  /** The price guard refuses a fill exactly when some whole amount of quote lies above the buyer's exact
      price of the fill and not above the seller's: smaller gaps are rounded away. */
  lemma GuardRefusesExactly(buy: OrderData, sell: OrderData, fill: nat)
    requires buy.amountBuy > 0 && sell.amountSell > 0
    ensures !PassesGuard(buy, sell, fill) <==> exists q: nat :: Between(buy, sell, fill, q)
  {
    if !PassesGuard(buy, sell, fill) {
      var q := Ex.AtSellRatio(sell, fill);
      FloorAtLeast(q, fill * sell.amountBuy, sell.amountSell);
      FloorAtLeast(q, fill * buy.amountSell, buy.amountBuy);
      assert Between(buy, sell, fill, q);
    }
    if q: nat :| Between(buy, sell, fill, q) {
      FloorAtLeast(q, fill * sell.amountBuy, sell.amountSell);
      FloorAtLeast(q, fill * buy.amountSell, buy.amountBuy);
    }
  }

  /** Orders that cross without rounding pass the guard with every fill. */
  lemma ExactCrossingPassesGuard(buy: OrderData, sell: OrderData, fill: nat)
    requires buy.amountBuy > 0 && sell.amountSell > 0 && ExactlyCross(buy, sell)
    ensures PassesGuard(buy, sell, fill)
  {
    var q := Ex.AtSellRatio(sell, fill);
    FloorAtLeast(q, fill * sell.amountBuy, sell.amountSell);
    Th.TimesMonotone(q * sell.amountSell, fill * sell.amountBuy, buy.amountBuy);
    Th.TimesMonotone(sell.amountBuy * buy.amountBuy, buy.amountSell * sell.amountSell, fill);
    assert (q * buy.amountBuy) * sell.amountSell == (q * sell.amountSell) * buy.amountBuy;
    assert (fill * buy.amountSell) * sell.amountSell == (buy.amountSell * sell.amountSell) * fill;
    assert (fill * sell.amountBuy) * buy.amountBuy == (sell.amountBuy * buy.amountBuy) * fill;
    TimesPositive(q * buy.amountBuy, fill * buy.amountSell, sell.amountSell);
    FloorAtLeast(q, fill * buy.amountSell, buy.amountBuy);
  }

  /** Orders that do not are refused every fill large enough for the gap to be a whole unit of quote. */
  lemma WideGapIsRefused(buy: OrderData, sell: OrderData, fill: nat)
    requires buy.amountBuy > 0 && sell.amountSell > 0
    requires fill * (sell.amountBuy * buy.amountBuy - buy.amountSell * sell.amountSell) >=
      buy.amountBuy * sell.amountSell
    ensures !PassesGuard(buy, sell, fill)
  {
    var p := Ex.AtBuyRatio(buy, fill);
    FloorAtLeast(p, fill * buy.amountSell, buy.amountBuy);
    Th.TimesMonotone(p * buy.amountBuy, fill * buy.amountSell, sell.amountSell);
    assert ((p + 1) * sell.amountSell) * buy.amountBuy
        == (p * buy.amountBuy) * sell.amountSell + buy.amountBuy * sell.amountSell;
    assert fill * (sell.amountBuy * buy.amountBuy - buy.amountSell * sell.amountSell)
        == (fill * sell.amountBuy) * buy.amountBuy - (fill * buy.amountSell) * sell.amountSell;
    TimesPositive((p + 1) * sell.amountSell, fill * sell.amountBuy, buy.amountBuy);
    FloorAtLeast(p + 1, fill * sell.amountBuy, sell.amountSell);
  }

  /** When the engine's price keys are the exact ratios, matched orders cross without rounding. */
  lemma ExactKeysCross(buy: Terms, sell: Terms)
    requires buy.side.Buy? && sell.side.Sell? && buy.Positive() && sell.Positive()
    requires buy.price == buy.ExactPrice() && sell.price == sell.ExactPrice()
    ensures buy.price >= sell.price <==> ExactlyCross(buy.data, sell.data)
  {
    var a, b := buy.data.amountSell as real, buy.data.amountBuy as real;
    var c, d := sell.data.amountBuy as real, sell.data.amountSell as real;
    assert buy.price == a / b && sell.price == c / d;
    assert a / b * b == a && c / d * d == c;
    assert a * d == (a / b) * (b * d) && c * b == (c / d) * (b * d);
    RealTimesPositive(c / d, a / b, b * d);
    assert buy.price >= sell.price <==> a * d >= c * b;
    assert a * d == (buy.data.amountSell * sell.data.amountSell) as real;
    assert c * b == (sell.data.amountBuy * buy.data.amountBuy) as real;
    assert a * d >= c * b <==> ExactlyCross(buy.data, sell.data);
  }

  lemma RealTimesPositive(x: real, y: real, z: real)
    requires z > 0.0
    ensures x <= y <==> x * z <= y * z
  {
  }

  /** Without rounding in the price keys, every queued job passes the price guard. */
  lemma JobsCrossExactly(k: Ex.Contract, w: World, i: nat)
    requires Sound(k, w) && i < |w.jobs|
    ensures var j := w.jobs[i];
      && j.buy.Positive() && j.sell.Positive() && j.fill >= 0
      && (j.buy.price == j.buy.ExactPrice() && j.sell.price == j.sell.ExactPrice() ==>
            ExactlyCross(j.buy.data, j.sell.data) && PassesGuard(j.buy.data, j.sell.data, j.fill))
  {
    hide ExactlyCross, PassesGuard, Booked, Covered, Limited, Th.Solvent;
    var j := w.jobs[i];
    assert Genuine(w.orders, j);
    if j.buy.price == j.buy.ExactPrice() && j.sell.price == j.sell.ExactPrice() {
      ExactKeysCross(j.buy, j.sell);
      ExactCrossingPassesGuard(j.buy.data, j.sell.data, j.fill);
    }
  }

  // ---------------------------------------------------------------- what a queued job can fail of

  /** The conditions outside the engine's control but for the signatures: tokens, deadlines, cancellations,
      products that fit a word, and vault balances. */
  predicate Payable(s: Ex.State, j: Match, now: nat)
    requires j.fill >= 0 && j.quote >= 0
  {
    && j.buy.data.tokenBuy == j.sell.data.tokenSell && j.buy.data.tokenSell == j.sell.data.tokenBuy
    && now <= j.buy.data.expiry && now <= j.sell.data.expiry
    && !Th.Dead(s, j.buy.data) && !Th.Dead(s, j.sell.data)
    && Ex.QuotesDefined(j.buy.data, j.sell.data, j.fill)
    && Get(s.balances, (j.buy.data.maker, j.buy.data.tokenSell)) >= j.quote
    && Get(s.balances, (j.sell.data.maker, j.sell.data.tokenSell)) >= j.fill
  }

  predicate Deliverable(s: Ex.State, j: Match, buySigned: bool, sellSigned: bool, now: nat)
    requires j.fill >= 0 && j.quote >= 0
  {
    buySigned && sellSigned && Payable(s, j, now)
  }

  /** Neither order of the job is filled on chain so far that the job would overfill it; one signed order
      that meets itself takes the fill twice. */
  predicate Fits(s: Ex.State, j: Match) {
    && Get(s.orderFills, OrderHash(j.sell.data)) + j.fill <= j.sell.data.amountSell
    && Get(s.orderFills, OrderHash(j.buy.data)) + j.fill <= j.buy.data.amountBuy
    && (j.buy.data == j.sell.data ==> Get(s.orderFills, OrderHash(j.buy.data)) + 2 * j.fill < UINT256_LIMIT)
  }

  lemma JobFacts(k: Ex.Contract, w: World, i: nat)
    requires Sound(k, w) && i < |w.jobs|
    ensures var j := w.jobs[i];
      && j.buy.Positive() && j.sell.Positive() && j.fill > 0
      && j.buy.side.Buy? && j.sell.side.Sell? && j.buy.id != j.sell.id
      && j.quote == Ex.AtSellRatio(j.sell.data, j.fill)
      && j.buy.id in w.orders && w.orders[j.buy.id] == j.buy
      && j.sell.id in w.orders && w.orders[j.sell.id] == j.sell
      && InRange(j.buy.data) && InRange(j.sell.data)
    ensures Th.Solvent(k, w.chain)
  {
  }

  /** A queued job settles exactly when it is deliverable, fits, and passes the price guard, and then
      the seller receives the quote the engine computed. */
  lemma JobSettlesExactly(k: Ex.Contract, w: World, i: nat, buySigned: bool, sellSigned: bool, now: nat)
    requires Sound(k, w) && i < |w.jobs| && w.jobs[i].fill >= 0 && w.jobs[i].quote >= 0
    ensures var j := w.jobs[i];
      var c := JobCall(k, j, buySigned, sellSigned, now);
      && j.buy.Positive() && j.sell.Positive()
      && (Ex.Execute(k, w.chain, c).Success? <==>
            Deliverable(w.chain, j, buySigned, sellSigned, now) && Fits(w.chain, j)
            && PassesGuard(j.buy.data, j.sell.data, j.fill))
      && (Ex.Execute(k, w.chain, c).Success? ==>
            Ex.Step(k, w.chain, c).log == w.chain.log +
              [Ex.TradeSettled(OrderHash(j.buy.data), OrderHash(j.sell.data),
                               j.buy.data.maker, j.sell.data.maker, j.fill, j.quote)])
  {
    hide OrderHash, Sound, Th.Solvent, Ex.Execute, Ex.Step, Ex.QuotesDefined, Ex.AtSellRatio, Ex.AtBuyRatio;
    var j := w.jobs[i];
    var c := JobCall(k, j, buySigned, sellSigned, now);
    JobFacts(k, w, i);
    Th.SettlesExactly(k, w.chain, c);
    if Ex.Execute(k, w.chain, c).Success? {
      Th.SettleFacts(k, w.chain, c, OrderHash(j.buy.data));
    }
  }

  lemma CoveredJob(k: Ex.Contract, w: World, i: nat, h: Hash)
    requires Sound(k, w) && i < |w.jobs|
    ensures Get(w.chain.orderFills, h) + FillUnder(w.jobs[i], h) <= MatchedUnder(w.matches, h)
  {
    hide OrderHash, MatchedUnder, Booked, Th.Solvent, Limited;
    assert forall n :: 0 <= n < |w.jobs| ==> Genuine(w.orders, w.jobs[n]) && w.jobs[n].fill >= 0;
    MatchedBounds(w.jobs, h, i);
    assert Slack(w, h) >= 0;
  }

  /** A job fits as long as what the engine matched under each hash fits the order. */
  lemma JobFits(k: Ex.Contract, w: World, i: nat)
    requires Sound(k, w) && i < |w.jobs|
    requires MatchedUnder(w.matches, OrderHash(w.jobs[i].buy.data)) <= w.jobs[i].buy.Base()
    requires MatchedUnder(w.matches, OrderHash(w.jobs[i].sell.data)) <= w.jobs[i].sell.Base()
    ensures Fits(w.chain, w.jobs[i])
  {
    hide OrderHash, MatchedUnder, Sound, InRange;
    var j := w.jobs[i];
    JobFacts(k, w, i);
    CoveredJob(k, w, i, OrderHash(j.buy.data));
    CoveredJob(k, w, i, OrderHash(j.sell.data));
    AmountsFit(j.buy.data);
  }

  /** Conversely, once all that was matched under a hash is on chain, it fits the signed order, if the
      contract only ever saw the order on the buy side. */
  lemma BoughtFits(k: Ex.Contract, w: World, o: OrderData)
    requires Sound(k, w) && InRange(o) && Th.AccountOf(w.chain.log, OrderHash(o)).sold == 0
    requires Get(w.chain.orderFills, OrderHash(o)) == MatchedUnder(w.matches, OrderHash(o))
    ensures MatchedUnder(w.matches, OrderHash(o)) <= o.amountBuy
  {
    hide OrderHash, MatchedUnder, InRange, Booked, Covered, Limited, Th.Solvent;
    LimitedOrder(w.chain, o);
  }

  /** The same for an order only ever seen on the sell side. */
  lemma SoldFits(k: Ex.Contract, w: World, o: OrderData)
    requires Sound(k, w) && InRange(o) && Th.AccountOf(w.chain.log, OrderHash(o)).bought == 0
    requires Get(w.chain.orderFills, OrderHash(o)) == MatchedUnder(w.matches, OrderHash(o))
    ensures MatchedUnder(w.matches, OrderHash(o)) <= o.amountSell
  {
    hide OrderHash, MatchedUnder, InRange, Booked, Covered, Limited, Th.Solvent;
    LimitedOrder(w.chain, o);
  }

  lemma AmountsFit(o: OrderData)
    requires InRange(o)
    ensures o.amountSell < UINT256_LIMIT && o.amountBuy < UINT256_LIMIT
  {
  }

  lemma LimitedOrder(s: Ex.State, o: OrderData)
    requires Limited(s) && InRange(o)
    ensures var a := Th.AccountOf(s.log, OrderHash(o));
      Get(s.orderFills, OrderHash(o)) == a.bought + a.sold && a.bought <= o.amountBuy && a.sold <= o.amountSell
  {
    assert Th.WithinLimits(s, o);
  }

  /** The promise of the protocol: a queued job between two orders submitted once settles if and only if
      it is deliverable and passes the price guard, whatever other jobs, of this pair or others, were
      delivered, reordered or lost before. */
  lemma JobSettlesIfDeliverable(k: Ex.Contract, w: World, i: nat, buySigned: bool, sellSigned: bool, now: nat)
    requires Sound(k, w) && i < |w.jobs| && w.jobs[i].fill >= 0 && w.jobs[i].quote >= 0
    requires Unique(w, w.jobs[i].buy.id) && Unique(w, w.jobs[i].sell.id)
    ensures w.jobs[i].buy.Positive() && w.jobs[i].sell.Positive()
    ensures Ex.Execute(k, w.chain, JobCall(k, w.jobs[i], buySigned, sellSigned, now)).Success?
       <==> Deliverable(w.chain, w.jobs[i], buySigned, sellSigned, now)
            && PassesGuard(w.jobs[i].buy.data, w.jobs[i].sell.data, w.jobs[i].fill)
  {
    hide OrderHash, Sound, MatchedUnder, Deliverable, PassesGuard, Ex.Execute, Fits, Unique;
    var j := w.jobs[i];
    JobFacts(k, w, i);
    UniqueMatched(k, w, j.buy.id);
    UniqueMatched(k, w, j.sell.id);
    JobFits(k, w, i);
    JobSettlesExactly(k, w, i, buySigned, sellSigned, now);
  }

  lemma UniqueMatched(k: Ex.Contract, w: World, id: string)
    requires Sound(k, w) && Unique(w, id)
    ensures MatchedUnder(w.matches, OrderHash(w.orders[id].data)) == FilledBase(w, id) <= w.orders[id].Base()
  {
    hide Booked, OrderHash, MatchedUnder, FilledBase, Covered, Limited, Th.Solvent;
    MatchedUnderIsFilled(w, OrderHash(w.orders[id].data));
    UniqueFilled(w, id);
    FilledIsCapped(w, id);
  }
}
