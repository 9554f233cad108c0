/** The settlement worker (backend/internal/blockchain/settlement.go), which takes the jobs of the channel
    one by one while users go on transacting; the node is reduced to its answers. */
module Workers {
  import opened OrderEncoding
  import opened Matching
  import opened OrderBooks
  import opened Settlement
  import opened NexusOrderBooks
  import opened Sums
  import Ex = Exchange
  import Th = ExchangeTheory

  /** What happens around one job: the transactions of others that are mined before its own; whether its
      own is mined, and with which verdicts on the signatures and at which time; and whether the worker
      gets to see its receipt. */
  datatype Reply = Reply(
    before: seq<Ex.Call>, mined: bool, buySigned: bool, sellSigned: bool, now: nat, receipt: bool)

  function CallFor(k: Ex.Contract, m: Match, r: Reply): Ex.Call
    requires m.fill >= 0
  {
    JobCall(k, m, r.buySigned, r.sellSigned, r.now)
  }

  function AfterJob(k: Ex.Contract, s: Ex.State, m: Match, r: Reply): Ex.State
    requires m.fill >= 0
  {
    var met := Ex.Run(k, s, r.before);
    if r.mined then Ex.Step(k, met, CallFor(k, m, r)) else met
  }

  predicate Sendable(jobs: seq<Match>) {
    forall i :: 0 <= i < |jobs| ==> jobs[i].fill >= 0 && InRange(jobs[i].buy.data) && InRange(jobs[i].sell.data)
  }

  predicate AllByOthers(k: Ex.Contract, calls: seq<Ex.Call>) {
    forall i :: 0 <= i < |calls| ==> ByOthers(k, calls[i])
  }

  predicate Replies(k: Ex.Contract, replies: seq<Reply>) {
    forall i :: 0 <= i < |replies| ==> AllByOthers(k, replies[i].before)
  }

  /** The chain once the first `n` jobs have been worked off. */
  function Chain(k: Ex.Contract, s: Ex.State, jobs: seq<Match>, replies: seq<Reply>, n: nat): Ex.State
    requires n <= |jobs| == |replies| && Sendable(jobs)
  {
    if n == 0 then s else AfterJob(k, Chain(k, s, jobs, replies, n - 1), jobs[n - 1], replies[n - 1])
  }

  /** The chain that the job at `n` meets. */
  function Met(k: Ex.Contract, s: Ex.State, jobs: seq<Match>, replies: seq<Reply>, n: nat): Ex.State
    requires n < |jobs| == |replies| && Sendable(jobs)
  {
    Ex.Run(k, Chain(k, s, jobs, replies, n), replies[n].before)
  }

  /** The job settles, on the chain that it meets. */
  predicate Settles(k: Ex.Contract, s: Ex.State, jobs: seq<Match>, replies: seq<Reply>, n: nat)
    requires n < |jobs| == |replies| && Sendable(jobs)
  {
    replies[n].mined && Ex.Execute(k, Met(k, s, jobs, replies, n), CallFor(k, jobs[n], replies[n])).Success?
  }

  /** Lines 71-85: the worker, over the jobs of the channel. A job is reported settled exactly when its
      transaction succeeded and the worker saw the receipt. */
  method Run(exchange: NexusOrderBook, jobs: seq<MatchResult>, replies: seq<Reply>) returns (reports: seq<bool>)
    requires |replies| == |jobs| && Sendable(Values(jobs)) && Replies(exchange.This(), replies)
    modifies exchange
    ensures exchange.Value() == Chain(exchange.This(), old(exchange.Value()), Values(jobs), replies, |jobs|)
    ensures |reports| == |jobs|
    ensures forall i :: 0 <= i < |jobs| ==>
      (reports[i] <==> replies[i].receipt && Settles(exchange.This(), old(exchange.Value()), Values(jobs), replies, i))
  {
    hide Ex.Execute, InRange, AllByOthers;
    ghost var k, s0, ms := exchange.This(), exchange.Value(), Values(jobs);
    reports := [];
    for i := 0 to |jobs|
      invariant exchange.Value() == Chain(k, s0, ms, replies, i)
      invariant |reports| == i
      invariant forall j :: 0 <= j < i ==> (reports[j] <==> replies[j].receipt && Settles(k, s0, ms, replies, j))
    {
      assert ms[i] == jobs[i].Value();
      Others(exchange, replies[i].before);
      var settled := Settle(exchange, jobs[i], replies[i]);
      reports := reports + [settled];
    }
  }

  /** Other transactions are mined. */
  method Others(exchange: NexusOrderBook, calls: seq<Ex.Call>)
    requires AllByOthers(exchange.This(), calls)
    modifies exchange
    ensures exchange.Value() == Ex.Run(exchange.This(), old(exchange.Value()), calls)
  {
    hide Ex.Step, Ex.Possible;
    ghost var s0 := exchange.Value();
    for i := 0 to |calls|
      invariant exchange.Value() == Ex.Run(exchange.This(), s0, calls[..i])
    {
      assert calls[..i + 1][..i] == calls[..i];
      assert ByOthers(exchange.This(), calls[i]);
      exchange.Transact(calls[i]);
    }
    assert calls[..|calls|] == calls;
  }

  /** Lines 87-122. */
  method Settle(exchange: NexusOrderBook, job: MatchResult, reply: Reply) returns (settled: bool)
    requires job.fillAmount >= 0 && InRange(job.buyOrder.terms.data) && InRange(job.sellOrder.terms.data)
    modifies exchange
    ensures var k, before, c := exchange.This(), old(exchange.Value()), CallFor(exchange.This(), job.Value(), reply);
      && exchange.Value() == (if reply.mined then Ex.Step(k, before, c) else before)
      && settled == (reply.mined && reply.receipt && Ex.Execute(k, before, c).Success?)
  {
    hide Ex.Execute, InRange;
    if !reply.mined {
      return false;
    }
    var r := exchange.SettleMatch(exchange.owner, job.buyOrder.terms.data, reply.buySigned,
                                  job.sellOrder.terms.data, reply.sellSigned, job.fillAmount, reply.now);
    return r.Ok? && reply.receipt;
  }

  // ---------------------------------------------------------------- trades marked settled

  /** The event of a settled job. */
  function EventFor(m: Match): Ex.Event
    requires m.fill >= 0 && m.sell.Positive()
  {
    Ex.TradeSettled(OrderHash(m.buy.data), OrderHash(m.sell.data), m.buy.data.maker, m.sell.data.maker,
                    m.fill, Ex.AtSellRatio(m.sell.data, m.fill))
  }

  lemma JobOnlyAppends(k: Ex.Contract, s: Ex.State, m: Match, r: Reply)
    requires m.fill >= 0
    ensures Ex.Run(k, s, r.before).log <= AfterJob(k, s, m, r).log && s.log <= AfterJob(k, s, m, r).log
  {
    hide Ex.Step;
    Th.RunOnlyAppends(k, s, r.before);
    Th.StepIsMonotone(k, Ex.Run(k, s, r.before), CallFor(k, m, r), OrderHash(m.buy.data), 0);
  }

  lemma SettledIsLogged(k: Ex.Contract, s: Ex.State, m: Match, r: Reply)
    requires m.fill >= 0 && m.sell.Positive() && r.mined
    requires Ex.Execute(k, Ex.Run(k, s, r.before), CallFor(k, m, r)).Success?
    ensures EventFor(m) in AfterJob(k, s, m, r).log
  {
    hide Ex.Execute, Ex.Step, OrderHash;
    Th.SettleFacts(k, Ex.Run(k, s, r.before), CallFor(k, m, r), OrderHash(m.buy.data));
  }

  /** The event of a job that settled is in the log from then on. */
  lemma {:induction false} SettledStaysLogged(k: Ex.Contract, s: Ex.State, jobs: seq<Match>, replies: seq<Reply>,
                                              i: nat, n: nat)
    requires i < n <= |jobs| == |replies| && Sendable(jobs) && jobs[i].sell.Positive()
    requires Settles(k, s, jobs, replies, i)
    ensures EventFor(jobs[i]) in Chain(k, s, jobs, replies, n).log
  {
    hide Ex.Execute, Ex.Step, EventFor, AfterJob;
    if i == n - 1 {
      SettledIsLogged(k, Chain(k, s, jobs, replies, i), jobs[i], replies[i]);
    } else {
      SettledStaysLogged(k, s, jobs, replies, i, n - 1);
      JobOnlyAppends(k, Chain(k, s, jobs, replies, n - 1), jobs[n - 1], replies[n - 1]);
    }
  }

  /** The worker, and lines 151-161 of order_service.go, which mark the trades of the jobs it reports settled,
      where the update goes through: a trade is marked only if its settlement is in the contract's log. */
  method RunAndMark(exchange: NexusOrderBook, jobs: seq<MatchResult>, tradeIDs: seq<string>, replies: seq<Reply>,
                    went: nat -> bool)
    returns (marked: set<string>)
    requires |replies| == |jobs| == |tradeIDs| && Sendable(Values(jobs)) && Replies(exchange.This(), replies)
    requires forall i :: 0 <= i < |jobs| ==> jobs[i].sellOrder.terms.Positive()
    modifies exchange
    ensures exchange.Value() == Chain(exchange.This(), old(exchange.Value()), Values(jobs), replies, |jobs|)
    ensures forall id :: id in marked <==>
      exists i :: 0 <= i < |jobs| && tradeIDs[i] == id && went(i) && replies[i].receipt &&
                  Settles(exchange.This(), old(exchange.Value()), Values(jobs), replies, i)
    ensures forall id | id in marked ::
        exists i :: 0 <= i < |jobs| && tradeIDs[i] == id && EventFor(Values(jobs)[i]) in exchange.log
  {
    hide Settles, Chain, EventFor, Replies;
    ghost var k, s0 := exchange.This(), exchange.Value();
    var reports := Run(exchange, jobs, replies);
    marked := set i | 0 <= i < |jobs| && reports[i] && went(i) :: tradeIDs[i];
    forall id | id in marked
      ensures exists i :: 0 <= i < |jobs| && tradeIDs[i] == id && EventFor(Values(jobs)[i]) in exchange.log
    {
      var i :| 0 <= i < |jobs| && reports[i] && went(i) && tradeIDs[i] == id;
      SettledStaysLogged(k, s0, Values(jobs), replies, i, |jobs|);
    }
  }

  // ---------------------------------------------------------------- the worker as protocol steps

  lemma {:induction false} OthersAreSteps(k: Ex.Contract, ws: seq<World>, actions: seq<Action>, w: World, w': World,
                                          calls: seq<Ex.Call>)
    returns (ws': seq<World>, actions': seq<Action>)
    requires Leads(k, ws, actions, w, w') && AllByOthers(k, calls)
    ensures Leads(k, ws', actions', w, w'.(chain := Ex.Run(k, w'.chain, calls)))
    ensures (exists i :: 0 <= i < |actions'| && actions'[i].Drop?) ==>
      exists i :: 0 <= i < |actions| && actions[i].Drop?
    decreases |calls|
  {
    hide ByOthers, Ex.Step, Leads;
    ws', actions' := ws, actions;
    if calls != [] {
      var before, c := calls[..|calls| - 1], calls[|calls| - 1];
      ws', actions' := OthersAreSteps(k, ws, actions, w, w', before);
      var v, v' := w'.(chain := Ex.Run(k, w'.chain, before)), w'.(chain := Ex.Run(k, w'.chain, calls));
      OneMore(k, ws', actions', w, v, Transact(c), v');
      ws', actions' := ws' + [v'], actions' + [Transact(c)];
    }
  }

  function WorldAt(k: Ex.Contract, w: World, replies: seq<Reply>, n: nat): World
    requires n <= |w.jobs| == |replies| && Sendable(w.jobs)
  {
    w.(jobs := w.jobs[n..], chain := Chain(k, w.chain, w.jobs, replies, n))
  }

  /** Each turn of the worker is a step of the protocol on the first job of the queue, in the world that
      the job meets: it settles, or it is dropped. */
  lemma TurnIsStep(k: Ex.Contract, w: World, replies: seq<Reply>, n: nat)
    requires n < |w.jobs| == |replies| && Sendable(w.jobs)
    ensures var r := replies[n];
      Steps(k, WorldAt(k, w, replies, n).(chain := Met(k, w.chain, w.jobs, replies, n)),
            if Settles(k, w.chain, w.jobs, replies, n) then SettleOk(0, r.buySigned, r.sellSigned, r.now) else Drop(0),
            WorldAt(k, w, replies, n + 1))
  {
    hide Ex.Execute;
    assert Settlement.Without(w.jobs[n..], 0) == w.jobs[n + 1..];
  }

  /** Working off `n` jobs is a run of the protocol, and one without losses if they all settle. */
  lemma {:induction false} WorkIsRun(k: Ex.Contract, w: World, replies: seq<Reply>, n: nat)
    returns (ws: seq<World>, actions: seq<Action>)
    requires n <= |w.jobs| == |replies| && Sendable(w.jobs) && Replies(k, replies)
    ensures Leads(k, ws, actions, w, WorldAt(k, w, replies, n))
    ensures (forall i :: 0 <= i < n ==> Settles(k, w.chain, w.jobs, replies, i)) ==>
      forall i :: 0 <= i < |actions| ==> !actions[i].Drop?
  {
    hide Steps, Settles, AllByOthers;
    if n == 0 {
      ws, actions := [w], [];
      assert WorldAt(k, w, replies, 0) == w;
    } else {
      hide Leads;
      var r, settles := replies[n - 1], Settles(k, w.chain, w.jobs, replies, n - 1);
      var a := if settles then SettleOk(0, r.buySigned, r.sellSigned, r.now) else Drop(0);
      var v, v' := WorldAt(k, w, replies, n - 1), WorldAt(k, w, replies, n);
      ws, actions := WorkIsRun(k, w, replies, n - 1);
      ws, actions := OthersAreSteps(k, ws, actions, w, v, r.before);
      TurnIsStep(k, w, replies, n - 1);
      OneMore(k, ws, actions, w, v.(chain := Met(k, w.chain, w.jobs, replies, n - 1)), a, v');
      ws, actions := ws + [v'], actions + [a];
    }
  }

  lemma {:induction false} RunKeepsSound(k: Ex.Contract, ws: seq<World>, actions: seq<Action>, w: World, w': World)
    requires Leads(k, ws, actions, w, w') && Sound(k, w)
    ensures Sound(k, w')
    decreases |actions|
  {
    hide Sound, Steps;
    if actions != [] {
      var n := |actions| - 1;
      assert Steps(k, ws[n], actions[n], ws[n + 1]);
      RunKeepsSound(k, ws[..|actions|], actions[..n], w, ws[n]);
      StepKeepsSound(k, ws[n], actions[n], ws[n + 1]);
    }
  }

  /** The world that the job at `n` meets is sound. */
  lemma MetIsSound(k: Ex.Contract, w: World, replies: seq<Reply>, n: nat)
    requires n < |w.jobs| == |replies| && Sendable(w.jobs) && Replies(k, replies) && Sound(k, w)
    ensures Sound(k, WorldAt(k, w, replies, n).(chain := Met(k, w.chain, w.jobs, replies, n)))
  {
    hide Sound, Leads, AllByOthers;
    var ws, actions := WorkIsRun(k, w, replies, n);
    ws, actions := OthersAreSteps(k, ws, actions, w, WorldAt(k, w, replies, n), replies[n].before);
    RunKeepsSound(k, ws, actions, w, WorldAt(k, w, replies, n).(chain := Met(k, w.chain, w.jobs, replies, n)));
  }

  // ---------------------------------------------------------------- a queue worked off

  /** Every job is between orders submitted once, and can be delivered and passes the price guard when
      its turn comes. */
  ghost predicate AllDeliverable(k: Ex.Contract, w: World, replies: seq<Reply>)
    requires |w.jobs| == |replies| && Sendable(w.jobs)
  {
    forall n :: 0 <= n < |w.jobs| ==>
      var j, r := w.jobs[n], replies[n];
      && Unique(w, j.buy.id) && Unique(w, j.sell.id) && j.buy.Positive() && j.sell.Positive() && j.quote >= 0
      && r.mined && PassesGuard(j.buy.data, j.sell.data, j.fill)
      && Deliverable(Met(k, w.chain, w.jobs, replies, n), j, r.buySigned, r.sellSigned, r.now)
  }

  lemma DeliverableSettles(k: Ex.Contract, w: World, replies: seq<Reply>, n: nat)
    requires n < |w.jobs| == |replies| && Sendable(w.jobs) && Replies(k, replies) && Sound(k, w)
    requires AllDeliverable(k, w, replies)
    ensures Settles(k, w.chain, w.jobs, replies, n)
  {
    hide Sound, PassesGuard, Deliverable, Ex.Execute, Met;
    MetIsSound(k, w, replies, n);
    var v, r := WorldAt(k, w, replies, n).(chain := Met(k, w.chain, w.jobs, replies, n)), replies[n];
    assert v.jobs[0] == w.jobs[n];
    assert Unique(v, v.jobs[0].buy.id) && Unique(v, v.jobs[0].sell.id);
    JobSettlesIfDeliverable(k, v, 0, r.buySigned, r.sellSigned, r.now);
  }

  lemma {:induction false} OthersRunKeepsFills(k: Ex.Contract, s: Ex.State, calls: seq<Ex.Call>)
    requires AllByOthers(k, calls)
    ensures Ex.Run(k, s, calls).orderFills == s.orderFills
  {
    hide ByOthers, Ex.Step;
    if calls != [] {
      OthersRunKeepsFills(k, s, calls[..|calls| - 1]);
      OthersKeepFills(k, Ex.Run(k, s, calls[..|calls| - 1]), calls[|calls| - 1]);
    }
  }

  lemma SettledFill(k: Ex.Contract, s: Ex.State, m: Match, r: Reply, h: Hash)
    requires m.fill >= 0 && r.mined && AllByOthers(k, r.before)
    requires Ex.Execute(k, Ex.Run(k, s, r.before), CallFor(k, m, r)).Success?
    ensures Get(AfterJob(k, s, m, r).orderFills, h) == Get(s.orderFills, h) + FillUnder(m, h)
  {
    hide Ex.Execute, Ex.Step, OrderHash;
    OthersRunKeepsFills(k, s, r.before);
    Th.SettleFacts(k, Ex.Run(k, s, r.before), CallFor(k, m, r), h);
  }

  /** While every job settles, the fills on chain grow by exactly what the jobs carry. */
  lemma {:induction false} ChainCatchesUp(k: Ex.Contract, s: Ex.State, jobs: seq<Match>,
                                         replies: seq<Reply>, n: nat, h: Hash)
    requires n <= |jobs| == |replies| && Sendable(jobs) && Replies(k, replies)
    requires forall i :: 0 <= i < n ==> Settles(k, s, jobs, replies, i)
    ensures Get(Chain(k, s, jobs, replies, n).orderFills, h) == Get(s.orderFills, h) + MatchedUnder(jobs[..n], h)
  {
    hide Ex.Execute, OrderHash, FillUnder, AfterJob, AllByOthers;
    if n > 0 {
      ChainCatchesUp(k, s, jobs, replies, n - 1, h);
      assert Settles(k, s, jobs, replies, n - 1);
      SettledFill(k, Chain(k, s, jobs, replies, n - 1), jobs[n - 1], replies[n - 1], h);
      assert jobs[..n][..n - 1] == jobs[..n - 1];
    }
  }

  /** When nothing was lost before and every queued job can be delivered when its turn comes, the worker
      settles every one of them, and the contract then agrees with the engine on what each order
      has been filled, whatever others transact meanwhile. */
  lemma DrainedQueueAgrees(k: Ex.Contract, w: World, replies: seq<Reply>, id: string)
    requires |w.jobs| == |replies| && Sendable(w.jobs) && Replies(k, replies) && Sound(k, w)
    requires AllDeliverable(k, w, replies)
    requires Unique(w, id) && Slack(w, OrderHash(w.orders[id].data)) == 0
    ensures forall n :: 0 <= n < |w.jobs| ==> Settles(k, w.chain, w.jobs, replies, n)
    ensures Get(Chain(k, w.chain, w.jobs, replies, |w.jobs|).orderFills, OrderHash(w.orders[id].data))
         == FilledBase(w, id)
  {
    hide Sound, AllDeliverable, Ex.Execute, OrderHash, MatchedUnder, Chain, Settles, FilledBase, Replies;
    var h := OrderHash(w.orders[id].data);
    forall n | 0 <= n < |w.jobs|
      ensures Settles(k, w.chain, w.jobs, replies, n)
    {
      DeliverableSettles(k, w, replies, n);
    }
    ChainCatchesUp(k, w.chain, w.jobs, replies, |w.jobs|, h);
    assert w.jobs[..|w.jobs|] == w.jobs;
    UniqueMatched(k, w, id);
  }
}
