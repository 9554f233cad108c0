/** Contract, chain and indexer together: what the handler is told reproduces the contract's books. */
module IndexedChain {
  import opened OrderEncoding
  import opened Exchange
  import opened Sums
  import opened ExchangeTheory
  import opened Indexer

  /** The contract after the first `n` blocks of transactions. */
  function StateAt(k: Contract, s: State, blocks: seq<seq<Call>>, n: nat): State
    requires n <= |blocks|
  {
    if n == 0 then s else Run(k, StateAt(k, s, blocks, n - 1), blocks[n - 1])
  }

  function EmittedAll(events: seq<Event>): (logs: seq<RawLog>)
    ensures |logs| == |events|
  {
    if events == [] then [] else EmittedAll(events[..|events| - 1]) + [Emitted(events[|events| - 1])]
  }

  /** The events a block adds to the log. */
  function NewEvents(k: Contract, s: State, blocks: seq<seq<Call>>, n: nat): seq<Event>
    requires 0 < n <= |blocks|
  {
    var before, after := StateAt(k, s, blocks, n - 1).log, StateAt(k, s, blocks, n).log;
    if |before| <= |after| then after[|before|..] else []
  }

  /** The chain the indexer polls: a genesis block without logs, then one block per list of transactions. */
  function ChainOf(k: Contract, s: State, blocks: seq<seq<Call>>): (chain: seq<Block>)
    ensures |chain| == |blocks| + 1 && chain[0] == []
    ensures forall n :: 0 < n <= |blocks| ==> chain[n] == EmittedAll(NewEvents(k, s, blocks, n))
  {
    seq(|blocks| + 1, n requires 0 <= n <= |blocks| => if n == 0 then [] else EmittedAll(NewEvents(k, s, blocks, n)))
  }

  lemma {:induction false} EmittedJoin(a: seq<Event>, b: seq<Event>)
    ensures EmittedAll(a + b) == EmittedAll(a) + EmittedAll(b)
    decreases |b|
  {
    if b == [] {
      assert a + b == a;
    } else {
      assert (a + b)[..|a + b| - 1] == a + b[..|b| - 1];
      EmittedJoin(a, b[..|b| - 1]);
    }
  }

  lemma BlockAppends(k: Contract, s: State, blocks: seq<seq<Call>>, n: nat)
    requires 0 < n <= |blocks|
    ensures StateAt(k, s, blocks, n).log == StateAt(k, s, blocks, n - 1).log + NewEvents(k, s, blocks, n)
  {
    RunOnlyAppends(k, StateAt(k, s, blocks, n - 1), blocks[n - 1]);
  }

  /** Blocks 1 to n of the chain carry the contract's whole log up to block n. */
  lemma {:induction false} ChainCarriesLog(k: Contract, s: State, blocks: seq<seq<Call>>, chain: seq<Block>, n: nat)
    requires n <= |blocks| && s.log == [] && chain == ChainOf(k, s, blocks)
    ensures LogsBetween(chain, 1, n) == EmittedAll(StateAt(k, s, blocks, n).log)
  {
    hide ChainOf, EmittedAll, StateAt, NewEvents;
    ChainAt(k, s, blocks, n);
    if n > 0 {
      ChainCarriesLog(k, s, blocks, chain, n - 1);
      BlockAppends(k, s, blocks, n);
      EmittedJoin(StateAt(k, s, blocks, n - 1).log, NewEvents(k, s, blocks, n));
    }
  }

  lemma ChainAt(k: Contract, s: State, blocks: seq<seq<Call>>, n: nat)
    requires n <= |blocks|
    ensures n > 0 ==> ChainOf(k, s, blocks)[n] == EmittedAll(NewEvents(k, s, blocks, n))
    ensures StateAt(k, s, blocks, 0) == s && EmittedAll([]) == []
  {
  }

  ghost predicate AllInRange(log: seq<Event>) {
    forall i :: 0 <= i < |log| ==> EventInRange(log[i])
  }

  lemma StepStaysInRange(k: Contract, s: State, c: Call)
    requires Possible(k, c) && AllInRange(s.log)
    requires c.SettleCall? ==> forall h :: Get(s.orderFills, h) >= 0
    ensures AllInRange(Step(k, s, c).log)
  {
  }

  lemma {:induction false} RunStaysInRange(k: Contract, s: State, calls: seq<Call>)
    requires AllPossible(k, calls) && AllInRange(s.log) && forall h :: Get(s.orderFills, h) >= 0
    requires Replay(s.log) == Books(s.balances, s.orderFills)
    ensures var e := Run(k, s, calls);
      && AllInRange(e.log) && (forall h :: Get(e.orderFills, h) >= 0)
      && Replay(e.log) == Books(e.balances, e.orderFills)
  {
    if calls != [] {
      var before, c := calls[..|calls| - 1], calls[|calls| - 1];
      RunStaysInRange(k, s, before);
      StepStaysInRange(k, Run(k, s, before), c);
      StepIsLogged(k, Run(k, s, before), c);
      forall h: Hash
        ensures Get(Run(k, s, calls).orderFills, h) >= 0
      {
        StepIsMonotone(k, Run(k, s, before), c, h, 0);
      }
    }
  }

  lemma {:induction false} BlocksStayInRange(k: Contract, s: State, blocks: seq<seq<Call>>, n: nat)
    requires Deployed(s) && n <= |blocks| && forall b :: 0 <= b < |blocks| ==> AllPossible(k, blocks[b])
    ensures var e := StateAt(k, s, blocks, n);
      && AllInRange(e.log) && (forall h :: Get(e.orderFills, h) >= 0)
      && Replay(e.log) == Books(e.balances, e.orderFills)
  {
    if n > 0 {
      BlocksStayInRange(k, s, blocks, n - 1);
      RunStaysInRange(k, StateAt(k, s, blocks, n - 1), blocks[n - 1]);
    }
  }

  /** Decoding emitted events and folding what the handler is told is the same as folding the log. */
  lemma {:induction false} HandlerSeesLog(events: seq<Event>)
    requires AllInRange(events)
    ensures AllWellFormed(EmittedAll(events))
    ensures Replay(ProcessAll(EmittedAll(events))) == Replay(events)
  {
    hide ProcessLog, Emitted, WellFormed, EventInRange, Resolve, Move, Add;
    if events != [] {
      var n := |events| - 1;
      HandlerSeesLog(events[..n]);
      LogRoundTrip(events[n]);
      var logs := EmittedAll(events);
      assert logs[..n] == EmittedAll(events[..n]);
      var sofar := ProcessAll(logs[..n]);
      if Handled(events[n]) == [] {
        assert ProcessAll(logs) == sofar + [] == sofar;
      } else {
        LogGrows(sofar, events[n]);
      }
    }
  }

  lemma ChainIsWellFormed(k: Contract, s: State, blocks: seq<seq<Call>>, b: nat)
    requires Deployed(s) && forall i :: 0 <= i < |blocks| ==> AllPossible(k, blocks[i])
    requires b <= |blocks|
    ensures AllWellFormed(ChainOf(k, s, blocks)[b])
  {
    if b > 0 {
      BlocksStayInRange(k, s, blocks, b);
      HandlerSeesLog(NewEvents(k, s, blocks, b));
    }
  }

  /** Whatever requests failed on the way, what the handler was told up to block `n` folds to the
      contract's balances and fills as of block `n`: with the contract of `Indexer.Start`, this holds at
      the last indexed block of every run. */
  lemma IndexerRebuilds(k: Contract, s: State, blocks: seq<seq<Call>>, n: nat)
    requires Deployed(s) && forall b :: 0 <= b < |blocks| ==> AllPossible(k, blocks[b])
    requires n <= |blocks|
    ensures forall b :: 0 <= b <= |blocks| ==> AllWellFormed(ChainOf(k, s, blocks)[b])
    ensures AllWellFormed(LogsBetween(ChainOf(k, s, blocks), 1, n))
    ensures var e := StateAt(k, s, blocks, n);
      Replay(ProcessAll(LogsBetween(ChainOf(k, s, blocks), 1, n))) == Books(e.balances, e.orderFills)
  {
    forall b | 0 <= b <= |blocks|
      ensures AllWellFormed(ChainOf(k, s, blocks)[b])
    {
      ChainIsWellFormed(k, s, blocks, b);
    }
    LogsAreWellFormed(ChainOf(k, s, blocks), 1, n);
    ChainCarriesLog(k, s, blocks, ChainOf(k, s, blocks), n);
    BlocksStayInRange(k, s, blocks, n);
    HandlerSeesLog(StateAt(k, s, blocks, n).log);
  }
}
