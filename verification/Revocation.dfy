/** Cancelling on chain, one order at a time or all below a nonce, and why a settlement is refused
    (contracts/src/NexusOrderBook.sol). */
module Revocations {
  import opened Domain
  import opened OrderEncoding
  import opened Exchange
  import opened ExchangeTheory
  import opened Sums

  /** Everything but the order's cancellation, the minimum nonces and the log. */
  predicate SameBooks(s: State, s': State) {
    s'.balances == s.balances && s'.orderFills == s.orderFills && s'.tokens == s.tokens
  }

  /** A settlement with the order on either side. */
  predicate Settles(c: Call, o: OrderData) {
    c.SettleCall? && (c.buy == o || c.sell == o)
  }

  /** A dead order is refused in every continuation, and its fills stay. */
  lemma DeadNeverSettles(k: Contract, s: State, calls: seq<Call>, o: OrderData, c: Call)
    requires AllPossible(k, calls) && InRange(o) && Dead(s, o) && Settles(c, o)
    ensures Execute(k, Run(k, s, calls), c).Revert?
    ensures Get(Run(k, s, calls).orderFills, OrderHash(o)) == Get(s.orderFills, OrderHash(o))
  {
    hide OrderHash, Run;
    CancellationIsPermanent(k, s, calls, o);
  }

  // ---------------------------------------------------------------- one order

  /** Cancelling works for the order's maker, once, and marks that order and no other. */
  lemma CancelExactly(k: Contract, s: State, c: Call)
    requires c.CancelCall?
    ensures Execute(k, s, c).Success? <==> c.sender == c.order.maker && OrderHash(c.order) !in s.orderCancelled
    ensures Execute(k, s, c) == Revert(NotOrderMaker) <==> c.sender != c.order.maker
    ensures Execute(k, s, c) == Revert(AlreadyCancelled) <==>
      c.sender == c.order.maker && OrderHash(c.order) in s.orderCancelled
    ensures Execute(k, s, c).Success? ==>
      var s' := Step(k, s, c);
      && (forall h :: h in s'.orderCancelled <==> h in s.orderCancelled || h == OrderHash(c.order))
      && SameBooks(s, s') && s'.minNonce == s.minNonce
      && s'.log == s.log + [OrderCancelled(OrderHash(c.order), c.order.maker)]
  {
  }

  /** Nothing but its own maker's call cancels an order. */
  lemma OnlyMakerCancels(k: Contract, s: State, c: Call, o: OrderData)
    requires Possible(k, c) && InRange(o)
    requires OrderHash(o) !in s.orderCancelled && OrderHash(o) in Step(k, s, c).orderCancelled
    ensures c == CancelCall(o.maker, o)
  {
    hide OrderHash;
    if c.CancelCall? {
      HashIsInjective(c.order, o);
    }
  }

  /** Cancelling cancels: after it, every settlement with the order on either side reverts, in every
      continuation, and the order's fills stay. */
  lemma CancelledForGood(k: Contract, s: State, c: Call, calls: seq<Call>, settle: Call)
    requires c.CancelCall? && Possible(k, c) && Execute(k, s, c).Success?
    requires AllPossible(k, calls) && Settles(settle, c.order)
    ensures var s' := Step(k, s, c);
      && Execute(k, Run(k, s', calls), settle).Revert?
      && Get(Run(k, s', calls).orderFills, OrderHash(c.order)) == Get(s.orderFills, OrderHash(c.order))
  {
    hide OrderHash, Execute, Step, Run;
    CancelExactly(k, s, c);
    DeadNeverSettles(k, Step(k, s, c), calls, c.order, settle);
  }

  // ---------------------------------------------------------------- all orders below a nonce

  /** Raising the minimum nonce works for any higher value, stores it for the sender and nobody else. */
  lemma MinNonceExactly(k: Contract, s: State, c: Call)
    requires c.MinNonceCall?
    ensures Execute(k, s, c).Success? <==> c.newMinNonce > Get(s.minNonce, c.sender)
    ensures Execute(k, s, c).Revert? ==> Execute(k, s, c) == Revert(NonceMustIncrease)
    ensures Execute(k, s, c).Success? ==>
      var s' := Step(k, s, c);
      && (forall m :: Get(s'.minNonce, m) == if m == c.sender then c.newMinNonce else Get(s.minNonce, m))
      && SameBooks(s, s') && s'.orderCancelled == s.orderCancelled
      && s'.log == s.log + [MinNonceIncremented(c.sender, c.newMinNonce)]
  {
  }

  /** Nothing but a maker's own call changes the maker's minimum nonce. */
  lemma OnlyMakerRaises(k: Contract, s: State, c: Call, m: nat)
    requires Get(Step(k, s, c).minNonce, m) != Get(s.minNonce, m)
    ensures c == MinNonceCall(m, Get(Step(k, s, c).minNonce, m))
  {
  }

  /** After the minimum nonce was raised to `n`, the sender's orders fail the nonce check if and only if
      their nonce is below `n`, other makers' orders keep their verdict, and no order below it ever settles. */
  lemma RaisedForGood(k: Contract, s: State, c: Call, o: OrderData, calls: seq<Call>, settle: Call)
    requires c.MinNonceCall? && Execute(k, s, c).Success?
    requires AllPossible(k, calls) && InRange(o) && Settles(settle, o)
    ensures var s' := Step(k, s, c);
      && (o.maker == c.sender ==> (o.nonce < Get(s'.minNonce, o.maker) <==> o.nonce < c.newMinNonce))
      && (o.maker != c.sender ==> (Dead(s', o) <==> Dead(s, o)))
      && (o.maker == c.sender && o.nonce < c.newMinNonce ==> Execute(k, Run(k, s', calls), settle).Revert?)
  {
    hide OrderHash, Execute, Step, Run;
    MinNonceExactly(k, s, c);
    if o.maker == c.sender && o.nonce < c.newMinNonce {
      DeadNeverSettles(k, Step(k, s, c), calls, o, settle);
    }
  }

  /** The minimum nonce is the highest value its maker ever sent. */
  lemma {:induction false} MinNonceIsHighest(k: Contract, s: State, calls: seq<Call>, m: nat)
    requires Deployed(s)
    ensures var nonce := Get(Run(k, s, calls).minNonce, m);
      && (forall i :: 0 <= i < |calls| && calls[i].MinNonceCall? && calls[i].sender == m ==>
            calls[i].newMinNonce <= nonce)
      && (nonce == 0 || exists i :: 0 <= i < |calls| && calls[i] == MinNonceCall(m, nonce))
  {
    hide Step, Execute;
    if calls != [] {
      var before, c := calls[..|calls| - 1], calls[|calls| - 1];
      var was, now := Get(Run(k, s, before).minNonce, m), Get(Run(k, s, calls).minNonce, m);
      MinNonceIsHighest(k, s, before, m);
      StepNonce(k, Run(k, s, before), c, m);
      if now == was && was != 0 {
        var i :| 0 <= i < |before| && before[i] == MinNonceCall(m, was);
        assert calls[i] == before[i];
      } else if now != was {
        assert calls[|calls| - 1] == MinNonceCall(m, now);
      }
      forall i | 0 <= i < |calls| && calls[i].MinNonceCall? && calls[i].sender == m
        ensures calls[i].newMinNonce <= now
      {
        assert i < |before| ==> before[i] == calls[i];
      }
    }
  }

  lemma StepNonce(k: Contract, s: State, c: Call, m: nat)
    ensures var was, now := Get(s.minNonce, m), Get(Step(k, s, c).minNonce, m);
      && was <= now && (now != was ==> c == MinNonceCall(m, now))
      && (c.MinNonceCall? && c.sender == m ==> c.newMinNonce <= now)
  {
    hide OrderHash;
  }

  /** A call succeeds if and only if its value is positive and exceeds every value its maker sent before. */
  lemma RaisesAboveAll(k: Contract, s: State, calls: seq<Call>, c: Call)
    requires Deployed(s) && c.MinNonceCall?
    ensures Execute(k, Run(k, s, calls), c).Success? <==>
      c.newMinNonce > 0 && forall i :: 0 <= i < |calls| && calls[i].MinNonceCall? && calls[i].sender == c.sender ==>
        calls[i].newMinNonce < c.newMinNonce
  {
    hide Run, Execute;
    MinNonceIsHighest(k, s, calls, c.sender);
    MinNonceExactly(k, Run(k, s, calls), c);
  }

  // ---------------------------------------------------------------- why a settlement is refused

  /** What each reason says of the call. */
  predicate Cause(k: Contract, s: State, c: Call, r: Reason)
    requires c.SettleCall?
  {
    match r
    case NotOwner => c.sender != k.owner
    case TokenMismatchBuy => c.buy.tokenBuy != c.sell.tokenSell
    case TokenMismatchSell => c.buy.tokenSell != c.sell.tokenBuy
    case InvalidBuySignature => !c.buySigned
    case InvalidSellSignature => !c.sellSigned
    case BuyExpired => c.now > c.buy.expiry
    case SellExpired => c.now > c.sell.expiry
    case BuyNonceTooLow => c.buy.nonce < Get(s.minNonce, c.buy.maker)
    case SellNonceTooLow => c.sell.nonce < Get(s.minNonce, c.sell.maker)
    case BuyCancelled => OrderHash(c.buy) in s.orderCancelled
    case SellCancelled => OrderHash(c.sell) in s.orderCancelled
    case PriceIncompatible =>
      c.sell.amountSell > 0 && c.buy.amountBuy > 0 && AtBuyRatio(c.buy, c.fill) < AtSellRatio(c.sell, c.fill)
    case SellOverfill => Get(s.orderFills, OrderHash(c.sell)) + c.fill > c.sell.amountSell
    case BuyOverfill => Get(s.orderFills, OrderHash(c.buy)) + c.fill > c.buy.amountBuy
    case BuyerInsufficient =>
      c.sell.amountSell > 0 && Get(s.balances, (c.buy.maker, c.buy.tokenSell)) < AtSellRatio(c.sell, c.fill)
    case SellerInsufficient => Get(s.balances, (c.sell.maker, c.sell.tokenSell)) < c.fill
    case _ => false
  }

  /** The order in which the contract looks for the causes. */
  const LOOKED_FOR: seq<Reason> := [
    NotOwner, TokenMismatchBuy, TokenMismatchSell, InvalidBuySignature, InvalidSellSignature, BuyExpired, SellExpired,
    BuyNonceTooLow, SellNonceTooLow, BuyCancelled, SellCancelled, PriceIncompatible, SellOverfill, BuyOverfill,
    BuyerInsufficient, SellerInsufficient]

  lemma LookedFor()
    ensures |LOOKED_FOR| == 16
    ensures LOOKED_FOR[0] == NotOwner && LOOKED_FOR[1] == TokenMismatchBuy && LOOKED_FOR[2] == TokenMismatchSell
    ensures LOOKED_FOR[3] == InvalidBuySignature && LOOKED_FOR[4] == InvalidSellSignature
    ensures LOOKED_FOR[5] == BuyExpired && LOOKED_FOR[6] == SellExpired
    ensures LOOKED_FOR[7] == BuyNonceTooLow && LOOKED_FOR[8] == SellNonceTooLow
    ensures LOOKED_FOR[9] == BuyCancelled && LOOKED_FOR[10] == SellCancelled
    ensures LOOKED_FOR[11] == PriceIncompatible && LOOKED_FOR[12] == SellOverfill && LOOKED_FOR[13] == BuyOverfill
    ensures LOOKED_FOR[14] == BuyerInsufficient && LOOKED_FOR[15] == SellerInsufficient
  {
  }

  /** How far the contract gets: the place of the cause it stops at, or the number of causes. */
  function Reached(o: Outcome): nat {
    match o
    case Success(_) => 16
    case Revert(r) =>
      match r
      case NotOwner => 0 case TokenMismatchBuy => 1 case TokenMismatchSell => 2
      case InvalidBuySignature => 3 case InvalidSellSignature => 4 case BuyExpired => 5 case SellExpired => 6
      case BuyNonceTooLow => 7 case SellNonceTooLow => 8 case BuyCancelled => 9 case SellCancelled => 10
      case PriceIncompatible => 11 case SellOverfill => 12 case BuyOverfill => 13
      case BuyerInsufficient => 14 case _ => 15
  }

  lemma StopsOpening(k: Contract, s: State, c: Call)
    requires c.SettleCall? && Reached(Execute(k, s, c)) < 11
    ensures var n := Reached(Execute(k, s, c));
      Cause(k, s, c, LOOKED_FOR[n]) && Execute(k, s, c) == Revert(LOOKED_FOR[n])
  {
    hide OrderHash, AtSellRatio, AtBuyRatio, Transfers, TransfersInRange, QuotesDefined, ValidOrders, LOOKED_FOR,
         Get, Add;
    LookedFor();
    FailedCheck(s.minNonce, c.buy, c.buySigned, c.sell, c.sellSigned, c.now);
    FailedCheckHasCause(k, s, c);
  }

  lemma FailedCheckHasCause(k: Contract, s: State, c: Call)
    requires c.SettleCall?
    ensures var check := ValidOrders(s.minNonce, c.buy, c.buySigned, c.sell, c.sellSigned, c.now);
      check.Failed? ==>
        Cause(k, s, c, check.reason) && LOOKED_FOR[Reached(Revert(check.reason))] == check.reason
  {
    hide OrderHash, AtSellRatio, AtBuyRatio, LOOKED_FOR, Get;
    LookedFor();
    FailedCheck(s.minNonce, c.buy, c.buySigned, c.sell, c.sellSigned, c.now);
  }

  lemma StopsClosing(k: Contract, s: State, c: Call)
    requires c.SettleCall? && Execute(k, s, c) != Revert(Panic) && 11 <= Reached(Execute(k, s, c)) < 16
    ensures var n := Reached(Execute(k, s, c));
      Cause(k, s, c, LOOKED_FOR[n]) && Execute(k, s, c) == Revert(LOOKED_FOR[n])
  {
    hide OrderHash, AtSellRatio, AtBuyRatio, Transfers, TransfersInRange, ValidOrders, LOOKED_FOR, Get, Add;
    LookedFor();
    FailedCheck(s.minNonce, c.buy, c.buySigned, c.sell, c.sellSigned, c.now);
  }

  lemma FailedCheck(minNonce: map<nat, nat>, buy: OrderData, buySigned: bool,
                    sell: OrderData, sellSigned: bool, now: nat)
    ensures var check := ValidOrders(minNonce, buy, buySigned, sell, sellSigned, now);
      check.Failed? ==> 1 <= Reached(Revert(check.reason)) <= 8 && check.reason != Panic
  {
  }

  lemma NoOpeningCause(k: Contract, s: State, c: Call, j: nat)
    requires c.SettleCall? && Execute(k, s, c) != Revert(Panic) && j < Reached(Execute(k, s, c)) && j < 11
    ensures !Cause(k, s, c, LOOKED_FOR[j])
  {
    hide OrderHash, AtSellRatio, AtBuyRatio, Transfers, TransfersInRange, QuotesDefined, LOOKED_FOR, Get, Add;
    LookedFor();
  }

  lemma NoClosingCause(k: Contract, s: State, c: Call, j: nat)
    requires c.SettleCall? && Execute(k, s, c) != Revert(Panic) && 11 <= j < Reached(Execute(k, s, c))
    ensures !Cause(k, s, c, LOOKED_FOR[j])
  {
    hide OrderHash, AtSellRatio, AtBuyRatio, Transfers, TransfersInRange, ValidOrders, LOOKED_FOR, Get, Add;
    LookedFor();
    FailedCheck(s.minNonce, c.buy, c.buySigned, c.sell, c.sellSigned, c.now);
  }

  /** Unless arithmetic fails, a settlement is refused for the first cause there is, and goes through when
      there is none. */
  lemma RefusedForFirstCause(k: Contract, s: State, c: Call, i: nat)
    requires c.SettleCall? && Execute(k, s, c) != Revert(Panic) && i < |LOOKED_FOR|
    ensures Execute(k, s, c) == Revert(LOOKED_FOR[i]) <==>
      Cause(k, s, c, LOOKED_FOR[i]) && forall j :: 0 <= j < i ==> !Cause(k, s, c, LOOKED_FOR[j])
    ensures Execute(k, s, c).Success? <==> forall j :: 0 <= j < |LOOKED_FOR| ==> !Cause(k, s, c, LOOKED_FOR[j])
  {
    hide Execute, Cause, LOOKED_FOR;
    LookedFor();
    var n := Reached(Execute(k, s, c));
    if n < 11 {
      StopsOpening(k, s, c);
    } else if n < 16 {
      StopsClosing(k, s, c);
    }
    forall j | 0 <= j < n && j < 16
      ensures !Cause(k, s, c, LOOKED_FOR[j])
    {
      if j < 11 {
        NoOpeningCause(k, s, c, j);
      } else {
        NoClosingCause(k, s, c, j);
      }
    }
    if n < |LOOKED_FOR| && i != n {
      LookedForOnce(i, n);
    }
  }

  lemma LookedForOnce(i: nat, n: nat)
    requires i < |LOOKED_FOR| && n < |LOOKED_FOR| && i != n
    ensures LOOKED_FOR[i] != LOOKED_FOR[n]
  {
  }
}
