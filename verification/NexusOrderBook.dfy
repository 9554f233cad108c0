/** The contract of contracts/src/NexusOrderBook.sol as an object whose storage its functions update step
    by step, each function proved against the transaction it stands for. */
module NexusOrderBooks {
  import opened Domain
  import opened OrderEncoding
  import opened Exchange
  import opened Sums

  datatype Result = Ok | Reverted(reason: Reason)

  /** The transaction ended as `outcome` says, and a reverted one left the state as it was. */
  predicate Ended(outcome: Outcome, before: State, after: State, r: Result) {
    match outcome
    case Success(s) => r == Ok && after == s
    case Revert(reason) => r == Reverted(reason) && after == before
  }

  class NexusOrderBook {
    const address: nat
    const owner: nat

    var balances: map<Account, int>
    var orderFills: map<Hash, int>
    var orderCancelled: set<Hash>
    var minNonce: map<nat, nat>
    var tokens: map<Account, int>
    var log: seq<Event>

    constructor (address: nat, deployer: nat, tokens: map<Account, int>)
      ensures Deployed(Value()) && this.tokens == tokens
      ensures This() == Contract(address, deployer)
    {
      this.address, owner := address, deployer;
      balances, orderFills, orderCancelled, minNonce := map[], map[], {}, map[];
      this.tokens := tokens;
      log := [];
    }

    function This(): Contract {
      Contract(address, owner)
    }

    function Value(): State
      reads this
    {
      State(balances, orderFills, orderCancelled, minNonce, tokens, log)
    }

    /** The EVM undoes every write of a reverted transaction. */
    method Undo(s: State)
      modifies this
      ensures Value() == s
    {
      balances, orderFills, orderCancelled, minNonce := s.balances, s.orderFills, s.orderCancelled, s.minNonce;
      tokens, log := s.tokens, s.log;
    }

    method Emit(e: Event)
      modifies this`log
      ensures log == old(log) + [e]
    {
      log := log + [e];
    }

    /** `balances[a] += amount` in checked arithmetic. */
    method Credit(a: Account, amount: nat) returns (ok: bool)
      modifies this`balances
      ensures ok <==> Get(old(balances), a) + amount < UINT256_LIMIT
      ensures balances == if ok then Add(old(balances), a, amount) else old(balances)
    {
      ok := Get(balances, a) + amount < UINT256_LIMIT;
      if ok {
        balances := balances[a := Get(balances, a) + amount];
      }
    }

    /** `balances[a] -= amount` in checked arithmetic. */
    method Debit(a: Account, amount: nat) returns (ok: bool)
      modifies this`balances
      ensures ok <==> Get(old(balances), a) >= amount
      ensures balances == if ok then Add(old(balances), a, -(amount as int)) else old(balances)
    {
      ok := Get(balances, a) >= amount;
      if ok {
        balances := balances[a := Get(balances, a) - amount];
      }
    }

    /** EIP-20 `transfer` and `transferFrom`: exact, or failing when the holder has too little. */
    method SafeTransfer(token: nat, from: nat, to: nat, amount: nat) returns (ok: bool)
      modifies this`tokens
      ensures ok <==> Get(old(tokens), (from, token)) >= amount
      ensures tokens == if ok then Move(old(tokens), token, from, to, amount) else old(tokens)
    {
      ok := Get(tokens, (from, token)) >= amount;
      if ok {
        tokens := Move(tokens, token, from, to, amount);
      }
    }

    /** Whatever transaction comes next. */
    method Transact(c: Call)
      requires Possible(This(), c)
      modifies this
      ensures Value() == Step(This(), old(Value()), c)
    {
      hide InRange, ExecuteSettle, ExecuteDeposit, ExecuteWithdraw, ExecuteCancel, ExecuteMinNonce;
      match c
      case DepositCall(sender, token, amount, approved) =>
        var r := DepositTokens(sender, token, amount, approved);
      case WithdrawCall(sender, token, amount) =>
        var r := WithdrawTokens(sender, token, amount);
      case SettleCall(sender, buy, buySigned, sell, sellSigned, fill, now) =>
        var r := SettleMatch(sender, buy, buySigned, sell, sellSigned, fill, now);
      case CancelCall(sender, order) =>
        var r := CancelOrder(sender, order);
      case MinNonceCall(sender, newMinNonce) =>
        var r := IncrementMinNonce(sender, newMinNonce);
      case TokenTransfer(sender, to, token, amount) =>
        var ok := SafeTransfer(token, sender, to, amount);
    }

    method DepositTokens(sender: nat, token: nat, amount: nat, approved: bool) returns (r: Result)
      modifies this
      ensures Ended(Execute(This(), old(Value()), DepositCall(sender, token, amount, approved)),
                    old(Value()), Value(), r)
    {
      var saved := Value();
      if amount == 0 {
        return Reverted(ZeroAmount);
      }
      if !approved {
        return Reverted(TransferFailed);
      }
      var ok := SafeTransfer(token, sender, address, amount);
      if !ok {
        return Reverted(TransferFailed);
      }
      ok := Credit((sender, token), amount);
      if !ok {
        Undo(saved);
        return Reverted(Panic);
      }
      Emit(Deposit(sender, token, amount));
      return Ok;
    }

    method WithdrawTokens(sender: nat, token: nat, amount: nat) returns (r: Result)
      modifies this
      ensures Ended(Execute(This(), old(Value()), WithdrawCall(sender, token, amount)), old(Value()), Value(), r)
    {
      var saved := Value();
      if amount == 0 {
        return Reverted(ZeroAmount);
      }
      if Get(balances, (sender, token)) < amount {
        return Reverted(InsufficientBalance);
      }
      var ok := Debit((sender, token), amount);
      ok := SafeTransfer(token, address, sender, amount);
      if !ok {
        Undo(saved);
        return Reverted(TransferFailed);
      }
      Emit(Withdraw(sender, token, amount));
      return Ok;
    }

    method SettleMatch(sender: nat, buy: OrderData, buySigned: bool, sell: OrderData, sellSigned: bool,
                       fillAmount: nat, now: nat) returns (r: Result)
      requires InRange(buy) && InRange(sell)
      modifies this
      ensures Ended(Execute(This(), old(Value()),
                            SettleCall(sender, buy, buySigned, sell, sellSigned, fillAmount, now)),
                    old(Value()), Value(), r)
    {
      hide OrderHash, QuotesDefined, AtSellRatio, AtBuyRatio, Transfers, TransfersInRange, InRange, Get, Move;
      var saved := Value();
      if sender != owner {
        return Reverted(NotOwner);
      }
      r := ValidateOrders(buy, buySigned, sell, sellSigned, now);
      if r.Reverted? {
        return;
      }
      var buyHash, sellHash := OrderHash(buy), OrderHash(sell);
      if buyHash in orderCancelled {
        return Reverted(BuyCancelled);
      }
      if sellHash in orderCancelled {
        return Reverted(SellCancelled);
      }
      var sellerReceives, buyerPays;
      r, sellerReceives, buyerPays := Quotes(buy, sell, fillAmount);
      if r.Reverted? {
        return;
      }
      if buyerPays < sellerReceives {
        return Reverted(PriceIncompatible);
      }
      if Get(orderFills, sellHash) + fillAmount >= UINT256_LIMIT {
        return Reverted(Panic);
      }
      if Get(orderFills, sellHash) + fillAmount > sell.amountSell {
        return Reverted(SellOverfill);
      }
      if Get(orderFills, buyHash) + fillAmount >= UINT256_LIMIT {
        return Reverted(Panic);
      }
      if Get(orderFills, buyHash) + fillAmount > buy.amountBuy {
        return Reverted(BuyOverfill);
      }
      orderFills := orderFills[sellHash := Get(orderFills, sellHash) + fillAmount];
      GetAdded(orderFills, buyHash, fillAmount);
      if Get(orderFills, buyHash) + fillAmount >= UINT256_LIMIT {
        Undo(saved);
        return Reverted(Panic);
      }
      orderFills := orderFills[buyHash := Get(orderFills, buyHash) + fillAmount];
      r := ExecuteTransfers(buy, sell, fillAmount, sellerReceives);
      if r.Reverted? {
        Undo(saved);
        return;
      }
      Emit(TradeSettled(buyHash, sellHash, buy.maker, sell.maker, fillAmount, sellerReceives));
    }

    /** Lines 71-72 in checked arithmetic. */
    method Quotes(buy: OrderData, sell: OrderData, fillAmount: nat)
      returns (r: Result, sellerReceives: nat, buyerPays: nat)
      ensures r == if QuotesDefined(buy, sell, fillAmount) then Ok else Reverted(Panic)
      ensures r.Ok? ==> sellerReceives == AtSellRatio(sell, fillAmount) && buyerPays == AtBuyRatio(buy, fillAmount)
    {
      if fillAmount * sell.amountBuy >= UINT256_LIMIT || sell.amountSell == 0 {
        return Reverted(Panic), 0, 0;
      }
      sellerReceives := fillAmount * sell.amountBuy / sell.amountSell;
      if fillAmount * buy.amountSell >= UINT256_LIMIT || buy.amountBuy == 0 {
        return Reverted(Panic), 0, 0;
      }
      buyerPays := fillAmount * buy.amountSell / buy.amountBuy;
      return Ok, sellerReceives, buyerPays;
    }

    method ValidateOrders(buy: OrderData, buySigned: bool, sell: OrderData, sellSigned: bool, now: nat)
      returns (r: Result)
      ensures var check := ValidOrders(minNonce, buy, buySigned, sell, sellSigned, now);
        r == if check.Passed? then Ok else Reverted(check.reason)
    {
      if buy.tokenBuy != sell.tokenSell {
        return Reverted(TokenMismatchBuy);
      }
      if buy.tokenSell != sell.tokenBuy {
        return Reverted(TokenMismatchSell);
      }
      if !buySigned {
        return Reverted(InvalidBuySignature);
      }
      if !sellSigned {
        return Reverted(InvalidSellSignature);
      }
      if now > buy.expiry {
        return Reverted(BuyExpired);
      }
      if now > sell.expiry {
        return Reverted(SellExpired);
      }
      if buy.nonce < Get(minNonce, buy.maker) {
        return Reverted(BuyNonceTooLow);
      }
      if sell.nonce < Get(minNonce, sell.maker) {
        return Reverted(SellNonceTooLow);
      }
      return Ok;
    }

    method ExecuteTransfers(buy: OrderData, sell: OrderData, fillAmount: nat, sellerReceives: nat) returns (r: Result)
      requires buy.tokenBuy == sell.tokenSell && buy.tokenSell == sell.tokenBuy
      modifies this`balances
      ensures var b := old(balances);
        if Get(b, (buy.maker, buy.tokenSell)) < sellerReceives then r == Reverted(BuyerInsufficient)
        else if Get(b, (sell.maker, sell.tokenSell)) < fillAmount then r == Reverted(SellerInsufficient)
        else if TransfersInRange(b, buy, sell, fillAmount, sellerReceives) then
          r == Ok && balances == Transfers(b, buy, sell, fillAmount, sellerReceives)
        else r == Reverted(Panic)
    {
      if Get(balances, (buy.maker, buy.tokenSell)) < sellerReceives {
        return Reverted(BuyerInsufficient);
      }
      if Get(balances, (sell.maker, sell.tokenSell)) < fillAmount {
        return Reverted(SellerInsufficient);
      }
      var ok := Debit((buy.maker, buy.tokenSell), sellerReceives);
      ok := Credit((sell.maker, sell.tokenBuy), sellerReceives);
      if !ok {
        return Reverted(Panic);
      }
      ok := Debit((sell.maker, sell.tokenSell), fillAmount);
      if !ok {
        return Reverted(Panic);
      }
      ok := Credit((buy.maker, buy.tokenBuy), fillAmount);
      if !ok {
        return Reverted(Panic);
      }
      return Ok;
    }

    method CancelOrder(sender: nat, order: OrderData) returns (r: Result)
      requires InRange(order)
      modifies this
      ensures Ended(Execute(This(), old(Value()), CancelCall(sender, order)), old(Value()), Value(), r)
    {
      if sender != order.maker {
        return Reverted(NotOrderMaker);
      }
      var orderHash := OrderHash(order);
      if orderHash in orderCancelled {
        return Reverted(AlreadyCancelled);
      }
      orderCancelled := orderCancelled + {orderHash};
      Emit(OrderCancelled(orderHash, sender));
      return Ok;
    }

    method IncrementMinNonce(sender: nat, newMinNonce: nat) returns (r: Result)
      modifies this
      ensures Ended(Execute(This(), old(Value()), MinNonceCall(sender, newMinNonce)), old(Value()), Value(), r)
    {
      if newMinNonce <= Get(minNonce, sender) {
        return Reverted(NonceMustIncrease);
      }
      minNonce := minNonce[sender := newMinNonce];
      Emit(MinNonceIncremented(sender, newMinNonce));
      return Ok;
    }
  }
}
