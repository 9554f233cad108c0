/** The vault and settlement contract of contracts/src/NexusOrderBook.sol, as a state machine on values. */
module Exchange {
  import opened Domain
  import opened OrderEncoding
  import opened Sums

  type Account = (nat, nat)   // (holder, token)

  datatype Event =
    | Deposit(user: nat, token: nat, amount: nat)
    | Withdraw(user: nat, token: nat, amount: nat)
    | TradeSettled(buyHash: Hash, sellHash: Hash, buyer: nat, seller: nat, baseAmount: nat, quoteAmount: nat)
    | OrderCancelled(hash: Hash, maker: nat)
    | MinNonceIncremented(maker: nat, newMinNonce: nat)

  /** The contract's storage, its event log, and the EIP-20 ledgers of all tokens. Absent keys read 0. */
  datatype State = State(
    balances: map<Account, int>,
    orderFills: map<Hash, int>,
    orderCancelled: set<Hash>,
    minNonce: map<nat, nat>,
    tokens: map<Account, int>,
    log: seq<Event>)

  datatype Contract = Contract(address: nat, owner: nat)

  /** Every transaction that touches the state. `TokenTransfer` is an EIP-20 transfer made without the
      contract, possibly to it; signature checks enter as their verdicts, and so does the token's check of
      the allowance a deposit needs. */
  datatype Call =
    | DepositCall(sender: nat, token: nat, amount: nat, approved: bool)
    | WithdrawCall(sender: nat, token: nat, amount: nat)
    | SettleCall(sender: nat, buy: OrderData, buySigned: bool, sell: OrderData, sellSigned: bool, fill: nat, now: nat)
    | CancelCall(sender: nat, order: OrderData)
    | MinNonceCall(sender: nat, newMinNonce: nat)
    | TokenTransfer(sender: nat, to: nat, token: nat, amount: nat)

  datatype Reason =
    | ZeroAmount | TransferFailed | InsufficientBalance
    | NotOwner | TokenMismatchBuy | TokenMismatchSell | InvalidBuySignature | InvalidSellSignature
    | BuyExpired | SellExpired | BuyNonceTooLow | SellNonceTooLow | BuyCancelled | SellCancelled
    | PriceIncompatible | SellOverfill | BuyOverfill
    | BuyerInsufficient | SellerInsufficient
    | NotOrderMaker | AlreadyCancelled | NonceMustIncrease
    | Panic   // checked arithmetic: overflow, underflow or division by zero

  datatype Outcome = Success(state: State) | Revert(reason: Reason)

  function Add<K>(m: map<K, int>, k: K, v: int): map<K, int> {
    m[k := Get(m, k) + v]
  }

  lemma GetAdded<K>(m: map<K, int>, k: K, v: int)
    ensures Get(Add(m, k, v), k) == Get(m, k) + v
  {
  }

  /** Move an amount of a token between two holders. */
  function Move(m: map<Account, int>, token: nat, from: nat, to: nat, amount: int): map<Account, int> {
    Add(Add(m, (from, token), -amount), (to, token), amount)
  }

  // ---------------------------------------------------------------- deposit and withdraw

  function ExecuteDeposit(k: Contract, s: State, c: Call): Outcome
    requires c.DepositCall?
  {
    if c.amount == 0 then Revert(ZeroAmount)
    else if !c.approved || Get(s.tokens, (c.sender, c.token)) < c.amount then Revert(TransferFailed)
    else if Get(s.balances, (c.sender, c.token)) + c.amount >= UINT256_LIMIT then Revert(Panic)
    else Success(s.(
      tokens := Move(s.tokens, c.token, c.sender, k.address, c.amount),
      balances := Add(s.balances, (c.sender, c.token), c.amount),
      log := s.log + [Deposit(c.sender, c.token, c.amount)]))
  }

  function ExecuteWithdraw(k: Contract, s: State, c: Call): Outcome
    requires c.WithdrawCall?
  {
    if c.amount == 0 then Revert(ZeroAmount)
    else if Get(s.balances, (c.sender, c.token)) < c.amount then Revert(InsufficientBalance)
    else if Get(s.tokens, (k.address, c.token)) < c.amount then Revert(TransferFailed)
    else Success(s.(
      balances := Add(s.balances, (c.sender, c.token), -(c.amount as int)),
      tokens := Move(s.tokens, c.token, k.address, c.sender, c.amount),
      log := s.log + [Withdraw(c.sender, c.token, c.amount)]))
  }

  // ---------------------------------------------------------------- settleMatch

  datatype Check = Passed | Failed(reason: Reason)

  /** The first requirement of `_validateOrders` that fails. */
  function ValidOrders(minNonce: map<nat, nat>, buy: OrderData, buySigned: bool,
                       sell: OrderData, sellSigned: bool, now: nat): Check
  {
    if buy.tokenBuy != sell.tokenSell then Failed(TokenMismatchBuy)
    else if buy.tokenSell != sell.tokenBuy then Failed(TokenMismatchSell)
    else if !buySigned then Failed(InvalidBuySignature)
    else if !sellSigned then Failed(InvalidSellSignature)
    else if now > buy.expiry then Failed(BuyExpired)
    else if now > sell.expiry then Failed(SellExpired)
    else if buy.nonce < Get(minNonce, buy.maker) then Failed(BuyNonceTooLow)
    else if sell.nonce < Get(minNonce, sell.maker) then Failed(SellNonceTooLow)
    else Passed
  }

  /** Quote for a fill at an order's ratio, rounded down. */
  function AtSellRatio(o: OrderData, fill: nat): nat
    requires o.amountSell > 0
  {
    fill * o.amountBuy / o.amountSell
  }

  function AtBuyRatio(o: OrderData, fill: nat): nat
    requires o.amountBuy > 0
  {
    fill * o.amountSell / o.amountBuy
  }

  /** Both products and both quotients of lines 71-72 are defined in uint256. */
  predicate QuotesDefined(buy: OrderData, sell: OrderData, fill: nat) {
    && fill * sell.amountBuy < UINT256_LIMIT && sell.amountSell > 0
    && fill * buy.amountSell < UINT256_LIMIT && buy.amountBuy > 0
  }

  /** The four balance updates of `_executeTransfers`. */
  function Transfers(b: map<Account, int>, buy: OrderData, sell: OrderData, fill: nat, sellerReceives: nat)
    : map<Account, int> {
    Move(Move(b, buy.tokenSell, buy.maker, sell.maker, sellerReceives),
         sell.tokenSell, sell.maker, buy.maker, fill)
  }

  /** No update of `_executeTransfers` leaves the uint256 range, once its two guards have passed. */
  predicate TransfersInRange(b: map<Account, int>, buy: OrderData, sell: OrderData, fill: nat, sellerReceives: nat) {
    var received := Move(b, buy.tokenSell, buy.maker, sell.maker, sellerReceives);
    && Get(received, (sell.maker, sell.tokenBuy)) < UINT256_LIMIT
    && Get(received, (sell.maker, sell.tokenSell)) >= fill
    && Get(Transfers(b, buy, sell, fill, sellerReceives), (buy.maker, buy.tokenBuy)) < UINT256_LIMIT
  }

  function ExecuteSettle(k: Contract, s: State, c: Call): Outcome
    requires c.SettleCall?
  {
    var buyHash, sellHash := OrderHash(c.buy), OrderHash(c.sell);
    var check := ValidOrders(s.minNonce, c.buy, c.buySigned, c.sell, c.sellSigned, c.now);
    if c.sender != k.owner then Revert(NotOwner)
    else if check.Failed? then Revert(check.reason)
    else if buyHash in s.orderCancelled then Revert(BuyCancelled)
    else if sellHash in s.orderCancelled then Revert(SellCancelled)
    else if !QuotesDefined(c.buy, c.sell, c.fill) then Revert(Panic)
    else
      var sellerReceives := AtSellRatio(c.sell, c.fill);
      var fills := Add(Add(s.orderFills, sellHash, c.fill), buyHash, c.fill);
      if AtBuyRatio(c.buy, c.fill) < sellerReceives then Revert(PriceIncompatible)
      else if Get(s.orderFills, sellHash) + c.fill >= UINT256_LIMIT then Revert(Panic)
      else if Get(s.orderFills, sellHash) + c.fill > c.sell.amountSell then Revert(SellOverfill)
      else if Get(s.orderFills, buyHash) + c.fill >= UINT256_LIMIT then Revert(Panic)
      else if Get(s.orderFills, buyHash) + c.fill > c.buy.amountBuy then Revert(BuyOverfill)
      else if Get(fills, buyHash) >= UINT256_LIMIT then Revert(Panic)
      else if Get(s.balances, (c.buy.maker, c.buy.tokenSell)) < sellerReceives then Revert(BuyerInsufficient)
      else if Get(s.balances, (c.sell.maker, c.sell.tokenSell)) < c.fill then Revert(SellerInsufficient)
      else if !TransfersInRange(s.balances, c.buy, c.sell, c.fill, sellerReceives) then Revert(Panic)
      else Success(s.(
        orderFills := fills,
        balances := Transfers(s.balances, c.buy, c.sell, c.fill, sellerReceives),
        log := s.log + [TradeSettled(buyHash, sellHash, c.buy.maker, c.sell.maker, c.fill, sellerReceives)]))
  }

  // ---------------------------------------------------------------- cancellation

  function ExecuteCancel(s: State, c: Call): Outcome
    requires c.CancelCall?
  {
    var hash := OrderHash(c.order);
    if c.sender != c.order.maker then Revert(NotOrderMaker)
    else if hash in s.orderCancelled then Revert(AlreadyCancelled)
    else Success(s.(
      orderCancelled := s.orderCancelled + {hash},
      log := s.log + [OrderCancelled(hash, c.sender)]))
  }

  function ExecuteMinNonce(s: State, c: Call): Outcome
    requires c.MinNonceCall?
  {
    if c.newMinNonce <= Get(s.minNonce, c.sender) then Revert(NonceMustIncrease)
    else Success(s.(
      minNonce := s.minNonce[c.sender := c.newMinNonce],
      log := s.log + [MinNonceIncremented(c.sender, c.newMinNonce)]))
  }

  function ExecuteTransfer(s: State, c: Call): Outcome
    requires c.TokenTransfer?
  {
    if Get(s.tokens, (c.sender, c.token)) < c.amount then Revert(TransferFailed)
    else Success(s.(tokens := Move(s.tokens, c.token, c.sender, c.to, c.amount)))
  }

  // ---------------------------------------------------------------- runs

  function Execute(k: Contract, s: State, c: Call): Outcome {
    match c
    case DepositCall(_, _, _, _) => ExecuteDeposit(k, s, c)
    case WithdrawCall(_, _, _) => ExecuteWithdraw(k, s, c)
    case SettleCall(_, _, _, _, _, _, _) => ExecuteSettle(k, s, c)
    case CancelCall(_, _) => ExecuteCancel(s, c)
    case MinNonceCall(_, _) => ExecuteMinNonce(s, c)
    case TokenTransfer(_, _, _, _) => ExecuteTransfer(s, c)
  }

  /** A reverted transaction changes nothing. */
  function Step(k: Contract, s: State, c: Call): State {
    match Execute(k, s, c)
    case Success(s') => s'
    case Revert(_) => s
  }

  function Run(k: Contract, s: State, calls: seq<Call>): State {
    if calls == [] then s else Step(k, Run(k, s, calls[..|calls| - 1]), calls[|calls| - 1])
  }

  predicate IsAddress(a: nat) {
    a < ADDRESS_LIMIT
  }

  predicate IsUint(n: nat) {
    n < UINT256_LIMIT
  }

  /** Arguments have their Solidity types, and the contract never sends transactions itself. */
  predicate Possible(k: Contract, c: Call) {
    match c
    case DepositCall(sender, token, amount, _) =>
      IsAddress(sender) && IsAddress(token) && IsUint(amount) && sender != k.address
    case WithdrawCall(sender, token, amount) => IsAddress(sender) && IsAddress(token) && IsUint(amount)
    case SettleCall(_, buy, _, sell, _, _, _) => InRange(buy) && InRange(sell)
    case CancelCall(_, order) => InRange(order)
    case MinNonceCall(sender, newMinNonce) => IsAddress(sender) && IsUint(newMinNonce)
    case TokenTransfer(sender, _, _, _) => sender != k.address
  }

  ghost predicate AllPossible(k: Contract, calls: seq<Call>) {
    forall i :: 0 <= i < |calls| ==> Possible(k, calls[i])
  }

  /** A freshly deployed contract, over token ledgers that exist already. */
  predicate Deployed(s: State) {
    s.balances == map[] && s.orderFills == map[] && s.orderCancelled == {} && s.minNonce == map[] && s.log == []
  }
}
