/** What the contract keeps over every run of transactions. */
module ExchangeTheory {
  import opened Domain
  import opened OrderEncoding
  import opened Exchange
  import opened Sums

  // ---------------------------------------------------------------- totals per token

  ghost function OfToken(m: map<Account, int>, token: nat): map<Account, int> {
    map a | a in m && a.1 == token :: m[a]
  }

  /** The sum over all holders of one token. */
  ghost function Total(m: map<Account, int>, token: nat): int {
    Sum(OfToken(m, token))
  }

  lemma AddTotal(m: map<Account, int>, a: Account, v: int, token: nat)
    ensures Total(Add(m, a, v), token) == Total(m, token) + if a.1 == token then v else 0
  {
    if a.1 == token {
      assert OfToken(Add(m, a, v), token) == OfToken(m, token)[a := Get(m, a) + v];
      SumUpdate(OfToken(m, token), a, Get(m, a) + v);
    } else {
      assert OfToken(Add(m, a, v), token) == OfToken(m, token);
    }
  }

  lemma MoveTotal(m: map<Account, int>, token: nat, from: nat, to: nat, amount: int, t: nat)
    ensures Total(Move(m, token, from, to, amount), t) == Total(m, t)
  {
    AddTotal(m, (from, token), -amount, t);
    AddTotal(Add(m, (from, token), -amount), (to, token), amount, t);
  }

  ghost predicate NoDebt(m: map<Account, int>) {
    forall a | a in m :: m[a] >= 0
  }

  lemma HolderBelowTotal(m: map<Account, int>, a: Account)
    requires NoDebt(m)
    ensures 0 <= Get(m, a) <= Total(m, a.1)
  {
    SumBounds(OfToken(m, a.1), a);
  }

  // ---------------------------------------------------------------- conservation and solvency

  function Deposited(log: seq<Event>, token: nat): int {
    if log == [] then 0
    else
      var e := log[|log| - 1];
      Deposited(log[..|log| - 1], token) + if e.Deposit? && e.token == token then e.amount else 0
  }

  function Withdrawn(log: seq<Event>, token: nat): int {
    if log == [] then 0
    else
      var e := log[|log| - 1];
      Withdrawn(log[..|log| - 1], token) + if e.Withdraw? && e.token == token then e.amount else 0
  }

  lemma LogGrows(log: seq<Event>, e: Event)
    ensures (log + [e])[..|log|] == log && (log + [e])[|log|] == e
  {
  }

  /** The vault's balances in one token are what was deposited and not withdrawn, and the contract
      holds at least that much of it; the token's supply fits a word. */
  ghost predicate SolventIn(k: Contract, s: State, t: nat) {
    && Total(s.balances, t) == Deposited(s.log, t) - Withdrawn(s.log, t)
    && Total(s.balances, t) <= Get(s.tokens, (k.address, t))
    && Total(s.tokens, t) < UINT256_LIMIT
  }

  ghost predicate Solvent(k: Contract, s: State) {
    NoDebt(s.balances) && NoDebt(s.tokens) && forall t: nat :: SolventIn(k, s, t)
  }

  lemma GetMoved(m: map<Account, int>, token: nat, from: nat, to: nat, amount: int, a: Account)
    ensures Get(Move(m, token, from, to, amount), a) == Get(m, a)
      - (if a == (from, token) then amount else 0) + (if a == (to, token) then amount else 0)
  {
  }

  lemma DepositKeepsSolvent(k: Contract, s: State, c: Call, t: nat)
    requires Solvent(k, s) && c.DepositCall? && Possible(k, c)
    ensures SolventIn(k, Step(k, s, c), t)
  {
    hide Total, Get, Move, Add, NoDebt;
    assert SolventIn(k, s, t);
    LogGrows(s.log, Deposit(c.sender, c.token, c.amount));
    AddTotal(s.balances, (c.sender, c.token), c.amount, t);
    MoveTotal(s.tokens, c.token, c.sender, k.address, c.amount, t);
    GetMoved(s.tokens, c.token, c.sender, k.address, c.amount, (k.address, t));
  }

  lemma WithdrawKeepsSolvent(k: Contract, s: State, c: Call, t: nat)
    requires Solvent(k, s) && c.WithdrawCall?
    ensures SolventIn(k, Step(k, s, c), t)
  {
    hide Total, Get, Move, Add, NoDebt;
    assert SolventIn(k, s, t);
    LogGrows(s.log, Withdraw(c.sender, c.token, c.amount));
    AddTotal(s.balances, (c.sender, c.token), -(c.amount as int), t);
    MoveTotal(s.tokens, c.token, k.address, c.sender, c.amount, t);
    GetMoved(s.tokens, c.token, k.address, c.sender, c.amount, (k.address, t));
  }

  /** A positive withdrawal within the user's balance is never refused by the token. */
  lemma WithdrawIsCovered(k: Contract, s: State, c: Call)
    requires Solvent(k, s) && c.WithdrawCall?
    ensures Execute(k, s, c).Success? <==> 0 < c.amount <= Get(s.balances, (c.sender, c.token))
    ensures Execute(k, s, c) == Revert(ZeroAmount) <==> c.amount == 0
    ensures Execute(k, s, c) == Revert(InsufficientBalance) <==> c.amount > Get(s.balances, (c.sender, c.token))
  {
    assert SolventIn(k, s, c.token);
    HolderBelowTotal(s.balances, (c.sender, c.token));
  }

  /** A deposit goes through exactly when it is positive, approved and within the sender's tokens: the
      credit never overflows. */
  lemma DepositIsCredited(k: Contract, s: State, c: Call)
    requires Solvent(k, s) && c.DepositCall? && Possible(k, c)
    ensures Execute(k, s, c).Success? <==> c.approved && 0 < c.amount <= Get(s.tokens, (c.sender, c.token))
    ensures Execute(k, s, c) == Revert(ZeroAmount) <==> c.amount == 0
    ensures Execute(k, s, c) == Revert(TransferFailed) <==>
      c.amount > 0 && (!c.approved || c.amount > Get(s.tokens, (c.sender, c.token)))
  {
    assert SolventIn(k, s, c.token);
    HolderBelowTotal(s.balances, (c.sender, c.token));
    var moved := Move(s.tokens, c.token, c.sender, k.address, c.amount);
    MoveTotal(s.tokens, c.token, c.sender, k.address, c.amount, c.token);
    if Get(s.tokens, (c.sender, c.token)) >= c.amount {
      HolderBelowTotal(moved, (k.address, c.token));
    }
  }

  // ---------------------------------------------------------------- who pays and who is paid

  /** A deposit takes the amount from the sender's tokens, gives it to the contract, and credits the
      sender; nobody else's tokens or balances change. */
  lemma DepositTakes(k: Contract, s: State, c: Call, a: Account)
    requires c.DepositCall? && Execute(k, s, c).Success?
    ensures var s', own, vault := Step(k, s, c), (c.sender, c.token), (k.address, c.token);
      && Get(s'.tokens, a) == Get(s.tokens, a)
           - (if a == own then c.amount else 0) + (if a == vault then c.amount else 0)
      && Get(s'.balances, a) == Get(s.balances, a) + (if a == own then c.amount else 0)
      && s'.log == s.log + [Deposit(c.sender, c.token, c.amount)]
  {
  }

  /** A withdrawal debits the sender and pays the amount to the sender, from the contract's tokens; nobody
      else's tokens or balances change. */
  lemma WithdrawPays(k: Contract, s: State, c: Call, a: Account)
    requires c.WithdrawCall? && Execute(k, s, c).Success?
    ensures var s', own, vault := Step(k, s, c), (c.sender, c.token), (k.address, c.token);
      && Get(s'.tokens, a) == Get(s.tokens, a)
           + (if a == own then c.amount else 0) - (if a == vault then c.amount else 0)
      && Get(s'.balances, a) == Get(s.balances, a) - (if a == own then c.amount else 0)
      && s'.log == s.log + [Withdraw(c.sender, c.token, c.amount)]
  {
  }

  /** What a user owns of a token, in hand and in the vault. */
  function Wealth(s: State, u: nat, t: nat): int {
    Get(s.tokens, (u, t)) + Get(s.balances, (u, t))
  }

  /** What a call brings a user of a token: the parts taken in a settlement or in a transfer of tokens. */
  function Income(k: Contract, s: State, c: Call, u: nat, t: nat): int {
    if Execute(k, s, c).Revert? then 0
    else if c.SettleCall? then
      var a, r := (u, t), AtSellRatio(c.sell, c.fill);
      (if a == (c.sell.maker, c.sell.tokenBuy) then r else 0) - (if a == (c.buy.maker, c.buy.tokenSell) then r else 0)
      + (if a == (c.buy.maker, c.buy.tokenBuy) then c.fill else 0)
      - (if a == (c.sell.maker, c.sell.tokenSell) then c.fill else 0)
    else if c.TokenTransfer? then
      (if (u, t) == (c.to, c.token) then c.amount else 0) - (if (u, t) == (c.sender, c.token) then c.amount else 0)
    else 0
  }

  function TotalIncome(k: Contract, s: State, calls: seq<Call>, u: nat, t: nat): int {
    if calls == [] then 0
    else
      var before, c := calls[..|calls| - 1], calls[|calls| - 1];
      TotalIncome(k, s, before, u, t) + Income(k, Run(k, s, before), c, u, t)
  }

  lemma StepWealth(k: Contract, s: State, c: Call, u: nat, t: nat)
    requires u != k.address
    ensures Wealth(Step(k, s, c), u, t) == Wealth(s, u, t) + Income(k, s, c, u, t)
  {
    if Execute(k, s, c).Success? {
      if c.SettleCall? {
        hide Execute, Step, OrderHash, AtSellRatio, Transfers;
        SettledState(k, s, c);
        TransfersNet(s.balances, c, AtSellRatio(c.sell, c.fill), (u, t));
      } else if c.TokenTransfer? {
        GetMoved(s.tokens, c.token, c.sender, c.to, c.amount, (u, t));
      } else if c.DepositCall? {
        DepositTakes(k, s, c, (u, t));
      } else if c.WithdrawCall? {
        WithdrawPays(k, s, c, (u, t));
      }
    }
  }

  /** Over every run a user's wealth changes by settlements and token transfers alone: deposits and
      withdrawals, one's own or others', leave it as it is. */
  lemma {:induction false} WealthIsIncome(k: Contract, s: State, calls: seq<Call>, u: nat, t: nat)
    requires u != k.address
    ensures Wealth(Run(k, s, calls), u, t) == Wealth(s, u, t) + TotalIncome(k, s, calls, u, t)
  {
    hide Step, Wealth, Income;
    if calls != [] {
      WealthIsIncome(k, s, calls[..|calls| - 1], u, t);
      StepWealth(k, Run(k, s, calls[..|calls| - 1]), calls[|calls| - 1], u, t);
    }
  }

  /** A settlement moves value between accounts, whoever the makers and whatever the tokens are:
      each account's change is the sum of the parts it takes in the two transfers. */
  lemma TransfersNet(b: map<Account, int>, c: Call, r: nat, a: Account)
    requires c.SettleCall? && c.buy.tokenBuy == c.sell.tokenSell && c.buy.tokenSell == c.sell.tokenBuy
    ensures Get(Transfers(b, c.buy, c.sell, c.fill, r), a) == Get(b, a)
      - (if a == (c.buy.maker, c.buy.tokenSell) then r else 0)
      + (if a == (c.sell.maker, c.sell.tokenBuy) then r else 0)
      - (if a == (c.sell.maker, c.sell.tokenSell) then c.fill else 0)
      + (if a == (c.buy.maker, c.buy.tokenBuy) then c.fill else 0)
  {
  }

  lemma TransfersTotal(b: map<Account, int>, c: Call, r: nat, t: nat)
    requires c.SettleCall?
    ensures Total(Transfers(b, c.buy, c.sell, c.fill, r), t) == Total(b, t)
  {
    MoveTotal(b, c.buy.tokenSell, c.buy.maker, c.sell.maker, r, t);
    MoveTotal(Move(b, c.buy.tokenSell, c.buy.maker, c.sell.maker, r),
              c.sell.tokenSell, c.sell.maker, c.buy.maker, c.fill, t);
  }

  /** Once the two balance guards have passed, no debit underflows and no credit overflows. */
  lemma TransfersNeverPanic(k: Contract, s: State, c: Call, r: nat)
    requires Solvent(k, s) && c.SettleCall?
    requires c.buy.tokenBuy == c.sell.tokenSell && c.buy.tokenSell == c.sell.tokenBuy
    requires Get(s.balances, (c.buy.maker, c.buy.tokenSell)) >= r
    requires Get(s.balances, (c.sell.maker, c.sell.tokenSell)) >= c.fill
    ensures NoDebt(Transfers(s.balances, c.buy, c.sell, c.fill, r))
    ensures TransfersInRange(s.balances, c.buy, c.sell, c.fill, r)
  {
    var b := s.balances;
    var quote, base := c.buy.tokenSell, c.sell.tokenSell;
    var after := Transfers(b, c.buy, c.sell, c.fill, r);
    forall a | a in after
      ensures after[a] >= 0
    {
      TransfersNet(b, c, r, a);
    }
    assert SolventIn(k, s, quote) && SolventIn(k, s, base);
    HolderBelowTotal(s.tokens, (k.address, quote));
    HolderBelowTotal(s.tokens, (k.address, base));
    TransfersTotal(b, c, r, base);
    HolderBelowTotal(after, (c.buy.maker, base));
    var received := Move(b, quote, c.buy.maker, c.sell.maker, r);
    MoveTotal(b, quote, c.buy.maker, c.sell.maker, r, quote);
    HolderBelowTotal(received, (c.sell.maker, quote));
  }

  lemma SettleKeepsSolvent(k: Contract, s: State, c: Call, t: nat)
    requires Solvent(k, s) && c.SettleCall?
    ensures SolventIn(k, Step(k, s, c), t) && NoDebt(Step(k, s, c).balances)
  {
    hide OrderHash, AtSellRatio, AtBuyRatio, TransfersInRange, Transfers, Total, Get;
    assert SolventIn(k, s, t);
    if ExecuteSettle(k, s, c).Success? {
      var r := AtSellRatio(c.sell, c.fill);
      TransfersNeverPanic(k, s, c, r);
      TransfersTotal(s.balances, c, r, t);
      LogGrows(s.log, TradeSettled(OrderHash(c.buy), OrderHash(c.sell), c.buy.maker, c.sell.maker, c.fill, r));
    }
  }

  lemma StepKeepsNoDebt(k: Contract, s: State, c: Call)
    requires Solvent(k, s)
    ensures NoDebt(Step(k, s, c).balances) && NoDebt(Step(k, s, c).tokens)
  {
    if c.SettleCall? {
      SettleKeepsSolvent(k, s, c, 0);
    }
  }

  /** Cancellations do not touch what solvency speaks of. */
  lemma NoticeKeepsSolventIn(k: Contract, s: State, e: Event, s': State, t: nat)
    requires SolventIn(k, s, t) && (e.OrderCancelled? || e.MinNonceIncremented?)
    requires s'.balances == s.balances && s'.tokens == s.tokens && s'.log == s.log + [e]
    ensures SolventIn(k, s', t)
  {
  }

  lemma TransferKeepsSolventIn(k: Contract, s: State, c: Call, t: nat)
    requires Solvent(k, s) && c.TokenTransfer? && Possible(k, c)
    ensures SolventIn(k, Step(k, s, c), t)
  {
    hide Total, Get, Move, NoDebt;
    assert SolventIn(k, s, t);
    MoveTotal(s.tokens, c.token, c.sender, c.to, c.amount, t);
    GetMoved(s.tokens, c.token, c.sender, c.to, c.amount, (k.address, t));
  }

  lemma StepKeepsSolventIn(k: Contract, s: State, c: Call, t: nat)
    requires Solvent(k, s) && Possible(k, c)
    ensures SolventIn(k, Step(k, s, c), t)
  {
    hide SolventIn, OrderHash, ExecuteSettle, ExecuteDeposit, ExecuteWithdraw, ExecuteTransfer;
    match c
    case DepositCall(_, _, _, _) => DepositKeepsSolvent(k, s, c, t);
    case WithdrawCall(_, _, _) => WithdrawKeepsSolvent(k, s, c, t);
    case SettleCall(_, _, _, _, _, _, _) => SettleKeepsSolvent(k, s, c, t);
    case CancelCall(_, _) =>
      assert SolventIn(k, s, t);
      if Execute(k, s, c).Success? {
        NoticeKeepsSolventIn(k, s, OrderCancelled(OrderHash(c.order), c.sender), Step(k, s, c), t);
      }
    case MinNonceCall(_, _) =>
      assert SolventIn(k, s, t);
      if Execute(k, s, c).Success? {
        NoticeKeepsSolventIn(k, s, MinNonceIncremented(c.sender, c.newMinNonce), Step(k, s, c), t);
      }
    case TokenTransfer(_, _, _, _) => TransferKeepsSolventIn(k, s, c, t);
  }

  lemma StepKeepsSolvent(k: Contract, s: State, c: Call)
    requires Solvent(k, s) && Possible(k, c)
    ensures Solvent(k, Step(k, s, c))
  {
    hide Step;
    StepKeepsNoDebt(k, s, c);
    forall t: nat
      ensures SolventIn(k, Step(k, s, c), t)
    {
      StepKeepsSolventIn(k, s, c, t);
    }
  }

  /** Conservation and solvency over every run. */
  lemma {:induction false} RunIsSolvent(k: Contract, s: State, calls: seq<Call>)
    requires Solvent(k, s) && AllPossible(k, calls)
    ensures Solvent(k, Run(k, s, calls))
  {
    if calls != [] {
      RunIsSolvent(k, s, calls[..|calls| - 1]);
      StepKeepsSolvent(k, Run(k, s, calls[..|calls| - 1]), calls[|calls| - 1]);
    }
  }

  /** A freshly deployed contract is solvent over any token ledgers whose supply fits a word. */
  lemma DeployedIsSolvent(k: Contract, s: State)
    requires Deployed(s) && NoDebt(s.tokens) && forall t: nat :: Total(s.tokens, t) < UINT256_LIMIT
    ensures Solvent(k, s)
  {
  }

  /** The caller, the orders and their cancellation state are in order, so `settleMatch` starts computing. */
  predicate Opens(k: Contract, s: State, c: Call)
    requires c.SettleCall?
  {
    && c.sender == k.owner
    && ValidOrders(s.minNonce, c.buy, c.buySigned, c.sell, c.sellSigned, c.now).Passed?
    && OrderHash(c.buy) !in s.orderCancelled && OrderHash(c.sell) !in s.orderCancelled
  }

  /** A sum of fills overflows before an overfill guard refuses it; an order settled against itself
      is filled twice. */
  predicate FillsOverflow(s: State, c: Call)
    requires c.SettleCall?
  {
    var sold, bought := Get(s.orderFills, OrderHash(c.sell)), Get(s.orderFills, OrderHash(c.buy));
    || sold + c.fill >= UINT256_LIMIT
    || (sold + c.fill <= c.sell.amountSell && bought + c.fill >= UINT256_LIMIT)
    || (sold + c.fill <= c.sell.amountSell && bought + c.fill <= c.buy.amountBuy && c.buy == c.sell
        && bought + 2 * c.fill >= UINT256_LIMIT)
  }

  /** In a solvent state checked arithmetic stops a settlement exactly where a quote or a sum of fills
      does not fit a word: never in a balance update. */
  lemma SettlePanics(k: Contract, s: State, c: Call)
    requires Solvent(k, s) && c.SettleCall? && Possible(k, c)
    ensures Execute(k, s, c) == Revert(Panic) <==>
      Opens(k, s, c) && (QuotesDefined(c.buy, c.sell, c.fill) ==>
        AtSellRatio(c.sell, c.fill) <= AtBuyRatio(c.buy, c.fill) && FillsOverflow(s, c))
  {
    SameHash(k, c);
    hide OrderHash, Solvent, QuotesDefined, AtSellRatio, AtBuyRatio, TransfersInRange, Transfers, InRange;
    if Execute(k, s, c) == Revert(Panic) && QuotesDefined(c.buy, c.sell, c.fill) && !FillsOverflow(s, c) {
      TransfersNeverPanic(k, s, c, AtSellRatio(c.sell, c.fill));
    }
  }

  lemma SameHash(k: Contract, c: Call)
    requires c.SettleCall? && Possible(k, c)
    ensures OrderHash(c.buy) == OrderHash(c.sell) <==> c.buy == c.sell
    ensures c.sell.amountSell < UINT256_LIMIT && c.buy.amountBuy < UINT256_LIMIT
  {
    if OrderHash(c.buy) == OrderHash(c.sell) {
      HashIsInjective(c.buy, c.sell);
    }
  }

  // ---------------------------------------------------------------- event log

  /** What an observer of the log keeps. */
  datatype Books = Books(balances: map<Account, int>, orderFills: map<Hash, int>)

  /** The order an order hash stands for, which an observer looks up. */
  function Resolve(h: Hash): OrderData {
    if h.OfStruct? && |h.words| == 256 then Decode(h.words) else OrderData(0, 0, 0, 0, 0, 0, 0, 0)
  }

  function Observe(b: Books, e: Event): Books {
    match e
    case Deposit(user, token, amount) => b.(balances := Add(b.balances, (user, token), amount))
    case Withdraw(user, token, amount) => b.(balances := Add(b.balances, (user, token), -(amount as int)))
    case TradeSettled(buyHash, sellHash, buyer, seller, base, quote) =>
      var buy := Resolve(buyHash);
      Books(Move(Move(b.balances, buy.tokenSell, buyer, seller, quote), buy.tokenBuy, seller, buyer, base),
            Add(Add(b.orderFills, sellHash, base), buyHash, base))
    case OrderCancelled(_, _) => b
    case MinNonceIncremented(_, _) => b
  }

  function Replay(log: seq<Event>): Books {
    if log == [] then Books(map[], map[]) else Observe(Replay(log[..|log| - 1]), log[|log| - 1])
  }

  lemma HashResolves(o: OrderData)
    requires InRange(o)
    ensures Resolve(OrderHash(o)) == o
  {
    hide AbiEncode, Decode;
    EncodingRoundTrip(o);
  }

  /** The state a settlement that went through leaves. */
  lemma SettledState(k: Contract, s: State, c: Call)
    requires c.SettleCall? && Execute(k, s, c).Success?
    ensures var s', buyHash, sellHash := Step(k, s, c), OrderHash(c.buy), OrderHash(c.sell);
      && c.sell.amountSell > 0 && c.buy.tokenBuy == c.sell.tokenSell
      && s'.balances == Transfers(s.balances, c.buy, c.sell, c.fill, AtSellRatio(c.sell, c.fill))
      && s'.orderFills == Add(Add(s.orderFills, sellHash, c.fill), buyHash, c.fill)
      && s'.log == s.log +
           [TradeSettled(buyHash, sellHash, c.buy.maker, c.sell.maker, c.fill, AtSellRatio(c.sell, c.fill))]
  {
  }

  lemma ObserveSettled(b: Books, c: Call, q: nat)
    requires c.SettleCall? && InRange(c.buy) && c.buy.tokenBuy == c.sell.tokenSell
    ensures var e := TradeSettled(OrderHash(c.buy), OrderHash(c.sell), c.buy.maker, c.sell.maker, c.fill, q);
      Observe(b, e) == Books(Transfers(b.balances, c.buy, c.sell, c.fill, q),
                             Add(Add(b.orderFills, OrderHash(c.sell), c.fill), OrderHash(c.buy), c.fill))
  {
    hide OrderHash, Resolve;
    HashResolves(c.buy);
  }

  lemma SettleIsLogged(k: Contract, s: State, c: Call)
    requires Possible(k, c) && c.SettleCall? && Replay(s.log) == Books(s.balances, s.orderFills)
    ensures var s' := Step(k, s, c); Replay(s'.log) == Books(s'.balances, s'.orderFills)
  {
    hide OrderHash, AtSellRatio, AtBuyRatio, Transfers, TransfersInRange, QuotesDefined, ExecuteSettle, Observe;
    if Execute(k, s, c).Success? {
      SettledState(k, s, c);
      ObserveSettled(Replay(s.log), c, AtSellRatio(c.sell, c.fill));
      LogGrows(s.log, Step(k, s, c).log[|s.log|]);
    }
  }

  lemma ReplayOne(log: seq<Event>, e: Event)
    ensures Replay(log + [e]) == Observe(Replay(log), e)
  {
  }

  lemma StepIsLogged(k: Contract, s: State, c: Call)
    requires Possible(k, c) && Replay(s.log) == Books(s.balances, s.orderFills)
    ensures var s' := Step(k, s, c); Replay(s'.log) == Books(s'.balances, s'.orderFills)
  {
    hide OrderHash, ExecuteSettle, Resolve, Move, Add, Replay;
    match c
    case DepositCall(sender, token, amount, _) => ReplayOne(s.log, Deposit(sender, token, amount));
    case WithdrawCall(sender, token, amount) => ReplayOne(s.log, Withdraw(sender, token, amount));
    case SettleCall(_, _, _, _, _, _, _) => SettleIsLogged(k, s, c);
    case CancelCall(sender, order) => ReplayOne(s.log, OrderCancelled(OrderHash(order), sender));
    case MinNonceCall(sender, newMinNonce) => ReplayOne(s.log, MinNonceIncremented(sender, newMinNonce));
    case TokenTransfer(_, _, _, _) =>
  }

  /** In every run the log alone determines the balances and the fills. */
  lemma {:induction false} LogReplays(k: Contract, s: State, calls: seq<Call>)
    requires Deployed(s) && AllPossible(k, calls)
    ensures var e := Run(k, s, calls); Replay(e.log) == Books(e.balances, e.orderFills)
  {
    if calls != [] {
      LogReplays(k, s, calls[..|calls| - 1]);
      StepIsLogged(k, Run(k, s, calls[..|calls| - 1]), calls[|calls| - 1]);
    }
  }

  // ---------------------------------------------------------------- cancellation

  /** The order can no longer be settled. */
  predicate Dead(s: State, o: OrderData) {
    OrderHash(o) in s.orderCancelled || o.nonce < Get(s.minNonce, o.maker)
  }

  /** Fills and minimum nonces never decrease, cancellations stay, and the log only grows. */
  lemma StepIsMonotone(k: Contract, s: State, c: Call, h: Hash, maker: nat)
    ensures var s' := Step(k, s, c);
      && Get(s.orderFills, h) <= Get(s'.orderFills, h)
      && Get(s.minNonce, maker) <= Get(s'.minNonce, maker)
      && s.orderCancelled <= s'.orderCancelled
      && s.log <= s'.log
  {
  }

  lemma {:induction false} RunOnlyAppends(k: Contract, s: State, calls: seq<Call>)
    ensures s.log <= Run(k, s, calls).log
  {
    if calls != [] {
      RunOnlyAppends(k, s, calls[..|calls| - 1]);
      StepIsMonotone(k, Run(k, s, calls[..|calls| - 1]), calls[|calls| - 1], OfText(""), 0);
    }
  }

  lemma StepKeepsDead(k: Contract, s: State, c: Call, o: OrderData)
    requires Possible(k, c) && InRange(o) && Dead(s, o)
    ensures var s' := Step(k, s, c);
      Dead(s', o) && Get(s'.orderFills, OrderHash(o)) == Get(s.orderFills, OrderHash(o))
  {
    StepIsMonotone(k, s, c, OrderHash(o), o.maker);
    if c.SettleCall? {
      if OrderHash(c.buy) == OrderHash(o) {
        HashIsInjective(c.buy, o);
      }
      if OrderHash(c.sell) == OrderHash(o) {
        HashIsInjective(c.sell, o);
      }
    }
  }

  /** Cancellation is permanent: in every continuation the order's fills stay what they are. */
  lemma {:induction false} CancellationIsPermanent(k: Contract, s: State, calls: seq<Call>, o: OrderData)
    requires AllPossible(k, calls) && InRange(o) && Dead(s, o)
    ensures var e := Run(k, s, calls);
      Dead(e, o) && Get(e.orderFills, OrderHash(o)) == Get(s.orderFills, OrderHash(o))
  {
    if calls != [] {
      CancellationIsPermanent(k, s, calls[..|calls| - 1], o);
      StepKeepsDead(k, Run(k, s, calls[..|calls| - 1]), calls[|calls| - 1], o);
    }
  }

  // ---------------------------------------------------------------- what an order pays and receives

  /** Over a log: base bought and quote paid under one hash, base sold and quote received under it, and
      the number of sales. */
  datatype OrderAccount = OrderAccount(bought: nat, paid: nat, sold: nat, received: nat, sales: nat)

  function Posted(a: OrderAccount, e: Event, h: Hash): OrderAccount {
    if !e.TradeSettled? then a
    else
      var buys, sells := e.buyHash == h, e.sellHash == h;
      OrderAccount(
        a.bought + if buys then e.baseAmount else 0,
        a.paid + if buys then e.quoteAmount else 0,
        a.sold + if sells then e.baseAmount else 0,
        a.received + if sells then e.quoteAmount else 0,
        a.sales + if sells then 1 else 0)
  }

  function AccountOf(log: seq<Event>, h: Hash): OrderAccount {
    if log == [] then OrderAccount(0, 0, 0, 0, 0)
    else Posted(AccountOf(log[..|log| - 1], h), log[|log| - 1], h)
  }

  /** A buy order never pays more than its own ratio, and never more base than it asked for is bought. */
  predicate BuyWithin(o: OrderData, bought: nat, paid: nat) {
    && bought <= o.amountBuy
    && paid * o.amountBuy <= bought * o.amountSell
    && (o.amountBuy == 0 ==> paid == 0)
  }

  /** A sell order receives its own ratio up to one rounding per sale. */
  predicate SellWithin(o: OrderData, sold: nat, received: nat, sales: nat) {
    && sold <= o.amountSell
    && o.amountSell * received <= sold * o.amountBuy
    && sold * o.amountBuy <= o.amountSell * received + sales * (o.amountSell - 1)
    && (sales == 0 ==> sold == 0)
  }

  ghost predicate WithinLimits(s: State, o: OrderData) {
    var a := AccountOf(s.log, OrderHash(o));
    && Get(s.orderFills, OrderHash(o)) == a.bought + a.sold
    && BuyWithin(o, a.bought, a.paid)
    && SellWithin(o, a.sold, a.received, a.sales)
  }

  lemma FloorBounds(x: nat, d: nat)
    requires d > 0
    ensures d * (x / d) <= x <= d * (x / d) + d - 1
  {
  }

  lemma TimesMonotone(a: nat, b: nat, c: nat)
    requires a <= b
    ensures a * c <= b * c
  {
  }

  lemma CancelFactor(x: int, y: int, d: nat)
    requires d > 0
    ensures x * d < (y + 1) * d ==> x <= y
  {
  }

  lemma PaysMore(o: OrderData, bought: nat, paid: nat, f: nat, q: nat)
    requires BuyWithin(o, bought, paid) && bought + f <= o.amountBuy
    requires o.amountBuy > 0 && q <= AtBuyRatio(o, f)
    ensures BuyWithin(o, bought + f, paid + q)
  {
  }

  lemma ReceivesMore(o: OrderData, sold: nat, received: nat, sales: nat, f: nat)
    requires SellWithin(o, sold, received, sales) && sold + f <= o.amountSell && o.amountSell > 0
    ensures SellWithin(o, sold + f, received + AtSellRatio(o, f), sales + 1)
  {
  }

  /** What a settlement that went through has checked and done. */
  lemma SettleFacts(k: Contract, s: State, c: Call, h: Hash)
    requires c.SettleCall? && Execute(k, s, c).Success?
    ensures var s', buyHash, sellHash := Step(k, s, c), OrderHash(c.buy), OrderHash(c.sell);
      && c.sell.amountSell > 0 && c.buy.amountBuy > 0
      && AtSellRatio(c.sell, c.fill) <= AtBuyRatio(c.buy, c.fill)
      && Get(s.orderFills, sellHash) + c.fill <= c.sell.amountSell
      && Get(s.orderFills, buyHash) + c.fill <= c.buy.amountBuy
      && Get(s'.orderFills, h) == Get(s.orderFills, h)
           + (if sellHash == h then c.fill else 0) + (if buyHash == h then c.fill else 0)
      && s'.log == s.log +
           [TradeSettled(buyHash, sellHash, c.buy.maker, c.sell.maker, c.fill, AtSellRatio(c.sell, c.fill))]
  {
  }

  /** The account of an order is what its settlements move in the vault: a settlement posts the base and the
      quote to the two orders in their roles, each as one more trade, and exactly that is what the makers'
      balances gain and lose where they do not coincide. */
  lemma AccountFollowsVault(k: Contract, s: State, c: Call)
    requires c.SettleCall? && Possible(k, c) && Execute(k, s, c).Success?
    requires c.buy.maker != c.sell.maker && c.buy.tokenBuy != c.buy.tokenSell
    ensures c.buy != c.sell
    ensures var s' := Step(k, s, c);
      var base, quote := (c.buy.maker, c.buy.tokenBuy), (c.buy.maker, c.buy.tokenSell);
      var bought := Get(s'.balances, base) - Get(s.balances, base);
      var paid := Get(s.balances, quote) - Get(s'.balances, quote);
      var b, b' := AccountOf(s.log, OrderHash(c.buy)), AccountOf(s'.log, OrderHash(c.buy));
      && b'.paid == b.paid + paid && b'.bought == b.bought + bought
      && b'.sold == b.sold && b'.received == b.received && b'.sales == b.sales
    ensures var s' := Step(k, s, c);
      var base, quote := (c.sell.maker, c.sell.tokenSell), (c.sell.maker, c.sell.tokenBuy);
      var sold := Get(s.balances, base) - Get(s'.balances, base);
      var received := Get(s'.balances, quote) - Get(s.balances, quote);
      var a, a' := AccountOf(s.log, OrderHash(c.sell)), AccountOf(s'.log, OrderHash(c.sell));
      && a'.sold == a.sold + sold && a'.received == a.received + received && a'.sales == a.sales + 1
      && a'.bought == a.bought && a'.paid == a.paid
  {
    SameHash(k, c);
    hide OrderHash, Execute, Step, Transfers, AtSellRatio, AccountOf, Get;
    SettledState(k, s, c);
    var r := AtSellRatio(c.sell, c.fill);
    var e := TradeSettled(OrderHash(c.buy), OrderHash(c.sell), c.buy.maker, c.sell.maker, c.fill, r);
    AccountGrows(s.log, e, OrderHash(c.buy));
    AccountGrows(s.log, e, OrderHash(c.sell));
    TransfersNet(s.balances, c, r, (c.buy.maker, c.buy.tokenSell));
    TransfersNet(s.balances, c, r, (c.buy.maker, c.buy.tokenBuy));
    TransfersNet(s.balances, c, r, (c.sell.maker, c.sell.tokenSell));
    TransfersNet(s.balances, c, r, (c.sell.maker, c.sell.tokenBuy));
    SettledTokens(k, s, c);
  }

  lemma SettledTokens(k: Contract, s: State, c: Call)
    requires c.SettleCall? && Execute(k, s, c).Success?
    ensures c.buy.tokenBuy == c.sell.tokenSell && c.buy.tokenSell == c.sell.tokenBuy
  {
  }

  /** Nothing but its own settlements changes an order's account. */
  lemma AccountIsOwn(k: Contract, s: State, c: Call, o: OrderData)
    requires Possible(k, c) && InRange(o)
    requires AccountOf(Step(k, s, c).log, OrderHash(o)) != AccountOf(s.log, OrderHash(o))
    ensures c.SettleCall? && (c.buy == o || c.sell == o)
  {
    hide OrderHash, ExecuteSettle, AccountOf, InRange;
    if c.SettleCall? && Execute(k, s, c).Success? {
      SettleInRange(k, c);
      SettledState(k, s, c);
      var r := AtSellRatio(c.sell, c.fill);
      var e := TradeSettled(OrderHash(c.buy), OrderHash(c.sell), c.buy.maker, c.sell.maker, c.fill, r);
      AccountGrows(s.log, e, OrderHash(o));
      if OrderHash(c.buy) == OrderHash(o) {
        HashIsInjective(c.buy, o);
      }
      if OrderHash(c.sell) == OrderHash(o) {
        HashIsInjective(c.sell, o);
      }
    } else if |Step(k, s, c).log| > |s.log| {
      AccountGrows(s.log, Step(k, s, c).log[|s.log|], OrderHash(o));
    }
  }

  lemma SettleKeepsLimits(k: Contract, s: State, c: Call, o: OrderData)
    requires Possible(k, c) && c.SettleCall? && InRange(o) && WithinLimits(s, o)
    requires Execute(k, s, c).Success?
    ensures WithinLimits(Step(k, s, c), o)
  {
    hide BuyWithin, SellWithin, AtSellRatio, AtBuyRatio, Execute, Step, Possible, InRange, OrderHash, AccountOf;
    var h := OrderHash(o);
    assert InRange(c.buy) && InRange(c.sell) by {
      SettleInRange(k, c);
    }
    SettleFacts(k, s, c, h);
    var a := AccountOf(s.log, h);
    var q := AtSellRatio(c.sell, c.fill);
    AccountGrows(s.log, TradeSettled(OrderHash(c.buy), OrderHash(c.sell), c.buy.maker, c.sell.maker, c.fill, q), h);
    if OrderHash(c.buy) == h {
      HashIsInjective(c.buy, o);
      PaysMore(o, a.bought, a.paid, c.fill, q);
    }
    if OrderHash(c.sell) == h {
      HashIsInjective(c.sell, o);
      ReceivesMore(o, a.sold, a.received, a.sales, c.fill);
    }
  }

  lemma AccountGrows(log: seq<Event>, e: Event, h: Hash)
    ensures AccountOf(log + [e], h) == Posted(AccountOf(log, h), e, h)
  {
  }

  lemma SettleInRange(k: Contract, c: Call)
    requires Possible(k, c) && c.SettleCall?
    ensures InRange(c.buy) && InRange(c.sell)
  {
  }

  lemma StepKeepsLimits(k: Contract, s: State, c: Call, o: OrderData)
    requires Possible(k, c) && InRange(o) && WithinLimits(s, o)
    ensures WithinLimits(Step(k, s, c), o)
  {
    hide BuyWithin, SellWithin, OrderHash, ExecuteSettle, InRange, AccountOf, Move, Add;
    if c.SettleCall? {
      if Execute(k, s, c).Success? {
        SettleKeepsLimits(k, s, c, o);
      }
    } else {
      var s' := Step(k, s, c);
      if |s'.log| > |s.log| {
        AccountGrows(s.log, s'.log[|s.log|], OrderHash(o));
      }
    }
  }

  lemma {:induction false} RunKeepsLimits(k: Contract, s: State, calls: seq<Call>, o: OrderData)
    requires Deployed(s) && AllPossible(k, calls) && InRange(o)
    ensures WithinLimits(Run(k, s, calls), o)
  {
    if calls != [] {
      RunKeepsLimits(k, s, calls[..|calls| - 1], o);
      StepKeepsLimits(k, Run(k, s, calls[..|calls| - 1]), calls[|calls| - 1], o);
    }
  }

  lemma StaysInBudget(o: OrderData, bought: nat, paid: nat)
    requires BuyWithin(o, bought, paid)
    ensures paid <= o.amountSell
  {
  }

  /** Over its whole life a buy order pays at most its own ratio on what it bought, so never more than
      it offered, whoever the sellers were. */
  lemma BuyerBudget(k: Contract, s: State, calls: seq<Call>, o: OrderData)
    requires Deployed(s) && AllPossible(k, calls) && InRange(o)
    ensures var a := AccountOf(Run(k, s, calls).log, OrderHash(o));
      a.paid * o.amountBuy <= a.bought * o.amountSell && a.paid <= o.amountSell
  {
    RunKeepsLimits(k, s, calls, o);
    var a := AccountOf(Run(k, s, calls).log, OrderHash(o));
    StaysInBudget(o, a.bought, a.paid);
  }

  /** Rounding costs a sell order less than one unit of quote per sale; an order sold to the end
      receives its asking amount up to the number of its sales. */
  lemma SellerRounding(k: Contract, s: State, calls: seq<Call>, o: OrderData)
    requires Deployed(s) && AllPossible(k, calls) && InRange(o)
    ensures var a := AccountOf(Run(k, s, calls).log, OrderHash(o));
      && a.sold * o.amountBuy - a.sales * (o.amountSell - 1) <= o.amountSell * a.received <= a.sold * o.amountBuy
      && (a.sold == o.amountSell > 0 ==> o.amountBuy - a.sales + 1 <= a.received <= o.amountBuy)
  {
    hide Run, OrderHash, AccountOf, SellWithin, InRange;
    RunKeepsLimits(k, s, calls, o);
    var a := AccountOf(Run(k, s, calls).log, OrderHash(o));
    SellBounds(o, a.sold, a.received, a.sales);
  }

  lemma SellBounds(o: OrderData, sold: nat, received: nat, sales: nat)
    requires SellWithin(o, sold, received, sales)
    ensures sold * o.amountBuy - sales * (o.amountSell - 1) <= o.amountSell * received <= sold * o.amountBuy
    ensures sold == o.amountSell > 0 ==> o.amountBuy - sales + 1 <= received <= o.amountBuy
  {
    if sold == o.amountSell > 0 {
      SoldOut(o.amountSell, o.amountBuy, received, sales);
    }
  }

  lemma SoldOut(amount: nat, asked: nat, received: nat, sales: nat)
    requires amount > 0 && sales > 0
    requires amount * asked - sales * (amount - 1) <= amount * received <= amount * asked
    ensures asked - sales + 1 <= received <= asked
  {
    CancelFactor(received, asked, amount);
    CancelFactor(asked - sales + 1, received, amount);
    assert (asked - sales + 1) * amount == amount * asked - sales * amount + amount;
    assert sales * (amount - 1) == sales * amount - sales;
  }

  /** Every requirement of `settleMatch`, balance arithmetic aside. */
  predicate Requirements(k: Contract, s: State, c: Call)
    requires c.SettleCall?
  {
    && Opens(k, s, c)
    && QuotesDefined(c.buy, c.sell, c.fill)
    && AtSellRatio(c.sell, c.fill) <= AtBuyRatio(c.buy, c.fill)
    && Get(s.orderFills, OrderHash(c.sell)) + c.fill <= c.sell.amountSell
    && Get(s.orderFills, OrderHash(c.buy)) + c.fill <= c.buy.amountBuy
    && (c.buy == c.sell ==> Get(s.orderFills, OrderHash(c.buy)) + 2 * c.fill < UINT256_LIMIT)
    && Get(s.balances, (c.buy.maker, c.buy.tokenSell)) >= AtSellRatio(c.sell, c.fill)
    && Get(s.balances, (c.sell.maker, c.sell.tokenSell)) >= c.fill
  }

  /** In a solvent state a settlement goes through exactly when the contract's requirements hold: no
      balance update can stop it, whichever makers, tokens and orders coincide. */
  lemma SettlesExactly(k: Contract, s: State, c: Call)
    requires Solvent(k, s) && c.SettleCall? && Possible(k, c)
    ensures Execute(k, s, c).Success? <==> Requirements(k, s, c)
  {
    SameHash(k, c);
    hide OrderHash, Solvent, QuotesDefined, AtSellRatio, AtBuyRatio, TransfersInRange, Transfers, InRange;
    if Requirements(k, s, c) {
      TransfersNeverPanic(k, s, c, AtSellRatio(c.sell, c.fill));
    }
  }
}
