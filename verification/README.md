# Nexus order book: a verified model

Nexus is an exchange split in two. Signed limit orders are matched off chain by a Go service, which keeps one
book per trading pair in two binary heaps; each match becomes a job for a settlement worker, which submits it
to a Solidity contract that holds everybody's tokens, checks the two orders again and moves the balances. An
indexer polls the chain and tells the backend what happened there.

This project models those parts and proves what each of them keeps over every run, and what holds between
them: that the contract never fills an order beyond what the engine matched, on whatever pairs, that a queued
settlement goes through exactly under conditions stated below, and that the events the indexer delivers
rebuild the contract's books.

`dafny verify dfyconfig.toml` checks the whole project.

## How it is laid out

| file | what it holds |
|---|---|
| `Domain.dfy`, `OrderHeap.dfy`, `OrderBook.dfy` | orders, the two heaps with the algorithms of Go's `container/heap` written out, and the matching engine, as classes that update their fields |
| `Matching.dfy`, `MatchingTheory.dfy` | what one call of `AddOrder` or `CancelOrder` may do, on a map of resting orders without heaps, and what follows: price-time priority, maximal fill, an uncrossed book |
| `History.dfy`, `EngineRun.dfy`, `Rebuild.dfy`, `Snapshot.dfy` | whole engine runs and conservation of base, the engine's objects over such runs, rebuilding a book from its orders, the aggregated view |
| `Exchange.dfy`, `ExchangeTheory.dfy`, `Revocation.dfy`, `NexusOrderBook.dfy` | the contract as a state machine on values, what it keeps over every run, what cancelling does and why a settlement is refused, and the contract as an object updated step by step, each function proved against its transaction |
| `Settlement.dfy`, `OrderService.dfy`, `Rows.dfy`, `ServiceRun.dfy`, `SettlementWorker.dfy`, `Limitations.dfy` | the protocol from submission to settlement, the service with its database rows and the worker, both as steps of the protocol, and concrete inputs on which the code does less than one might expect |
| `OrderEncoding.dfy`, `Signatures.dfy` | the order encoding, the signed digest and the two signature checks, in Go and Solidity |
| `Indexer.dfy`, `IndexedChain.dfy` | the polling loop and log dispatch, and contract and indexer together |
| `Sums.dfy` | sums over finite maps |

The engine's classes are specified by relations rather than functions: when two resting orders tie in price
and creation time the heap may take either, so the specification says "some best order", and `WalkIsOutcome`
and `OutcomeIsWalk` show that it allows exactly the walks over the sorted opposite side.

## What is taken as given

- **Price.** `Order.Price()` rounds a quotient to a double. The book only ever compares prices, so every order
  carries an arbitrary fixed real number as its price, and everything about heaps, books and matching holds
  for whatever rounding produces it. Only the bridge to the contract's price guard speaks of the exact ratio.
- **Quote.** Both matching loops compute the quote with the sell order's ratio; in `matchSell` the reported
  price is the bid's all the same (engine.go, lines 102 and 148-158: the comment there speaks of the buy
  price, the code does not use it). The model follows the code.
- **Orders.** Amounts are positive and field values fit their Solidity types, which the service does not check;
  order IDs and order objects are new when submitted (a UUID and a fresh object in the repository). That an
  order's side, tokens and pair name agree is not assumed; the contract refuses a job whose two orders' tokens
  do not match each other.
- **Hashes.** Keccak is ideal: a digest is identified with what was digested. Injectivity and agreement are
  proved down to the bytes that go into it. In the contract's state machine signature
  checks enter as their verdicts, and so does the allowance a deposit needs; `Signatures.dfy` says what the
  verdicts are, given that recovering a signer on the curve is the same function on both sides.
- **Settlement key.** Only the worker sends transactions with the contract owner's key. There is one worker, one
  queue and one contract for all pairs.
- **Tokens.** A token is an exact-transfer ledger after EIP-20, with a supply below 2^256; users may also move
  tokens to the contract without depositing. The contract sends no transactions of its own.
- **Atomicity.** A call under the engine's mutex and a transaction are one step each. A reverted transaction
  changes nothing. Blocks are only ever appended.
- **Lost jobs.** A job is in flight from the moment it is queued until its transaction succeeds, or until it is
  certain that it never will; the protocol may settle or lose jobs in flight in any order, so a job whose
  transaction lands after the worker stopped waiting is covered too.

## What turned out not to hold

- A match can fail the contract's price guard: prices are compared as doubles, and two orders of about one
  token each whose prices differ by one part in 2^60 have equal doubles, and `RoundedKeysRun` is a run that
  ends with their job refused. Orders that cross without rounding pass the guard with every fill
  (`ExactCrossingPassesGuard`). The others pass it as long as rounding to whole units of quote hides the gap: a fill
  is refused exactly when a whole amount of quote lies above the buyer's exact price of it and not above the
  seller's (`GuardRefusesExactly`), so always once the gap is a unit (`WideGapIsRefused`), and for some orders
  never (`NarrowGapPasses`).
- A match can fail the overfill guard: nothing stops one signed order from being submitted twice, under one pair
  name or under two, and both submissions are then matched in full (`SubmittedTwice`). What reaches the chain
  never exceeds what the engine filled over all submissions of the order (`FillsAreCovered`). No job overfills as
  long as that total fits the signed order (`JobFits`), and when all of it has settled, it did fit (`BoughtFits`,
  `SoldFits`).
- For orders submitted once, a queued job settles if and only if it passes the price guard and its tokens,
  signatures, deadlines, cancellations, word sizes and vault balances allow it (`JobSettlesIfDeliverable`). The
  service has checked the signatures before: the contract's check passes too if and only if the last byte is one
  that both sides read the same way and the maker is not the zero address (`AcceptedIsAccepted`,
  `AcceptedJobSettles`).
- A row in the database need not be what the engine has made of the order: cancelling an order that is already
  filled still marks its row cancelled (`FilledThenCancelled`). Over every run a row is right if and only if the
  last call that matched the order wrote it, and it was marked cancelled exactly if the engine cancelled the order
  (`RowIsExact`); one cancellation leaves it right if and only if the order was in the book, or cancelled before,
  and the row had its fill (`CancelledRowIsExact`, `WithdrawOrder`).

## Model

| member | source | states |
|---|---|---|
| `OrderHeaps.RootIsBest` | backend/internal/orderbook/heap.go:19-26 | in heap order no entry has a better price than the root, and none of the same price is older |
| `OrderHeaps.OrderHeap.Swap` | backend/internal/orderbook/heap.go:27-31 | exchanges two entries and keeps every back-pointer equal to its position |
| `OrderHeaps.OrderHeap.Push` | backend/internal/orderbook/heap.go:32-36 | keeps heap order and back-pointers, adds exactly the given entry |
| `OrderHeaps.OrderHeap.Pop` | backend/internal/orderbook/heap.go:37-45 | returns the root with its index cleared, keeps heap order and back-pointers, removes exactly that entry |
| `OrderHeaps.OrderHeap.Remove` | backend/internal/orderbook/engine.go:189-194 | removal at any index removes exactly that entry, clears its index, and keeps heap order and back-pointers |
| `OrderHeaps.OrderHeap.DropLast` | backend/internal/orderbook/heap.go:69-77 | cuts off the last entry and clears its index |
| `OrderBooks.UpdateOrderStatus` | backend/internal/orderbook/engine.go:278-284 | writes the status after a fill and nothing else |
| `OrderBooks.OrderBook.RootIsBestOrder` | backend/internal/orderbook/engine.go:87-93 | of all resting orders of a side none has a better price than the root of its heap, and none of the same price is older |
| `OrderBooks.OrderBook.MatchBuy` | backend/internal/orderbook/engine.go:83-129 | a legal run of matches from the starting book, ended only where nothing compatible is left; heaps, back-pointers and ID map stay a bijection; each result joins the incoming object to one that was in the book, and every object that left is filled to the end |
| `OrderBooks.OrderBook.MatchSell` | backend/internal/orderbook/engine.go:131-174 | the same for an incoming sell |
| `OrderBooks.OrderBook.AddOrder` | backend/internal/orderbook/engine.go:57-81 | keeps the whole representation invariant and does what the specification `Added` allows, to the book, to the order and in the answer; results point to the objects they are about, and an order that left the book has its full base filled and status filled |
| `OrderBooks.OrderBook.CancelOrder` | backend/internal/orderbook/engine.go:177-197 | removes exactly the named order, marks it cancelled and keeps the invariant; an unknown ID changes nothing |
| `MatchingTheory.OneMatch` | backend/internal/orderbook/engine.go:95-125 | a match fills a positive amount on both orders, drops the resting one exactly when it is full, and otherwise the incoming one is full |
| `MatchingTheory.PriceTimePriority` | backend/internal/orderbook/engine.go:87-126 | matched resting orders are pairwise distinct, taken from the best price on, and from the oldest on at equal prices, and all but the last are filled to the end and gone |
| `MatchingTheory.MatchedFirst` | backend/internal/orderbook/heap.go:19-26 | no order still resting on the opposite side has a better price than a matched one, or is older at the same price |
| `MatchingTheory.MakersPrice` | backend/internal/orderbook/engine.go:105-111 | every match is reported at the price of the order that rested, within both parties' prices |
| `MatchingTheory.WalkIsForced` | backend/internal/orderbook/engine.go:83-174 | without ties the matches are those of a simple matcher walking the opposite side in sorted order |
| `MatchingTheory.OutcomeIsWalk` | backend/internal/orderbook/engine.go:83-174 | with ties, every outcome is such a walk over some sorted listing |
| `MatchingTheory.WalkIsOutcome` | backend/internal/orderbook/engine.go:83-174 | and every such walk is an allowed outcome |
| `MatchingTheory.MaximalFill` | backend/internal/orderbook/engine.go:57-81 | one `AddOrder` fills exactly the smaller of what the order wants and what all compatible resting orders have; the remainder rests |
| `MatchingTheory.FillsAreExact` | backend/internal/orderbook/engine.go:113-125 | the reported fills are exactly what each order gained, and no other order changed |
| `MatchingTheory.AddKeepsBook` | backend/internal/orderbook/engine.go:87-98 | every resting order stays live, and an uncrossed book stays uncrossed |
| `Histories.EveryRunIsConsistent` | backend/internal/orderbook/engine.go:57-197 | after every operation of every run: bids strictly below asks, live orders only, each order's base accounted for, every match genuine |
| `Histories.StatusIsExact` | backend/internal/orderbook/engine.go:278-284 | over every run an order is open or partially filled exactly as it rests with nothing or something filled, filled exactly when all its base is, and cancelled exactly when it was taken out of the book |
| `Histories.BaseIsConserved` | backend/internal/orderbook/engine.go:95-115 | over any run total filled base of the buys, of the sells and of the matches are equal |
| `Histories.SubmittedIsAccounted` | backend/internal/orderbook/engine.go:69-78 | on each side submitted base is filled, resting or cancelled |
| `EngineRuns.RunEngine` | backend/internal/orderbook/engine.go:57-197 | every sequence of `AddOrder` and `CancelOrder` calls on the objects performs a run of the history, at whose end each submitted object's `FilledBase` and status are those of the history, and the status says which of resting, filled and cancelled it is |
| `Rebuild.AddsQuietly` | backend/internal/orderbook/engine.go:91-93 | an order that crosses nothing is added unchanged and unmatched |
| `Rebuild.LoadingRebuilds` | backend/internal/service/order_service.go:206-217 | adding the resting orders of an uncrossed book to an empty one, in any order, gives that book back and trades nothing |
| `Rebuild.RestartKeepsSnapshot` | backend/internal/service/order_service.go:206-217 | a book reached in any run, rebuilt from its resting orders in any order, is the same book and shows the same levels |
| `Rebuild.LoadedStaysUncrossed` | backend/internal/service/order_service.go:206-217 | whatever stored orders the service starts from, filled in part or not, and whatever is added and cancelled after that, the book holds live orders only and is never crossed |
| `Snapshots.SortPrices` | backend/internal/orderbook/engine.go:262-276 | sorts in place, in either direction, and keeps the multiset |
| `Snapshots.AggregateLevels` | backend/internal/orderbook/engine.go:210-260 | strictly sorted levels with the amount and count of the listed orders at each price, and a level for every order |
| `Snapshots.GetSnapshot` | backend/internal/orderbook/engine.go:200-208 | both sides of the result are the view of the book's resting orders |
| `Snapshots.ViewIsUnique` | backend/internal/orderbook/engine.go:210-260 | a side has one view, so the snapshot depends on the resting orders and not on the heap's layout |
| `Snapshots.FirstLevelIsRoot` | backend/internal/orderbook/engine.go:227-232 | the first level is at the price of the side's heap root |
| `Snapshots.LevelsAddUp` | backend/internal/orderbook/engine.go:216-222 | the levels add up to the side's total resting amount |
| `NexusOrderBooks.NexusOrderBook.DepositTokens` | contracts/src/NexusOrderBook.sol:41-46 | the transaction's outcome with its revert reason, and the state it leaves; a missing allowance refuses it |
| `NexusOrderBooks.NexusOrderBook.WithdrawTokens` | contracts/src/NexusOrderBook.sol:48-54 | the same for a withdrawal |
| `NexusOrderBooks.NexusOrderBook.SettleMatch` | contracts/src/NexusOrderBook.sol:56-84 | the same for a settlement, guards in the contract's order, in checked arithmetic |
| `NexusOrderBooks.NexusOrderBook.ValidateOrders` | contracts/src/NexusOrderBook.sol:86-100 | the first requirement that fails, if any |
| `NexusOrderBooks.NexusOrderBook.ExecuteTransfers` | contracts/src/NexusOrderBook.sol:102-118 | the four updates under every aliasing of makers and tokens, or the reason they stop |
| `NexusOrderBooks.NexusOrderBook.CancelOrder` | contracts/src/NexusOrderBook.sol:120-126 | the outcome and state of an on-chain cancellation |
| `NexusOrderBooks.NexusOrderBook.IncrementMinNonce` | contracts/src/NexusOrderBook.sol:128-132 | the outcome and state of a nonce increase |
| `ExchangeTheory.RunIsSolvent` | contracts/src/NexusOrderBook.sol:41-84 | in every run each token's balances sum to deposits minus withdrawals and never exceed what the contract holds |
| `ExchangeTheory.DeployedIsSolvent` | contracts/src/NexusOrderBook.sol:39-39 | a new contract is solvent over any ledgers whose supply fits a word |
| `ExchangeTheory.WithdrawIsCovered` | contracts/src/NexusOrderBook.sol:48-54 | a withdrawal succeeds exactly when it is positive and within the user's balance, and is refused with the reason that fits |
| `ExchangeTheory.DepositIsCredited` | contracts/src/NexusOrderBook.sol:41-46 | a deposit succeeds exactly when it is positive, approved and within the sender's tokens: the credit never overflows |
| `ExchangeTheory.DepositTakes` | contracts/src/NexusOrderBook.sol:43-45 | the sender pays, the contract is paid, the sender is credited, and nobody else's tokens or balances change |
| `ExchangeTheory.WithdrawPays` | contracts/src/NexusOrderBook.sol:51-53 | the sender is debited and paid, by the contract, and nobody else's tokens or balances change |
| `ExchangeTheory.WealthIsIncome` | contracts/src/NexusOrderBook.sol:41-84 | over every run what a user owns of a token, in hand and in the vault, changes by settlements and token transfers alone |
| `ExchangeTheory.TransfersNet` | contracts/src/NexusOrderBook.sol:111-117 | each account's net change, whichever of makers and tokens coincide |
| `ExchangeTheory.TransfersNeverPanic` | contracts/src/NexusOrderBook.sol:108-117 | once the two balance guards pass, no debit underflows and no credit overflows |
| `ExchangeTheory.SettlePanics` | contracts/src/NexusOrderBook.sol:71-79 | checked arithmetic stops a settlement if and only if a quote or a sum of fills does not fit a word: never in a balance update |
| `ExchangeTheory.SettlesExactly` | contracts/src/NexusOrderBook.sol:63-84 | in a solvent state a settlement succeeds if and only if the requirements hold, even of one order against itself |
| `ExchangeTheory.LogReplays` | contracts/src/NexusOrderBook.sol:26-37 | in every run folding the event log reproduces balances and fills |
| `ExchangeTheory.StepIsMonotone` | contracts/src/NexusOrderBook.sol:78-79 | fills and minimum nonces never decrease, cancellations stay, the log only grows |
| `ExchangeTheory.CancellationIsPermanent` | contracts/src/NexusOrderBook.sol:120-132 | a cancelled or outdated order stays so and its fills never change again, in any continuation |
| `Revocations.CancelExactly` | contracts/src/NexusOrderBook.sol:120-126 | cancelling works for the order's maker, once, and marks that order and no other |
| `Revocations.OnlyMakerCancels` | contracts/src/NexusOrderBook.sol:121-124 | nothing but its own maker's call cancels an order |
| `Revocations.CancelledForGood` | contracts/src/NexusOrderBook.sol:68-69 | after a cancellation every settlement with the order on either side reverts, in every continuation, and its fills stay |
| `Revocations.MinNonceExactly` | contracts/src/NexusOrderBook.sol:128-132 | raising the minimum nonce works for any higher value, which is then the sender's, and nobody else's changes |
| `Revocations.OnlyMakerRaises` | contracts/src/NexusOrderBook.sol:128-131 | nothing but a maker's own call changes the maker's minimum nonce |
| `Revocations.RaisedForGood` | contracts/src/NexusOrderBook.sol:98-99 | afterwards exactly the sender's orders below that nonce fail the check, other makers' keep their verdict, and no settlement with one that fails succeeds in any continuation |
| `Revocations.RaisesAboveAll` | contracts/src/NexusOrderBook.sol:129-130 | over every run a call succeeds if and only if its value is positive and exceeds every value its maker sent before |
| `Revocations.RefusedForFirstCause` | contracts/src/NexusOrderBook.sol:68-109 | unless arithmetic fails, a settlement is refused with the reason of the first of sixteen causes that holds, in the contract's order, and succeeds if and only if none does |
| `ExchangeTheory.BuyerBudget` | contracts/src/NexusOrderBook.sol:71-82 | over its life a buy order pays at most its own ratio on what it bought, and never more than it offered |
| `ExchangeTheory.AccountFollowsVault` | contracts/src/NexusOrderBook.sol:78-83 | what is posted to the two orders' accounts is what the makers' vault balances gain and lose, one trade each |
| `ExchangeTheory.AccountIsOwn` | contracts/src/NexusOrderBook.sol:78-83 | nothing but its own settlements changes an order's account |
| `ExchangeTheory.SellerRounding` | contracts/src/NexusOrderBook.sol:71-82 | rounding costs a sell order less than one unit per sale; sold out after k sales it receives between its asking amount minus k - 1 and its asking amount |
| `Settlement.EveryRunIsSound` | backend/internal/service/order_service.go:116-162 | in every run of submissions on any pairs, cancellations, deliveries, losses and other transactions: on chain plus in flight never exceeds what the engine matched, no order buys or sells more on chain than it offers, every pair's engine and the vault stay consistent |
| `Limitations.SoundWithJob` | backend/internal/service/order_service.go:142-148 | that invariant has reachable instances with a job in flight, so what is proved of queued jobs is not empty |
| `Settlement.MatchedIsAccounted` | backend/internal/blockchain/settlement.go:71-122 | in every run what the engine matched under a hash is on chain, in flight or lost, exactly |
| `Settlement.FillsAreCovered` | backend/internal/service/order_service.go:116-162 | on chain plus in flight is at most the sum of the engine's `FilledBase` over all submissions of the signed order, each within its capacity; one submission makes it that order's own |
| `Settlement.SettledRunAgrees` | backend/internal/blockchain/settlement.go:71-122 | in every run that lost no job and has none left, the contract's fills equal the engine's |
| `Settlement.GuardRefusesExactly` | contracts/src/NexusOrderBook.sol:71-73 | the price guard refuses a fill if and only if some whole amount of quote lies above the buyer's exact price of it and not above the seller's |
| `Settlement.ExactCrossingPassesGuard` | contracts/src/NexusOrderBook.sol:71-73 | orders that cross without rounding pass the guard with every fill |
| `Settlement.WideGapIsRefused` | contracts/src/NexusOrderBook.sol:71-73 | orders that do not are refused every fill over which the gap is a whole unit of quote |
| `Settlement.ExactKeysCross` | backend/internal/domain/order.go:46-57 | with exact prices, the engine's comparison is the exact crossing of the amounts |
| `Settlement.JobsCrossExactly` | backend/internal/orderbook/engine.go:91-93 | so without rounding every queued job of every run passes the price guard |
| `Settlement.JobSettlesExactly` | contracts/src/NexusOrderBook.sol:63-84 | when a queued job settles, for all jobs, and that the seller then receives the engine's quote |
| `Settlement.JobFits` | contracts/src/NexusOrderBook.sol:75-76 | a queued job passes the overfill guards as long as the engine matched no more under its hashes than the orders hold |
| `Settlement.BoughtFits` | contracts/src/NexusOrderBook.sol:76-76 | conversely, once everything matched under the hash of an order only ever bought with is on chain, it fits the order |
| `Settlement.SoldFits` | contracts/src/NexusOrderBook.sol:75-75 | the same for an order only ever sold with |
| `Settlement.JobSettlesIfDeliverable` | backend/internal/blockchain/settlement.go:71-122 | a queued job between orders submitted once settles if and only if it is deliverable and passes the price guard, whatever was delivered, reordered or lost before, of this pair or others |
| `Limitations.RoundedKeysCross` | backend/internal/domain/order.go:46-57 | two orders with equal doubles whose match the price guard refuses |
| `Limitations.RoundedKeysRun` | backend/internal/orderbook/engine.go:91-93 | a run that ends with such a match queued and refused for its price, although both orders were submitted once |
| `Limitations.NarrowGapPasses` | contracts/src/NexusOrderBook.sol:71-73 | two orders with equal doubles that do not cross exactly, and pass the guard with every fill both can take |
| `Limitations.SubmittedTwice` | backend/internal/service/order_service.go:97-118 | a run in which one signed order is submitted twice, under any two pair names or one, and its second match overfills |
| `Limitations.FilledThenCancelled` | backend/internal/service/order_service.go:170-189 | a run after which a filled order's row says cancelled |
| `Signatures.DigestsAgree` | backend/pkg/eip712/typehash.go:30-74 | both sides check a signature against the same digest, domain and order |
| `Signatures.AcceptedIsAccepted` | contracts/src/OrderValidator.sol:25-55 | a signature the service has accepted passes the contract's check if and only if its last byte is 0, 1, 27 or 28 and the maker is not the zero address |
| `Signatures.AcceptedJobSettles` | backend/internal/service/order_service.go:87-93 | a queued job between accepted orders submitted once settles if and only if the signatures are regular, the job is payable and it passes the price guard: no verdict is left open |
| `Rows.RowIsExact` | backend/internal/service/order_service.go:132-139 | over every run of submissions and cancellations, when a row is what the engine has made of the order |
| `Rows.CancelledRowIsExact` | backend/internal/service/order_service.go:176-184 | when one cancellation leaves it so |
| `ServiceRuns.PlaceOrder` | backend/internal/service/order_service.go:87-162 | a submission leads the protocol by one `Submit` and then the losses of the trades not stored; the objects and, update by update, the rows follow; each update says filled in part exactly if its order rests, and filled exactly if all its base is; a refused one changes nothing |
| `ServiceRuns.WithdrawOrder` | backend/internal/service/order_service.go:170-189 | a cancellation leads it by one `CancelOffChain`, or not at all without a row; the row written is the object's status and fill if and only if the order was in the book or cancelled before and the row had the object's fill |
| `Services.SubmitOrder` | backend/internal/service/order_service.go:87-162 | refused without a valid signature or a stored row, with nothing changed; otherwise the engine's answer, one job for each match whose trade was stored, in order, and for both its orders a row update that is what the engine has made of the order; results point to the objects they are about |
| `Services.StoredInOrder` | backend/internal/service/order_service.go:121-148 | the jobs are the matches at exactly the places whose trade was stored, in order |
| `Services.UnstoredAreDropped` | backend/internal/service/order_service.go:132-135 | leaving out unstored trades is a run of losses in the protocol |
| `Services.CancelOrder` | backend/internal/service/order_service.go:170-189 | an order without a row is not found; otherwise the book is left without it and its row is to be marked cancelled with the fill the row had, in the book or not; the ID map loses just that order and its object is cancelled |
| `Services.LoadOpenOrders` | backend/internal/service/order_service.go:206-217 | a run of `AddOrder` over the stored orders, in any state they are in |
| `Workers.Settle` | backend/internal/blockchain/settlement.go:87-122 | the contract after one job, and success reported exactly when the transaction succeeded and its receipt was seen |
| `Workers.Run` | backend/internal/blockchain/settlement.go:71-85 | the contract after all jobs and whatever others transact between them, and the report of each |
| `Workers.RunAndMark` | backend/internal/service/order_service.go:151-161 | the trades marked settled are exactly those whose job settled, was reported and whose update went through; each one's settlement event is in the contract's log |
| `Workers.TurnIsStep` | backend/internal/blockchain/settlement.go:77-83 | each turn of the worker is one step of the protocol on the first queued job |
| `Workers.WorkIsRun` | backend/internal/blockchain/settlement.go:71-85 | working off the queue, with transactions of others in between, is a run of the protocol, without losses if every job settles |
| `Workers.DrainedQueueAgrees` | backend/internal/blockchain/settlement.go:71-122 | with nothing lost before and every job deliverable at its turn, every job settles and the contract's fills equal the engine's `FilledBase`, whatever others transact meanwhile |
| `OrderEncoding.GoWordAgrees` | backend/pkg/eip712/typehash.go:60-64 | Go's padded bytes of an integer are the contract's word for a number exactly when that is its absolute value |
| `OrderEncoding.AddressWordAgrees` | backend/pkg/eip712/typehash.go:57-59 | a padded address is the contract's word for it |
| `OrderEncoding.HashesAgree` | backend/pkg/eip712/typehash.go:54-66 | Go and Solidity hash the same bytes for every order in range |
| `OrderEncoding.EncodingRoundTrip` | contracts/src/libraries/OrderTypes.sol:20-34 | the 256 bytes decode back to the order |
| `OrderEncoding.WordsInOrder` | contracts/src/libraries/OrderTypes.sol:16-32 | the words are the eight fields in the order in which the type string names them |
| `OrderEncoding.HashIsInjective` | contracts/src/libraries/OrderTypes.sol:20-34 | equal order hashes mean equal orders |
| `Indexer.LogRoundTrip` | backend/internal/blockchain/indexer.go:90-122 | dispatching what the contract emits reports that event, and cancellations are not reported |
| `Indexer.Start` | backend/internal/blockchain/indexer.go:47-88 | under any failures the handler is told the logs of blocks 1 to the last block, in order, each once, and the loop sleeps as `Slept` says of the polls |
| `Indexer.SleepsUnlessDelivering` | backend/internal/blockchain/indexer.go:58-86 | every poll but those that deliver blocks sleeps exactly once, between 1 and 30 seconds |
| `Indexer.SleepsFor` | backend/internal/blockchain/indexer.go:58-80 | two seconds when nothing is new, one when the query fails, the growing wait when the head cannot be read, none otherwise |
| `Indexer.WaitDoubles` | backend/internal/blockchain/indexer.go:61-71 | failures to read the head wait 1, 2, 4, 8, 16 and then 30 seconds, counted since a new head was last seen |
| `Indexer.ReachedIsMax` | backend/internal/blockchain/indexer.go:58-86 | the last block is the highest one that a poll with both requests answered has seen |
| `IndexedChain.ChainCarriesLog` | contracts/src/NexusOrderBook.sol:26-37 | blocks 1 to n carry the contract's log up to block n |
| `IndexedChain.IndexerRebuilds` | backend/internal/blockchain/indexer.go:82-86 | folding what the handler was told gives the contract's balances and fills as of the last indexed block |

## Left out

- RoundedKeysCross: places two exact prices and the double nearest to both; the arithmetic of `big.Float` and `float64` is otherwise not modelled.
- BuyerBudget: base and quote amounts are those the contract records; an order whose two tokens are equal is covered, but its amounts then net out in one balance.
- ValidateOrders: the two signature checks enter as verdicts; a signature of the wrong length or form, which `_recover` refuses with its own reason, gets the same reason as one of another signer.
- AcceptedIsAccepted: that the two libraries recover the same signer from the same digest, r, s and recovery id is a parameter.
- DepositTokens: the allowance enters as a verdict, and an allowance that is too small is refused with the same reason as a balance that is too small, both being the token's own errors.
- LoadOpenOrders: fill amounts stored in the database may lag behind the engine's when the process stops; what such stale values do to settlement after a restart is not modelled.
- Start: a chain that replaces blocks it has already reported is not modelled.
- The service's object is modelled for one pair's book at a time; its map from pair names to books, which only looks books up, is part of the protocol in `Settlement` and not of a class.
- Keccak, the arithmetic of ECDSA recovery, and signing.
- Ownership transfer and the reentrancy guard of the contract; every transaction is one step.
- Gas, transaction nonces and receipts beyond success, failure or silence.
- Parsing of submissions, hexadecimal addresses and decimal amounts.
- PostgreSQL, Redis, HTTP, WebSocket, configuration and deployment.
- Data races between goroutines outside the engine's mutex.
- The frontend.
