/** The event indexer (backend/internal/blockchain/indexer.go): a polling loop over an append-only chain,
    and the dispatch of each log to a handler. */
module Indexer {
  import opened Domain
  import opened OrderEncoding
  import opened Exchange

  /** A log topic is a 32-byte word or a digest. */
  datatype Topic = Plain(word: seq<byte>) | Digest(hash: Hash)

  datatype RawLog = RawLog(topics: seq<Topic>, data: seq<byte>)

  type Block = seq<RawLog>

  const DEPOSIT_SIG := Digest(OfText("Deposit(address,address,uint256)"))
  const WITHDRAW_SIG := Digest(OfText("Withdraw(address,address,uint256)"))
  const TRADE_SETTLED_SIG := Digest(OfText("TradeSettled(bytes32,bytes32,address,address,uint256,uint256)"))
  const ORDER_CANCELLED_SIG := Digest(OfText("OrderCancelled(bytes32,address)"))
  const MIN_NONCE_SIG := Digest(OfText("MinNonceIncremented(address,uint256)"))

  /** The log the contract emits for an event: signature and indexed arguments as topics, the other
      arguments as words of data. */
  function Emitted(e: Event): RawLog {
    match e
    case Deposit(user, token, amount) => RawLog([DEPOSIT_SIG, Plain(Word(user)), Plain(Word(token))], Word(amount))
    case Withdraw(user, token, amount) => RawLog([WITHDRAW_SIG, Plain(Word(user)), Plain(Word(token))], Word(amount))
    case TradeSettled(buyHash, sellHash, buyer, seller, base, quote) =>
      RawLog([TRADE_SETTLED_SIG, Digest(buyHash), Digest(sellHash)],
             Word(buyer) + Word(seller) + Word(base) + Word(quote))
    case OrderCancelled(hash, maker) => RawLog([ORDER_CANCELLED_SIG, Digest(hash), Plain(Word(maker))], [])
    case MinNonceIncremented(maker, newMinNonce) => RawLog([MIN_NONCE_SIG, Plain(Word(maker))], Word(newMinNonce))
  }

  /** A log with one of the three handled signatures has its two indexed arguments, of the right kind. */
  predicate WellFormed(l: RawLog) {
    && (l.topics != [] && (l.topics[0] == DEPOSIT_SIG || l.topics[0] == WITHDRAW_SIG) ==>
          |l.topics| == 3 && l.topics[1].Plain? && l.topics[2].Plain?
          && |l.topics[1].word| == 32 && |l.topics[2].word| == 32)
    && (l.topics != [] && l.topics[0] == TRADE_SETTLED_SIG ==>
          |l.topics| == 3 && l.topics[1].Digest? && l.topics[2].Digest?)
  }

  /** `common.BytesToAddress`: the last 20 bytes. */
  function BytesToAddress(bs: seq<byte>): nat
    requires |bs| >= 20
  {
    FromBytes(bs[|bs| - 20..])
  }

  /** `processLog`: at most one call of the handler, written as the event it reports. */
  function ProcessLog(l: RawLog): seq<Event>
    requires WellFormed(l)
  {
    if |l.topics| == 0 then []
    else if l.topics[0] == DEPOSIT_SIG then
      [Deposit(BytesToAddress(l.topics[1].word), BytesToAddress(l.topics[2].word), FromBytes(l.data))]
    else if l.topics[0] == WITHDRAW_SIG then
      [Withdraw(BytesToAddress(l.topics[1].word), BytesToAddress(l.topics[2].word), FromBytes(l.data))]
    else if l.topics[0] == TRADE_SETTLED_SIG then
      if |l.data| < 128 then []   // unpacking fails
      else
        [TradeSettled(l.topics[1].hash, l.topics[2].hash,
                      BytesToAddress(l.data[0..32]), BytesToAddress(l.data[32..64]),
                      WordAt(l.data, 2), WordAt(l.data, 3))]
    else []
  }

  /** What the handler should be told about an event: cancellations are not reported. */
  function Handled(e: Event): seq<Event> {
    if e.OrderCancelled? || e.MinNonceIncremented? then [] else [e]
  }

  predicate EventInRange(e: Event) {
    match e
    case Deposit(user, token, amount) => IsAddress(user) && IsAddress(token) && IsUint(amount)
    case Withdraw(user, token, amount) => IsAddress(user) && IsAddress(token) && IsUint(amount)
    case TradeSettled(_, _, buyer, seller, base, quote) =>
      IsAddress(buyer) && IsAddress(seller) && IsUint(base) && IsUint(quote)
    case OrderCancelled(_, _) => true
    case MinNonceIncremented(_, _) => true
  }

  lemma {:induction false} LowBytes(n: nat, width: nat, low: nat)
    requires low <= width
    ensures BigEndian(n, width)[width - low..] == BigEndian(n, low)
  {
    if low > 0 {
      LowBytes(n / 256, width - 1, low - 1);
    }
  }

  lemma ReadAddress(a: nat)
    requires IsAddress(a)
    ensures BytesToAddress(Word(a)) == a
  {
    Limits();
    LowBytes(a, 32, 20);
    ReadBack(a, 20);
  }

  /** Decoding what the contract emits gives back the event. */
  lemma LogRoundTrip(e: Event)
    requires EventInRange(e)
    ensures WellFormed(Emitted(e)) && ProcessLog(Emitted(e)) == Handled(e)
  {
    match e
    case Deposit(user, token, amount) =>
      ReadAddress(user); ReadAddress(token); ReadWord(amount);
    case Withdraw(user, token, amount) =>
      ReadAddress(user); ReadAddress(token); ReadWord(amount);
    case TradeSettled(_, _, buyer, seller, base, quote) =>
      var data := Emitted(e).data;
      assert data[0..32] == Word(buyer) && data[32..64] == Word(seller);
      assert data[64..96] == Word(base) && data[96..128] == Word(quote);
      ReadAddress(buyer); ReadAddress(seller); ReadWord(base); ReadWord(quote);
    case OrderCancelled(_, _) =>
    case MinNonceIncremented(_, _) =>
  }

  // ---------------------------------------------------------------- the polling loop

  /** One turn of the loop: the block number the node reports, if it does, and whether the log query works. */
  datatype Poll = Poll(head: Option<nat>, filtered: bool)

  /** The logs of blocks `first` to `last`, in order: what `FilterLogs` returns. */
  function LogsBetween(chain: seq<Block>, first: nat, last: nat): seq<RawLog>
    requires last < |chain|
    decreases last
  {
    if first > last then []
    else if last == 0 then chain[0]
    else LogsBetween(chain, first, last - 1) + chain[last]
  }

  lemma {:induction false} LogsJoin(chain: seq<Block>, first: nat, mid: nat, last: nat)
    requires first <= mid + 1 && mid <= last < |chain|
    ensures LogsBetween(chain, first, last) == LogsBetween(chain, first, mid) + LogsBetween(chain, mid + 1, last)
    decreases last
  {
    if mid < last {
      LogsJoin(chain, first, mid, last - 1);
    }
  }

  ghost predicate AllWellFormed(logs: seq<RawLog>) {
    forall i :: 0 <= i < |logs| ==> WellFormed(logs[i])
  }

  function ProcessAll(logs: seq<RawLog>): seq<Event>
    requires AllWellFormed(logs)
  {
    if logs == [] then [] else ProcessAll(logs[..|logs| - 1]) + ProcessLog(logs[|logs| - 1])
  }

  lemma {:induction false} ProcessJoin(a: seq<RawLog>, b: seq<RawLog>)
    requires AllWellFormed(a) && AllWellFormed(b)
    ensures AllWellFormed(a + b) && ProcessAll(a + b) == ProcessAll(a) + ProcessAll(b)
    decreases |b|
  {
    hide ProcessLog, WellFormed;
    if b == [] {
      assert a + b == a;
    } else {
      assert (a + b)[..|a + b| - 1] == a + b[..|b| - 1];
      ProcessJoin(a, b[..|b| - 1]);
    }
  }

  lemma {:induction false} LogsAreWellFormed(chain: seq<Block>, first: nat, last: nat)
    requires last < |chain| && forall b :: 0 <= b < |chain| ==> AllWellFormed(chain[b])
    ensures AllWellFormed(LogsBetween(chain, first, last))
    decreases last
  {
    if 0 < last && first <= last {
      LogsAreWellFormed(chain, first, last - 1);
    }
  }

  /** The highest block some fully successful poll has seen. */
  function Reached(polls: seq<Poll>): nat {
    if polls == [] then 0
    else
      var before, p := Reached(polls[..|polls| - 1]), polls[|polls| - 1];
      if p.head.Some? && p.filtered && p.head.value > before then p.head.value else before
  }

  /** `Reached` is the maximum over the polls whose two requests both succeeded. */
  lemma {:induction false} ReachedIsMax(polls: seq<Poll>)
    ensures forall i :: 0 <= i < |polls| && polls[i].head.Some? && polls[i].filtered ==>
      polls[i].head.value <= Reached(polls)
    ensures Reached(polls) > 0 ==>
      exists i :: 0 <= i < |polls| && polls[i].filtered && polls[i].head == Some(Reached(polls))
  {
    if polls != [] {
      var before := polls[..|polls| - 1];
      ReachedIsMax(before);
      if Reached(polls) == Reached(before) && Reached(before) > 0 {
        var i :| 0 <= i < |before| && before[i].filtered && before[i].head == Some(Reached(before));
        assert polls[i].head == Some(Reached(polls));
      }
    }
  }

  /** The poll sees a block beyond those already reached. */
  predicate Advances(before: seq<Poll>, p: Poll) {
    p.head.Some? && p.head.value > Reached(before)
  }

  /** How often the head could not be read since a new one was last seen. */
  function Failures(polls: seq<Poll>): nat {
    if polls == [] then 0
    else
      var before, p := polls[..|polls| - 1], polls[|polls| - 1];
      if p.head.None? then Failures(before) + 1 else if Advances(before, p) then 0 else Failures(before)
  }

  /** The wait after so many failures. */
  function Wait(failures: nat): (seconds: nat)
    ensures 1 <= seconds <= 30
  {
    if failures == 0 then 1
    else
      var twice := 2 * Wait(failures - 1);
      if twice < 30 then twice else 30
  }

  /** What is slept, poll by poll: a growing wait when the head cannot be read, two seconds when nothing is
      new, one second when the query fails, and nothing otherwise. */
  function Slept(polls: seq<Poll>): seq<nat> {
    if polls == [] then []
    else
      var before, p := polls[..|polls| - 1], polls[|polls| - 1];
      Slept(before) + if p.head.None? then [Wait(Failures(before))]
        else if !Advances(before, p) then [2]
        else if !p.filtered then [1]
        else []
  }

  /** The waits double from one second to half a minute: 1, 2, 4, 8, 16, and 30 from then on. */
  lemma {:induction false} WaitDoubles(n: nat)
    ensures n < 5 ==> Wait(n) == [1, 2, 4, 8, 16][n]
    ensures n >= 5 ==> Wait(n) == 30
  {
    if n > 5 {
      WaitDoubles(n - 1);
    } else {
      assert Wait(0) == 1 && Wait(1) == 2 && Wait(2) == 4;
      assert Wait(3) == 8 && Wait(4) == 16 && Wait(5) == 30;
    }
  }

  /** How long one more poll sleeps. */
  lemma SleepsFor(polls: seq<Poll>, p: Poll)
    ensures p.head.None? ==> Slept(polls + [p]) == Slept(polls) + [Wait(Failures(polls))]
    ensures p.head.Some? && p.head.value <= Reached(polls) ==> Slept(polls + [p]) == Slept(polls) + [2]
    ensures p.head.Some? && p.head.value > Reached(polls) ==>
      Slept(polls + [p]) == Slept(polls) + if p.filtered then [] else [1]
  {
    assert (polls + [p])[..|polls|] == polls;
  }

  predicate Delivers(polls: seq<Poll>, i: nat)
    requires i < |polls|
  {
    Advances(polls[..i], polls[i]) && polls[i].filtered
  }

  /** Every poll but those that deliver blocks sleeps once, within half a minute. */
  lemma {:induction false} SleepsUnlessDelivering(polls: seq<Poll>) returns (delivering: seq<nat>)
    ensures |Slept(polls)| + |delivering| == |polls|
    ensures forall i, j :: 0 <= i < j < |delivering| ==> delivering[i] < delivering[j]
    ensures forall i :: 0 <= i < |delivering| ==> delivering[i] < |polls| && Delivers(polls, delivering[i])
    ensures forall n: nat :: n < |polls| && Delivers(polls, n) ==> n in delivering
    ensures forall d | d in Slept(polls) :: 1 <= d <= 30
  {
    delivering := [];
    if polls != [] {
      var n := |polls| - 1;
      delivering := SleepsUnlessDelivering(polls[..n]);
      forall i: nat | i < n
        ensures Delivers(polls, i) <==> Delivers(polls[..n], i)
      {
        assert polls[..n][..i] == polls[..i];
      }
      hide Advances;
      if Delivers(polls, n) {
        delivering := delivering + [n];
      }
    }
  }

  lemma NothingPolled(chain: seq<Block>, polls: seq<Poll>)
    requires |chain| > 0
    ensures Reached(polls[..0]) == 0 && Failures(polls[..0]) == 0 && Slept(polls[..0]) == [] && Wait(0) == 1
    ensures LogsBetween(chain, 1, 0) == [] && AllWellFormed([]) && ProcessAll([]) == []
  {
  }

  /** What one more poll makes of the three records of the polls. */
  lemma NextPoll(polls: seq<Poll>, i: nat)
    requires i < |polls|
    ensures var before, after, p := polls[..i], polls[..i + 1], polls[i];
      if p.head.None? then
        && Reached(after) == Reached(before) && Failures(after) == Failures(before) + 1
        && Slept(after) == Slept(before) + [Wait(Failures(before))]
        && Wait(Failures(after)) == var twice := 2 * Wait(Failures(before)); if twice < 30 then twice else 30
      else if p.head.value <= Reached(before) then
        && Reached(after) == Reached(before) && Failures(after) == Failures(before)
        && Slept(after) == Slept(before) + [2]
      else
        && Failures(after) == 0 && Wait(0) == 1
        && Reached(after) == (if p.filtered then p.head.value else Reached(before))
        && Slept(after) == Slept(before) + if p.filtered then [] else [1]
  {
    assert polls[..i + 1][..i] == polls[..i];
  }

  /** `Start`, run for the given polls over the chain as it will be: blocks are only ever appended, so
      what a poll sees of it is a prefix. Sleeps are recorded in seconds. */
  method Start(chain: seq<Block>, polls: seq<Poll>) returns (handled: seq<Event>, lastBlock: nat, slept: seq<nat>)
    requires |chain| > 0 && forall b :: 0 <= b < |chain| ==> AllWellFormed(chain[b])
    requires forall i :: 0 <= i < |polls| && polls[i].head.Some? ==> polls[i].head.value < |chain|
    ensures lastBlock == Reached(polls) < |chain|
    ensures AllWellFormed(LogsBetween(chain, 1, lastBlock))
    ensures handled == ProcessAll(LogsBetween(chain, 1, lastBlock))
    ensures slept == Slept(polls)
  {
    hide LogsBetween, ProcessAll, AllWellFormed, Reached, Slept, Failures, Wait;
    handled, lastBlock, slept := [], 0, [];
    var backoff := 1;
    var i := 0;
    NothingPolled(chain, polls);
    while i < |polls|
      invariant 0 <= i <= |polls|
      invariant lastBlock == Reached(polls[..i]) < |chain|
      invariant AllWellFormed(LogsBetween(chain, 1, lastBlock))
      invariant handled == ProcessAll(LogsBetween(chain, 1, lastBlock))
      invariant backoff == Wait(Failures(polls[..i])) && slept == Slept(polls[..i])
    {
      var poll := polls[i];
      NextPoll(polls, i);
      i := i + 1;
      if poll.head.None? {
        slept := slept + [backoff];
        backoff := if backoff * 2 < 30 then backoff * 2 else 30;
        continue;
      }
      var currentBlock := poll.head.value;
      if currentBlock <= lastBlock {
        slept := slept + [2];
        continue;
      }
      backoff := 1;
      if !poll.filtered {
        slept := slept + [backoff];
        continue;
      }
      var logs := LogsBetween(chain, lastBlock + 1, currentBlock);
      LogsAreWellFormed(chain, lastBlock + 1, currentBlock);
      var reported := ProcessLogs(logs);
      handled := handled + reported;
      LogsJoin(chain, 1, lastBlock, currentBlock);
      ProcessJoin(LogsBetween(chain, 1, lastBlock), logs);
      lastBlock := currentBlock;
    }
    assert polls[..i] == polls;
  }

  /** The inner loop over the logs of one query. */
  method ProcessLogs(logs: seq<RawLog>) returns (reported: seq<Event>)
    requires AllWellFormed(logs)
    ensures reported == ProcessAll(logs)
  {
    reported := [];
    var i := 0;
    while i < |logs|
      invariant 0 <= i <= |logs|
      invariant reported == ProcessAll(logs[..i])
    {
      assert logs[..i + 1][..i] == logs[..i];
      reported := reported + ProcessLog(logs[i]);
      i := i + 1;
    }
    assert logs[..i] == logs;
  }
}
