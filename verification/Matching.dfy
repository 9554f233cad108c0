/** What one call of `AddOrder` or `CancelOrder` does, on values: the book is the map from order ID to
    resting order, and the heaps do not appear. Which of several equally good resting orders is taken
    first is left open. */
module Matching {
  import opened Domain

  type Resting = map<string, OrderValue>

  /** backend/internal/orderbook/engine.go, `MatchResult` */
  datatype Match = Match(buy: Terms, sell: Terms, fill: int, quote: int, price: real) {
    /** The party that rested on the given side. */
    function Party(side: Side): Terms {
      if side.Buy? then buy else sell
    }
  }

  /** A book while the incoming order `taker`, which is not in it, is being matched. */
  datatype State = State(rest: Resting, taker: OrderValue) {
    function MakerSide(): Side {
      taker.terms.side.Opposite()
    }
  }

  /** The incoming order's price is compatible with the resting order's. */
  predicate Crosses(taker: Terms, maker: Terms) {
    if taker.side.Buy? then taker.price >= maker.price else maker.price >= taker.price
  }

  /** Both matching loops price the fill at the sell order's ratio, rounding down. */
  function Quote(sell: Terms, fill: int): int
    requires sell.Positive()
  {
    fill * sell.data.amountBuy / sell.data.amountSell
  }

  function MinBigInt(a: int, b: int): int {
    if a < b then a else b
  }

  function MakeMatch(taker: OrderValue, maker: OrderValue): Match
    requires taker.terms.Positive() && maker.terms.Positive()
  {
    var fill := MinBigInt(taker.Remaining(), maker.Remaining());
    if taker.terms.side.Buy? then
      Match(taker.terms, maker.terms, fill, Quote(maker.terms, fill), maker.terms.price)
    else
      Match(maker.terms, taker.terms, fill, Quote(taker.terms, fill), maker.terms.price)
  }

  /** The status `updateOrderStatus` leaves. */
  function StatusAfter(o: OrderValue): Status {
    if o.Remaining() <= 0 then Filled
    else if o.filled > 0 then PartiallyFilled
    else o.status
  }

  function FillOrder(o: OrderValue, fill: int): OrderValue {
    var o' := o.(filled := o.filled + fill);
    o'.(status := StatusAfter(o'))
  }

  ghost predicate Book(rest: Resting) {
    forall id | id in rest :: rest[id].Live() && rest[id].terms.id == id
  }

  /** An order a caller may hand to the engine. */
  predicate Incoming(o: OrderValue) {
    o.terms.Positive() && o.filled >= 0 && !o.status.Cancelled?
  }

  /** No resting order of the side comes before `id`. */
  ghost predicate IsBest(rest: Resting, side: Side, id: string) {
    && id in rest && rest[id].terms.side == side
    && forall j | j in rest && rest[j].terms.side == side :: !Less(side, rest[j].terms, rest[id].terms)
  }

  /** The engine may produce the match `m` next. */
  ghost predicate CanMatch(s: State, m: Match) {
    var id := m.Party(s.MakerSide()).id;
    && s.taker.Remaining() > 0
    && IsBest(s.rest, s.MakerSide(), id)
    && Crosses(s.taker.terms, s.rest[id].terms)
    && s.taker.terms.Positive() && s.rest[id].terms.Positive()
    && m == MakeMatch(s.taker, s.rest[id])
  }

  function ApplyMatch(s: State, m: Match): State {
    var id := m.Party(s.MakerSide()).id;
    if id !in s.rest then s else
    var maker := FillOrder(s.rest[id], m.fill);
    State(
      if maker.status.Filled? then s.rest - {id} else s.rest[id := maker],
      FillOrder(s.taker, m.fill))
  }

  function ApplyAll(s: State, ms: seq<Match>): State {
    if ms == [] then s else ApplyMatch(ApplyAll(s, ms[..|ms| - 1]), ms[|ms| - 1])
  }

  ghost predicate CanMatchAll(s: State, ms: seq<Match>) {
    ms == [] ||
    (CanMatchAll(s, ms[..|ms| - 1]) && CanMatch(ApplyAll(s, ms[..|ms| - 1]), ms[|ms| - 1]))
  }

  /** The matching loop stops here. */
  ghost predicate Done(s: State) {
    s.taker.Remaining() <= 0 ||
    forall id | id in s.rest && s.rest[id].terms.side == s.MakerSide() ::
      !Crosses(s.taker.terms, s.rest[id].terms)
  }

  predicate Rests(o: OrderValue) {
    o.Remaining() > 0 && !o.status.Filled?
  }

  function Settle(s: State): Resting {
    if Rests(s.taker) then s.rest[s.taker.terms.id := s.taker] else s.rest
  }

  /** `AddOrder(o)` on the book `rest` may return `ms` and leave `rest'` and the order `o'`. */
  ghost predicate Added(rest: Resting, o: OrderValue, ms: seq<Match>, rest': Resting, o': OrderValue) {
    && CanMatchAll(State(rest, o), ms)
    && var s := ApplyAll(State(rest, o), ms);
    && Done(s)
    && o' == s.taker
    && rest' == Settle(s)
  }

  /** `CancelOrder(id)` on the book `rest`. */
  function AfterCancel(rest: Resting, id: string): Resting {
    rest - {id}
  }

  /** Recording the fill and then dropping a filled maker is `ApplyMatch`, and it keeps every
      resting order live when the maker can take the fill. */
  lemma ApplyInSteps(s: State, m: Match)
    requires Book(s.rest)
    requires var id := m.Party(s.MakerSide()).id; id in s.rest && 0 < m.fill <= s.rest[id].Remaining()
    ensures var id := m.Party(s.MakerSide()).id;
      var maker := FillOrder(s.rest[id], m.fill);
      var recorded := s.rest[id := maker];
      var rest := if maker.status.Filled? then recorded - {id} else recorded;
      ApplyMatch(s, m) == State(rest, FillOrder(s.taker, m.fill)) && Book(rest)
  {
  }

  /** An order that a fill within its remaining amount marks filled has filled its whole base. */
  lemma FilledIsFull(o: OrderValue, fill: int)
    requires 0 < fill <= o.Remaining()
    ensures var o' := FillOrder(o, fill); o'.terms == o.terms && (o'.Remaining() == 0 <==> o'.filled == o.terms.Base())
    ensures var o' := FillOrder(o, fill); o.Live() ==> (o'.status.Filled? <==> o'.Remaining() == 0)
  {
  }

  lemma MatchFillsTaker(s: State, m: Match)
    requires CanMatch(s, m)
    ensures ApplyMatch(s, m).taker == FillOrder(s.taker, m.fill)
    ensures s.rest[m.Party(s.MakerSide()).id].Live() ==> m.fill > 0
  {
  }

  lemma CancelKeepsBook(rest: Resting, id: string, o: OrderValue)
    requires Book(rest)
    ensures Book(AfterCancel(rest, id)) && AfterCancel(rest[id := o], id) == AfterCancel(rest, id)
  {
  }
}
