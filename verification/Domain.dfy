/** Orders as the matching engine and the contract see them (backend/internal/domain/order.go). */
module Domain {

  datatype Option<T> = None | Some(value: T)

  datatype Side = Buy | Sell {
    function Opposite(): Side {
      if Buy? then Sell else Buy
    }
  }

  datatype Status = Open | PartiallyFilled | Filled | Cancelled

  /** The eight signed fields; the signed struct carries no side. */
  datatype OrderData = OrderData(
    maker: nat, tokenSell: nat, tokenBuy: nat,
    amountSell: nat, amountBuy: nat,
    expiry: nat, nonce: nat, salt: nat)

  /** The fields of an order that never change. `price` is whatever number `Price()` returns for the
      order: the book only ever compares it, so it is an arbitrary real here. */
  datatype Terms = Terms(id: string, side: Side, data: OrderData, price: real, createdAt: int) {

    /** The base-token capacity of the order. */
    function Base(): nat {
      if side.Buy? then data.amountBuy else data.amountSell
    }

    predicate Positive() {
      data.amountSell > 0 && data.amountBuy > 0
    }

    /** Quote per base, without rounding. */
    function ExactPrice(): real
      requires Positive()
    {
      if side.Buy? then data.amountSell as real / data.amountBuy as real
      else data.amountBuy as real / data.amountSell as real
    }
  }

  /** An order at one moment. */
  datatype OrderValue = OrderValue(terms: Terms, filled: int, status: Status) {

    function Remaining(): int {
      terms.Base() - filled
    }

    /** What every order resting in a book satisfies. */
    predicate Live() {
      && terms.Positive()
      && 0 <= filled < terms.Base()
      && (status.Open? || status.PartiallyFilled?)
    }
  }

  /** `a` comes strictly before `b` on the given side: better price first, then earlier creation. */
  predicate Less(side: Side, a: Terms, b: Terms) {
    if a.price != b.price then
      if side.Buy? then a.price > b.price else a.price < b.price
    else
      a.createdAt < b.createdAt
  }

  /** What not coming after means, in prices and times. */
  lemma NotAfter(side: Side, a: Terms, b: Terms)
    ensures !Less(side, b, a) <==>
      (if side.Buy? then a.price >= b.price else a.price <= b.price) &&
      (a.price == b.price ==> a.createdAt <= b.createdAt)
  {
  }

  /** The mutable order object shared by the caller and the book. */
  class Order {
    const terms: Terms
    var filledBase: int
    var status: Status

    constructor (terms: Terms)
      ensures this.terms == terms && filledBase == 0 && status == Open
    {
      this.terms := terms;
      filledBase := 0;
      status := Open;
    }

    function RemainingBase(): int
      reads this
    {
      terms.Base() - filledBase
    }

    /** Filled to the end. */
    predicate Full()
      reads this
    {
      filledBase == terms.Base() && status.Filled?
    }

    function Value(): OrderValue
      reads this
    {
      OrderValue(terms, filledBase, status)
    }
  }
}
