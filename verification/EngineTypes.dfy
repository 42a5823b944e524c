/** Engine-domain vocabulary: what the gateway and the matching engine pass each
    other, what the book publishes, and the constants both sides agree on. */
module EngineTypes {
  // Engine prices are cents; the ladder has one level per tick of this band.
  const MIN_PRICE: nat := 1
  const MAX_PRICE: nat := 100_000
  const TICKS: nat := MAX_PRICE - MIN_PRICE + 1

  // OUCH and ITCH prices carry four implied decimals.
  const OUCH_TICKS_PER_CENT: nat := 100

  datatype Option<+T> = None | Some(value: T)

  type OrderId = nat
  type ClientId = nat
  type Price = nat
  type Quantity = nat

  datatype Side = Bid | Ask
  datatype OrderType = Market | Limit
  datatype TimeInForce = Day | Ioc

  function Opposite(side: Side): Side {
    if side == Bid then Ask else Bid
  }

  /** Whether price p is at least as attractive as q for orders resting on side. */
  predicate AsGood(side: Side, p: Price, q: Price) {
    if side == Bid then p >= q else p <= q
  }

  predicate InBand(price: Price) {
    MIN_PRICE <= price <= MAX_PRICE
  }

  datatype RequestKind = New | Cancel | Replace

  datatype Request = Request(
    kind: RequestKind,
    orderId: OrderId,
    newOrderId: OrderId,
    clientId: ClientId,
    price: Price,
    quantity: Quantity,
    side: Side,
    orderType: OrderType,
    timeInForce: TimeInForce)

  // Cancel reasons, liquidity flags and the engine-side reject reason.
  const USER_REQUESTED: char := 'U'
  const IMMEDIATE_OR_CANCEL: char := 'I'
  const ADDED_LIQUIDITY: char := 'A'
  const REMOVED_LIQUIDITY: char := 'R'
  const BOOK_FULL: char := 'F'
  const NO_REASON: char := '\0'

  datatype EventKind = Accepted | Replaced | Canceled | Executed | Rejected

  datatype Event = Event(
    kind: EventKind,
    orderId: OrderId,
    origOrderId: OrderId,
    matchNumber: nat,
    clientId: ClientId,
    price: Price,
    quantity: Quantity,
    reason: char,
    answersRequest: bool)

  /** ITCH 5.0 messages, without the header (constant but for the timestamp). */
  datatype Itch =
    | AddOrder(ref: OrderId, buySell: char, shares: Quantity, itchPrice: nat)
    | OrderExecuted(ref: OrderId, shares: Quantity, matchNumber: nat)
    | OrderCancel(ref: OrderId, shares: Quantity)
    | OrderDelete(ref: OrderId)
    | OrderReplace(origRef: OrderId, newRef: OrderId, shares: Quantity, itchPrice: nat)

  function ToOuchSide(side: Side): char {
    if side == Bid then 'B' else 'S'
  }

  function ToItchPrice(price: Price): nat {
    price * OUCH_TICKS_PER_CENT
  }

  function Min(a: nat, b: nat): nat {
    if a <= b then a else b
  }
}
