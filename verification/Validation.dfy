/** OUCH-level validation and OUCH <-> engine field conversion. */
module Validation {
  import opened EngineTypes

  type U32 = n: nat | n < 0x1_0000_0000 witness 0

  const MAX_LIMIT_PRICE: nat := 1_999_999_900
  const MARKET_PRICE_FLOOR: nat := 2_000_000_000
  const MAX_QUANTITY: nat := 999_999

  // Order Rejected reason codes.
  const INVALID_DISPLAY: nat := 0x0003
  const INVALID_MAX_FLOOR: nat := 0x0004
  const INVALID_PEG_TYPE: nat := 0x0005
  const ISO_NOT_ALLOWED: nat := 0x0008
  const INVALID_SIDE: nat := 0x0009
  const PROCESSING_ERROR: nat := 0x000A
  const INVALID_MIN_QUANTITY: nat := 0x000D
  const OTHER: nat := 0x000F
  const INVALID_QUANTITY: nat := 0x0013
  const INVALID_CROSS_ORDER: nat := 0x0014
  const INVALID_PRICE: nat := 0x001D

  // OptionTags validation looks at.
  const TAG_SIDE: nat := 27
  const TAG_USER_REF_IDX: nat := 28

  /** The optional fields Enter and Replace spell identically. */
  datatype Options = Options(
    minQty: nat, maxFloor: nat, priceType: char, pegOffset: int, discretionPrice: nat,
    discretionPriceType: char, discretionPegOffset: int, postOnly: char, randomReserves: nat,
    expireTime: nat, tradeNow: char, handleInst: char, aiqStrategy: char, aiqGroupId: string)

  datatype EnterOrder = EnterOrder(
    userRefNum: U32, side: char, quantity: U32, symbol: string, price: nat, timeInForce: char, display: char,
    capacity: char, intermarketSweep: char, crossType: char, clOrdId: string, options: Options, tags: set<nat>)

  datatype ReplaceOrder = ReplaceOrder(
    origUserRefNum: U32, userRefNum: U32, quantity: U32, price: nat, timeInForce: char, display: char,
    intermarketSweep: char, clOrdId: string, side: char, options: Options, tags: set<nat>)

  datatype CancelOrder = CancelOrder(userRefNum: U32, quantity: U32)

  datatype PriceBand = PriceBand(min: Price, max: Price)

  datatype EnginePrice = EnginePrice(orderType: OrderType, price: Price)

  function ToEnginePrice(ouchPrice: nat, band: PriceBand): Option<EnginePrice> {
    if ouchPrice >= MARKET_PRICE_FLOOR then Some(EnginePrice(Market, 0))
    else if ouchPrice > MAX_LIMIT_PRICE || ouchPrice % OUCH_TICKS_PER_CENT != 0 then None
    else
      var cents := ouchPrice / OUCH_TICKS_PER_CENT;
      if cents < band.min || cents > band.max then None else Some(EnginePrice(Limit, cents))
  }

  function ToOuchPrice(cents: Price): nat {
    cents * OUCH_TICKS_PER_CENT
  }

  function ToEngineSide(side: char): Option<Side> {
    match side
    case 'B' => Some(Bid)
    case 'S' => Some(Ask)
    case _ => None
  }

  function ToEngineTif(tif: char): Option<TimeInForce> {
    match tif
    case '0' => Some(Day)
    case '3' => Some(Ioc)
    case _ => None
  }

  predicate ValidQuantity(quantity: nat) {
    0 < quantity <= MAX_QUANTITY
  }

  /** Options this book does not implement pass only at their defaults. */
  function UnsupportedOption(o: Options, tags: set<nat>): nat {
    if o.minQty != 0 then INVALID_MIN_QUANTITY
    else if o.maxFloor != 0 then INVALID_MAX_FLOOR
    else if o.priceType != 'L' || o.pegOffset != 0 || o.discretionPrice != 0 ||
            o.discretionPriceType != 'L' || o.discretionPegOffset != 0 then INVALID_PEG_TYPE
    else if o.postOnly != 'N' || o.randomReserves != 0 || o.expireTime != 0 || o.tradeNow != 'N' ||
            o.handleInst != ' ' || o.aiqStrategy != '*' || o.aiqGroupId != "**" || TAG_USER_REF_IDX in tags then OTHER
    else 0
  }

  datatype EnterCheck =
    | EnterRejected(reason: nat)
    | EnterAccepted(side: Side, orderType: OrderType, price: Price, timeInForce: TimeInForce)

  function CheckEnter(m: EnterOrder, band: PriceBand): EnterCheck {
    match ToEngineSide(m.side)
    case None => EnterRejected(INVALID_SIDE)
    case Some(side) =>
      if !ValidQuantity(m.quantity) then EnterRejected(INVALID_QUANTITY)
      else
        match ToEnginePrice(m.price, band)
        case None => EnterRejected(INVALID_PRICE)
        case Some(price) =>
          match ToEngineTif(m.timeInForce)
          case None => EnterRejected(OTHER)
          case Some(tif) =>
            if m.display != 'Y' then EnterRejected(INVALID_DISPLAY)
            else if m.capacity !in "APRO" then EnterRejected(OTHER)
            else if m.intermarketSweep != 'N' then EnterRejected(ISO_NOT_ALLOWED)
            else if m.crossType != 'N' then EnterRejected(INVALID_CROSS_ORDER)
            else
              var reason := UnsupportedOption(m.options, m.tags);
              if reason != 0 then EnterRejected(reason)
              else EnterAccepted(side, price.orderType, price.price, tif)
  }

  datatype ReplaceCheck = ReplaceInvalid | ReplaceValid(price: Price, timeInForce: TimeInForce)

  function CheckReplace(m: ReplaceOrder, origSide: char, band: PriceBand): ReplaceCheck {
    if !ValidQuantity(m.quantity) then ReplaceInvalid
    else
      match ToEnginePrice(m.price, band)
      case None => ReplaceInvalid
      case Some(price) =>
        match ToEngineTif(m.timeInForce)
        case None => ReplaceInvalid
        case Some(tif) =>
          if price.orderType != Limit then ReplaceInvalid
          else if m.display != 'Y' || m.intermarketSweep != 'N' then ReplaceInvalid
          else if TAG_SIDE in m.tags && m.side != origSide then ReplaceInvalid
          else if UnsupportedOption(m.options, m.tags) != 0 then ReplaceInvalid
          else ReplaceValid(price.price, tif)
  }

  /** Limit prices round-trip, and a limit price is exactly a whole-cent price in
      the band; the gap below the market floor holds only sub-penny prices. */
  lemma PriceExact(ouchPrice: nat, band: PriceBand)
    requires band.max * OUCH_TICKS_PER_CENT <= MAX_LIMIT_PRICE
    ensures match ToEnginePrice(ouchPrice, band)
            case Some(p) =>
              if p.orderType == Market then ouchPrice >= MARKET_PRICE_FLOOR && p.price == 0
              else ToOuchPrice(p.price) == ouchPrice && band.min <= p.price <= band.max
            case None => forall cents: nat | band.min <= cents <= band.max :: ToOuchPrice(cents) != ouchPrice
  {
    forall cents: nat | band.min <= cents <= band.max && ToOuchPrice(cents) == ouchPrice
      ensures ToEnginePrice(ouchPrice, band) == Some(EnginePrice(Limit, cents))
    {
      assert cents * 100 <= band.max * 100;
    }
  }
}
