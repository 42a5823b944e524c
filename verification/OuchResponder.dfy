/** The outbound half of order entry: records of live orders, kept from the
    gateway's notes and the engine's events, and the OUCH message each event
    becomes. The records' open counts always agree with the book. */
module OuchResponder {
  import opened EngineTypes
  import opened OrderEntry
  import V = Validation

  datatype Frame =
    | FrameAccepted(userRefNum: nat, side: char, quantity: nat, symbol: string, price: nat, timeInForce: char,
                    display: char, orderRef: OrderId, capacity: char, intermarketSweep: char, crossType: char,
                    orderState: char, clOrdId: string)
    | FrameReplaced(origUserRefNum: nat, userRefNum: nat, side: char, quantity: nat, symbol: string, price: nat,
                    timeInForce: char, display: char, orderRef: OrderId, capacity: char, intermarketSweep: char,
                    crossType: char, orderState: char, clOrdId: string)
    | FrameCanceled(userRefNum: nat, decrement: nat, cancelReason: char)
    | FrameExecuted(userRefNum: nat, shares: nat, executionPrice: nat, liquidityFlag: char, matchNumber: nat)
    | FrameRejected(userRefNum: nat, rejectReason: nat, clOrdId: string)

  datatype Response = Response(clientId: ClientId, frame: Frame)

  datatype LiveOrder = LiveOrder(record: OrderRecord, open: Quantity)

  type Records = map<OrderId, LiveOrder>

  //--- the records after each input ---

  function AfterNote(records: Records, note: Note): Records {
    match note
    case NoteRejected(_, _) => records
    case OrderEntered(id, record) => records[id := LiveOrder(record, 0)]
    case OrderReplacing(id, record) => records[id := LiveOrder(record, 0)]
  }

  /** shares come off an order's open count; its record goes when none are left. */
  function Reduced(records: Records, id: OrderId, shares: Quantity): Records
    requires id in records
  {
    var live := records[id];
    if shares < live.open then records[id := live.(open := live.open - shares)] else records - {id}
  }

  /** The event's order -- and, replaced, its original -- have records. */
  predicate Known(records: Records, event: Event) {
    event.orderId in records && (event.kind == Replaced ==> event.origOrderId in records)
  }

  function AfterEvent(records: Records, event: Event): Records
    requires Known(records, event)
  {
    var live := records[event.orderId];
    match event.kind
    case Accepted => records[event.orderId := live.(open := event.quantity)]
    case Replaced => (records - {event.origOrderId})[event.orderId := live.(open := event.quantity)]
    case Canceled => Reduced(records, event.orderId, event.quantity)
    case Executed => Reduced(records, event.orderId, event.quantity)
    case Rejected => records - {event.orderId}
  }

  /** The OUCH message for an event, echoing the record. */
  function Message(records: Records, event: Event): Response
    requires Known(records, event)
  {
    var r := records[event.orderId].record;
    Response(r.clientId,
      match event.kind
      case Accepted =>
        FrameAccepted(r.userRefNum, r.side, event.quantity, r.symbol, r.price, r.timeInForce, r.display, event.orderId,
                      r.capacity, r.intermarketSweep, r.crossType, 'L', r.clOrdId)
      case Replaced =>
        FrameReplaced(records[event.origOrderId].record.userRefNum, r.userRefNum, r.side, event.quantity, r.symbol,
                      r.price, r.timeInForce, r.display, event.orderId, r.capacity, r.intermarketSweep, r.crossType,
                      'L', r.clOrdId)
      case Canceled => FrameCanceled(r.userRefNum, event.quantity, event.reason)
      case Executed =>
        FrameExecuted(r.userRefNum, event.quantity, V.ToOuchPrice(event.price), event.reason, event.matchNumber)
      case Rejected => FrameRejected(r.userRefNum, V.PROCESSING_ERROR, r.clOrdId))
  }

  /** What the answer tells the order's client, field by field: the event's shares,
      price (with four implied decimals), flag, match number or reason, and what the
      client itself sent with the order. */
  ghost predicate Tells(records: Records, event: Event, answer: Response)
    requires Known(records, event)
  {
    var r, f := records[event.orderId].record, answer.frame;
    && answer.clientId == r.clientId
    && (match event.kind
        case Accepted =>
          && f.FrameAccepted? && f.userRefNum == r.userRefNum && f.side == r.side && f.quantity == event.quantity
          && f.symbol == r.symbol && f.price == r.price && f.timeInForce == r.timeInForce && f.display == r.display
          && f.orderRef == event.orderId && f.capacity == r.capacity && f.intermarketSweep == r.intermarketSweep
          && f.crossType == r.crossType && f.orderState == 'L' && f.clOrdId == r.clOrdId
        case Replaced =>
          && f.FrameReplaced? && f.origUserRefNum == records[event.origOrderId].record.userRefNum
          && f.userRefNum == r.userRefNum && f.side == r.side && f.quantity == event.quantity && f.symbol == r.symbol
          && f.price == r.price && f.timeInForce == r.timeInForce && f.display == r.display
          && f.orderRef == event.orderId && f.capacity == r.capacity && f.intermarketSweep == r.intermarketSweep
          && f.crossType == r.crossType && f.orderState == 'L' && f.clOrdId == r.clOrdId
        case Canceled =>
          && f.FrameCanceled? && f.userRefNum == r.userRefNum && f.decrement == event.quantity
          && f.cancelReason == event.reason
        case Executed =>
          && f.FrameExecuted? && f.userRefNum == r.userRefNum && f.shares == event.quantity
          && f.executionPrice == 100 * event.price && f.liquidityFlag == event.reason
          && f.matchNumber == event.matchNumber
        case Rejected =>
          f.FrameRejected? && f.userRefNum == r.userRefNum && f.rejectReason == 0x000A && f.clOrdId == r.clOrdId)
  }

  lemma MessageTells(records: Records, event: Event)
    requires Known(records, event)
    ensures Tells(records, event, Message(records, event))
  {
  }

  //--- the object as built ---

  class Responder {
    var orders: Records

    constructor ()
      ensures orders == map[]
    {
      orders := map[];
    }

    method OnNote(note: Note) returns (response: Option<Response>)
      modifies this
      ensures orders == AfterNote(old(orders), note)
      ensures response.Some? <==> note.NoteRejected?
      ensures note.NoteRejected? ==>
                response.value == Response(note.record.clientId,
                                           FrameRejected(note.record.userRefNum, note.reason, note.record.clOrdId))
    {
      match note
      case OrderEntered(id, record) =>
        orders := orders[id := LiveOrder(record, 0)];
        return None;
      case OrderReplacing(id, record) =>
        orders := orders[id := LiveOrder(record, 0)];
        return None;
      case NoteRejected(reason, record) =>
        return Some(Response(record.clientId, FrameRejected(record.userRefNum, reason, record.clOrdId)));
    }

    method Reduce(id: OrderId, shares: Quantity)
      requires id in orders
      modifies this
      ensures orders == Reduced(old(orders), id, shares)
    {
      var live := orders[id];
      var open := if shares < live.open then live.open - shares else 0;
      orders := orders[id := live.(open := open)];
      if open == 0 {
        orders := orders - {id};
        assert orders == old(orders) - {id};
      }
    }

    /** An unknown order, or a replacement of one, is dropped without effect. */
    method OnEvent(event: Event) returns (response: Option<Response>)
      requires event.kind == Replaced ==> event.orderId != event.origOrderId
      modifies this
      ensures !Known(old(orders), event) ==> response == None && orders == old(orders)
      ensures Known(old(orders), event) ==>
                && response == Some(Message(old(orders), event)) && Tells(old(orders), event, response.value)
                && orders == AfterEvent(old(orders), event)
    {
      if event.orderId !in orders {
        return None;
      }
      var live := orders[event.orderId];
      var r := live.record;
      match event.kind
      case Accepted =>
        orders := orders[event.orderId := live.(open := event.quantity)];
        response := Some(Response(r.clientId,
          FrameAccepted(r.userRefNum, r.side, event.quantity, r.symbol, r.price, r.timeInForce, r.display,
                        event.orderId, r.capacity, r.intermarketSweep, r.crossType, 'L', r.clOrdId)));
      case Replaced =>
        if event.origOrderId !in orders {
          return None;
        }
        var origUserRefNum := orders[event.origOrderId].record.userRefNum;
        orders := orders - {event.origOrderId};
        orders := orders[event.orderId := live.(open := event.quantity)];
        response := Some(Response(r.clientId,
          FrameReplaced(origUserRefNum, r.userRefNum, r.side, event.quantity, r.symbol, r.price, r.timeInForce,
                        r.display, event.orderId, r.capacity, r.intermarketSweep, r.crossType, 'L', r.clOrdId)));
      case Canceled =>
        response := Some(Response(r.clientId, FrameCanceled(r.userRefNum, event.quantity, event.reason)));
        Reduce(event.orderId, event.quantity);
      case Executed =>
        response := Some(Response(r.clientId,
          FrameExecuted(r.userRefNum, event.quantity, V.ToOuchPrice(event.price), event.reason, event.matchNumber)));
        Reduce(event.orderId, event.quantity);
      case Rejected =>
        response := Some(Response(r.clientId, FrameRejected(r.userRefNum, V.PROCESSING_ERROR, r.clOrdId)));
        orders := orders - {event.orderId};
    }
  }
}
