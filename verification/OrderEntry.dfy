/** The gateway's order entry: UserRefNum sequencing, OrderId assignment, and
    OUCH messages turned into a note for the outbound side and a request for
    the engine. */
module OrderEntry {
  import opened EngineTypes
  import V = Validation
  import opened EngineBook

  type U32 = V.U32

  const BAND := V.PriceBand(MIN_PRICE, MAX_PRICE)

  datatype OrderRecord = OrderRecord(
    clientId: U32, userRefNum: U32, quantity: nat, price: nat, symbol: string, clOrdId: string,
    side: char, timeInForce: char, display: char, capacity: char, intermarketSweep: char, crossType: char)

  datatype Note =
    | OrderEntered(orderId: OrderId, record: OrderRecord)
    | OrderReplacing(orderId: OrderId, record: OrderRecord)
    | NoteRejected(reason: nat, record: OrderRecord)

  datatype Inbound =
    | Enter(enter: V.EnterOrder)
    | Cancel(cancel: V.CancelOrder)
    | Replace(replace: V.ReplaceOrder)
    | NoMessage

  datatype Translation = Translation(note: Option<Note>, request: Option<Request>)

  const NOTHING := Translation(None, None)

  datatype Entered = Entered(orderId: OrderId, record: OrderRecord)

  /** (ClientId, UserRefNum) packed into one 64-bit key. */
  function Key(clientId: U32, userRefNum: U32): nat {
    clientId * 0x1_0000_0000 + userRefNum
  }

  lemma KeyInjective(c1: U32, u1: U32, c2: U32, u2: U32)
    ensures Key(c1, u1) == Key(c2, u2) <==> c1 == c2 && u1 == u2
  {
  }

  datatype Gateway = Gateway(nextOrderId: OrderId, lastRefs: map<U32, nat>, orders: map<nat, Entered>) {
    function LastRef(clientId: U32): nat {
      if clientId in lastRefs then lastRefs[clientId] else 0
    }
  }

  const FRESH_GATEWAY := Gateway(1, map[], map[])

  function RecordOf(clientId: U32, m: V.EnterOrder): OrderRecord {
    OrderRecord(clientId, m.userRefNum, m.quantity, m.price, m.symbol, m.clOrdId, m.side, m.timeInForce,
                m.display, m.capacity, m.intermarketSweep, m.crossType)
  }

  function ReplacementRecord(orig: OrderRecord, m: V.ReplaceOrder): OrderRecord {
    orig.(userRefNum := m.userRefNum, quantity := m.quantity, price := m.price, clOrdId := m.clOrdId,
          timeInForce := m.timeInForce, display := m.display, intermarketSweep := m.intermarketSweep)
  }

  /** A cancel down to quantity of an order this client entered. */
  function CancelRequest(order: Entered, clientId: U32, quantity: nat, side: Side): Request {
    Request(RequestKind.Cancel, order.orderId, 0, clientId, 0, quantity, side, Limit, Day)
  }

  //--- what one message means: the gateway after it and its translation ---

  function AfterEnter(g: Gateway, clientId: U32, m: V.EnterOrder): (Gateway, Translation) {
    if m.userRefNum <= g.LastRef(clientId) then (g, NOTHING)
    else
      var g' := g.(lastRefs := g.lastRefs[clientId := m.userRefNum]);
      var record := RecordOf(clientId, m);
      match V.CheckEnter(m, BAND)
      case EnterRejected(reason) => (g', Translation(Some(NoteRejected(reason, record)), None))
      case EnterAccepted(side, orderType, price, tif) =>
        (g'.(nextOrderId := g.nextOrderId + 1,
             orders := g.orders[Key(clientId, m.userRefNum) := Entered(g.nextOrderId, record)]),
         Translation(Some(OrderEntered(g.nextOrderId, record)),
                     Some(Request(New, g.nextOrderId, 0, clientId, price, m.quantity, side, orderType, tif))))
  }

  function EngineSide(record: OrderRecord): Side {
    match V.ToEngineSide(record.side)
    case Some(side) => side
    case None => Bid
  }

  function AfterCancel(g: Gateway, clientId: U32, m: V.CancelOrder): Translation {
    var key := Key(clientId, m.userRefNum);
    if key !in g.orders then NOTHING
    else Translation(None, Some(CancelRequest(g.orders[key], clientId, m.quantity, EngineSide(g.orders[key].record))))
  }

  function AfterReplace(g: Gateway, clientId: U32, m: V.ReplaceOrder): (Gateway, Translation) {
    var key := Key(clientId, m.origUserRefNum);
    if key !in g.orders || m.userRefNum <= g.LastRef(clientId) then (g, NOTHING)
    else
      var orig := g.orders[key];
      var side := EngineSide(orig.record);
      match V.CheckReplace(m, orig.record.side, BAND)
      case ReplaceInvalid => (g, Translation(None, Some(CancelRequest(orig, clientId, 0, side))))
      case ReplaceValid(price, tif) =>
        var record := ReplacementRecord(orig.record, m);
        (Gateway(g.nextOrderId + 1, g.lastRefs[clientId := m.userRefNum],
                 g.orders[Key(clientId, m.userRefNum) := Entered(g.nextOrderId, record)]),
         Translation(Some(OrderReplacing(g.nextOrderId, record)),
                     Some(Request(RequestKind.Replace, orig.orderId, g.nextOrderId, clientId, price, m.quantity,
                                  side, Limit, tif))))
  }

  function Translate(g: Gateway, clientId: U32, m: Inbound): (Gateway, Translation) {
    match m
    case Enter(enter) => AfterEnter(g, clientId, enter)
    case Cancel(cancel) => (g, AfterCancel(g, clientId, cancel))
    case Replace(replace) => AfterReplace(g, clientId, replace)
    case NoMessage => (g, NOTHING)
  }

  //--- the object as built ---

  class Entry {
    var nextOrderId: OrderId
    var lastRefs: map<U32, nat>
    var orders: map<nat, Entered>

    ghost function State(): Gateway
      reads this
    {
      Gateway(nextOrderId, lastRefs, orders)
    }

    ghost predicate Valid()
      reads this
    {
      Consistent(State())
    }

    constructor ()
      ensures Valid() && State() == FRESH_GATEWAY
    {
      nextOrderId, lastRefs, orders := 1, map[], map[];
    }

    method EnterMessage(clientId: U32, m: V.EnterOrder) returns (t: Translation)
      requires Valid()
      modifies this
      ensures Valid() && (State(), t) == AfterEnter(old(State()), clientId, m)
    {
      AfterEnterKeeps(State(), clientId, m);
      if m.userRefNum <= (if clientId in lastRefs then lastRefs[clientId] else 0) {
        return NOTHING;
      }
      lastRefs := lastRefs[clientId := m.userRefNum];
      var record := RecordOf(clientId, m);
      var check := V.CheckEnter(m, BAND);
      if check.EnterRejected? {
        return Translation(Some(NoteRejected(check.reason, record)), None);
      }
      var orderId := nextOrderId;
      nextOrderId := nextOrderId + 1;
      orders := orders[Key(clientId, m.userRefNum) := Entered(orderId, record)];
      t := Translation(Some(OrderEntered(orderId, record)),
                       Some(Request(New, orderId, 0, clientId, check.price, m.quantity, check.side, check.orderType,
                                    check.timeInForce)));
    }

    method CancelMessage(clientId: U32, m: V.CancelOrder) returns (t: Translation)
      requires Valid()
      ensures t == AfterCancel(State(), clientId, m)
    {
      var key := Key(clientId, m.userRefNum);
      if key !in orders {
        return NOTHING;
      }
      var side := V.ToEngineSide(orders[key].record.side).value; // always converts: see Consistent
      t := Translation(None, Some(CancelRequest(orders[key], clientId, m.quantity, side)));
    }

    method ReplaceMessage(clientId: U32, m: V.ReplaceOrder) returns (t: Translation)
      requires Valid()
      modifies this
      ensures Valid() && (State(), t) == AfterReplace(old(State()), clientId, m)
    {
      AfterReplaceKeeps(State(), clientId, m);
      var key := Key(clientId, m.origUserRefNum);
      if key !in orders {
        return NOTHING;
      }
      if m.userRefNum <= (if clientId in lastRefs then lastRefs[clientId] else 0) {
        return NOTHING;
      }
      var orig := orders[key];
      var side := V.ToEngineSide(orig.record.side).value;
      var check := V.CheckReplace(m, orig.record.side, BAND);
      if check.ReplaceInvalid? {
        return Translation(None, Some(CancelRequest(orig, clientId, 0, side)));
      }
      lastRefs := lastRefs[clientId := m.userRefNum];
      var record := ReplacementRecord(orig.record, m);
      var newOrderId := nextOrderId;
      nextOrderId := nextOrderId + 1;
      orders := orders[Key(clientId, m.userRefNum) := Entered(newOrderId, record)];
      t := Translation(Some(OrderReplacing(newOrderId, record)),
                       Some(Request(RequestKind.Replace, orig.orderId, newOrderId, clientId, check.price, m.quantity,
                                    side, Limit, check.timeInForce)));
    }

    method TranslateMessage(clientId: U32, m: Inbound) returns (t: Translation)
      requires Valid()
      modifies this
      ensures Valid() && (State(), t) == Translate(old(State()), clientId, m)
    {
      hide AfterEnter, AfterCancel, AfterReplace, Consistent;
      match m {
        case Enter(enter) => t := EnterMessage(clientId, enter);
        case Cancel(cancel) => t := CancelMessage(clientId, cancel);
        case Replace(replace) => t := ReplaceMessage(clientId, replace);
        case NoMessage => t := NOTHING;
      }
    }
  }

  //--- what every message keeps ---

  /** Stored orders sit under their own key, at or below their client's last
      UserRefNum, with an already issued OrderId no other order has, and a side
      the engine knows. */
  ghost predicate Consistent(g: Gateway) {
    && g.nextOrderId >= 1
    && (forall key :: key in g.orders ==>
          var o := g.orders[key];
          && key == Key(o.record.clientId, o.record.userRefNum)
          && 0 < o.orderId < g.nextOrderId
          && o.record.userRefNum <= g.LastRef(o.record.clientId)
          && V.ToEngineSide(o.record.side).Some?)
    && (forall j, k :: j in g.orders && k in g.orders && j != k ==> g.orders[j].orderId != g.orders[k].orderId)
  }

  /** The id a request brings into the world, if any. */
  function NewId(req: Request): Option<OrderId> {
    match req.kind
    case New => Some(req.orderId)
    case Replace => Some(req.newOrderId)
    case Cancel => None
  }

  /** A new id is the next one, and its note carries it too; anything else leaves
      the counter alone and brings no order note. */
  ghost predicate Issues(g: Gateway, g': Gateway, clientId: U32, t: Translation) {
    if t.request.Some? && NewId(t.request.value).Some? then
      && g'.nextOrderId == g.nextOrderId + 1 && NewId(t.request.value).value == g.nextOrderId
      && t.note.Some? && !t.note.value.NoteRejected?
      && t.note.value.orderId == g.nextOrderId && t.note.value.record.clientId == clientId
    else
      g'.nextOrderId == g.nextOrderId && (t.note.Some? ==> t.note.value.NoteRejected? && t.request == None)
  }

  /** A request the engine is built for: from the client, priced inside the band
      wherever it may rest, quantities within bounds, and -- unless it is new --
      about an order this same client entered. */
  ghost predicate WellAddressed(g: Gateway, clientId: U32, req: Request) {
    && req.clientId == clientId && Restable(req)
    && (req.kind != RequestKind.Cancel ==> V.ValidQuantity(req.quantity))
    && (req.kind != New ==>
          exists key :: key in g.orders && g.orders[key].orderId == req.orderId
                        && g.orders[key].record.clientId == clientId)
  }

  lemma FreshKey(g: Gateway, clientId: U32, userRefNum: U32)
    requires Consistent(g) && userRefNum > g.LastRef(clientId)
    ensures Key(clientId, userRefNum) !in g.orders
  {
    var key := Key(clientId, userRefNum);
    if key in g.orders {
      var o := g.orders[key];
      KeyInjective(clientId, userRefNum, o.record.clientId, o.record.userRefNum);
    }
  }

  lemma StoreKeeps(g: Gateway, clientId: U32, userRefNum: U32, record: OrderRecord)
    requires Consistent(g) && userRefNum > g.LastRef(clientId)
    requires record.clientId == clientId && record.userRefNum == userRefNum && V.ToEngineSide(record.side).Some?
    ensures Consistent(Gateway(g.nextOrderId + 1, g.lastRefs[clientId := userRefNum],
                               g.orders[Key(clientId, userRefNum) := Entered(g.nextOrderId, record)]))
  {
    FreshKey(g, clientId, userRefNum);
  }

  lemma AfterEnterKeeps(g: Gateway, clientId: U32, m: V.EnterOrder)
    requires Consistent(g)
    ensures var (g', t) := AfterEnter(g, clientId, m);
            && Consistent(g') && Issues(g, g', clientId, t)
            && (t.request.Some? ==> WellAddressed(g, clientId, t.request.value)
                                    && Key(clientId, m.userRefNum) !in g.orders)
  {
    if m.userRefNum > g.LastRef(clientId) {
      FreshKey(g, clientId, m.userRefNum);
      if V.CheckEnter(m, BAND).EnterAccepted? {
        StoreKeeps(g, clientId, m.userRefNum, RecordOf(clientId, m));
      }
    }
  }

  lemma AfterReplaceKeeps(g: Gateway, clientId: U32, m: V.ReplaceOrder)
    requires Consistent(g)
    ensures var (g', t) := AfterReplace(g, clientId, m);
            && Consistent(g') && Issues(g, g', clientId, t)
            && (t.request.Some? ==> WellAddressed(g, clientId, t.request.value))
  {
    var key := Key(clientId, m.origUserRefNum);
    if key in g.orders && m.userRefNum > g.LastRef(clientId) {
      var orig := g.orders[key];
      KeyInjective(clientId, m.origUserRefNum, orig.record.clientId, orig.record.userRefNum);
      assert g.orders[key].orderId == orig.orderId && g.orders[key].record.clientId == clientId;
      if V.CheckReplace(m, orig.record.side, BAND).ReplaceValid? {
        StoreKeeps(g, clientId, m.userRefNum, ReplacementRecord(orig.record, m));
      }
    }
  }

  /** Every message keeps the gateway consistent; ids are issued one by one; and
      each request it produces is one the book's preconditions allow. */
  lemma TranslateKeeps(g: Gateway, clientId: U32, m: Inbound)
    requires Consistent(g)
    ensures var (g', t) := Translate(g, clientId, m);
            && Consistent(g') && Issues(g, g', clientId, t)
            && (t.request.Some? ==> WellAddressed(g, clientId, t.request.value))
  {
    match m
    case Enter(enter) => AfterEnterKeeps(g, clientId, enter);
    case Replace(replace) => AfterReplaceKeeps(g, clientId, replace);
    case Cancel(cancel) =>
      var key := Key(clientId, cancel.userRefNum);
      if key in g.orders {
        var o := g.orders[key];
        KeyInjective(clientId, cancel.userRefNum, o.record.clientId, o.record.userRefNum);
      }
    case NoMessage =>
  }

  /** A message that is answered or entered uses up its UserRefNum, above all its
      client used before, and sent again does nothing at all; any other message
      -- a repeat, an unknown original, a cancel, or a replace that is invalid and
      so only cancels the original -- leaves the gateway as it was. */
  lemma RefsUsedOnce(g: Gateway, clientId: U32, m: Inbound)
    ensures var (g', t) := Translate(g, clientId, m);
            if t.note == None then g' == g
            else
              && g.LastRef(clientId) < t.note.value.record.userRefNum == g'.LastRef(clientId)
              && (forall c :: c != clientId ==> g'.LastRef(c) == g.LastRef(c))
              && Translate(g', clientId, m) == (g', NOTHING)
  {
  }

  datatype Arrival = Arrival(clientId: U32, message: Inbound)

  /** The gateway and the ids it issued, over a run of messages. */
  function TranslateAll(g: Gateway, arrivals: seq<Arrival>): (Gateway, seq<OrderId>)
    decreases |arrivals|
  {
    if arrivals == [] then (g, [])
    else
      var (g', t) := Translate(g, arrivals[0].clientId, arrivals[0].message);
      var (g'', ids) := TranslateAll(g', arrivals[1..]);
      (g'', (match t.request
             case Some(req) => (match NewId(req) case Some(id) => [id] case None => [])
             case None => []) + ids)
  }

  /** OrderIds over any run are consecutive: strictly increasing, never reused. */
  lemma {:induction false} IdsConsecutive(g: Gateway, arrivals: seq<Arrival>)
    requires Consistent(g)
    ensures var (g', ids) := TranslateAll(g, arrivals);
            && Consistent(g') && g'.nextOrderId == g.nextOrderId + |ids|
            && forall i :: 0 <= i < |ids| ==> ids[i] == g.nextOrderId + i
    decreases |arrivals|
  {
    hide Consistent, Translate;
    if arrivals != [] {
      TranslateKeeps(g, arrivals[0].clientId, arrivals[0].message);
      IdsConsecutive(Translate(g, arrivals[0].clientId, arrivals[0].message).0, arrivals[1..]);
    }
  }
}
