/** What becomes of each OUCH message a client sends, through gateway and book
    together, in the message's own fields. */
module Dispositions {
  import opened EngineTypes
  import opened BookSpec
  import opened BookLaws
  import opened OrderEntry
  import opened Requests
  import V = Validation

  /** What a translation comes to at the engine. */
  function Effect(book: Book, capacity: nat, t: Translation): Outcome {
    match t.request
    case None => Ignored(book)
    case Some(req) => Process(book, capacity, req)
  }

  //--- what is valid ---

  /** Whole cents from 0.01 to 1000.00, with four implied decimals. */
  predicate LimitPrice(price: nat) {
    100 <= price <= 10_000_000 && price % 100 == 0
  }

  predicate MarketPrice(price: nat) {
    price >= 2_000_000_000
  }

  predicate ValidSize(quantity: nat) {
    0 < quantity < 1_000_000
  }

  /** Options the book does not implement are at their defaults: no minimum, nothing
      hidden, no peg or discretion, nothing else. */
  predicate NoMinimum(o: V.Options) { o.minQty == 0 }

  predicate NoReserve(o: V.Options) { o.maxFloor == 0 }

  predicate NoPeg(o: V.Options) {
    o.priceType == 'L' && o.pegOffset == 0 && o.discretionPrice == 0 && o.discretionPriceType == 'L' && o.discretionPegOffset == 0
  }

  predicate NothingElse(o: V.Options, tags: set<nat>) {
    o.postOnly == 'N' && o.randomReserves == 0 && o.expireTime == 0 && o.tradeNow == 'N' && o.handleInst == ' '
    && o.aiqStrategy == '*' && o.aiqGroupId == "**" && 28 !in tags
  }

  predicate Plain(o: V.Options, tags: set<nat>) {
    NoMinimum(o) && NoReserve(o) && NoPeg(o) && NothingElse(o, tags)
  }

  predicate Priced(m: V.EnterOrder) {
    (m.side == 'B' || m.side == 'S') && ValidSize(m.quantity) && (MarketPrice(m.price) || LimitPrice(m.price))
  }

  predicate Timed(m: V.EnterOrder) {
    Priced(m) && (m.timeInForce == '0' || m.timeInForce == '3')
  }

  predicate Open(m: V.EnterOrder) {
    Timed(m) && m.display == 'Y' && (m.capacity == 'A' || m.capacity == 'P' || m.capacity == 'R' || m.capacity == 'O')
  }

  predicate Simple(m: V.EnterOrder) {
    Open(m) && m.intermarketSweep == 'N' && m.crossType == 'N'
  }

  /** An Enter Order the exchange takes. */
  predicate Acceptable(m: V.EnterOrder) {
    Simple(m) && Plain(m.options, m.tags)
  }

  /** The reason code names the first thing wrong, in the order the fields are
      looked at. */
  ghost predicate FirstFault(m: V.EnterOrder, reason: nat) {
    && (reason == 0x0009 <==> m.side != 'B' && m.side != 'S')
    && (reason == 0x0013 <==> (m.side == 'B' || m.side == 'S') && !ValidSize(m.quantity))
    && (reason == 0x001D <==> (m.side == 'B' || m.side == 'S') && ValidSize(m.quantity) && !Priced(m))
    && (reason == 0x0003 <==> Timed(m) && m.display != 'Y')
    && (reason == 0x0008 <==> Open(m) && m.intermarketSweep != 'N')
    && (reason == 0x0014 <==> Open(m) && m.intermarketSweep == 'N' && m.crossType != 'N')
    && (reason == 0x000D <==> Simple(m) && !NoMinimum(m.options))
    && (reason == 0x0004 <==> Simple(m) && NoMinimum(m.options) && !NoReserve(m.options))
    && (reason == 0x0005 <==> Simple(m) && NoMinimum(m.options) && NoReserve(m.options) && !NoPeg(m.options))
    && (reason == 0x000F <==>
          || (Priced(m) && !Timed(m)) || (Timed(m) && m.display == 'Y' && !Open(m))
          || (Simple(m) && NoMinimum(m.options) && NoReserve(m.options) && NoPeg(m.options) && !NothingElse(m.options, m.tags)))
  }

  /** A Replace Order for an order entered with side. */
  predicate Replaceable(m: V.ReplaceOrder, side: char) {
    ValidSize(m.quantity) && LimitPrice(m.price) && (m.timeInForce == '0' || m.timeInForce == '3') && m.display == 'Y'
    && m.intermarketSweep == 'N' && (27 in m.tags ==> m.side == side) && Plain(m.options, m.tags)
  }

  //--- Enter Order ---

  /** The record holds what the client sent, field by field. */
  ghost predicate Echoes(r: OrderRecord, clientId: U32, m: V.EnterOrder) {
    && r.clientId == clientId && r.userRefNum == m.userRefNum && r.quantity == m.quantity && r.price == m.price
    && r.symbol == m.symbol && r.clOrdId == m.clOrdId && r.side == m.side && r.timeInForce == m.timeInForce
    && r.display == m.display && r.capacity == m.capacity && r.intermarketSweep == m.intermarketSweep
    && r.crossType == m.crossType
  }

  /** The engine is asked for what the client sent: its side, its size, its price in
      cents, its time in force. */
  ghost predicate AsSent(req: Request, id: OrderId, clientId: U32, m: V.EnterOrder) {
    && req.kind == New && req.orderId == id && req.clientId == clientId && req.quantity == m.quantity
    && (req.side == Bid <==> m.side == 'B') && (req.side == Ask <==> m.side == 'S')
    && (req.orderType == Market <==> m.price >= 2_000_000_000)
    && (req.orderType == Limit ==> req.price * 100 == m.price)
    && (req.timeInForce == Day <==> m.timeInForce == '0') && (req.timeInForce == Ioc <==> m.timeInForce == '3')
  }

  ghost predicate Unchanged(g: Gateway, g': Gateway, t: Translation) {
    g' == g && t == Translation(None, None)
  }

  /** A used UserRefNum does nothing. Any other is used up: an acceptable message
      becomes the next order, with its note and its request; any other is answered
      with its first fault. */
  lemma EnterTranslates(g: Gateway, clientId: U32, m: V.EnterOrder)
    ensures var (g', t) := Translate(g, clientId, Inbound.Enter(m));
            if m.userRefNum <= g.LastRef(clientId) then Unchanged(g, g', t)
            else
              && g'.lastRefs == g.lastRefs[clientId := m.userRefNum]
              && t.note.Some? && Echoes(t.note.value.record, clientId, m)
              && (if Acceptable(m) then
                    && t.note.value.OrderEntered? && t.note.value.orderId == g.nextOrderId
                    && t.request.Some? && AsSent(t.request.value, g.nextOrderId, clientId, m)
                    && g'.nextOrderId == g.nextOrderId + 1
                    && g'.orders == g.orders[Key(clientId, m.userRefNum) := Entered(g.nextOrderId, t.note.value.record)]
                  else
                    && t.note.value.NoteRejected? && FirstFault(m, t.note.value.reason)
                    && t.request == None && g'.nextOrderId == g.nextOrderId && g'.orders == g.orders)
  {
    EnterChecked(m);
    hide Acceptable, FirstFault, V.CheckEnter;
  }

  /** The check lets through exactly the acceptable messages. */
  lemma EnterChecked(m: V.EnterOrder)
    ensures var check := V.CheckEnter(m, BAND);
            && (check.EnterAccepted? <==> Acceptable(m))
            && (check.EnterRejected? ==> FirstFault(m, check.reason))
            && (check.EnterAccepted? ==>
                  && (check.side == Bid <==> m.side == 'B') && (check.side == Ask <==> m.side == 'S')
                  && (check.orderType == Market <==> m.price >= 2_000_000_000)
                  && (check.orderType == Limit ==> check.price * 100 == m.price)
                  && (check.timeInForce == Day <==> m.timeInForce == '0')
                  && (check.timeInForce == Ioc <==> m.timeInForce == '3'))
  {
    PriceChecked(m.price);
  }

  lemma PriceChecked(price: nat)
    ensures var p := V.ToEnginePrice(price, BAND);
            && (p.Some? <==> MarketPrice(price) || LimitPrice(price))
            && (p.Some? ==> (p.value.orderType == Market <==> MarketPrice(price)))
            && (p.Some? && p.value.orderType == Limit ==> p.value.price * 100 == price)
  {
  }

  /** All its shares still to trade, on the client's side and at its price. */
  ghost predicate ComesInAs(order: Order, id: OrderId, clientId: U32, m: V.EnterOrder) {
    && order.id == id && order.clientId == clientId && order.open == m.quantity && order.executed == 0
    && (order.side == if m.side == 'B' then Bid else Ask) && (m.price < 2_000_000_000 ==> order.price * 100 == m.price)
  }

  /** What a first use of a UserRefNum comes to. Unacceptable: nothing at the book. A
      day limit order on a full book: Rejected. Else Accepted for all of it, and it
      comes in as a buy or sell at the client's price, at any price for a market
      order, staying only as a day order. */
  lemma EnterDisposition(g: Gateway, clientId: U32, m: V.EnterOrder, book: Book, capacity: nat)
    requires WellFormed(book) && !Rests(book, g.nextOrderId)
    ensures var (g', t) := Translate(g, clientId, Inbound.Enter(m));
            var o := Effect(book, capacity, t);
            if m.userRefNum <= g.LastRef(clientId) || !Acceptable(m) then NoEffect(book, o)
            else if m.price < 2_000_000_000 && m.timeInForce == '0' && |book.bids| + |book.asks| >= capacity then
              && o.events == [Event(Rejected, g.nextOrderId, 0, 0, clientId, 0, 0, 'F', true)]
              && o.book == book && o.itch == []
            else
              && o.events != [] && o.events[0].kind == Accepted && o.events[0].orderId == g.nextOrderId
              && o.events[0].clientId == clientId && o.events[0].quantity == m.quantity
              && exists order :: ComesInAs(order, g.nextOrderId, clientId, m)
                   && Incoming(book, order, m.price >= 2_000_000_000, m.timeInForce == '0', o.book, o.events[1..])
  {
    hide Acceptable, FirstFault, Translate, Process, Incoming, WellFormed, Rests, Find;
    EnterTranslates(g, clientId, m);
    RestsIff(book, g.nextOrderId);
    var (g', t) := Translate(g, clientId, Inbound.Enter(m));
    if t.request.Some? {
      var req := t.request.value;
      SidesKnown(m);
      NewEffect(book, capacity, req);
      assert ComesInAs(Order(req.orderId, clientId, req.side, req.price, req.quantity, 0), g.nextOrderId, clientId, m);
    }
  }

  lemma SidesKnown(m: V.EnterOrder)
    ensures Acceptable(m) ==> (m.side == 'B' || m.side == 'S') && (m.timeInForce == '0' || m.timeInForce == '3')
  {
  }

  //--- Cancel Order ---

  /** A cancel uses up nothing and is not noted. Of an unknown order, of one no longer
      resting, or down to no less than the order's whole size, it has no effect. Else
      the order is cut where it stands to what the client wants less what is executed,
      or taken off when that leaves nothing. */
  lemma CancelDisposition(g: Gateway, clientId: U32, m: V.CancelOrder, book: Book, capacity: nat)
    requires WellFormed(book)
    ensures var (g', t) := Translate(g, clientId, Inbound.Cancel(m));
            var o := Effect(book, capacity, t);
            var key := Key(clientId, m.userRefNum);
            && g' == g && t.note == None
            && (if key !in g.orders then NoEffect(book, o)
                else
                  match Find(book, g.orders[key].orderId)
                  case None => NoEffect(book, o)
                  case Some(order) =>
                    if order.clientId != clientId || m.quantity >= order.open + order.executed then NoEffect(book, o)
                    else if m.quantity <= order.executed then TakenOff(book, order, o)
                    else CutDown(book, order, m.quantity - order.executed, o))
  {
    hide Process, WellFormed, Find, TakenOff, CutDown;
    var (g', t) := Translate(g, clientId, Inbound.Cancel(m));
    if t.request.Some? {
      CancelEffect(book, capacity, t.request.value);
    }
  }

  //--- Replace Order ---

  /** The replacement's record: the client's new fields over the original's. */
  ghost predicate EchoesOver(r: OrderRecord, orig: OrderRecord, m: V.ReplaceOrder) {
    && r.userRefNum == m.userRefNum && r.quantity == m.quantity && r.price == m.price && r.clOrdId == m.clOrdId
    && r.timeInForce == m.timeInForce && r.display == m.display && r.intermarketSweep == m.intermarketSweep
    && r.clientId == orig.clientId && r.symbol == orig.symbol && r.side == orig.side && r.capacity == orig.capacity
    && r.crossType == orig.crossType
  }

  ghost predicate ReplaceAsSent(req: Request, orig: OrderId, id: OrderId, clientId: U32, m: V.ReplaceOrder) {
    && req.kind == RequestKind.Replace && req.orderId == orig && req.newOrderId == id && req.clientId == clientId
    && req.quantity == m.quantity && req.price * 100 == m.price
    && (req.timeInForce == Day <==> m.timeInForce == '0') && (req.timeInForce == Ioc <==> m.timeInForce == '3')
  }

  lemma ReplaceChecked(m: V.ReplaceOrder, side: char)
    ensures var check := V.CheckReplace(m, side, BAND);
            && (check.ReplaceValid? <==> Replaceable(m, side))
            && (check.ReplaceValid? ==>
                  && check.price * 100 == m.price && (check.timeInForce == Day <==> m.timeInForce == '0')
                  && (check.timeInForce == Ioc <==> m.timeInForce == '3'))
  {
    PriceChecked(m.price);
  }

  /** A replace of an unknown original, or under a used UserRefNum, does nothing. With
      invalid details it asks for the original to be canceled and uses up nothing;
      with valid ones it becomes the next order. */
  lemma ReplaceTranslates(g: Gateway, clientId: U32, m: V.ReplaceOrder)
    ensures var (g', t) := Translate(g, clientId, Inbound.Replace(m));
            var key := Key(clientId, m.origUserRefNum);
            if key !in g.orders || m.userRefNum <= g.LastRef(clientId) then Unchanged(g, g', t)
            else
              var orig := g.orders[key];
              && t.request.Some?
              && (if Replaceable(m, orig.record.side) then
                    && t.note.Some? && t.note.value.OrderReplacing? && t.note.value.orderId == g.nextOrderId
                    && EchoesOver(t.note.value.record, orig.record, m)
                    && ReplaceAsSent(t.request.value, orig.orderId, g.nextOrderId, clientId, m)
                    && g'.nextOrderId == g.nextOrderId + 1 && g'.lastRefs == g.lastRefs[clientId := m.userRefNum]
                    && g'.orders == g.orders[Key(clientId, m.userRefNum) := Entered(g.nextOrderId, t.note.value.record)]
                  else
                    && g' == g && t.note == None && t.request.value.kind == RequestKind.Cancel
                    && t.request.value.orderId == orig.orderId && t.request.value.clientId == clientId
                    && t.request.value.quantity == 0)
  {
    hide Replaceable, V.CheckReplace;
    var key := Key(clientId, m.origUserRefNum);
    if key in g.orders { ReplaceChecked(m, g.orders[key].record.side); }
  }

  /** Section 2.2 of Nasdaq OUCH 5.0, through to the book: with an unknown original or
      a used UserRefNum, nothing happens. Of a known original that rests, invalid
      details take it off the book; valid ones put the replacement in its stead, at
      the client's price, size and time in force. Of one no longer resting, the book
      ignores either. */
  lemma ReplaceDisposition(g: Gateway, clientId: U32, m: V.ReplaceOrder, book: Book, capacity: nat)
    requires WellFormed(book) && Uncrossed(book) && !Rests(book, g.nextOrderId)
    ensures var (g', t) := Translate(g, clientId, Inbound.Replace(m));
            var o := Effect(book, capacity, t);
            var key := Key(clientId, m.origUserRefNum);
            if key !in g.orders || m.userRefNum <= g.LastRef(clientId) then NoEffect(book, o)
            else
              match Find(book, g.orders[key].orderId)
              case None => NoEffect(book, o)
              case Some(order) =>
                if order.clientId != clientId then NoEffect(book, o)
                else if !Replaceable(m, g.orders[key].record.side) then TakenOff(book, order, o)
                else exists price: Price ::
                       price * 100 == m.price
                       && Supersedes(book, order, g.nextOrderId, price, m.quantity, m.timeInForce == '0', o)
  {
    hide Replaceable, Translate, Process, WellFormed, Uncrossed, Rests, Find, TakenOff, Supersedes;
    var (g', t) := Translate(g, clientId, Inbound.Replace(m));
    ReplaceTranslates(g, clientId, m);
    RestsIff(book, g.nextOrderId);
    var key := Key(clientId, m.origUserRefNum);
    if key in g.orders && m.userRefNum > g.LastRef(clientId) {
      var req := t.request.value;
      var found := Find(book, g.orders[key].orderId);
      if found.Some? { FoundLive(book, g.orders[key].orderId); }
      if req.kind == RequestKind.Replace {
        ReplaceEffect(book, capacity, req);
      } else {
        CancelEffect(book, capacity, req);
      }
    }
  }
}
