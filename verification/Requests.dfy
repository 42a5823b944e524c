/** What each request does to the book and what is said of it, in the request's own
    fields: every event, who trades, what is left, and where it rests. */
module Requests {
  import opened EngineTypes
  import opened BookSpec
  import opened BookLaws
  import opened Liability
  import opened Fills

  //--- an order coming in ---

  /** A resting price an incoming order takes: any for a market order; no higher than
      its own for a buy, no lower for a sell. */
  predicate Takes(side: Side, market: bool, limit: Price, price: Price) {
    market || (side == Bid && price <= limit) || (side == Ask && price >= limit)
  }

  /** Shares resting at the prices it takes. */
  function Within(orders: seq<Order>, side: Side, market: bool, limit: Price): nat {
    if orders == [] then 0
    else (if Takes(side, market, limit, orders[0].price) then orders[0].open else 0)
         + Within(orders[1..], side, market, limit)
  }

  /** One trade: both sides are told the same shares, price and match number, the
      incoming side that it took, the resting side that it gave. */
  ghost predicate Trade(taker: Event, maker: Event, incoming: Order, resting: Order, matchNumber: nat) {
    && taker == Event(Executed, incoming.id, 0, matchNumber, incoming.clientId, resting.price, taker.quantity, 'R', false)
    && maker == Event(Executed, resting.id, 0, matchNumber, resting.clientId, resting.price, taker.quantity, 'A', false)
    && 0 < taker.quantity <= resting.open
  }

  /** after is before with order behind all at least as good and ahead of all worse. */
  ghost predicate Joined(before: seq<Order>, after: seq<Order>, order: Order) {
    exists p {:trigger before[..p]} :: 0 <= p <= |before| && after == before[..p] + [order] + before[p..]
      && (forall i :: 0 <= i < p ==> !Better(order.side, order.price, before[i].price))
      && (forall i :: p <= i < |before| ==> Better(order.side, order.price, before[i].price))
  }

  predicate Better(side: Side, price: Price, than: Price) {
    if side == Bid then price > than else price < than
  }

  /** order comes in to trade order.open shares. It takes what its price allows from
      the front of the other side, trade by trade. What is left joins its own side's
      queue if it is a day limit order, and is canceled if it is not. */
  ghost predicate Incoming(book: Book, order: Order, market: bool, day: bool, after: Book, events: seq<Event>) {
    var opposite := book.On(Opposite(order.side));
    var filled := Min(order.open, Within(opposite, order.side, market, order.price));
    var left := order.open - filled;
    var rests := left > 0 && day && !market;
    var n := after.nextMatch - book.nextMatch;
    && 0 <= n <= |opposite|
    && |events| == 2 * n + (if left > 0 && !rests then 1 else 0)
    && (forall i :: 0 <= i < n ==> Trade(events[2 * i], events[2 * i + 1], order, opposite[i], book.nextMatch + i))
    && Traded(events, 'R') == Traded(events, 'A') == filled
    && (left > 0 && !rests ==>
          events[2 * n] == Event(Canceled, order.id, 0, 0, order.clientId, order.price, left, 'I', false))
    && after.On(Opposite(order.side)) == DropShares(opposite, filled)
    && (if rests then Joined(book.On(order.side), after.On(order.side), order.(open := left, executed := order.executed + filled))
        else after.On(order.side) == book.On(order.side))
  }

  lemma {:induction false} WithinReach(a: Aggressor, orders: seq<Order>)
    ensures Within(orders, a.side, a.orderType == Market, a.price) == Reachable(a, orders)
  {
    if orders != [] { WithinReach(a, orders[1..]); }
  }

  lemma PutJoins(book: Book, order: Order)
    requires Ordered(order.side, book.On(order.side))
    ensures Joined(book.On(order.side), Put(book, order).On(order.side), order)
    ensures Put(book, order).On(Opposite(order.side)) == book.On(Opposite(order.side))
    ensures Put(book, order).nextMatch == book.nextMatch
  {
    hide Back;
    var orders := book.On(order.side);
    var p := Back(orders, order.side, order.price);
    assert orders[..p] + [order] + orders[p..] == InsertAt(orders, p, order);
    forall i | p <= i < |orders| ensures Better(order.side, order.price, orders[i].price) {
      if p < i { assert AsGood(order.side, orders[p].price, orders[i].price); }
    }
  }

  lemma FillIsTrade(t: Trades, a: Aggressor, order: Order, opposite: seq<Order>, match_: nat, i: nat)
    requires i < |opposite| && FillAt(t, a, opposite, match_, i) && order.id == a.id && order.clientId == a.clientId
    ensures Trade(t.events[2 * i], t.events[2 * i + 1], order, opposite[i], match_ + i)
  {
  }

  lemma TradeAndRestIs(book: Book, a: Aggressor, quantity: Quantity, executed: Quantity, day: bool)
    requires WellFormed(book)
    ensures var o := TradeAndRest(book, a, quantity, executed, a.orderType == Limit && day);
            Incoming(book, Order(a.id, a.clientId, a.side, a.price, quantity, executed), a.orderType == Market, day, o.book, o.events)
  {
    hide Walk, Put, DropShares, Within, Reachable, Traded, Joined, Trade, FillAt, WellFormed, Live, Ordered;
    var other := Opposite(a.side);
    var opposite := book.On(other);
    var t := Walk(a, quantity, opposite, book.nextMatch);
    var order := Order(a.id, a.clientId, a.side, a.price, quantity, executed);
    SideQueue(book, other);
    SideQueue(book, a.side);
    WithinReach(a, opposite);
    WalkAllocates(a, quantity, opposite, book.nextMatch);
    WalkFills(a, quantity, opposite, book.nextMatch);
    WalkBalances(a, quantity, opposite, book.nextMatch);
    forall i | 0 <= i < t.nextMatch - book.nextMatch
      ensures Trade(t.events[2 * i], t.events[2 * i + 1], order, opposite[i], book.nextMatch + i)
    {
      FillIsTrade(t, a, order, opposite, book.nextMatch, i);
    }
    var after := book.With(other, t.left).(nextMatch := t.nextMatch);
    PutJoins(after, order.(open := quantity - t.filled, executed := executed + t.filled));
    var gone := Event(Canceled, a.id, 0, 0, a.clientId, a.price, quantity - t.filled, IMMEDIATE_OR_CANCEL, false);
    CancelTradesNone(t.events, gone);
  }

  lemma CancelTradesNone(events: seq<Event>, gone: Event)
    requires gone.kind == Canceled
    ensures forall flag :: Traded(events + [gone], flag) == Traded(events, flag)
  {
    forall flag ensures Traded(events + [gone], flag) == Traded(events, flag) {
      TradedAppend(events, [gone], flag);
      assert [gone][1..] == [];
    }
  }

  lemma SideQueue(book: Book, side: Side)
    requires WellFormed(book)
    ensures Queue(side, book.On(side)) && Ordered(side, book.On(side)) && Live(side, book.On(side))
  {
    hide Ordered, Live, UniqueIds, DisjointIds;
  }

  //--- the three requests ---

  /** Nothing happens and nothing is said. */
  ghost predicate NoEffect(book: Book, o: Outcome) {
    o == Outcome(book, [], [], false)
  }

  /** without is book but for order, which stood on its own side. */
  ghost predicate Lacks(book: Book, order: Order, without: Book) {
    exists k {:trigger book.On(order.side)[k]} :: 0 <= k < |book.On(order.side)| && book.On(order.side)[k] == order
      && without.On(order.side) == book.On(order.side)[..k] + book.On(order.side)[k + 1..]
      && without.On(Opposite(order.side)) == book.On(Opposite(order.side)) && without.nextMatch == book.nextMatch
  }

  /** One Canceled for all the order had open, and it is gone. */
  ghost predicate TakenOff(book: Book, order: Order, o: Outcome) {
    && o.events == [Event(Canceled, order.id, 0, 0, order.clientId, order.price, order.open, 'U', true)]
    && o.itch == [OrderDelete(order.id)] && Lacks(book, order, o.book)
  }

  /** A NEW under an id that rests is ignored; one that might have to rest on a full
      book is rejected, and nothing changes; any other is accepted for its whole
      quantity and comes in at its own price and side. */
  lemma NewEffect(book: Book, capacity: nat, req: Request)
    requires WellFormed(book) && req.kind == New
    ensures var o := Process(book, capacity, req);
            if Find(book, req.orderId).Some? then NoEffect(book, o)
            else if req.orderType == Limit && req.timeInForce == Day && |book.bids| + |book.asks| >= capacity then
              && o.events == [Event(Rejected, req.orderId, 0, 0, req.clientId, 0, 0, 'F', true)]
              && o.book == book && o.itch == []
            else
              && o.events != []
              && o.events[0] == Event(Accepted, req.orderId, 0, 0, req.clientId, req.price, req.quantity, '\0', true)
              && Incoming(book, Order(req.orderId, req.clientId, req.side, req.price, req.quantity, 0),
                          req.orderType == Market, req.timeInForce == Day, o.book, o.events[1..])
  {
    hide TradeAndRest, WellFormed, Rests, Incoming, Find;
    RestsIff(book, req.orderId);
    TradeAndRestIs(book, Aggressor(req.orderId, req.clientId, req.side, req.orderType, req.price), req.quantity, 0,
                   req.timeInForce == Day);
  }

  lemma TakeLacks(book: Book, order: Order)
    requires WellFormed(book) && Find(book, order.id) == Some(order)
    ensures Lacks(book, order, Take(book, order.side, order.id))
  {
    hide Position, WellFormed;
    FindOnSide(book, order.id);
    assert book.On(order.side)[Position(book.On(order.side), order.id)] == order;
  }

  /** A CANCEL of an order its sender owns, down to less than the order's whole
      liability, takes off the difference where the order stands, or all of it; any
      other has no effect. */
  lemma CancelEffect(book: Book, capacity: nat, req: Request)
    requires WellFormed(book) && req.kind == RequestKind.Cancel
    ensures var o := Process(book, capacity, req);
            match Find(book, req.orderId)
            case None => NoEffect(book, o)
            case Some(order) =>
              if order.clientId != req.clientId || req.quantity >= order.open + order.executed then NoEffect(book, o)
              else if req.quantity <= order.executed then TakenOff(book, order, o)
              else CutDown(book, order, req.quantity - order.executed, o)
  {
    hide Take, WellFormed, Lacks, Find, Position;
    if Find(book, req.orderId).Some? {
      var order := Find(book, req.orderId).value;
      FoundLive(book, req.orderId);
      TakeLacks(book, order);
      FindOnSide(book, req.orderId);
      assert book.On(order.side)[Position(book.On(order.side), order.id)] == order;
    }
  }

  lemma FoundLive(book: Book, id: OrderId)
    requires WellFormed(book) && Find(book, id).Some?
    ensures Find(book, id).value.open > 0 && Find(book, id).value.id == id
  {
  }

  /** One Canceled for the shares taken off, and the order keeps its place with open
      left; nothing else moves. */
  ghost predicate CutDown(book: Book, order: Order, open: Quantity, o: Outcome) {
    var cut := order.open - open;
    && cut > 0 && o.itch == [OrderCancel(order.id, cut)]
    && o.events == [Event(Canceled, order.id, 0, 0, order.clientId, order.price, cut, 'U', true)]
    && o.book.On(Opposite(order.side)) == book.On(Opposite(order.side)) && o.book.nextMatch == book.nextMatch
    && exists k {:trigger book.On(order.side)[k]} :: 0 <= k < |book.On(order.side)| && book.On(order.side)[k] == order
         && o.book.On(order.side) == book.On(order.side)[k := order.(open := open)]
  }

  /** The original is gone. Of a replacement for no more than was executed already
      nothing is left; else Replaced announces what is, and it comes in at its own
      price on the original's side, the executed shares carried over. */
  ghost predicate Supersedes(book: Book, orig: Order, newId: OrderId, price: Price, quantity: Quantity, day: bool, o: Outcome) {
    if quantity <= orig.executed then TakenOff(book, orig, o)
    else
      && o.events != []
      && o.events[0] == Event(Replaced, newId, orig.id, 0, orig.clientId, price, quantity - orig.executed, '\0', true)
      && exists without {:trigger Lacks(book, orig, without)} :: Lacks(book, orig, without)
           && Incoming(without, Order(newId, orig.clientId, orig.side, price, quantity - orig.executed, orig.executed), false,
                       day, o.book, o.events[1..])
  }

  /** A REPLACE of an order its sender owns, under an id that does not rest, replaces
      it; any other has no effect. */
  lemma ReplaceEffect(book: Book, capacity: nat, req: Request)
    requires WellFormed(book) && Uncrossed(book) && req.kind == RequestKind.Replace
    ensures var o := Process(book, capacity, req);
            match Find(book, req.orderId)
            case None => NoEffect(book, o)
            case Some(orig) =>
              if orig.clientId != req.clientId || Find(book, req.newOrderId).Some? then NoEffect(book, o)
              else Supersedes(book, orig, req.newOrderId, req.price, req.quantity, req.timeInForce == Day, o)
  {
    hide Take, WellFormed, Uncrossed, Lacks, Find, Position, Incoming, Rests, Reenter;
    RestsIff(book, req.newOrderId);
    if Find(book, req.orderId).Some? {
      var orig := Find(book, req.orderId).value;
      FoundLive(book, req.orderId);
      TakeLacks(book, orig);
      TakeKeeps(book, orig.side, orig.id);
      if orig.clientId == req.clientId && req.quantity > orig.executed {
        ReenterIs(Take(book, orig.side, orig.id), req, orig, req.quantity - orig.executed);
      }
    }
  }

  lemma ReenterIs(without: Book, req: Request, orig: Order, open: Quantity)
    requires WellFormed(without) && orig.clientId == req.clientId && open > 0
    ensures var o := Reenter(without, req, orig, open);
            && |o.events| > 0
            && o.events[0] == Event(Replaced, req.newOrderId, orig.id, 0, orig.clientId, req.price, open, '\0', false)
            && Incoming(without, Order(req.newOrderId, orig.clientId, orig.side, req.price, open, orig.executed), false,
                        req.timeInForce == Day, o.book, o.events[1..])
  {
    hide TradeAndRest, WellFormed, Incoming, Put, Crosses;
    var a := Aggressor(req.newOrderId, req.clientId, orig.side, Limit, req.price);
    TradeAndRestIs(without, a, open, orig.executed, req.timeInForce == Day);
    if req.timeInForce == Day && !Crosses(a, without.On(Opposite(orig.side))) {
      RestsUntraded(without, a, open, orig.executed);
      assert Reenter(without, req, orig, open).events[1..] == [];
    }
  }

  lemma RestsUntraded(without: Book, a: Aggressor, open: Quantity, executed: Quantity)
    requires WellFormed(without) && a.orderType == Limit && open > 0 && !Crosses(a, without.On(Opposite(a.side)))
    ensures var order := Order(a.id, a.clientId, a.side, a.price, open, executed);
            Incoming(without, order, false, true, Put(without, order), [])
  {
    hide Put, WellFormed, Joined, Ordered, Live, Within, Crosses;
    var order := Order(a.id, a.clientId, a.side, a.price, open, executed);
    SideQueue(without, Opposite(a.side));
    SideQueue(without, a.side);
    WithinReach(a, without.On(Opposite(a.side)));
    OutOfReach(a, without.On(Opposite(a.side)));
    PutJoins(without, order);
    assert order.(open := open, executed := executed) == order;
  }

  //--- what comes to rest ---

  lemma DropAbsent(side: Side, orders: seq<Order>, n: nat, id: OrderId)
    requires Live(side, orders) && Absent(orders, id)
    ensures Absent(DropShares(orders, n), id)
  {
    hide DropShares;
    var k := DropSharesShape(orders, n);
  }

  /** Of the ids that did not rest before, only the incoming order's can, as a day
      limit order, with its own price, side and client. */
  lemma IncomingFinds(book: Book, order: Order, market: bool, day: bool, after: Book, events: seq<Event>, id: OrderId)
    requires WellFormed(book) && !Rests(book, id) && Incoming(book, order, market, day, after, events)
    ensures Find(after, id).Some? ==>
              var found := Find(after, id).value;
              && id == order.id && day && !market && found.open > 0 && found.open + found.executed == order.open + order.executed
              && found == order.(open := found.open, executed := found.executed)
  {
    hide Within, DropShares, Traded, Trade, WellFormed, Live, Position, Joined, Rests;
    var own, other := order.side, Opposite(order.side);
    RestsIff(book, id);
    SideQueue(book, other);
    var filled := Min(order.open, Within(book.On(other), own, market, order.price));
    DropAbsent(other, book.On(other), filled, id);
    var left := order.open - filled;
    if left > 0 && day && !market {
      JoinedFinds(book.On(own), after.On(own), order.(open := left, executed := order.executed + filled), id);
    }
  }

  lemma JoinedFinds(before: seq<Order>, after: seq<Order>, order: Order, id: OrderId)
    requires Joined(before, after, order) && Absent(before, id)
    ensures forall i :: 0 <= i < |after| && after[i].id == id ==> after[i] == order
  {
    var p :| 0 <= p <= |before| && after == before[..p] + [order] + before[p..];
  }

  lemma LacksKeeps(book: Book, order: Order, without: Book, id: OrderId)
    requires WellFormed(book) && Lacks(book, order, without)
    ensures !Rests(book, id) ==> !Rests(without, id)
    ensures WellFormed(without)
  {
    hide Position, Ordered, Live, UniqueIds, DisjointIds;
    RestsIff(book, id);
    RestsIff(without, id);
    var orders := book.On(order.side);
    var k :| 0 <= k < |orders| && orders[k] == order && without.On(order.side) == orders[..k] + orders[k + 1..]
             && without.On(Opposite(order.side)) == book.On(Opposite(order.side)) && without.nextMatch == book.nextMatch;
    RemoveElements(orders, k);
    LacksWell(book, order.side, k, without);
  }

  lemma LacksWell(book: Book, side: Side, k: nat, without: Book)
    requires WellFormed(book) && k < |book.On(side)| && without.On(side) == RemoveAt(book.On(side), k)
    requires without.On(Opposite(side)) == book.On(Opposite(side))
    ensures WellFormed(without)
  {
    hide Ordered, Live;
    RemoveKeeps(side, book.On(side), k);
    RemoveElements(book.On(side), k);
  }

  lemma CutFinds(book: Book, order: Order, open: Quantity, o: Outcome, id: OrderId)
    requires CutDown(book, order, open, o) && !Rests(book, id)
    ensures !Rests(o.book, id)
  {
    hide Position;
    RestsIff(book, id);
    RestsIff(o.book, id);
  }

  lemma CancelFinds(book: Book, capacity: nat, req: Request, id: OrderId)
    requires WellFormed(book) && req.kind == RequestKind.Cancel && !Rests(book, id)
    ensures !Rests(Process(book, capacity, req).book, id)
  {
    hide Process, WellFormed, Find, Rests, Lacks, CutDown;
    var o := Process(book, capacity, req);
    CancelEffect(book, capacity, req);
    if Find(book, req.orderId).Some? && o.book != book {
      var order := Find(book, req.orderId).value;
      if req.quantity <= order.executed {
        LacksKeeps(book, order, o.book, id);
      } else {
        CutFinds(book, order, req.quantity - order.executed, o, id);
      }
    }
  }

  lemma ReplaceFinds(book: Book, capacity: nat, req: Request, id: OrderId)
    requires WellFormed(book) && Uncrossed(book) && req.kind == RequestKind.Replace && !Rests(book, id)
    requires Rests(Process(book, capacity, req).book, id)
    ensures Find(book, req.orderId).Some? && Find(book, req.orderId).value.clientId == req.clientId
    ensures var orig := Find(book, req.orderId).value;
            Find(Process(book, capacity, req).book, id).Some? &&
            var found := Find(Process(book, capacity, req).book, id).value;
            && id == req.newOrderId && req.timeInForce == Day && found.open > 0 && found.open + found.executed == req.quantity
            && found == Order(id, req.clientId, orig.side, req.price, found.open, found.executed)
  {
    hide Process, WellFormed, Uncrossed, Incoming, Find, Rests, Lacks;
    var o := Process(book, capacity, req);
    RestsIff(o.book, id);
    ReplaceEffect(book, capacity, req);
    var orig := Find(book, req.orderId).value;
    if req.quantity <= orig.executed {
      LacksKeeps(book, orig, o.book, id);
      assert false;
    }
    var entering := Order(req.newOrderId, orig.clientId, orig.side, req.price, req.quantity - orig.executed, orig.executed);
    var without :| Lacks(book, orig, without) && Incoming(without, entering, false, req.timeInForce == Day, o.book, o.events[1..]);
    LacksKeeps(book, orig, without, id);
    IncomingFinds(without, entering, false, req.timeInForce == Day, o.book, o.events[1..], id);
  }

  /** An order that comes to rest is the one the request asked for: its id, its
      client, its price and quantity, on the side asked for or the original's; and
      only a day limit order does. */
  lemma RestsAsAsked(book: Book, capacity: nat, req: Request, id: OrderId, order: Order)
    requires WellFormed(book) && Uncrossed(book) && !Rests(book, id)
    requires Find(Process(book, capacity, req).book, id) == Some(order)
    ensures order.id == id && order.price == req.price && order.clientId == req.clientId && req.timeInForce == Day
    ensures order.open > 0 && order.open + order.executed == req.quantity
    ensures match req.kind
            case New => id == req.orderId && req.orderType == Limit && order.side == req.side
            case Replace =>
              id == req.newOrderId && Find(book, req.orderId).Some? && order.side == Find(book, req.orderId).value.side
            case Cancel => false
  {
    hide Process, WellFormed, Uncrossed, Incoming, Find, Rests;
    var o := Process(book, capacity, req);
    RestsIff(book, id);
    RestsIff(o.book, id);
    match req.kind {
      case New =>
        NewEffect(book, capacity, req);
        if o.book != book {
          IncomingFinds(book, Order(req.orderId, req.clientId, req.side, req.price, req.quantity, 0),
                        req.orderType == Market, req.timeInForce == Day, o.book, o.events[1..], id);
        }
      case Cancel => CancelFinds(book, capacity, req, id);
      case Replace => ReplaceFinds(book, capacity, req, id);
    }
  }
}
