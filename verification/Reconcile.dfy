/** The responder never loses track of the book: fed the events of any request,
    it finds a record for every one of them, and afterwards holds open shares
    for exactly the orders resting, in exactly the amounts resting. */
module Reconcile {
  import opened EngineTypes
  import opened BookSpec
  import opened BookLaws
  import opened OrderEntry
  import opened OuchResponder
  import F = ItchFeed

  /** The event finds its records, and its answer goes to the client it is for. */
  predicate Addressed(records: Records, event: Event) {
    Known(records, event) && records[event.orderId].record.clientId == event.clientId
  }

  /** The records after a batch of events; None once an event would be dropped, or
      answered to the wrong client. */
  function Feed(records: Records, events: seq<Event>): Option<Records>
    decreases |events|
  {
    if events == [] then Some(records)
    else if !Addressed(records, events[0]) then None
    else Feed(AfterEvent(records, events[0]), events[1..])
  }

  lemma {:induction false} FeedAppend(records: Records, xs: seq<Event>, ys: seq<Event>)
    ensures Feed(records, xs + ys) == (match Feed(records, xs) case None => None case Some(r) => Feed(r, ys))
    decreases |xs|
  {
    hide Known, AfterEvent;
    if xs == [] {
      assert xs + ys == ys;
    } else {
      assert (xs + ys)[0] == xs[0] && (xs + ys)[1..] == xs[1..] + ys;
      if Addressed(records, xs[0]) {
        FeedAppend(AfterEvent(records, xs[0]), xs[1..], ys);
      }
    }
  }

  /** Each of orders has a record with its open shares and its owner. */
  ghost predicate Recorded(records: Records, orders: seq<Order>) {
    forall i :: 0 <= i < |orders| ==>
      && orders[i].id in records
      && records[orders[i].id].open == orders[i].open
      && records[orders[i].id].record.clientId == orders[i].clientId
  }

  /** Records and book agree, but for the orders in flying (an aggressor that is
      trading and not yet resting). */
  ghost predicate AgreesBut(records: Records, book: Book, flying: set<OrderId>) {
    && Recorded(records, book.bids) && Recorded(records, book.asks)
    && (forall id :: id in records && records[id].open > 0 ==> id in flying || Rests(book, id))
  }

  /** Open shares are recorded for exactly the resting orders. */
  ghost predicate Agrees(records: Records, book: Book) {
    AgreesBut(records, book, {})
  }

  /** The same, one id at a time: what a record says and what the book holds. */
  lemma AgreesExactly(records: Records, book: Book, id: OrderId)
    requires Agrees(records, book) && WellFormed(book)
    ensures Rests(book, id) <==> id in records && records[id].open > 0
    ensures Rests(book, id) ==> id in records && records[id].open == Find(book, id).value.open
  {
  }

  //--- one change of the records against one change of the book ---

  lemma RecordedWithout(records: Records, orders: seq<Order>, id: OrderId, live: LiveOrder)
    requires Recorded(records, orders) && Absent(orders, id)
    ensures Recorded(records - {id}, orders) && Recorded(records[id := live], orders)
  {
  }

  /** Shares come off the front of a side on both ends. */
  lemma HitAgrees(records: Records, book: Book, side: Side, shares: Quantity, flying: set<OrderId>)
    requires WellFormed(book) && AgreesBut(records, book, flying)
    requires book.On(side) != [] && 0 < shares <= book.On(side)[0].open
    ensures var front := book.On(side)[0];
            && front.id in records
            && AgreesBut(Reduced(records, front.id, shares), book.With(side, Hit(book.On(side), shares)), flying)
  {
    hide Ordered, Position;
    var orders := book.On(side);
    var front := orders[0];
    var after := Hit(orders, shares);
    var records' := Reduced(records, front.id, shares);
    HitRecorded(records, orders, shares);
    assert Absent(book.On(Opposite(side)), front.id);
    RecordedWithout(records, book.On(Opposite(side)), front.id, records[front.id].(open := front.open - shares));
    forall id | id in records' && records'[id].open > 0
      ensures id in flying || Rests(book.With(side, after), id)
    {
      if id !in flying {
        HitRests(book, side, shares, id);
      }
    }
  }

  lemma HitRecorded(records: Records, orders: seq<Order>, shares: Quantity)
    requires UniqueIds(orders) && Recorded(records, orders) && orders != [] && shares <= orders[0].open
    ensures Recorded(Reduced(records, orders[0].id, shares), Hit(orders, shares))
  {
    assert forall i :: 0 < i < |orders| ==> orders[i].id != orders[0].id;
  }

  lemma HitRests(book: Book, side: Side, shares: Quantity, id: OrderId)
    requires book.On(side) != [] && shares <= book.On(side)[0].open
    requires Rests(book, id) && (id == book.On(side)[0].id ==> shares < book.On(side)[0].open)
    ensures Rests(book.With(side, Hit(book.On(side), shares)), id)
  {
    hide Position;
    var orders := book.On(side);
    var after := Hit(orders, shares);
    var p := Position(orders, id);
    if p < |orders| {
      var q := if shares == orders[0].open then p - 1 else p;
      assert after[q].id == id;
    }
  }

  //--- trading ---

  /** Both events of one fill find their records; the aggressor's remaining
      shares and the resting order's go down together. */
  lemma TradeAgrees(records: Records, book: Book, a: Aggressor, remaining: Quantity, shares: Quantity, match_: nat)
    requires WellFormed(book) && AgreesBut(records, book, {a.id})
    requires Absent(book.bids, a.id) && Absent(book.asks, a.id)
    requires a.id in records && records[a.id].open == remaining && records[a.id].record.clientId == a.clientId
    requires var opposite := book.On(Opposite(a.side));
             opposite != [] && 0 < shares <= remaining && shares <= opposite[0].open
    ensures var other := Opposite(a.side);
            var opposite := book.On(other);
            var fed := Feed(records, TradeEvents(a, opposite[0], shares, match_));
            && fed.Some?
            && AgreesBut(fed.value, book.With(other, Hit(opposite, shares)), {a.id})
            && (shares < remaining ==> a.id in fed.value && fed.value[a.id] == records[a.id].(open := remaining - shares))
            && (shares == remaining ==> a.id !in fed.value)
  {
    hide WellFormed, Recorded, Hit;
    var other := Opposite(a.side);
    var front := book.On(other)[0];
    var events := TradeEvents(a, front, shares, match_);
    var once := Reduced(records, a.id, shares);
    ReduceFlying(records, book, a.id, shares);
    HitAgrees(once, book, other, shares, {a.id});
    assert AfterEvent(records, events[0]) == once;
    assert AfterEvent(once, events[1]) == Reduced(once, front.id, shares);
    RecordedAt(once, book.On(other), 0);
    FeedTwo(records, events[0], events[1]);
  }

  lemma FeedTwo(records: Records, x: Event, y: Event)
    requires Addressed(records, x) && Addressed(AfterEvent(records, x), y)
    ensures Feed(records, [x, y]) == Some(AfterEvent(AfterEvent(records, x), y))
  {
    hide Known, AfterEvent;
    assert [x, y][0] == x && [x, y][1..] == [y];
    FeedOne(AfterEvent(records, x), y);
  }

  lemma FeedOne(records: Records, x: Event)
    requires Addressed(records, x)
    ensures Feed(records, [x]) == Some(AfterEvent(records, x))
  {
    assert [x][1..] == [];
  }

  /** The aggressor's record shrinks without disturbing the resting ones. */
  lemma ReduceFlying(records: Records, book: Book, id: OrderId, shares: Quantity)
    requires AgreesBut(records, book, {id}) && Absent(book.bids, id) && Absent(book.asks, id) && id in records
    ensures AgreesBut(Reduced(records, id, shares), book, {id})
  {
    hide Position;
    var live := records[id];
    var less := live.(open := if shares < live.open then live.open - shares else 0);
    RecordedWithout(records, book.bids, id, less);
    RecordedWithout(records, book.asks, id, less);
  }

  lemma {:induction false} WalkAgrees(records: Records, book: Book, a: Aggressor, quantity: Quantity)
    requires WellFormed(book) && AgreesBut(records, book, {a.id})
    requires Absent(book.bids, a.id) && Absent(book.asks, a.id)
    requires quantity > 0 && a.id in records && records[a.id].open == quantity && records[a.id].record.clientId == a.clientId
    ensures var other := Opposite(a.side);
            var t := Walk(a, quantity, book.On(other), book.nextMatch);
            var fed := Feed(records, t.events);
            && fed.Some?
            && AgreesBut(fed.value, book.With(other, t.left).(nextMatch := t.nextMatch), {a.id})
            && (t.filled < quantity ==> a.id in fed.value && fed.value[a.id] == records[a.id].(open := quantity - t.filled))
            && (t.filled == quantity ==> a.id !in fed.value)
    decreases |book.On(Opposite(a.side))| + quantity
  {
    hide WellFormed, AgreesBut, Feed, TradeEvents;
    var other := Opposite(a.side);
    var opposite := book.On(other);
    FeedNone(records);
    if Crosses(a, opposite) {
      LiveSide(book, other);
      var shares := Min(quantity, opposite[0].open);
      var after := book.With(other, Hit(opposite, shares)).(nextMatch := book.nextMatch + 1);
      TradeAgrees(records, book, a, quantity, shares, book.nextMatch);
      F.HitWellFormed(book, other, shares);
      var fill := TradeEvents(a, opposite[0], shares, book.nextMatch);
      var fed := Feed(records, fill).value;
      SameSides(fed, book.With(other, Hit(opposite, shares)), after, {a.id});
      if shares < quantity {
        WalkAgrees(fed, after, a, quantity - shares);
      }
      FeedAppend(records, fill, Walk(a, quantity - shares, Hit(opposite, shares), book.nextMatch + 1).events);
      FeedNone(fed);
    }
  }

  lemma FeedNone(records: Records)
    ensures Feed(records, []) == Some(records)
  {
  }

  lemma SameSides(records: Records, x: Book, y: Book, flying: set<OrderId>)
    requires AgreesBut(records, x, flying) && x.bids == y.bids && x.asks == y.asks && WellFormed(x)
    ensures AgreesBut(records, y, flying) && WellFormed(y)
  {
    hide Recorded, Queue, UniqueIds, DisjointIds;
  }

  //--- entering and leaving the book ---

  /** An aggressor that comes to rest stops flying. */
  lemma PutAgrees(records: Records, book: Book, order: Order)
    requires AgreesBut(records, book, {order.id})
    requires order.id in records && records[order.id].open == order.open
    requires records[order.id].record.clientId == order.clientId
    ensures Agrees(records, Put(book, order))
  {
    hide Position, Back;
    var orders := book.On(order.side);
    InsertElements(orders, Back(orders, order.side, order.price), order);
    forall id | id in records && records[id].open > 0 ensures Rests(Put(book, order), id) {
      RestsAfterPut(book, order, id);
    }
  }

  /** An order leaves book and records together. */
  lemma TakeAgrees(records: Records, book: Book, order: Order)
    requires WellFormed(book) && Agrees(records, book) && Find(book, order.id) == Some(order)
    ensures order.id in records
    ensures Agrees(records - {order.id}, Take(book, order.side, order.id))
  {
    hide Ordered, Live;
    FindOnSide(book, order.id);
    var orders := book.On(order.side);
    var p := Position(orders, order.id);
    RemoveElements(orders, p);
    assert orders[p].id == order.id;
    forall id | id in records - {order.id} && records[id].open > 0
      ensures Rests(Take(book, order.side, order.id), id)
    {
      RestsTake(book, order, id);
    }
  }

  lemma RestsTake(book: Book, order: Order, id: OrderId)
    requires Rests(book, id) && id != order.id
    ensures Rests(Take(book, order.side, order.id), id)
  {
    hide Position;
    var orders := book.On(order.side);
    var p := Position(orders, order.id);
    if p < |orders| {
      var after := RemoveAt(orders, p);
      RemoveElements(orders, p);
      var k := Position(orders, id);
      if k < |orders| { assert after[if k < p then k else k - 1].id == id; }
    }
  }

  lemma ResizeRecorded(records: Records, orders: seq<Order>, p: nat, open: Quantity)
    requires UniqueIds(orders) && Recorded(records, orders) && p < |orders| && 0 < open < orders[p].open
    ensures Recorded(Reduced(records, orders[p].id, orders[p].open - open), orders[p := orders[p].(open := open)])
  {
    assert forall i :: 0 <= i < |orders| && i != p ==> orders[i].id != orders[p].id;
  }

  lemma RestsResize(book: Book, side: Side, p: nat, open: Quantity, id: OrderId)
    requires Rests(book, id) && p < |book.On(side)|
    ensures Rests(book.With(side, book.On(side)[p := book.On(side)[p].(open := open)]), id)
  {
    hide Position;
    var orders := book.On(side);
    var k := Position(orders, id);
    if k < |orders| { assert orders[p := orders[p].(open := open)][k].id == id; }
  }

  lemma ResizeAgrees(records: Records, book: Book, order: Order, open: Quantity)
    requires WellFormed(book) && Agrees(records, book) && Find(book, order.id) == Some(order)
    requires 0 < open < order.open
    ensures order.id in records
    ensures Agrees(Reduced(records, order.id, order.open - open), Shrink(book, order, open))
  {
    hide Ordered, Live, Position, Recorded, UniqueIds, DisjointIds, Rests;
    FindOnSide(book, order.id);
    var orders := book.On(order.side);
    var others := book.On(Opposite(order.side));
    var p := Position(orders, order.id);
    RecordedAt(records, orders, p);
    var after := Shrink(book, order, open);
    ResizeRecorded(records, orders, p, open);
    RecordedWithout(records, others, order.id, records[order.id].(open := open));
    forall id | id in records && records[id].open > 0 ensures Rests(after, id) {
      RestsResize(book, order.side, p, open, id);
    }
  }

  lemma RecordedAt(records: Records, orders: seq<Order>, p: nat)
    requires Recorded(records, orders) && p < |orders|
    ensures orders[p].id in records && records[orders[p].id].open == orders[p].open
    ensures records[orders[p].id].record.clientId == orders[p].clientId
  {
  }

  /** Once the aggressor's record is gone or empty, nothing is flying. */
  lemma Landed(records: Records, book: Book, id: OrderId)
    requires AgreesBut(records, book, {id}) && (id in records ==> records[id].open == 0)
    ensures Agrees(records, book)
  {
  }

  lemma TradeAndRestAgrees(records: Records, book: Book, a: Aggressor, quantity: Quantity, executed: Quantity, mayRest: bool)
    requires WellFormed(book) && AgreesBut(records, book, {a.id})
    requires Absent(book.bids, a.id) && Absent(book.asks, a.id)
    requires a.id in records && records[a.id].open == quantity && records[a.id].record.clientId == a.clientId
    ensures var o := TradeAndRest(book, a, quantity, executed, mayRest);
            var fed := Feed(records, o.events);
            fed.Some? && Agrees(fed.value, o.book)
  {
    hide WellFormed, AgreesBut, Absent, Agrees, Feed, Walk, Put;
    var other := Opposite(a.side);
    var t := Walk(a, quantity, book.On(other), book.nextMatch);
    var after := book.With(other, t.left).(nextMatch := t.nextMatch);
    FeedNone(records);
    if quantity == 0 {
      WalkNothing(a, book.On(other), book.nextMatch);
      Landed(records, book, a.id);
    } else {
      WalkAgrees(records, book, a, quantity);
      var fed := Feed(records, t.events).value;
      var remaining := quantity - t.filled;
      if remaining == 0 {
        Landed(fed, after, a.id);
      } else if mayRest {
        PutAgrees(fed, after, Order(a.id, a.clientId, a.side, a.price, remaining, executed + t.filled));
      } else {
        var gone := Event(Canceled, a.id, 0, 0, a.clientId, a.price, remaining, IMMEDIATE_OR_CANCEL, false);
        FeedAppend(records, t.events, [gone]);
        FeedOne(fed, gone);
        WalkKeepsAbsent(book, a, quantity);
        ReduceFlying(fed, after, a.id, remaining);
        Landed(Reduced(fed, a.id, remaining), after, a.id);
      }
    }
  }

  lemma WalkNothing(a: Aggressor, opposite: seq<Order>, match_: nat)
    ensures Walk(a, 0, opposite, match_) == Trades(opposite, 0, match_, [], [])
  {
  }

  lemma WalkKeepsAbsent(book: Book, a: Aggressor, quantity: Quantity)
    requires WellFormed(book) && Absent(book.bids, a.id) && Absent(book.asks, a.id)
    ensures var other := Opposite(a.side);
            var t := Walk(a, quantity, book.On(other), book.nextMatch);
            var after := book.With(other, t.left).(nextMatch := t.nextMatch);
            Absent(after.bids, a.id) && Absent(after.asks, a.id)
  {
    hide Ordered, Live, Walk, Survives;
    var opposite := book.On(Opposite(a.side));
    WalkSurvives(a, quantity, opposite, book.nextMatch);
    SurvivesIds(opposite, Walk(a, quantity, opposite, book.nextMatch).left, []);
  }

  //--- whole requests ---

  /** The note of every order a request may bring in has been taken in. */
  ghost predicate Announced(records: Records, req: Request) {
    match NewId(req)
    case None => true
    case Some(id) => id in records && records[id].record.clientId == req.clientId
  }

  lemma EnterAgrees(records: Records, book: Book, capacity: nat, req: Request)
    requires WellFormed(book) && Agrees(records, book) && Announced(records, req) && req.kind == New
    ensures var o := BookSpec.Enter(book, capacity, req);
            var fed := Feed(records, o.events);
            fed.Some? && Agrees(fed.value, o.book)
  {
    hide WellFormed, Feed, TradeAndRest, Rests, Absent, Recorded;
    FeedNone(records);
    RestsIff(book, req.orderId);
    if !Rests(book, req.orderId) {
      RecordedBoth(records, book, req.orderId, records[req.orderId].(open := req.quantity));
      if MayRest(req) && capacity <= book.Size() {
        FeedOne(records, Event(Rejected, req.orderId, 0, 0, req.clientId, 0, 0, BOOK_FULL, false));
      } else {
        var accepted := Event(Accepted, req.orderId, 0, 0, req.clientId, req.price, req.quantity, NO_REASON, false);
        var records' := AfterEvent(records, accepted);
        var a := Aggressor(req.orderId, req.clientId, req.side, req.orderType, req.price);
        TradeAndRestAgrees(records', book, a, req.quantity, 0, MayRest(req));
        FeedOne(records, accepted);
        FeedAppend(records, [accepted], TradeAndRest(book, a, req.quantity, 0, MayRest(req)).events);
      }
    }
  }

  lemma RecordedBoth(records: Records, book: Book, id: OrderId, live: LiveOrder)
    requires Recorded(records, book.bids) && Recorded(records, book.asks)
    requires Absent(book.bids, id) && Absent(book.asks, id)
    ensures Recorded(records - {id}, book.bids) && Recorded(records - {id}, book.asks)
    ensures Recorded(records[id := live], book.bids) && Recorded(records[id := live], book.asks)
  {
    RecordedWithout(records, book.bids, id, live);
    RecordedWithout(records, book.asks, id, live);
  }

  lemma CancelAgrees(records: Records, book: Book, req: Request)
    requires WellFormed(book) && Agrees(records, book)
    ensures var o := CancelOrder(book, req);
            var fed := Feed(records, o.events);
            fed.Some? && Agrees(fed.value, o.book)
  {
    hide WellFormed, Feed, Position, Take, Recorded, Agrees;
    FeedNone(records);
    RestsIff(book, req.orderId);
    var o := CancelOrder(book, req);
    if o.handled {
      var order := Find(book, req.orderId).value;
      FindOnSide(book, req.orderId);
      TakeAgrees(records, book, order);
      OpenRecorded(records, book, order);
      var target := OpenAfter(req.quantity, order.executed);
      if target > 0 {
        ResizeAgrees(records, book, order, target);
      }
      FeedOne(records, o.events[0]);
    }
  }

  lemma OpenRecorded(records: Records, book: Book, order: Order)
    requires WellFormed(book) && Agrees(records, book) && Find(book, order.id) == Some(order)
    ensures order.id in records && records[order.id].open == order.open && records[order.id].record.clientId == order.clientId
  {
    hide WellFormed, Position, Rests;
  }

  lemma ReenterAgrees(records: Records, book: Book, req: Request, orig: Order, open: Quantity)
    requires WellFormed(book) && Agrees(records, book) && Find(book, orig.id) == Some(orig)
    requires !Rests(book, req.newOrderId) && req.kind == RequestKind.Replace && Announced(records, req)
    ensures var o := Reenter(Take(book, orig.side, orig.id), req, orig, open);
            var fed := Feed(records, o.events);
            fed.Some? && Agrees(fed.value, o.book)
  {
    hide WellFormed, Feed, Position, Take, Recorded, Rests, Absent, TradeAndRest, Put, Crosses;
    var without := Take(book, orig.side, orig.id);
    var replaced := Event(Replaced, req.newOrderId, orig.id, 0, req.clientId, req.price, open, NO_REASON, false);
    var a := Aggressor(req.newOrderId, req.clientId, orig.side, Limit, req.price);
    RestsIff(book, req.newOrderId);
    RestsIff(book, orig.id);
    TakeKeeps(book, orig.side, orig.id);
    TakeAbsent(book, orig.side, orig.id, req.newOrderId);
    TakeAgrees(records, book, orig);
    var kept := records - {orig.id};
    RecordedBoth(kept, without, req.newOrderId, records[req.newOrderId].(open := open));
    var records' := AfterEvent(records, replaced);
    assert AgreesBut(records', without, {req.newOrderId});
    FeedOne(records, replaced);
    if req.timeInForce == Day && !Crosses(a, without.On(Opposite(orig.side))) {
      PutAgrees(records', without, Order(req.newOrderId, req.clientId, orig.side, req.price, open, orig.executed));
    } else {
      TradeAndRestAgrees(records', without, a, open, orig.executed, req.timeInForce == Day);
      FeedAppend(records, [replaced], TradeAndRest(without, a, open, orig.executed, req.timeInForce == Day).events);
    }
  }

  /** The answer flag means nothing to the records. */
  lemma MarkFeeds(records: Records, events: seq<Event>)
    ensures Feed(records, MarkAnswer(events)) == Feed(records, events)
  {
    if events != [] {
      assert MarkAnswer(events)[1..] == events[1..];
    }
  }

  /** Given its notes, every event of a request finds its record (and a REPLACED
      its original's), and records and book agree again afterwards. */
  lemma ProcessAgrees(records: Records, book: Book, capacity: nat, req: Request)
    requires WellFormed(book) && Agrees(records, book) && Announced(records, req)
    ensures var o := Process(book, capacity, req);
            var fed := Feed(records, o.events);
            fed.Some? && Agrees(fed.value, o.book)
  {
    hide WellFormed, Feed, Agrees, Rests, Take, Reenter, BookSpec.Enter, CancelOrder, MarkAnswer;
    match req.kind
    case New =>
      EnterAgrees(records, book, capacity, req);
      MarkFeeds(records, BookSpec.Enter(book, capacity, req).events);
    case Cancel =>
      CancelAgrees(records, book, req);
      MarkFeeds(records, CancelOrder(book, req).events);
    case Replace =>
      ReplaceAgrees(records, book, req);
      MarkFeeds(records, ReplaceOrder(book, req).events);
  }

  lemma ReplaceAgrees(records: Records, book: Book, req: Request)
    requires WellFormed(book) && Agrees(records, book) && Announced(records, req) && req.kind == RequestKind.Replace
    ensures var o := ReplaceOrder(book, req);
            var fed := Feed(records, o.events);
            fed.Some? && Agrees(fed.value, o.book)
  {
    hide WellFormed, Feed, Agrees, Rests, Take, Reenter, Position;
    FeedNone(records);
    RestsIff(book, req.orderId);
    var o := ReplaceOrder(book, req);
    var found := Find(book, req.orderId);
    if found.Some? && found.value.clientId == req.clientId && !Rests(book, req.newOrderId) {
      var orig := found.value;
      FindOnSide(book, req.orderId);
      var open := OpenAfter(req.quantity, orig.executed);
      if open == 0 {
        TakeAgrees(records, book, orig);
        OpenRecorded(records, book, orig);
        FeedOne(records, o.events[0]);
      } else {
        ReenterAgrees(records, book, req, orig, open);
      }
    }
  }
}
