/** A market data consumer: it sees only ITCH, and keeps the visible book it
    implies. Folding everything the engine publishes reproduces the engine's
    book -- ids, sides, prices, open shares and queue order. */
module ItchFeed {
  import opened EngineTypes
  import opened BookSpec
  import opened BookLaws

  /** What the feed can know of an order: not its owner, nor past fills; its
      price with four implied decimals. */
  function Visible(order: Order): Order {
    Order(order.id, 0, order.side, 100 * order.price, order.open, 0)
  }

  function Seen(orders: seq<Order>): seq<Order> {
    seq(|orders|, i requires 0 <= i < |orders| => Visible(orders[i]))
  }

  function View(book: Book): Book {
    Book(Seen(book.bids), Seen(book.asks), 0)
  }

  /** shares come off order ref; nothing left takes it off the feed's book. */
  function Reduce(feed: Book, ref: OrderId, shares: Quantity): Book {
    match Find(feed, ref)
    case None => feed
    case Some(order) => Shrink(feed, order, if shares < order.open then order.open - shares else 0)
  }

  function Delete(feed: Book, ref: OrderId): Book {
    match Find(feed, ref)
    case None => feed
    case Some(order) => Take(feed, order.side, ref)
  }

  function Apply(feed: Book, message: Itch): Book {
    match message
    case AddOrder(ref, buySell, shares, price) =>
      if buySell == 'B' then Put(feed, Order(ref, 0, Bid, price, shares, 0))
      else if buySell == 'S' then Put(feed, Order(ref, 0, Ask, price, shares, 0))
      else feed
    case OrderExecuted(ref, shares, _) => Reduce(feed, ref, shares)
    case OrderCancel(ref, shares) => Reduce(feed, ref, shares)
    case OrderDelete(ref) => Delete(feed, ref)
    case OrderReplace(orig, ref, shares, price) =>
      match Find(feed, orig)
      case None => feed
      case Some(order) => Put(Delete(feed, orig), Order(ref, 0, order.side, price, shares, 0))
  }

  function Fold(feed: Book, messages: seq<Itch>): Book
    decreases |messages|
  {
    if messages == [] then feed else Fold(Apply(feed, messages[0]), messages[1..])
  }

  lemma {:induction false} FoldAppend(feed: Book, xs: seq<Itch>, ys: seq<Itch>)
    ensures Fold(feed, xs + ys) == Fold(Fold(feed, xs), ys)
    decreases |xs|
  {
    if xs == [] {
      assert xs + ys == ys;
    } else {
      assert (xs + ys)[1..] == xs[1..] + ys;
      FoldAppend(Apply(feed, xs[0]), xs[1..], ys);
    }
  }

  //--- the view commutes with every change to the book ---

  lemma SeenPosition(orders: seq<Order>, id: OrderId)
    ensures Position(Seen(orders), id) == Position(orders, id)
  {
    hide Position;
    PositionIs(Seen(orders), id, Position(orders, id));
  }

  lemma SeenBack(orders: seq<Order>, side: Side, price: Price)
    ensures Back(Seen(orders), side, ToItchPrice(price)) == Back(orders, side, price)
  {
    hide Back;
    BackIs(Seen(orders), side, ToItchPrice(price), Back(orders, side, price));
  }

  lemma ViewFind(book: Book, id: OrderId)
    ensures match Find(book, id)
            case None => Find(View(book), id) == None
            case Some(order) => Find(View(book), id) == Some(Visible(order))
  {
    hide Position;
    SeenPosition(book.bids, id);
    SeenPosition(book.asks, id);
  }

  lemma ViewPut(book: Book, order: Order)
    ensures View(Put(book, order)) == Put(View(book), Visible(order))
  {
    hide Back;
    var orders := book.On(order.side);
    SeenBack(orders, order.side, order.price);
    var p := Back(orders, order.side, order.price);
    assert Seen(InsertAt(orders, p, order)) == InsertAt(Seen(orders), p, Visible(order)) by {
      InsertElements(orders, p, order);
    }
  }

  lemma ViewTake(book: Book, side: Side, id: OrderId)
    ensures View(Take(book, side, id)) == Take(View(book), side, id)
  {
    hide Position;
    var orders := book.On(side);
    SeenPosition(orders, id);
    var p := Position(orders, id);
    if p < |orders| {
      RemoveElements(orders, p);
      assert Seen(RemoveAt(orders, p)) == RemoveAt(Seen(orders), p);
    }
  }

  lemma ViewShrink(book: Book, order: Order, open: Quantity)
    ensures View(Shrink(book, order, open)) == Shrink(View(book), Visible(order), open)
  {
    hide Position;
    var orders := book.On(order.side);
    SeenPosition(orders, order.id);
    ViewTake(book, order.side, order.id);
    var p := Position(orders, order.id);
    if p < |orders| {
      assert Seen(orders[p := order.(open := open)]) == Seen(orders)[p := Visible(order).(open := open)];
    }
  }

  lemma ViewReduce(book: Book, order: Order, shares: Quantity)
    requires Find(book, order.id) == Some(order) && shares <= order.open
    ensures Reduce(View(book), order.id, shares) == View(Shrink(book, order, order.open - shares))
  {
    hide Shrink, Find;
    ViewFind(book, order.id);
    ViewShrink(book, order, order.open - shares);
  }

  //--- trades ---

  /** A fill at the front of a side is a shrink of that order. */
  lemma HitIsShrink(book: Book, side: Side, shares: Quantity)
    requires WellFormed(book) && book.On(side) != [] && 0 < shares <= book.On(side)[0].open
    ensures var front := book.On(side)[0];
            && Find(book, front.id) == Some(front)
            && View(book.With(side, Hit(book.On(side), shares))) == View(Shrink(book, front, front.open - shares))
  {
    hide Ordered, Position;
    var orders := book.On(side);
    PositionIs(orders, orders[0].id, 0);
    var left := orders[0].open - shares;
    if left == 0 {
      assert RemoveAt(orders, 0) == orders[1..];
    } else {
      assert Seen(Hit(orders, shares)) == Seen(orders[0 := orders[0].(open := left)]);
    }
  }

  lemma LiveOpen(side: Side, orders: seq<Order>)
    requires Live(side, orders)
    ensures forall i :: 0 <= i < |orders| ==> orders[i].open > 0
  {
  }

  lemma HitSurvives(orders: seq<Order>, shares: Quantity)
    requires orders != [] && shares <= orders[0].open
    requires forall i :: 0 <= i < |orders| ==> orders[i].open > 0
    ensures Survives(orders, Hit(orders, shares))
  {
    hide SameOrder;
    var after := Hit(orders, shares);
    forall i | 0 <= i < |after| ensures SameOrder(orders[|orders| - |after| + i], after[i]) {
      HitSame(orders, shares, i);
    }
  }

  lemma HitSame(orders: seq<Order>, shares: Quantity, i: nat)
    requires orders != [] && shares <= orders[0].open && i < |Hit(orders, shares)|
    requires forall j :: 0 <= j < |orders| ==> orders[j].open > 0
    ensures |Hit(orders, shares)| <= |orders|
    ensures SameOrder(orders[|orders| - |Hit(orders, shares)| + i], Hit(orders, shares)[i])
  {
  }

  lemma HitWellFormed(book: Book, side: Side, shares: Quantity)
    requires WellFormed(book) && book.On(side) != [] && shares <= book.On(side)[0].open
    ensures WellFormed(book.With(side, Hit(book.On(side), shares)))
  {
    hide Ordered, Live, UniqueIds, Hit, Survives;
    var orders := book.On(side);
    HitKeeps(side, orders, shares);
    assert Survives(orders, Hit(orders, shares)) by { LiveOpen(side, orders); HitSurvives(orders, shares); }
    SurvivesIds(orders, Hit(orders, shares), book.On(Opposite(side)));
  }

  lemma HitFeeds(book: Book, side: Side, shares: Quantity, match_: nat)
    requires WellFormed(book) && book.On(side) != [] && 0 < shares <= book.On(side)[0].open
    ensures var after := book.With(side, Hit(book.On(side), shares)).(nextMatch := match_ + 1);
            && WellFormed(after)
            && Apply(View(book), OrderExecuted(book.On(side)[0].id, shares, match_)) == View(after)
  {
    hide Seen, Shrink, Find, Hit;
    HitIsShrink(book, side, shares);
    HitWellFormed(book, side, shares);
    ViewReduce(book, book.On(side)[0], shares);
  }

  lemma {:induction false} WalkFeeds(book: Book, a: Aggressor, quantity: Quantity)
    requires WellFormed(book)
    ensures var other := Opposite(a.side);
            var t := Walk(a, quantity, book.On(other), book.nextMatch);
            Fold(View(book), t.itch) == View(book.With(other, t.left))
    decreases |book.On(Opposite(a.side))| + quantity
  {
    hide Seen, Apply, Ordered, UniqueIds, DisjointIds;
    var other := Opposite(a.side);
    var opposite := book.On(other);
    if quantity > 0 && Crosses(a, opposite) {
      var shares := Min(quantity, opposite[0].open);
      assert shares > 0;
      HitFeeds(book, other, shares, book.nextMatch);
      WalkFeeds(book.With(other, Hit(opposite, shares)).(nextMatch := book.nextMatch + 1), a, quantity - shares);
    }
  }

  lemma ViewDelete(book: Book, order: Order)
    requires WellFormed(book) && Find(book, order.id) == Some(order)
    ensures Apply(View(book), OrderDelete(order.id)) == View(Take(book, order.side, order.id))
  {
    hide Find, Take;
    ViewFind(book, order.id);
    ViewTake(book, order.side, order.id);
  }

  lemma ViewAdd(book: Book, order: Order)
    ensures Apply(View(book), Added(order)) == View(Put(book, order))
  {
    hide Put;
    ViewPut(book, order);
  }

  lemma TradeAndRestFeeds(book: Book, a: Aggressor, quantity: Quantity, executed: Quantity, mayRest: bool)
    requires WellFormed(book)
    ensures var o := TradeAndRest(book, a, quantity, executed, mayRest);
            Fold(View(book), o.itch) == View(o.book)
  {
    hide Walk, Put, WellFormed, Seen, Apply, Fold;
    var other := Opposite(a.side);
    var t := Walk(a, quantity, book.On(other), book.nextMatch);
    var after := book.With(other, t.left).(nextMatch := t.nextMatch);
    WalkFeeds(book, a, quantity);
    assert View(after) == View(book.With(other, t.left));
    if quantity - t.filled > 0 && mayRest {
      var order := Order(a.id, a.clientId, a.side, a.price, quantity - t.filled, executed + t.filled);
      ViewAdd(after, order);
      FoldAppend(View(book), t.itch, [Added(order)]);
      FoldOne(View(after), Added(order));
    }
  }

  lemma FoldOne(feed: Book, message: Itch)
    ensures Fold(feed, [message]) == Apply(feed, message)
  {
  }

  lemma CancelFeeds(book: Book, req: Request)
    requires WellFormed(book)
    ensures var o := CancelOrder(book, req);
            Fold(View(book), o.itch) == View(o.book)
  {
    hide Take, Position, Seen;
    RestsIff(book, req.orderId);
    var o := CancelOrder(book, req);
    if o.handled {
      var order := Find(book, req.orderId).value;
      FindOnSide(book, req.orderId);
      FoldOne(View(book), o.itch[0]);
      var target := OpenAfter(req.quantity, order.executed);
      if target == 0 {
        ViewDelete(book, order);
      } else {
        ViewReduce(book, order, order.open - target);
      }
    }
  }

  lemma ReenterFeeds(book: Book, req: Request, orig: Order, open: Quantity)
    requires WellFormed(book) && Find(book, orig.id) == Some(orig)
    ensures var o := Reenter(Take(book, orig.side, orig.id), req, orig, open);
            Fold(View(book), o.itch) == View(o.book)
  {
    hide Take, Position, Fold, Seen, WellFormed, Put, Crosses, TradeAndRest;
    var without := Take(book, orig.side, orig.id);
    var a := Aggressor(req.newOrderId, req.clientId, orig.side, Limit, req.price);
    ViewDelete(book, orig);
    ViewFind(book, orig.id);
    if req.timeInForce == Day && !Crosses(a, without.On(Opposite(orig.side))) {
      var order := Order(req.newOrderId, req.clientId, orig.side, req.price, open, orig.executed);
      ViewPut(without, order);
      FoldOne(View(book), OrderReplace(orig.id, req.newOrderId, open, ToItchPrice(req.price)));
    } else {
      var o := TradeAndRest(without, a, open, orig.executed, req.timeInForce == Day);
      TakeKeeps(book, orig.side, orig.id);
      TradeAndRestFeeds(without, a, open, orig.executed, req.timeInForce == Day);
      FoldAppend(View(book), [OrderDelete(orig.id)], o.itch);
      FoldOne(View(book), OrderDelete(orig.id));
    }
  }

  /** A request's ITCH takes the feed from the visible book before it to the
      visible book after it. */
  lemma ProcessFeeds(book: Book, capacity: nat, req: Request)
    requires WellFormed(book)
    ensures var o := Process(book, capacity, req);
            Fold(View(book), o.itch) == View(o.book)
  {
    hide WellFormed, Seen, TradeAndRest, Reenter, Take, Position;
    match req.kind
    case New =>
      var a := Aggressor(req.orderId, req.clientId, req.side, req.orderType, req.price);
      TradeAndRestFeeds(book, a, req.quantity, 0, MayRest(req));
    case Cancel => CancelFeeds(book, req);
    case Replace =>
      RestsIff(book, req.orderId);
      if Find(book, req.orderId).Some? {
        var orig := Find(book, req.orderId).value;
        FindOnSide(book, req.orderId);
        ViewDelete(book, orig);
        FoldOne(View(book), OrderDelete(orig.id));
        ReenterFeeds(book, req, orig, OpenAfter(req.quantity, orig.executed));
      }
  }

  /** Over any run from an empty book, the feed's book is the engine's. */
  lemma {:induction false} RunFeeds(capacity: nat, reqs: seq<Request>)
    ensures var o := ProcessAll(EmptyBook, capacity, reqs);
            Fold(View(EmptyBook), o.itch) == View(o.book)
  {
    hide Seen, Process, WellFormed;
    if reqs != [] {
      var front, last := reqs[..|reqs| - 1], reqs[|reqs| - 1];
      var before := ProcessAll(EmptyBook, capacity, front);
      RunFeeds(capacity, front);
      RunKeeps(capacity, front);
      ProcessFeeds(before.book, capacity, last);
      FoldAppend(View(EmptyBook), before.itch, Process(before.book, capacity, last).itch);
    }
  }
}
