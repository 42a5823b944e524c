/** The reference book: each side is one sequence of resting orders in priority
    order (best price first, then arrival), and an incoming order walks the
    opposite side greedily from its front. */
module BookSpec {
  import opened EngineTypes

  datatype Order = Order(
    id: OrderId, clientId: ClientId, side: Side, price: Price, open: Quantity, executed: Quantity)

  datatype Book = Book(bids: seq<Order>, asks: seq<Order>, nextMatch: nat) {
    function On(side: Side): seq<Order> {
      if side == Bid then bids else asks
    }

    function With(side: Side, orders: seq<Order>): Book {
      if side == Bid then this.(bids := orders) else this.(asks := orders)
    }

    function Size(): nat {
      |bids| + |asks|
    }
  }

  const EmptyBook: Book := Book([], [], 1)

  /** What one request does: the book after it, its events, the ITCH it
      publishes, and whether it was acted on at all. */
  datatype Outcome = Outcome(book: Book, events: seq<Event>, itch: seq<Itch>, handled: bool)

  //--- positions in a priority sequence ---

  /** Where id rests in orders, or |orders| when it does not. */
  function Position(orders: seq<Order>, id: OrderId): (p: nat)
    ensures p <= |orders|
    ensures p < |orders| ==> orders[p].id == id
    ensures forall i :: 0 <= i < p ==> orders[i].id != id
  {
    if orders == [] || orders[0].id == id then 0 else 1 + Position(orders[1..], id)
  }

  /** The place behind every order priced at least as well as price. */
  function Back(orders: seq<Order>, side: Side, price: Price): (p: nat)
    ensures p <= |orders|
    ensures p < |orders| ==> !AsGood(side, orders[p].price, price)
    ensures forall i :: 0 <= i < p ==> AsGood(side, orders[i].price, price)
  {
    if orders == [] || !AsGood(side, orders[0].price, price) then 0
    else 1 + Back(orders[1..], side, price)
  }

  predicate Rests(book: Book, id: OrderId) {
    Position(book.bids, id) < |book.bids| || Position(book.asks, id) < |book.asks|
  }

  function Find(book: Book, id: OrderId): Option<Order> {
    var b := Position(book.bids, id);
    var a := Position(book.asks, id);
    if b < |book.bids| then Some(book.bids[b])
    else if a < |book.asks| then Some(book.asks[a])
    else None
  }

  function RemoveAt<T>(s: seq<T>, i: nat): seq<T>
    requires i < |s|
  {
    s[..i] + s[i + 1..]
  }

  function InsertAt<T>(s: seq<T>, i: nat, x: T): seq<T>
    requires i <= |s|
  {
    s[..i] + [x] + s[i..]
  }

  /** The book without order id on side (unchanged when it does not rest there). */
  function Take(book: Book, side: Side, id: OrderId): Book {
    var orders := book.On(side);
    var p := Position(orders, id);
    if p < |orders| then book.With(side, RemoveAt(orders, p)) else book
  }

  /** The book with order at the back of its price. */
  function Put(book: Book, order: Order): Book {
    var orders := book.On(order.side);
    book.With(order.side, InsertAt(orders, Back(orders, order.side, order.price), order))
  }

  //--- matching ---

  datatype Aggressor = Aggressor(
    id: OrderId, clientId: ClientId, side: Side, orderType: OrderType, price: Price)

  /** Whether the aggressor's price reaches a resting order at price. */
  predicate Reaches(a: Aggressor, price: Price) {
    a.orderType == Market || AsGood(a.side, a.price, price)
  }

  predicate Crosses(a: Aggressor, opposite: seq<Order>) {
    opposite != [] && Reaches(a, opposite[0].price)
  }

  function Fill(order: Order, shares: Quantity): Order
    requires shares <= order.open
  {
    order.(open := order.open - shares, executed := order.executed + shares)
  }

  function TradeEvents(a: Aggressor, resting: Order, shares: Quantity, match_: nat): seq<Event> {
    [Event(Executed, a.id, 0, match_, a.clientId, resting.price, shares, REMOVED_LIQUIDITY, false),
     Event(Executed, resting.id, 0, match_, resting.clientId, resting.price, shares, ADDED_LIQUIDITY, false)]
  }

  /** What is left of the opposite side after a walk, how much was filled, the
      next match number, and the trades' output. */
  datatype Trades = Trades(
    left: seq<Order>, filled: Quantity, nextMatch: nat, events: seq<Event>, itch: seq<Itch>)

  /** The greedy walk: fill from the front until done or no longer crossing. */
  function Walk(a: Aggressor, quantity: Quantity, opposite: seq<Order>, match_: nat): (t: Trades)
    ensures t.filled <= quantity
    decreases |opposite| + quantity
  {
    if quantity == 0 || !Crosses(a, opposite) then Trades(opposite, 0, match_, [], [])
    else
      var resting := opposite[0];
      var shares := Min(quantity, resting.open);
      var rest := if shares == resting.open then opposite[1..] else [Fill(resting, shares)] + opposite[1..];
      var more := Walk(a, quantity - shares, rest, match_ + 1);
      more.(filled := shares + more.filled,
            events := TradeEvents(a, resting, shares, match_) + more.events,
            itch := [OrderExecuted(resting.id, shares, match_)] + more.itch)
  }

  //--- request handlers ---

  /** Shares left once a chain's total liability is set to total. */
  function OpenAfter(total: Quantity, executed: Quantity): Quantity {
    if total > executed then total - executed else 0
  }

  predicate MayRest(req: Request) {
    req.orderType == Limit && req.timeInForce == Day
  }

  function Added(order: Order): Itch {
    AddOrder(order.id, ToOuchSide(order.side), order.open, ToItchPrice(order.price))
  }

  /** Trade as the aggressor, then rest what is left (when mayRest) or cancel it. */
  function TradeAndRest(book: Book, a: Aggressor, quantity: Quantity, executed: Quantity, mayRest: bool): Outcome {
    var other := Opposite(a.side);
    var t := Walk(a, quantity, book.On(other), book.nextMatch);
    var after := book.With(other, t.left).(nextMatch := t.nextMatch);
    var remaining := quantity - t.filled;
    if remaining == 0 then Outcome(after, t.events, t.itch, true)
    else if mayRest then
      var order := Order(a.id, a.clientId, a.side, a.price, remaining, executed + t.filled);
      Outcome(Put(after, order), t.events, t.itch + [Added(order)], true)
    else
      Outcome(after,
              t.events + [Event(Canceled, a.id, 0, 0, a.clientId, a.price, remaining, IMMEDIATE_OR_CANCEL, false)],
              t.itch, true)
  }

  function Ignored(book: Book): Outcome {
    Outcome(book, [], [], false)
  }

  function Enter(book: Book, capacity: nat, req: Request): Outcome {
    if Rests(book, req.orderId) then Ignored(book)
    else if MayRest(req) && capacity <= book.Size() then
      Outcome(book, [Event(Rejected, req.orderId, 0, 0, req.clientId, 0, 0, BOOK_FULL, false)], [], true)
    else
      var a := Aggressor(req.orderId, req.clientId, req.side, req.orderType, req.price);
      var o := TradeAndRest(book, a, req.quantity, 0, MayRest(req));
      o.(events := [Event(Accepted, req.orderId, 0, 0, req.clientId, req.price, req.quantity, NO_REASON, false)] + o.events)
  }

  /** Shrink order to open shares where it stands; zero takes it off the book. */
  function Shrink(book: Book, order: Order, open: Quantity): Book {
    var orders := book.On(order.side);
    var p := Position(orders, order.id);
    if open == 0 then Take(book, order.side, order.id)
    else if p < |orders| then book.With(order.side, orders[p := order.(open := open)])
    else book
  }

  function CancelOrder(book: Book, req: Request): Outcome {
    match Find(book, req.orderId)
    case None => Ignored(book)
    case Some(order) =>
      var target := OpenAfter(req.quantity, order.executed);
      if order.clientId != req.clientId || target >= order.open then Ignored(book)
      else
        var cut := order.open - target;
        Outcome(Shrink(book, order, target),
                [Event(Canceled, order.id, 0, 0, order.clientId, order.price, cut, USER_REQUESTED, false)],
                [if target == 0 then OrderDelete(order.id) else OrderCancel(order.id, cut)],
                true)
  }

  /** The replacement's half of a replace, on the book without the original. A
      replacement that rests without trading publishes one Order Replace. */
  function Reenter(without: Book, req: Request, orig: Order, open: Quantity): Outcome {
    var replaced := Event(Replaced, req.newOrderId, orig.id, 0, req.clientId, req.price, open, NO_REASON, false);
    var a := Aggressor(req.newOrderId, req.clientId, orig.side, Limit, req.price);
    if req.timeInForce == Day && !Crosses(a, without.On(Opposite(orig.side))) then
      var order := Order(req.newOrderId, req.clientId, orig.side, req.price, open, orig.executed);
      Outcome(Put(without, order), [replaced],
              [OrderReplace(orig.id, req.newOrderId, open, ToItchPrice(req.price))], true)
    else
      var o := TradeAndRest(without, a, open, orig.executed, req.timeInForce == Day);
      Outcome(o.book, [replaced] + o.events, [OrderDelete(orig.id)] + o.itch, true)
  }

  function ReplaceOrder(book: Book, req: Request): Outcome {
    match Find(book, req.orderId)
    case None => Ignored(book)
    case Some(orig) =>
      if orig.clientId != req.clientId || Rests(book, req.newOrderId) then Ignored(book)
      else
        var open := OpenAfter(req.quantity, orig.executed);
        var without := Take(book, orig.side, orig.id);
        if open == 0 then
          Outcome(without,
                  [Event(Canceled, orig.id, 0, 0, orig.clientId, orig.price, orig.open, USER_REQUESTED, false)],
                  [OrderDelete(orig.id)], true)
        else Reenter(without, req, orig, open)
  }

  /** Exactly the first event of a request is flagged as its answer. */
  function MarkAnswer(events: seq<Event>): seq<Event> {
    if events == [] then [] else [events[0].(answersRequest := true)] + events[1..]
  }

  function Process(book: Book, capacity: nat, req: Request): Outcome {
    var o :=
      match req.kind
      case New => Enter(book, capacity, req)
      case Cancel => CancelOrder(book, req)
      case Replace => ReplaceOrder(book, req);
    o.(events := MarkAnswer(o.events))
  }

  /** A whole run from book: the book at the end and everything it emitted. */
  function ProcessAll(book: Book, capacity: nat, reqs: seq<Request>): Outcome {
    if reqs == [] then Outcome(book, [], [], true)
    else
      var before := ProcessAll(book, capacity, reqs[..|reqs| - 1]);
      var last := Process(before.book, capacity, reqs[|reqs| - 1]);
      Outcome(last.book, before.events + last.events, before.itch + last.itch, true)
  }
}
