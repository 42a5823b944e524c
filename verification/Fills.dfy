/** What the trades of one incoming order look like, fill by fill, and where all
    its shares go. */
module Fills {
  import opened EngineTypes
  import opened BookSpec
  import opened BookLaws
  import opened Liability

  /** The i'th fill is against the i'th order of the opposite queue, at that order's
      price and within the aggressor's limit: both sides report the same shares
      under one match number, ITCH reports the resting side, and only the last
      fill can leave some of the resting order. */
  ghost predicate FillAt(t: Trades, a: Aggressor, opposite: seq<Order>, match_: nat, i: nat)
    requires i < |opposite|
  {
    && 2 * i + 1 < |t.events| && i < |t.itch|
    && (var r, shares := opposite[i], t.events[2 * i].quantity;
        && 0 < shares <= r.open && Reaches(a, r.price)
        && t.events[2 * i] == Event(Executed, a.id, 0, match_ + i, a.clientId, r.price, shares, REMOVED_LIQUIDITY, false)
        && t.events[2 * i + 1] == Event(Executed, r.id, 0, match_ + i, r.clientId, r.price, shares, ADDED_LIQUIDITY, false)
        && t.itch[i] == OrderExecuted(r.id, shares, match_ + i)
        && (2 * i + 2 < |t.events| ==> shares == r.open))
  }

  /** A fill of what comes after the front order is one further along. */
  lemma FillLater(t: Trades, more: Trades, a: Aggressor, opposite: seq<Order>, match_: nat, i: nat)
    requires i < |opposite| - 1 && FillAt(more, a, opposite[1..], match_ + 1, i)
    requires |t.events| == 2 + |more.events| && t.events[2..] == more.events
    requires |t.itch| == 1 + |more.itch| && t.itch[1..] == more.itch
    ensures FillAt(t, a, opposite, match_, i + 1)
  {
    assert t.events[2..][2 * i] == t.events[2 * i + 2] && t.events[2..][2 * i + 1] == t.events[2 * i + 3];
    assert t.itch[1..][i] == t.itch[i + 1];
  }

  /** Fills go down the opposite queue from its front, best price and oldest first,
      each at the resting order's price, with consecutive match numbers. */
  lemma {:induction false} WalkFills(a: Aggressor, quantity: Quantity, opposite: seq<Order>, match_: nat)
    requires Live(Opposite(a.side), opposite)
    ensures var t := Walk(a, quantity, opposite, match_);
            && 0 <= t.nextMatch - match_ <= |opposite|
            && |t.events| == 2 * (t.nextMatch - match_) && |t.itch| == t.nextMatch - match_
            && (forall i :: 0 <= i < t.nextMatch - match_ ==> FillAt(t, a, opposite, match_, i))
    decreases |opposite| + quantity
  {
    hide FillAt;
    if quantity > 0 && Crosses(a, opposite) {
      var t := Walk(a, quantity, opposite, match_);
      var shares := Min(quantity, opposite[0].open);
      var more := Walk(a, quantity - shares, Hit(opposite, shares), match_ + 1);
      assert t.events[2..] == more.events && t.itch[1..] == more.itch;
      if shares == opposite[0].open {
        WalkFills(a, quantity - shares, opposite[1..], match_ + 1);
        forall i | 0 < i < t.nextMatch - match_ ensures FillAt(t, a, opposite, match_, i) {
          FillLater(t, more, a, opposite, match_, i - 1);
        }
      }
      FillFirst(a, quantity, opposite, match_);
    }
  }

  lemma FillFirst(a: Aggressor, quantity: Quantity, opposite: seq<Order>, match_: nat)
    requires Live(Opposite(a.side), opposite) && quantity > 0 && Crosses(a, opposite)
    ensures FillAt(Walk(a, quantity, opposite, match_), a, opposite, match_, 0)
  {
    var shares := Min(quantity, opposite[0].open);
    if shares < opposite[0].open {
      assert Walk(a, quantity - shares, Hit(opposite, shares), match_ + 1).events == [];
    }
  }

  //--- where an incoming order's shares go ---

  /** Shares reported canceled. */
  function SharesCanceled(events: seq<Event>): nat {
    if events == [] then 0
    else (if events[0].kind == Canceled then events[0].quantity else 0) + SharesCanceled(events[1..])
  }

  lemma {:induction false} CanceledAppend(xs: seq<Event>, ys: seq<Event>)
    ensures SharesCanceled(xs + ys) == SharesCanceled(xs) + SharesCanceled(ys)
  {
    if xs == [] {
      assert xs + ys == ys;
    } else {
      assert (xs + ys)[1..] == xs[1..] + ys;
      CanceledAppend(xs[1..], ys);
    }
  }

  lemma {:induction false} WalkCancelsNone(a: Aggressor, quantity: Quantity, opposite: seq<Order>, match_: nat)
    ensures SharesCanceled(Walk(a, quantity, opposite, match_).events) == 0
    decreases |opposite| + quantity
  {
    if quantity > 0 && Crosses(a, opposite) {
      var shares := Min(quantity, opposite[0].open);
      var fill := TradeEvents(a, opposite[0], shares, match_);
      var more := Walk(a, quantity - shares, Hit(opposite, shares), match_ + 1).events;
      WalkCancelsNone(a, quantity - shares, Hit(opposite, shares), match_ + 1);
      CanceledAppend(fill, more);
      assert fill[1..][1..] == [];
    }
  }

  function Open(book: Book, id: OrderId): Quantity {
    match Find(book, id)
    case None => 0
    case Some(order) => order.open
  }

  lemma PutOpen(book: Book, order: Order)
    requires !Rests(book, order.id)
    ensures Open(Put(book, order), order.id) == order.open
  {
    hide Back;
    RestsIff(book, order.id);
    var orders := book.On(order.side);
    var p := Back(orders, order.side, order.price);
    InsertElements(orders, p, order);
    PositionIs(InsertAt(orders, p, order), order.id, p);
  }

  lemma NotResting(book: Book, id: OrderId)
    requires !Rests(book, id)
    ensures Open(book, id) == 0
  {
  }

  /** Every share of an incoming order is filled, left open on the book, or canceled
      -- and nothing is both. */
  lemma TradeAndRestAccounts(book: Book, a: Aggressor, quantity: Quantity, executed: Quantity, mayRest: bool)
    requires WellFormed(book) && Uncrossed(book) && !Rests(book, a.id)
    ensures var o := TradeAndRest(book, a, quantity, executed, mayRest);
            Traded(o.events, REMOVED_LIQUIDITY) + Open(o.book, a.id) + SharesCanceled(o.events) == quantity
  {
    hide Walk, Put, WellFormed, Uncrossed, Rests, Absent, Find;
    var other := Opposite(a.side);
    var t := Walk(a, quantity, book.On(other), book.nextMatch);
    var after := book.With(other, t.left).(nextMatch := t.nextMatch);
    RestsIff(book, a.id);
    WalkKeeps(book, a, quantity);
    RestsIff(after, a.id);
    WalkBalances(a, quantity, book.On(other), book.nextMatch);
    WalkCancelsNone(a, quantity, book.On(other), book.nextMatch);
    NotResting(after, a.id);
    var remaining := quantity - t.filled;
    if remaining > 0 {
      if mayRest {
        PutOpen(after, Order(a.id, a.clientId, a.side, a.price, remaining, executed + t.filled));
      } else {
        var gone := [Event(Canceled, a.id, 0, 0, a.clientId, a.price, remaining, IMMEDIATE_OR_CANCEL, false)];
        CanceledAppend(t.events, gone);
        TradedAppend(t.events, gone, REMOVED_LIQUIDITY);
      }
    }
  }

  /** For a NEW: accepted for its whole quantity, of which each share is filled, open
      or canceled; or rejected, or ignored, and then the book is as it was. */
  lemma EnterAccounts(book: Book, capacity: nat, req: Request)
    requires WellFormed(book) && Uncrossed(book)
    ensures var o := Enter(book, capacity, req);
            if o.events == [] || o.events[0].kind != Accepted then o.book == book
            else
              && o.events[0].quantity == req.quantity && o.events[0].orderId == req.orderId
              && Traded(o.events, REMOVED_LIQUIDITY) + Open(o.book, req.orderId) + SharesCanceled(o.events) == req.quantity
  {
    hide WellFormed, Uncrossed, Rests, TradeAndRest, Open;
    if !Rests(book, req.orderId) {
      TradeAndRestAccounts(book, Aggressor(req.orderId, req.clientId, req.side, req.orderType, req.price), req.quantity, 0,
                           MayRest(req));
      var o := Enter(book, capacity, req);
      if o.events[0].kind == Accepted {
        var a := Aggressor(req.orderId, req.clientId, req.side, req.orderType, req.price);
        assert o.events[1..] == TradeAndRest(book, a, req.quantity, 0, MayRest(req)).events;
      }
    }
  }

  //--- time priority ---

  /** No order stands behind id at its price. */
  ghost predicate LastAtPrice(orders: seq<Order>, id: OrderId) {
    forall i, j :: 0 <= i < |orders| && 0 <= j < |orders| && orders[i].id == id && orders[j].price == orders[i].price ==> j <= i
  }

  ghost predicate Newest(book: Book, id: OrderId) {
    LastAtPrice(book.bids, id) && LastAtPrice(book.asks, id)
  }

  lemma AbsentNewest(book: Book, id: OrderId)
    requires !Rests(book, id)
    ensures Newest(book, id)
  {
    RestsIff(book, id);
  }

  lemma PutNewest(book: Book, order: Order)
    requires Ordered(order.side, book.On(order.side)) && !Rests(book, order.id)
    ensures Newest(Put(book, order), order.id)
  {
    RestsIff(book, order.id);
    hide Back;
    var orders := book.On(order.side);
    var p := Back(orders, order.side, order.price);
    InsertElements(orders, p, order);
    forall k | p <= k < |orders| ensures orders[k].price != order.price {
      WorseBehind(orders, order.side, order.price, p, k);
    }
  }

  /** Behind the first order not as good as a price, none is. */
  lemma WorseBehind(orders: seq<Order>, side: Side, price: Price, p: nat, k: nat)
    requires Ordered(side, orders) && p <= k < |orders| && !AsGood(side, orders[p].price, price)
    ensures orders[k].price != price
  {
    if p < k { assert AsGood(side, orders[p].price, orders[k].price); }
  }

  lemma OrderedSide(book: Book, side: Side)
    requires WellFormed(book)
    ensures Ordered(side, book.On(side))
  {
    hide Ordered, Live, UniqueIds, DisjointIds;
  }

  lemma TradeAndRestNewest(book: Book, a: Aggressor, quantity: Quantity, executed: Quantity, mayRest: bool)
    requires WellFormed(book) && Uncrossed(book) && !Rests(book, a.id)
    ensures Newest(TradeAndRest(book, a, quantity, executed, mayRest).book, a.id)
  {
    hide Walk, Put, WellFormed, Uncrossed, Rests, Absent, Ordered, Newest;
    var other := Opposite(a.side);
    var t := Walk(a, quantity, book.On(other), book.nextMatch);
    var after := book.With(other, t.left).(nextMatch := t.nextMatch);
    OrderedSide(book, a.side);
    RestsIff(book, a.id);
    WalkKeeps(book, a, quantity);
    RestsIff(after, a.id);
    AbsentNewest(after, a.id);
    if quantity - t.filled > 0 && mayRest {
      PutNewest(after, Order(a.id, a.clientId, a.side, a.price, quantity - t.filled, executed + t.filled));
    }
  }

  /** An order entering the book, new or as a replacement, stands behind every order
      already resting at its price. */
  lemma EntersAtBack(book: Book, capacity: nat, req: Request, id: OrderId)
    requires WellFormed(book) && Uncrossed(book) && req.kind != Cancel && !Rests(book, id)
    requires id == if req.kind == New then req.orderId else req.newOrderId
    ensures Newest(Process(book, capacity, req).book, id)
  {
    AbsentNewest(book, id);
    if req.kind == New {
      TradeAndRestNewest(book, Aggressor(id, req.clientId, req.side, req.orderType, req.price), req.quantity, 0, MayRest(req));
    } else if Find(book, req.orderId).Some? {
      ReplacesAtBack(book, req, Find(book, req.orderId).value);
    }
  }

  lemma ReplacesAtBack(book: Book, req: Request, orig: Order)
    requires WellFormed(book) && Uncrossed(book) && !Rests(book, req.newOrderId) && Find(book, req.orderId) == Some(orig)
    ensures Newest(ReplaceOrder(book, req).book, req.newOrderId)
  {
    FindOnSide(book, req.orderId);
    var without := Take(book, orig.side, orig.id);
    TakeKeeps(book, orig.side, orig.id);
    OrderedSide(without, orig.side);
    hide WellFormed, Uncrossed, Take, TradeAndRest, Put, Crosses, Newest, Ordered, Rests;
    RestsIff(book, req.newOrderId);
    TakeAbsent(book, orig.side, orig.id, req.newOrderId);
    RestsIff(without, req.newOrderId);
    AbsentNewest(book, req.newOrderId);
    AbsentNewest(without, req.newOrderId);
    var open := OpenAfter(req.quantity, orig.executed);
    var a := Aggressor(req.newOrderId, req.clientId, orig.side, Limit, req.price);
    PutNewest(without, Order(req.newOrderId, req.clientId, orig.side, req.price, open, orig.executed));
    TradeAndRestNewest(without, a, open, orig.executed, req.timeInForce == Day);
  }

  /** A cancel that leaves shares keeps the order's place: its shares are the only
      thing on the book that changes. */
  lemma CancelKeepsPlace(book: Book, req: Request, k: nat)
    requires WellFormed(book) && Find(book, req.orderId).Some?
    requires var order := Find(book, req.orderId).value; k < |book.On(order.side)|
    ensures var order := Find(book, req.orderId).value;
            var after := CancelOrder(book, req).book;
            Rests(after, req.orderId) ==>
              && after.On(Opposite(order.side)) == book.On(Opposite(order.side))
              && |after.On(order.side)| == |book.On(order.side)|
              && after.On(order.side)[k] == book.On(order.side)[k].(open := after.On(order.side)[k].open)
              && (book.On(order.side)[k].id != req.orderId ==> after.On(order.side)[k] == book.On(order.side)[k])
  {
    RestsIff(book, req.orderId);
    FindOnSide(book, req.orderId);
    var order := Find(book, req.orderId).value;
    TakeGone(book, order);
  }

  //--- answers ---

  ghost predicate Unmarked(events: seq<Event>) {
    forall i :: 0 <= i < |events| ==> !events[i].answersRequest
  }

  lemma {:induction false} WalkUnmarked(a: Aggressor, quantity: Quantity, opposite: seq<Order>, match_: nat)
    ensures Unmarked(Walk(a, quantity, opposite, match_).events)
    decreases |opposite| + quantity
  {
    if quantity > 0 && Crosses(a, opposite) {
      var shares := Min(quantity, opposite[0].open);
      WalkUnmarked(a, quantity - shares, Hit(opposite, shares), match_ + 1);
    }
  }

  lemma TradeAndRestUnmarked(book: Book, a: Aggressor, quantity: Quantity, executed: Quantity, mayRest: bool)
    ensures Unmarked(TradeAndRest(book, a, quantity, executed, mayRest).events)
  {
    hide Walk, Put;
    WalkUnmarked(a, quantity, book.On(Opposite(a.side)), book.nextMatch);
  }

  /** Of all the events a request causes, the first and no other is its answer. */
  lemma OneAnswer(book: Book, capacity: nat, req: Request, i: nat)
    requires i < |Process(book, capacity, req).events|
    ensures Process(book, capacity, req).events[i].answersRequest <==> i == 0
  {
    hide TradeAndRest, Put, Take, Shrink, Rests, Crosses;
    match req.kind {
      case New =>
        var a := Aggressor(req.orderId, req.clientId, req.side, req.orderType, req.price);
        TradeAndRestUnmarked(book, a, req.quantity, 0, MayRest(req));
      case Cancel =>
      case Replace =>
        if Find(book, req.orderId).Some? {
          var orig := Find(book, req.orderId).value;
          var a := Aggressor(req.newOrderId, req.clientId, orig.side, Limit, req.price);
          TradeAndRestUnmarked(Take(book, orig.side, orig.id), a, OpenAfter(req.quantity, orig.executed), orig.executed,
                               req.timeInForce == Day);
        }
    }
  }
}
