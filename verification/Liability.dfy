/** Share accounting: a ledger of each order chain's total liability, kept from
    the requests alone, always equals what the book holds open plus what it has
    executed; and a fill takes exactly from one side what it gives the other. */
module Liability {
  import opened EngineTypes
  import opened BookSpec
  import opened BookLaws

  type Ledger = map<OrderId, Quantity>

  /** The ledger after a request: NEW and REPLACE set the entering order's
      liability; a CANCEL takes effect only below the current one. No share
      count of the book is consulted. */
  function Charge(ledger: Ledger, book: Book, capacity: nat, req: Request): Ledger {
    match req.kind
    case New =>
      if Rests(book, req.orderId) || (MayRest(req) && capacity <= book.Size()) then ledger
      else ledger[req.orderId := req.quantity]
    case Cancel =>
      if !Owns(book, req) || req.orderId !in ledger || ledger[req.orderId] <= req.quantity then ledger
      else ledger[req.orderId := req.quantity]
    case Replace =>
      if !Owns(book, req) || Rests(book, req.newOrderId) then ledger
      else ledger[req.newOrderId := req.quantity]
  }

  predicate Owns(book: Book, req: Request) {
    Find(book, req.orderId).Some? && Find(book, req.orderId).value.clientId == req.clientId
  }

  function ChargeAll(capacity: nat, reqs: seq<Request>): Ledger {
    if reqs == [] then map[]
    else
      var front := reqs[..|reqs| - 1];
      Charge(ChargeAll(capacity, front), ProcessAll(EmptyBook, capacity, front).book, capacity, reqs[|reqs| - 1])
  }

  ghost predicate BackedSide(orders: seq<Order>, ledger: Ledger) {
    forall i :: 0 <= i < |orders| ==>
      orders[i].id in ledger && orders[i].open + orders[i].executed == ledger[orders[i].id]
  }

  /** Every resting order's open plus executed shares is its chain's liability. */
  ghost predicate Backed(book: Book, ledger: Ledger) {
    BackedSide(book.bids, ledger) && BackedSide(book.asks, ledger)
  }

  ghost predicate Bounded(ledger: Ledger, most: Quantity) {
    forall id :: id in ledger ==> ledger[id] <= most
  }

  //--- trades balance ---

  /** Shares in EXECUTED events with the given liquidity flag. */
  function Traded(events: seq<Event>, flag: char): nat {
    if events == [] then 0
    else (if events[0].kind == Executed && events[0].reason == flag then events[0].quantity else 0)
         + Traded(events[1..], flag)
  }

  lemma {:induction false} TradedAppend(xs: seq<Event>, ys: seq<Event>, flag: char)
    ensures Traded(xs + ys, flag) == Traded(xs, flag) + Traded(ys, flag)
  {
    if xs == [] {
      assert xs + ys == ys;
    } else {
      assert (xs + ys)[1..] == xs[1..] + ys;
      TradedAppend(xs[1..], ys, flag);
    }
  }

  /** What the aggressor is reported to have filled, what resting orders are
      reported to have given, and what left the book are all the same. */
  lemma {:induction false} WalkBalances(a: Aggressor, quantity: Quantity, opposite: seq<Order>, match_: nat)
    ensures var t := Walk(a, quantity, opposite, match_);
            && Traded(t.events, REMOVED_LIQUIDITY) == t.filled
            && Traded(t.events, ADDED_LIQUIDITY) == t.filled
            && Shares(t.left) + t.filled == Shares(opposite)
    decreases |opposite| + quantity
  {
    if quantity > 0 && Crosses(a, opposite) {
      var shares := Min(quantity, opposite[0].open);
      var rest := Hit(opposite, shares);
      WalkBalances(a, quantity - shares, rest, match_ + 1);
      var fill := TradeEvents(a, opposite[0], shares, match_);
      var more := Walk(a, quantity - shares, rest, match_ + 1).events;
      hide Traded, TradeEvents;
      TradedAppend(fill, more, REMOVED_LIQUIDITY);
      TradedAppend(fill, more, ADDED_LIQUIDITY);
      FillTraded(a, opposite[0], shares, match_);
    } else {
      TradedNone();
    }
  }

  lemma TradedNone()
    ensures forall flag :: Traded([], flag) == 0
  {
  }

  lemma FillTraded(a: Aggressor, resting: Order, shares: Quantity, match_: nat)
    ensures var fill := TradeEvents(a, resting, shares, match_);
            Traded(fill, REMOVED_LIQUIDITY) == shares && Traded(fill, ADDED_LIQUIDITY) == shares
  {
    var fill := TradeEvents(a, resting, shares, match_);
    TradedNone();
    TradedAppend([fill[0]], [fill[1]], REMOVED_LIQUIDITY);
    TradedAppend([fill[0]], [fill[1]], ADDED_LIQUIDITY);
    assert fill == [fill[0]] + [fill[1]] && [fill[0]][1..] == [] && [fill[1]][1..] == [];
  }

  //--- the ledger follows ---

  lemma BackedSurvives(before: seq<Order>, after: seq<Order>, ledger: Ledger)
    requires Survives(before, after) && BackedSide(before, ledger)
    ensures BackedSide(after, ledger)
  {
    var k := |before| - |after|;
    assert forall i :: 0 <= i < |after| ==> SameOrder(before[k + i], after[i]);
  }

  lemma BackedPut(book: Book, order: Order, ledger: Ledger)
    requires Backed(book, ledger) && order.id in ledger && order.open + order.executed == ledger[order.id]
    ensures Backed(Put(book, order), ledger)
  {
    hide Back;
    var orders := book.On(order.side);
    InsertElements(orders, Back(orders, order.side, order.price), order);
  }

  lemma BackedTake(book: Book, side: Side, id: OrderId, ledger: Ledger)
    requires Backed(book, ledger)
    ensures Backed(Take(book, side, id), ledger)
  {
    hide Position;
    var orders := book.On(side);
    var p := Position(orders, id);
    if p < |orders| { RemoveElements(orders, p); }
  }

  lemma BackedCharge(book: Book, ledger: Ledger, id: OrderId, total: Quantity)
    requires Backed(book, ledger) && !Rests(book, id)
    ensures Backed(book, ledger[id := total])
  {
    RestsIff(book, id);
  }

  lemma TradeAndRestBacked(book: Book, a: Aggressor, quantity: Quantity, executed: Quantity, mayRest: bool, ledger: Ledger)
    requires WellFormed(book) && Backed(book, ledger)
    requires a.id in ledger && ledger[a.id] == quantity + executed
    ensures Backed(TradeAndRest(book, a, quantity, executed, mayRest).book, ledger)
  {
    hide Walk, Put, BackedSide, Survives, UniqueIds, DisjointIds, Queue;
    var other := Opposite(a.side);
    var t := Walk(a, quantity, book.On(other), book.nextMatch);
    WalkSurvives(a, quantity, book.On(other), book.nextMatch);
    BackedSurvives(book.On(other), t.left, ledger);
    var after := book.With(other, t.left).(nextMatch := t.nextMatch);
    assert Backed(after, ledger);
    if quantity - t.filled > 0 && mayRest {
      BackedPut(after, Order(a.id, a.clientId, a.side, a.price, quantity - t.filled, executed + t.filled), ledger);
    }
  }

  /** A cancel takes effect exactly when it asks for less than the liability. */
  lemma CancelTakesEffect(book: Book, ledger: Ledger, req: Request)
    requires WellFormed(book) && Backed(book, ledger)
    ensures CancelOrder(book, req).handled <==>
              Owns(book, req) && req.orderId in ledger && req.quantity < ledger[req.orderId]
  {
    hide Ordered, UniqueIds, DisjointIds, Position, Take;
    RestsIff(book, req.orderId);
    if Find(book, req.orderId).Some? {
      FindOnSide(book, req.orderId);
    }
  }

  lemma ShrinkBacked(book: Book, order: Order, open: Quantity, ledger: Ledger)
    requires WellFormed(book) && Backed(book, ledger) && Find(book, order.id) == Some(order)
    ensures Backed(Shrink(book, order, open), ledger[order.id := open + order.executed])
  {
    hide Ordered, Live;
    FindOnSide(book, order.id);
    var orders := book.On(order.side);
    var p := Position(orders, order.id);
    if open == 0 {
      TakeKeeps(book, order.side, order.id);
      BackedTake(book, order.side, order.id, ledger);
      TakeGone(book, order);
      BackedCharge(Take(book, order.side, order.id), ledger, order.id, order.executed);
    } else {
      assert forall i :: 0 <= i < |orders| && i != p ==> orders[i].id != order.id;
    }
  }

  lemma TakeGone(book: Book, order: Order)
    requires WellFormed(book) && Find(book, order.id) == Some(order)
    ensures !Rests(Take(book, order.side, order.id), order.id)
  {
    hide WellFormed, Take, Find;
    FindOnSide(book, order.id);
    TakeKeeps(book, order.side, order.id);
    TakeAbsentOther(book, order);
    RestsIff(Take(book, order.side, order.id), order.id);
  }

  lemma TakeAbsentOther(book: Book, order: Order)
    requires Absent(book.On(Opposite(order.side)), order.id)
    ensures Absent(Take(book, order.side, order.id).On(Opposite(order.side)), order.id)
  {
  }

  lemma CancelBacked(book: Book, ledger: Ledger, capacity: nat, req: Request)
    requires WellFormed(book) && Backed(book, ledger) && req.kind == Cancel
    ensures Backed(CancelOrder(book, req).book, Charge(ledger, book, capacity, req))
  {
    hide WellFormed, Backed, Position, Rests, Take;
    CancelTakesEffect(book, ledger, req);
    RestsIff(book, req.orderId);
    if CancelOrder(book, req).handled {
      var order := Find(book, req.orderId).value;
      var target := OpenAfter(req.quantity, order.executed);
      FindOnSide(book, req.orderId);
      ShrinkBacked(book, order, target, ledger);
      if target == 0 {
        TakeGone(book, order);
        BackedCharge(Take(book, order.side, order.id), ledger[order.id := order.executed], order.id, req.quantity);
        assert ledger[order.id := order.executed][order.id := req.quantity] == ledger[order.id := req.quantity];
      }
    }
  }

  lemma ReplaceBacked(book: Book, ledger: Ledger, capacity: nat, req: Request)
    requires WellFormed(book) && Backed(book, ledger) && req.kind == Replace
    ensures Backed(ReplaceOrder(book, req).book, Charge(ledger, book, capacity, req))
  {
    hide WellFormed, Backed, Position, Rests, Take, TradeAndRest, Put, Crosses;
    RestsIff(book, req.orderId);
    if Owns(book, req) && !Rests(book, req.newOrderId) {
      var orig := Find(book, req.orderId).value;
      FindOnSide(book, req.orderId);
      var without := Take(book, orig.side, orig.id);
      var charged := ledger[req.newOrderId := req.quantity];
      BackedCharge(book, ledger, req.newOrderId, req.quantity);
      BackedTake(book, orig.side, orig.id, charged);
      TakeKeeps(book, orig.side, orig.id);
      var open := OpenAfter(req.quantity, orig.executed);
      var a := Aggressor(req.newOrderId, req.clientId, orig.side, Limit, req.price);
      if open > 0 {
        if req.timeInForce == Day && !Crosses(a, without.On(Opposite(orig.side))) {
          BackedPut(without, Order(req.newOrderId, req.clientId, orig.side, req.price, open, orig.executed), charged);
        } else {
          TradeAndRestBacked(without, a, open, orig.executed, req.timeInForce == Day, charged);
        }
      }
    }
  }

  /** Each request charges the ledger exactly as it changes the book. */
  lemma ProcessBacked(book: Book, ledger: Ledger, capacity: nat, req: Request)
    requires WellFormed(book) && Backed(book, ledger)
    ensures Backed(Process(book, capacity, req).book, Charge(ledger, book, capacity, req))
  {
    hide WellFormed, Backed, Rests, TradeAndRest, CancelOrder, ReplaceOrder;
    match req.kind
    case New =>
      if !Rests(book, req.orderId) && !(MayRest(req) && capacity <= book.Size()) {
        var a := Aggressor(req.orderId, req.clientId, req.side, req.orderType, req.price);
        BackedCharge(book, ledger, req.orderId, req.quantity);
        TradeAndRestBacked(book, a, req.quantity, 0, MayRest(req), ledger[req.orderId := req.quantity]);
      }
    case Cancel => CancelBacked(book, ledger, capacity, req);
    case Replace => ReplaceBacked(book, ledger, capacity, req);
  }

  /** After any run, every resting order's open + executed is the last effective
      liability of its chain -- so no share count ever exceeds the largest
      quantity entered, whatever cancels ask for. */
  lemma {:induction false} RunBacked(capacity: nat, reqs: seq<Request>, most: Quantity)
    requires forall i :: 0 <= i < |reqs| && reqs[i].kind != Cancel ==> reqs[i].quantity <= most
    ensures var book := ProcessAll(EmptyBook, capacity, reqs).book;
            Backed(book, ChargeAll(capacity, reqs)) && Bounded(ChargeAll(capacity, reqs), most)
  {
    hide Process, WellFormed;
    if reqs != [] {
      var front, last := reqs[..|reqs| - 1], reqs[|reqs| - 1];
      RunBacked(capacity, front, most);
      RunKeeps(capacity, front);
      var before, ledger := ProcessAll(EmptyBook, capacity, front).book, ChargeAll(capacity, front);
      ProcessBacked(before, ledger, capacity, last);
    }
  }
}
