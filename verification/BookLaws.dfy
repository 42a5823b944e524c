/** What every request keeps and every run guarantees, proved on the reference
    book: price-time order, one resting order per id, an uncrossed market,
    exact allocation of fills, and conservation of each chain's liability. */
module BookLaws {
  import opened EngineTypes
  import opened BookSpec

  //--- well-formed books ---

  /** Best price first. */
  ghost predicate Ordered(side: Side, orders: seq<Order>) {
    forall i, j :: 0 <= i < j < |orders| ==> AsGood(side, orders[i].price, orders[j].price)
  }

  /** Only this side's orders, each with shares open. */
  ghost predicate Live(side: Side, orders: seq<Order>) {
    forall i :: 0 <= i < |orders| ==> orders[i].side == side && orders[i].open > 0
  }

  ghost predicate Queue(side: Side, orders: seq<Order>) {
    Ordered(side, orders) && Live(side, orders)
  }

  ghost predicate UniqueIds(orders: seq<Order>) {
    forall i, j :: 0 <= i < j < |orders| ==> orders[i].id != orders[j].id
  }

  ghost predicate DisjointIds(xs: seq<Order>, ys: seq<Order>) {
    forall i, j :: 0 <= i < |xs| && 0 <= j < |ys| ==> xs[i].id != ys[j].id
  }

  ghost predicate WellFormed(book: Book) {
    && Queue(Bid, book.bids) && Queue(Ask, book.asks)
    && UniqueIds(book.bids) && UniqueIds(book.asks)
    && DisjointIds(book.bids, book.asks)
  }

  /** The best bid is strictly below the best ask. */
  ghost predicate Uncrossed(book: Book) {
    book.bids != [] && book.asks != [] ==> book.bids[0].price < book.asks[0].price
  }

  /** id rests nowhere in orders. */
  ghost predicate Absent(orders: seq<Order>, id: OrderId) {
    forall i :: 0 <= i < |orders| ==> orders[i].id != id
  }

  lemma BackIs(orders: seq<Order>, side: Side, price: Price, p: nat)
    requires p <= |orders|
    requires forall i :: 0 <= i < p ==> AsGood(side, orders[i].price, price)
    requires p < |orders| ==> !AsGood(side, orders[p].price, price)
    ensures Back(orders, side, price) == p
  {
  }

  lemma RemoveElements<T>(s: seq<T>, k: nat)
    requires k < |s|
    ensures |RemoveAt(s, k)| == |s| - 1
    ensures forall i :: 0 <= i < |s| - 1 ==> RemoveAt(s, k)[i] == s[if i < k then i else i + 1]
  {
  }

  lemma PositionIs(orders: seq<Order>, id: OrderId, p: nat)
    requires p <= |orders| && (forall i :: 0 <= i < p ==> orders[i].id != id) && (p < |orders| ==> orders[p].id == id)
    ensures Position(orders, id) == p
  {
  }

  lemma RestsIff(book: Book, id: OrderId)
    ensures !Rests(book, id) <==> Absent(book.bids, id) && Absent(book.asks, id)
    ensures Rests(book, id) <==> Find(book, id).Some?
  {
  }

  //--- the two ways a side changes without trading ---

  lemma RemoveKeeps(side: Side, orders: seq<Order>, p: nat)
    requires Queue(side, orders) && UniqueIds(orders) && p < |orders|
    ensures Queue(side, RemoveAt(orders, p)) && UniqueIds(RemoveAt(orders, p))
    ensures Absent(RemoveAt(orders, p), orders[p].id)
  {
    var r := RemoveAt(orders, p);
    assert forall i :: 0 <= i < |r| ==> r[i] == orders[if i < p then i else i + 1];
  }

  lemma InsertElements<T>(s: seq<T>, p: nat, x: T)
    requires p <= |s|
    ensures |InsertAt(s, p, x)| == |s| + 1
    ensures forall i :: 0 <= i <= |s| ==> InsertAt(s, p, x)[i] == if i < p then s[i] else if i == p then x else s[i - 1]
  {
  }

  lemma InsertOrdered(orders: seq<Order>, side: Side, order: Order)
    requires Ordered(side, orders)
    ensures Ordered(side, InsertAt(orders, Back(orders, side, order.price), order))
  {
    hide Back;
    var p := Back(orders, side, order.price);
    InsertElements(orders, p, order);
    assert forall i :: p <= i < |orders| ==> AsGood(side, orders[p].price, orders[i].price);
  }

  lemma InsertKeeps(orders: seq<Order>, order: Order)
    requires Queue(order.side, orders) && UniqueIds(orders)
    requires order.open > 0 && Absent(orders, order.id)
    ensures var r := InsertAt(orders, Back(orders, order.side, order.price), order);
            Queue(order.side, r) && UniqueIds(r)
  {
    hide Ordered, Back;
    InsertOrdered(orders, order.side, order);
    InsertElements(orders, Back(orders, order.side, order.price), order);
  }

  lemma TakeKeeps(book: Book, side: Side, id: OrderId)
    requires WellFormed(book)
    ensures var after := Take(book, side, id);
            && WellFormed(after) && Absent(after.On(side), id)
            && (Uncrossed(book) ==> Uncrossed(after))
  {
    hide Position, RemoveAt, Live, UniqueIds, DisjointIds;
    var orders := book.On(side);
    var p := Position(orders, id);
    if p < |orders| {
      RemoveKeeps(side, orders, p);
      RemoveElements(orders, p);
      RemoveDisjoint(book, side, p);
      if p == 0 && |orders| > 1 { assert AsGood(side, orders[0].price, orders[1].price); }
    }
  }

  lemma RemoveDisjoint(book: Book, side: Side, p: nat)
    requires DisjointIds(book.bids, book.asks) && p < |book.On(side)|
    ensures var after := book.With(side, RemoveAt(book.On(side), p)); DisjointIds(after.bids, after.asks)
  {
    hide RemoveAt;
    RemoveElements(book.On(side), p);
  }

  lemma InsertDisjoint(xs: seq<Order>, p: nat, order: Order, ys: seq<Order>)
    requires p <= |xs| && DisjointIds(xs, ys) && Absent(ys, order.id)
    ensures DisjointIds(InsertAt(xs, p, order), ys) && DisjointIds(ys, InsertAt(xs, p, order))
  {
    InsertElements(xs, p, order);
  }

  lemma PutKeeps(book: Book, order: Order)
    requires WellFormed(book) && order.open > 0
    requires Absent(book.bids, order.id) && Absent(book.asks, order.id)
    ensures WellFormed(Put(book, order))
  {
    var orders := book.On(order.side);
    var others := book.On(Opposite(order.side));
    InsertKeeps(orders, order);
    InsertDisjoint(orders, Back(orders, order.side, order.price), order, others);
  }

  /** Resting an order that does not cross leaves the market uncrossed. */
  lemma PutUncrossed(book: Book, order: Order, a: Aggressor)
    requires WellFormed(book) && Uncrossed(book)
    requires a.side == order.side && a.price == order.price && a.orderType == Limit
    requires !Crosses(a, book.On(Opposite(order.side)))
    ensures Uncrossed(Put(book, order))
  {
    var orders := book.On(order.side);
    var p := Back(orders, order.side, order.price);
    var r := InsertAt(orders, p, order);
    assert r[0] == if p == 0 then order else orders[0];
  }

  //--- matching: exact allocation ---

  function Shares(orders: seq<Order>): nat {
    if orders == [] then 0 else orders[0].open + Shares(orders[1..])
  }

  /** Shares resting at prices the aggressor reaches, wherever they stand. */
  function Reachable(a: Aggressor, orders: seq<Order>): nat {
    if orders == [] then 0
    else (if Reaches(a, orders[0].price) then orders[0].open else 0) + Reachable(a, orders[1..])
  }

  /** orders with n shares taken off the front, oldest and best first. */
  function DropShares(orders: seq<Order>, n: nat): seq<Order> {
    if n == 0 || orders == [] then orders
    else if n >= orders[0].open then DropShares(orders[1..], n - orders[0].open)
    else [Fill(orders[0], n)] + orders[1..]
  }

  /** Nothing behind an order out of reach is reachable. */
  lemma {:induction false} OutOfReach(a: Aggressor, orders: seq<Order>)
    requires Queue(Opposite(a.side), orders) && !Crosses(a, orders)
    ensures Reachable(a, orders) == 0
  {
    if orders != [] {
      assert |orders| > 1 ==> AsGood(Opposite(a.side), orders[0].price, orders[1].price);
      OutOfReach(a, orders[1..]);
    }
  }

  /** One step of the walk: what the opposite side becomes when shares trade. */
  function Hit(opposite: seq<Order>, shares: Quantity): seq<Order>
    requires opposite != [] && shares <= opposite[0].open
  {
    if shares == opposite[0].open then opposite[1..] else [Fill(opposite[0], shares)] + opposite[1..]
  }

  lemma HitKeeps(side: Side, opposite: seq<Order>, shares: Quantity)
    requires Queue(side, opposite) && opposite != [] && shares <= opposite[0].open
    ensures Queue(side, Hit(opposite, shares))
  {
  }

  /** Price-time priority, exactly: the walk fills the smaller of the quantity
      and everything within reach, and takes it off the front of the queue. */
  lemma {:induction false} WalkAllocates(a: Aggressor, quantity: Quantity, opposite: seq<Order>, match_: nat)
    requires Queue(Opposite(a.side), opposite)
    ensures var t := Walk(a, quantity, opposite, match_);
            && t.filled == Min(quantity, Reachable(a, opposite))
            && t.left == DropShares(opposite, t.filled)
            && Queue(Opposite(a.side), t.left)
            && (t.filled < quantity ==> !Crosses(a, t.left))
    decreases |opposite| + quantity
  {
    if quantity == 0 {
    } else if !Crosses(a, opposite) {
      OutOfReach(a, opposite);
    } else {
      var shares := Min(quantity, opposite[0].open);
      HitKeeps(Opposite(a.side), opposite, shares);
      var rest := Hit(opposite, shares);
      WalkAllocates(a, quantity - shares, rest, match_ + 1);
      if shares < opposite[0].open {
        assert Walk(a, quantity - shares, rest, match_ + 1).filled == 0;
      }
    }
  }

  /** Taking shares off the front conserves them, and only touches the front. */
  lemma {:induction false} DropSharesConserves(orders: seq<Order>, n: nat)
    requires n <= Shares(orders)
    ensures Shares(DropShares(orders, n)) == Shares(orders) - n
  {
    if n > 0 && orders != [] && n >= orders[0].open {
      DropSharesConserves(orders[1..], n - orders[0].open);
    }
  }

  lemma {:induction false} ReachableAtMostShares(a: Aggressor, orders: seq<Order>)
    ensures Reachable(a, orders) <= Shares(orders)
  {
    if orders != [] { ReachableAtMostShares(a, orders[1..]); }
  }

  /** What survives is the tail of the queue: all of it untouched but the first. */
  lemma {:induction false} DropSharesShape(orders: seq<Order>, n: nat) returns (k: nat)
    requires forall i :: 0 <= i < |orders| ==> orders[i].open > 0
    ensures var left := DropShares(orders, n);
            && k + |left| == |orders|
            && (forall i :: 0 < i < |left| ==> left[i] == orders[k + i])
            && (left != [] ==> SameOrder(orders[k], left[0]))
  {
    if n == 0 || orders == [] || n < orders[0].open {
      k := 0;
    } else {
      k := DropSharesShape(orders[1..], n - orders[0].open);
      k := k + 1;
    }
  }

  /** The same resting order, possibly after some fills. */
  ghost predicate SameOrder(before: Order, after: Order) {
    && after == before.(open := after.open, executed := after.executed)
    && after.open + after.executed == before.open + before.executed
    && 0 < after.open <= before.open
  }

  /** Fills only ever shorten a queue from the front; identities are kept. */
  ghost predicate Survives(before: seq<Order>, after: seq<Order>) {
    && |after| <= |before|
    && (forall i :: 0 <= i < |after| ==> SameOrder(before[|before| - |after| + i], after[i]))
  }

  lemma WalkSurvives(a: Aggressor, quantity: Quantity, opposite: seq<Order>, match_: nat)
    requires Queue(Opposite(a.side), opposite)
    ensures Survives(opposite, Walk(a, quantity, opposite, match_).left)
  {
    hide Walk, DropShares, Reachable, Ordered, SameOrder;
    WalkAllocates(a, quantity, opposite, match_);
    var left := Walk(a, quantity, opposite, match_).left;
    var k := DropSharesShape(opposite, Walk(a, quantity, opposite, match_).filled);
    forall i | 0 <= i < |left| ensures SameOrder(opposite[|opposite| - |left| + i], left[i]) {
      if i > 0 { Unfilled(opposite[k + i]); }
    }
  }

  lemma Unfilled(order: Order)
    requires order.open > 0
    ensures SameOrder(order, order)
  {
  }

  lemma SurvivesIds(before: seq<Order>, after: seq<Order>, others: seq<Order>)
    requires Survives(before, after) && UniqueIds(before) && DisjointIds(before, others)
    ensures UniqueIds(after) && DisjointIds(after, others) && DisjointIds(others, after)
    ensures forall id :: Absent(before, id) ==> Absent(after, id)
  {
    var k := |before| - |after|;
    assert forall i :: 0 <= i < |after| ==> after[i].id == before[k + i].id;
  }

  lemma SurvivesUncrossed(book: Book, side: Side, after: seq<Order>)
    requires WellFormed(book) && Uncrossed(book) && Survives(book.On(side), after)
    ensures Uncrossed(book.With(side, after))
  {
    if after != [] {
      assert SameOrder(book.On(side)[|book.On(side)| - |after|], after[0]);
    }
  }

  /** The opposite side after the aggressor's walk leaves a good book. */
  lemma WalkKeeps(book: Book, a: Aggressor, quantity: Quantity)
    requires WellFormed(book) && Uncrossed(book)
    requires Absent(book.bids, a.id) && Absent(book.asks, a.id)
    ensures var other := Opposite(a.side);
            var t := Walk(a, quantity, book.On(other), book.nextMatch);
            var after := book.With(other, t.left);
            && WellFormed(after) && Uncrossed(after)
            && Absent(after.bids, a.id) && Absent(after.asks, a.id)
            && after.Size() <= book.Size()
  {
    hide Walk, DropShares, Reachable, Ordered, Live, SameOrder, UniqueIds, Uncrossed;
    var other := Opposite(a.side);
    var opposite := book.On(other);
    var left := Walk(a, quantity, opposite, book.nextMatch).left;
    WalkAllocates(a, quantity, opposite, book.nextMatch);
    WalkSurvives(a, quantity, opposite, book.nextMatch);
    SurvivesIds(opposite, left, book.On(a.side));
    SurvivesUncrossed(book, other, left);
  }

  lemma TradeAndRestKeeps(book: Book, a: Aggressor, quantity: Quantity, executed: Quantity, mayRest: bool)
    requires WellFormed(book) && Uncrossed(book)
    requires Absent(book.bids, a.id) && Absent(book.asks, a.id)
    requires mayRest ==> a.orderType == Limit
    ensures var after := TradeAndRest(book, a, quantity, executed, mayRest).book;
            && WellFormed(after) && Uncrossed(after)
            && after.Size() <= book.Size() + if mayRest then 1 else 0
  {
    hide Queue, UniqueIds, DisjointIds, Absent, Walk;
    var other := Opposite(a.side);
    var t := Walk(a, quantity, book.On(other), book.nextMatch);
    var after := book.With(other, t.left).(nextMatch := t.nextMatch);
    WalkKeeps(book, a, quantity);
    WalkAllocates(a, quantity, book.On(other), book.nextMatch);
    var remaining := quantity - t.filled;
    if remaining > 0 && mayRest {
      var order := Order(a.id, a.clientId, a.side, a.price, remaining, executed + t.filled);
      PutKeeps(after, order);
      PutUncrossed(after, order, a);
      PutSize(after, order);
    }
  }

  lemma PutSize(book: Book, order: Order)
    ensures Put(book, order).Size() == book.Size() + 1
  {
  }

  lemma LiveSide(book: Book, side: Side)
    requires WellFormed(book)
    ensures Live(side, book.On(side))
  {
    hide Ordered, UniqueIds, DisjointIds;
  }

  lemma RestsAfterPut(book: Book, order: Order, id: OrderId)
    ensures Rests(Put(book, order), id) <==> Rests(book, id) || id == order.id
  {
    hide Back, Position;
    var orders := book.On(order.side);
    var p := Back(orders, order.side, order.price);
    var after := InsertAt(orders, p, order);
    InsertElements(orders, p, order);
    var k := Position(orders, id);
    if k < |orders| {
      assert after[if k < p then k else k + 1].id == id;
    }
    assert after[p].id == order.id;
  }

  lemma FindOnSide(book: Book, id: OrderId)
    requires WellFormed(book) && Find(book, id).Some?
    ensures var o := Find(book, id).value;
            var orders := book.On(o.side);
            && o.id == id && Position(orders, id) < |orders| && orders[Position(orders, id)] == o
            && Absent(book.On(Opposite(o.side)), id)
  {
  }

  lemma ShrinkKeeps(book: Book, order: Order, open: Quantity)
    requires WellFormed(book) && Uncrossed(book) && Find(book, order.id) == Some(order) && open < order.open
    ensures var after := Shrink(book, order, open);
            WellFormed(after) && Uncrossed(after) && after.Size() <= book.Size()
  {
    FindOnSide(book, order.id);
    if open == 0 {
      TakeKeeps(book, order.side, order.id);
    } else {
      var orders := book.On(order.side);
      ResizeKeeps(order.side, orders, Position(orders, order.id), open, book.On(Opposite(order.side)));
    }
  }

  lemma ResizeKeeps(side: Side, orders: seq<Order>, p: nat, open: Quantity, others: seq<Order>)
    requires Queue(side, orders) && UniqueIds(orders) && DisjointIds(orders, others)
    requires p < |orders| && open > 0
    ensures var after := orders[p := orders[p].(open := open)];
            Queue(side, after) && UniqueIds(after) && DisjointIds(after, others) && DisjointIds(others, after)
  {
    var after := orders[p := orders[p].(open := open)];
    assert forall i :: 0 <= i < |orders| ==> after[i] == orders[i].(open := after[i].open);
  }

  lemma EnterKeeps(book: Book, capacity: nat, req: Request)
    requires WellFormed(book) && Uncrossed(book) && book.Size() <= capacity
    ensures var after := Enter(book, capacity, req).book;
            WellFormed(after) && Uncrossed(after) && after.Size() <= capacity
  {
    RestsIff(book, req.orderId);
    if !Rests(book, req.orderId) && !(MayRest(req) && capacity <= book.Size()) {
      var a := Aggressor(req.orderId, req.clientId, req.side, req.orderType, req.price);
      TradeAndRestKeeps(book, a, req.quantity, 0, MayRest(req));
    }
  }

  lemma ReplaceKeeps(book: Book, capacity: nat, req: Request)
    requires WellFormed(book) && Uncrossed(book) && book.Size() <= capacity
    ensures var after := ReplaceOrder(book, req).book;
            WellFormed(after) && Uncrossed(after) && after.Size() <= capacity
  {
    hide WellFormed, Uncrossed, Take, TradeAndRest, Put, Crosses, Rests, Find, Position, Absent;
    RestsIff(book, req.orderId);
    RestsIff(book, req.newOrderId);
    if ReplaceOrder(book, req).handled {
      var orig := Find(book, req.orderId).value;
      FindOnSide(book, req.orderId);
      TakeKeeps(book, orig.side, orig.id);
      var without := Take(book, orig.side, orig.id);
      TakeSize(book, orig);
      TakeAbsent(book, orig.side, orig.id, req.newOrderId);
      var open := OpenAfter(req.quantity, orig.executed);
      var a := Aggressor(req.newOrderId, req.clientId, orig.side, Limit, req.price);
      if open > 0 {
        if req.timeInForce == Day && !Crosses(a, without.On(Opposite(orig.side))) {
          var order := Order(req.newOrderId, req.clientId, orig.side, req.price, open, orig.executed);
          PutKeeps(without, order);
          PutUncrossed(without, order, a);
          PutSize(without, order);
        } else {
          TradeAndRestKeeps(without, a, open, orig.executed, req.timeInForce == Day);
        }
      }
    }
  }

  lemma TakeSize(book: Book, order: Order)
    requires WellFormed(book) && Find(book, order.id) == Some(order)
    ensures Take(book, order.side, order.id).Size() == book.Size() - 1
  {
    FindOnSide(book, order.id);
  }

  lemma TakeAbsent(book: Book, side: Side, gone: OrderId, id: OrderId)
    requires Absent(book.bids, id) && Absent(book.asks, id)
    ensures Absent(Take(book, side, gone).bids, id) && Absent(Take(book, side, gone).asks, id)
  {
  }

  /** Every request, valid or not, keeps the book well formed, uncrossed and
      within its capacity. */
  lemma ProcessKeeps(book: Book, capacity: nat, req: Request)
    requires WellFormed(book) && Uncrossed(book) && book.Size() <= capacity
    ensures var after := Process(book, capacity, req).book;
            WellFormed(after) && Uncrossed(after) && after.Size() <= capacity
  {
    match req.kind
    case New => EnterKeeps(book, capacity, req);
    case Replace => ReplaceKeeps(book, capacity, req);
    case Cancel =>
      RestsIff(book, req.orderId);
      if CancelOrder(book, req).handled {
        var order := Find(book, req.orderId).value;
        FindOnSide(book, req.orderId);
        ShrinkKeeps(book, order, OpenAfter(req.quantity, order.executed));
      }
  }

  /** After every request of every run the book is well formed and uncrossed. */
  lemma {:induction false} RunKeeps(capacity: nat, reqs: seq<Request>)
    ensures var after := ProcessAll(EmptyBook, capacity, reqs).book;
            WellFormed(after) && Uncrossed(after) && after.Size() <= capacity
  {
    if reqs != [] {
      RunKeeps(capacity, reqs[..|reqs| - 1]);
      ProcessKeeps(ProcessAll(EmptyBook, capacity, reqs[..|reqs| - 1]).book, capacity, reqs[|reqs| - 1]);
    }
  }
}
