/** The matching engine's book as built: slots in an arena, one linked FIFO per
    tick on each side, cached best prices and level counts, and an id-to-slot
    map. Every request is shown to do to this structure, and to emit, exactly
    what the reference book does. */
module EngineBook {
  import opened EngineTypes
  import opened BookSpec
  import opened BookLaws
  import opened PriceLevelQueue
  import opened BookRep
  import opened OrderPool
  import Feed = ItchFeed

  /** Which slot holds each order of a book. */
  datatype Slots = Slots(bids: seq<nat>, asks: seq<nat>) {
    function On(side: Side): seq<nat> {
      if side == Bid then bids else asks
    }

    function With(side: Side, slots: seq<nat>): Slots {
      if side == Bid then this.(bids := slots) else this.(asks := slots)
    }
  }

  ghost predicate Apart(xs: seq<nat>, ys: seq<nat>) {
    forall i, j :: 0 <= i < |xs| && 0 <= j < |ys| ==> xs[i] != ys[j]
  }

  ghost predicate MapsSide(ids: map<OrderId, nat>, orders: seq<Order>, slots: seq<nat>) {
    |slots| == |orders| && forall i :: 0 <= i < |orders| ==> orders[i].id in ids && ids[orders[i].id] == slots[i]
  }

  /** The id map names exactly the resting orders, each with its slot. */
  ghost predicate Mapped(ids: map<OrderId, nat>, book: Book, slots: Slots) {
    && MapsSide(ids, book.bids, slots.bids)
    && MapsSide(ids, book.asks, slots.asks)
    && (forall id :: id in ids ==> Rests(book, id))
  }

  /** Free slots and the two sides' slots share nothing and together fill the arena. */
  ghost predicate Pooled(free: seq<nat>, slots: Slots, capacity: nat) {
    && |free| + |slots.bids| + |slots.asks| == capacity
    && Distinct(free) && (forall k :: 0 <= k < |free| ==> free[k] < capacity)
    && Apart(slots.bids, slots.asks) && Apart(slots.bids, free) && Apart(slots.asks, free)
  }

  //--- the id map under each change ---

  lemma MappedFind(ids: map<OrderId, nat>, book: Book, slots: Slots, id: OrderId)
    requires Mapped(ids, book, slots)
    ensures id in ids <==> Rests(book, id)
    ensures id in ids ==>
              var side := if Position(book.bids, id) < |book.bids| then Bid else Ask;
              var k := Position(book.On(side), id);
              && k < |book.On(side)| && slots.On(side)[k] == ids[id]
              && Find(book, id) == Some(book.On(side)[k])
  {
  }

  lemma MappedPut(ids: map<OrderId, nat>, book: Book, slots: Slots, order: Order, slot: nat)
    requires Mapped(ids, book, slots) && !Rests(book, order.id)
    ensures var orders := book.On(order.side);
            var p := Back(orders, order.side, order.price);
            Mapped(ids[order.id := slot], Put(book, order), slots.With(order.side, InsertAt(slots.On(order.side), p, slot)))
  {
    var orders := book.On(order.side);
    var p := Back(orders, order.side, order.price);
    RestsIff(book, order.id);
    MapsInsert(ids, orders, slots.On(order.side), p, order, slot);
    MapsWith(ids, book.On(Opposite(order.side)), slots.On(Opposite(order.side)), order.id, slot);
    forall id | id in ids[order.id := slot] ensures Rests(Put(book, order), id) {
      RestsAfterPut(book, order, id);
    }
  }

  lemma MapsInsert(ids: map<OrderId, nat>, orders: seq<Order>, slots: seq<nat>, p: nat, order: Order, slot: nat)
    requires MapsSide(ids, orders, slots) && p <= |orders| && Absent(orders, order.id)
    ensures MapsSide(ids[order.id := slot], InsertAt(orders, p, order), InsertAt(slots, p, slot))
  {
    InsertElements(orders, p, order);
    InsertElements(slots, p, slot);
  }

  lemma MapsWith(ids: map<OrderId, nat>, orders: seq<Order>, slots: seq<nat>, id: OrderId, slot: nat)
    requires MapsSide(ids, orders, slots) && Absent(orders, id)
    ensures MapsSide(ids[id := slot], orders, slots)
  {
  }

  lemma MapsRemove(ids: map<OrderId, nat>, orders: seq<Order>, slots: seq<nat>, k: nat)
    requires MapsSide(ids, orders, slots) && Distinct(slots) && k < |orders|
    ensures MapsSide(ids - {orders[k].id}, RemoveAt(orders, k), RemoveAt(slots, k))
  {
    RemoveElements(orders, k);
    RemoveElements(slots, k);
  }

  lemma MapsWithout(ids: map<OrderId, nat>, orders: seq<Order>, slots: seq<nat>, id: OrderId)
    requires MapsSide(ids, orders, slots) && id in ids && ids[id] !in slots
    ensures MapsSide(ids - {id}, orders, slots)
  {
  }

  lemma ApartAt(slots: Slots, side: Side, k: nat)
    requires Apart(slots.bids, slots.asks) && k < |slots.On(side)|
    ensures slots.On(side)[k] !in slots.On(Opposite(side))
  {
  }

  lemma MappedDrop(ids: map<OrderId, nat>, book: Book, slots: Slots, side: Side, k: nat)
    requires Mapped(ids, book, slots) && Distinct(slots.bids) && Distinct(slots.asks) && Apart(slots.bids, slots.asks)
    requires k < |book.On(side)|
    ensures Mapped(ids - {book.On(side)[k].id}, book.With(side, RemoveAt(book.On(side), k)),
                   slots.With(side, RemoveAt(slots.On(side), k)))
  {
    var gone := book.On(side)[k].id;
    assert MapsSide(ids, book.On(side), slots.On(side)) && MapsSide(ids, book.On(Opposite(side)), slots.On(Opposite(side)));
    assert gone in ids && ids[gone] == slots.On(side)[k];
    hide MapsSide, RemoveAt, Rests, Distinct;
    ApartAt(slots, side, k);
    hide Apart;
    MapsRemove(ids, book.On(side), slots.On(side), k);
    MapsWithout(ids, book.On(Opposite(side)), slots.On(Opposite(side)), gone);
    forall id | id in ids - {gone} ensures Rests(book.With(side, RemoveAt(book.On(side), k)), id) {
      RestsAfterDrop(book, side, k, id);
    }
  }

  lemma RestsAfterDrop(book: Book, side: Side, k: nat, id: OrderId)
    requires k < |book.On(side)| && id != book.On(side)[k].id && Rests(book, id)
    ensures Rests(book.With(side, RemoveAt(book.On(side), k)), id)
  {
    hide Position;
    var orders := book.On(side);
    var after := RemoveAt(orders, k);
    RemoveElements(orders, k);
    var p := Position(orders, id);
    if p < |orders| {
      assert after[if p < k then p else p - 1].id == id;
    }
  }

  lemma RestsAfterUpdate(book: Book, side: Side, k: nat, order: Order, id: OrderId)
    requires k < |book.On(side)| && order.id == book.On(side)[k].id && Rests(book, id)
    ensures Rests(book.With(side, book.On(side)[k := order]), id)
  {
    hide Position;
    var p := Position(book.On(side), id);
    if p < |book.On(side)| { assert book.On(side)[k := order][p].id == id; }
  }

  lemma MappedUpdate(ids: map<OrderId, nat>, book: Book, slots: Slots, side: Side, k: nat, order: Order)
    requires Mapped(ids, book, slots) && k < |book.On(side)| && order.id == book.On(side)[k].id
    ensures Mapped(ids, book.With(side, book.On(side)[k := order]), slots)
  {
    hide Rests;
    var after := book.With(side, book.On(side)[k := order]);
    forall id | id in ids ensures Rests(after, id) {
      RestsAfterUpdate(book, side, k, order, id);
    }
  }

  //--- the arena under each change ---

  lemma PooledAllocate(free: seq<nat>, slot: nat, slots: Slots, capacity: nat, side: Side, p: nat)
    requires Pooled(free + [slot], slots, capacity) && p <= |slots.On(side)|
    ensures Pooled(free, slots.With(side, InsertAt(slots.On(side), p, slot)), capacity)
    ensures slot !in slots.bids && slot !in slots.asks && slot !in free && slot < capacity
  {
    hide InsertAt;
    var all := free + [slot];
    assert all[|free|] == slot;
    assert forall k :: 0 <= k < |free| ==> all[k] == free[k];
    forall i | 0 <= i < |slots.bids| ensures slots.bids[i] != slot { assert slots.bids[i] != all[|free|]; }
    forall i | 0 <= i < |slots.asks| ensures slots.asks[i] != slot { assert slots.asks[i] != all[|free|]; }
    forall i | 0 <= i < |free| ensures free[i] != slot { assert all[i] != all[|free|]; }
    InsertApart(slots.On(side), p, slot, free);
    InsertApart(slots.On(side), p, slot, slots.On(Opposite(side)));
    assert forall i, j :: 0 <= i < j < |free| ==> free[i] != free[j] by {
      assert forall i, j :: 0 <= i < j < |free| ==> all[i] != all[j];
    }
  }

  lemma InsertApart(xs: seq<nat>, p: nat, slot: nat, ys: seq<nat>)
    requires p <= |xs| && (Apart(xs, ys) || Apart(ys, xs)) && slot !in ys
    ensures Apart(InsertAt(xs, p, slot), ys) && Apart(ys, InsertAt(xs, p, slot))
    ensures |InsertAt(xs, p, slot)| == |xs| + 1
  {
    InsertElements<nat>(xs, p, slot);
    var zs := InsertAt(xs, p, slot);
    forall i, j | 0 <= i < |zs| && 0 <= j < |ys| ensures zs[i] != ys[j] {
      assert zs[i] == slot || zs[i] == xs[if i < p then i else i - 1];
    }
  }

  lemma PooledRelease(free: seq<nat>, slots: Slots, capacity: nat, side: Side, k: nat)
    requires Pooled(free, slots, capacity) && k < |slots.On(side)| && Distinct(slots.On(side))
    requires slots.On(side)[k] < capacity
    ensures Pooled(free + [slots.On(side)[k]], slots.With(side, RemoveAt(slots.On(side), k)), capacity)
    ensures slots.On(side)[k] !in free
  {
    var slot := slots.On(side)[k];
    var all := free + [slot];
    RemoveElements(slots.On(side), k);
    assert forall i :: 0 <= i < |all| ==> all[i] == if i < |free| then free[i] else slot;
  }

  /** The cheapest reading of "the head of the best level is the oldest order". */
  lemma HeadIsFirst(side: Side, orders: seq<Order>, slots: seq<nat>, arena: seq<Node>,
                    levels: seq<Level>, best: Price, count: nat)
    requires Ordered(side, orders) && SideRep(side, orders, slots, arena, levels, best, count) && orders != []
    ensures best == orders[0].price && InBand(best)
    ensures levels[best - MIN_PRICE].head == slots[0]
    ensures slots[0] < |arena| && arena[slots[0]].order == orders[0]
  {
    hide Back, Front;
    FrontIs(orders, side, best, 0);
    RunPrices(side, orders, best);
    assert Lists(levels[best - MIN_PRICE], arena, Run(orders, slots, side, best));
  }

  lemma CountIsZero(side: Side, orders: seq<Order>, slots: seq<nat>, arena: seq<Node>,
                    levels: seq<Level>, best: Price, count: nat)
    requires SideRep(side, orders, slots, arena, levels, best, count)
    ensures count == 0 <==> orders == []
  {
    hide Threaded, Holds;
    if orders != [] { PriceIn(orders, 0); }
  }

  /** A request that may rest names a price the ladder has a level for. */
  predicate Restable(req: Request) {
    match req.kind
    case New => MayRest(req) ==> InBand(req.price)
    case Cancel => true
    case Replace => req.timeInForce == Day ==> InBand(req.price)
  }

  class Orderbook {
    const pool: Pool
    const bids: array<Level>
    const asks: array<Level>
    var ids: map<OrderId, nat>
    var bestBid: Price
    var bestAsk: Price
    var bidLevels: nat
    var askLevels: nat
    var nextMatch: nat

    // The engine's outbound ring (never drops), what the market data ring took
    // (it drops when full), and whether the request in hand has been answered yet.
    var out: seq<Event>
    var market: seq<Itch>
    var drops: nat
    var answered: bool

    // The reference book this one represents, and all it ever published.
    ghost var book: Book
    ghost var slots: Slots
    ghost var published: seq<Itch>

    ghost predicate Sides()
      reads this`book, this`slots, this`bestBid, this`bestAsk, this`bidLevels, this`askLevels, pool.arena, bids, asks
    {
      && bids != asks
      && SideRep(Bid, book.bids, slots.bids, pool.arena[..], bids[..], bestBid, bidLevels)
      && SideRep(Ask, book.asks, slots.asks, pool.arena[..], asks[..], bestAsk, askLevels)
      && Ordered(Bid, book.bids) && Ordered(Ask, book.asks)
    }

    ghost predicate Linked()
      reads this`book, this`slots, this`bestBid, this`bestAsk, this`bidLevels, this`askLevels, this`ids,
            pool`free, pool.arena, bids, asks
    {
      && Sides()
      && Mapped(ids, book, slots)
      && Pooled(pool.free, slots, pool.arena.Length)
    }

    /** Every message the market data ring did not take is counted as dropped. */
    ghost predicate Fed()
      reads this`market, this`drops, this`published
    {
      drops == |published| - |market| && (drops == 0 ==> market == published)
    }

    /** A feed that saw everything published has the book. */
    ghost predicate Mirrored()
      reads this`book, this`published
    {
      Feed.Fold(Feed.View(EmptyBook), published) == Feed.View(book)
    }

    ghost predicate Valid()
      reads this, pool, pool.arena, bids, asks
    {
      && Linked() && Fed() && Mirrored() && nextMatch == book.nextMatch
      && WellFormed(book) && Uncrossed(book)
    }

    constructor (capacity: nat)
      ensures Valid() && fresh(pool) && fresh(pool.arena) && fresh(bids) && fresh(asks)
      ensures book == EmptyBook && pool.arena.Length == capacity
      ensures out == [] && published == []
    {
      pool := new Pool(capacity);
      bids := new Level[TICKS](_ => EMPTY_LEVEL);
      asks := new Level[TICKS](_ => EMPTY_LEVEL);
      ids := map[];
      bestBid, bestAsk, bidLevels, askLevels := MIN_PRICE, MAX_PRICE, 0, 0;
      nextMatch := 1;
      out, market, drops, answered := [], [], 0, false;
      book, slots, published := EmptyBook, Slots([], []), [];
      new;
      EmptySide(Bid, pool.arena[..], bids[..]);
      EmptySide(Ask, pool.arena[..], asks[..]);
    }

    //--- output ---

    method Emit(event: Event)
      modifies this`out, this`answered
      ensures answered && out == old(out) + [event.(answersRequest := !old(answered))]
    {
      out := out + [event.(answersRequest := !answered)];
      answered := true;
    }

    /** Whether the ring has room depends on how far its reader has got. */
    method Publish(itch: Itch)
      requires Fed()
      modifies this`market, this`drops, this`published
      ensures Fed() && published == old(published) + [itch]
    {
      var room: bool := *;
      if room {
        market := market + [itch];
      } else {
        drops := drops + 1;
      }
      published := published + [itch];
    }

    //--- book maintenance ---

    /** Takes a slot off its level; best prices and level counts follow. */
    method Unlink(slot: nat, ghost side: Side, ghost k: nat)
      requires Sides() && Apart(slots.bids, slots.asks)
      requires k < |slots.On(side)| && slots.On(side)[k] == slot && book.On(side)[k].side == side
      modifies this`bestBid, this`bestAsk, this`bidLevels, this`askLevels, this`book, this`slots, pool.arena, bids, asks
      ensures Sides()
      ensures book == old(book).With(side, RemoveAt(old(book).On(side), k))
      ensures slots == old(slots).With(side, RemoveAt(old(slots).On(side), k))
      ensures slot < pool.arena.Length && pool.arena[slot].order == old(book).On(side)[k]
    {
      hide SideRep, Ordered, Distinct;
      ghost var orders, mine := book.On(side), slots.On(side);
      ghost var before := pool.arena[..];
      SlotOf(side, orders, mine, before, if side == Bid then bids[..] else asks[..],
             if side == Bid then bestBid else bestAsk, if side == Bid then bidLevels else askLevels, k);
      if pool.arena[slot].order.side == Bid {
        bestBid, bidLevels := UnlinkFrom(Bid, bids, pool.arena, slot, bestBid, bidLevels, orders, mine, k);
        OtherSide(Ask, book.asks, slots.asks, before, pool.arena[..], asks[..], bestAsk, askLevels, slots.bids);
      } else {
        bestAsk, askLevels := UnlinkFrom(Ask, asks, pool.arena, slot, bestAsk, askLevels, orders, mine, k);
        OtherSide(Bid, book.bids, slots.bids, before, pool.arena[..], bids[..], bestBid, bidLevels, slots.asks);
      }
      RemoveKeepsOrder(side, orders, k);
      book := book.With(side, RemoveAt(orders, k));
      slots := slots.With(side, RemoveAt(mine, k));
    }

    /** Out of the id map and back to the pool. */
    method Release(slot: nat)
      requires pool.Valid() && slot < pool.arena.Length && slot !in pool.free
      modifies this`ids, pool`free
      ensures pool.Valid() && pool.free == old(pool.free) + [slot]
      ensures ids == old(ids) - {pool.arena[slot].order.id}
    {
      ids := ids - {pool.arena[slot].order.id};
      pool.Deallocate(slot);
    }

    /** An order leaves the book: unlink, then release. */
    method Drop(slot: nat, ghost side: Side, ghost k: nat)
      requires Linked()
      requires k < |slots.On(side)| && slots.On(side)[k] == slot && book.On(side)[k].side == side
      modifies this`ids, this`bestBid, this`bestAsk, this`bidLevels, this`askLevels, this`book, this`slots,
               pool`free, pool.arena, bids, asks
      ensures Linked()
      ensures book == old(book).With(side, RemoveAt(old(book).On(side), k))
      ensures slots == old(slots).With(side, RemoveAt(old(slots).On(side), k))
      ensures |pool.free| == old(|pool.free|) + 1
    {
      hide SideRep, Ordered, Mapped, Apart;
      ghost var book0, slots0 := book, slots;
      SideSlots();
      Unlink(slot, side, k);
      PooledRelease(pool.free, slots0, pool.arena.Length, side, k);
      MappedDrop(ids, book0, slots0, side, k);
      Release(slot);
    }

    lemma SideSlots()
      requires Sides()
      ensures |slots.bids| == |book.bids| && Distinct(slots.bids)
      ensures |slots.asks| == |book.asks| && Distinct(slots.asks)
      ensures forall i :: 0 <= i < |slots.bids| ==> slots.bids[i] < pool.arena.Length
      ensures forall i :: 0 <= i < |slots.asks| ==> slots.asks[i] < pool.arena.Length
    {
      hide Threaded, Ordered, Banded;
    }

    /** Writes an order's shares in place; it keeps its slot and its place. */
    method SetOrder(slot: nat, order: Order, ghost side: Side, ghost k: nat)
      requires Linked()
      requires k < |slots.On(side)| && slots.On(side)[k] == slot && k < |book.On(side)| && slot < pool.arena.Length
      requires order == book.On(side)[k].(open := order.open, executed := order.executed)
      modifies this`book, pool.arena
      ensures Linked()
      ensures book == old(book).With(side, old(book).On(side)[k := order])
    {
      hide SideRep, Mapped, Threaded;
      ghost var before := pool.arena[..];
      ghost var orders, mine := book.On(side), slots.On(side);
      pool.arena[slot] := pool.arena[slot].(order := order);
      assert pool.arena[..] == before[slot := before[slot].(order := order)];
      if side == Bid {
        UpdateSide(Bid, orders, mine, before, bids[..], bestBid, bidLevels, k, order);
        Elsewhere(Ask, book.asks, slots.asks, before, pool.arena[..], asks[..], bestAsk, askLevels, slot);
      } else {
        UpdateSide(Ask, orders, mine, before, asks[..], bestAsk, askLevels, k, order);
        Elsewhere(Bid, book.bids, slots.bids, before, pool.arena[..], bids[..], bestBid, bidLevels, slot);
      }
      MappedUpdate(ids, book, slots, side, k, order);
      book := book.With(side, orders[k := order]);
    }

    /** Books a resting order in a free slot at the back of its price. */
    method Rest(order: Order, publishAdd: bool)
      requires Linked() && Fed() && pool.free != [] && InBand(order.price) && !Rests(book, order.id)
      modifies this`ids, this`bestBid, this`bestAsk, this`bidLevels, this`askLevels, this`book, this`slots,
               this`market, this`drops, this`published, pool`free, pool.arena, bids, asks
      ensures Linked() && Fed()
      ensures book == Put(old(book), order)
      ensures published == old(published) + if publishAdd then [Added(order)] else []
    {
      hide SideRep, Ordered, Mapped, Back, Position;
      ghost var before := pool.arena[..];
      ghost var p := Back(book.On(order.side), order.side, order.price);
      SideSlots();
      var slot := pool.Allocate(order);
      PooledAllocate(pool.free, slot, slots, pool.arena.Length, order.side, p);
      Elsewhere(Bid, book.bids, slots.bids, before, pool.arena[..], bids[..], bestBid, bidLevels, slot);
      Elsewhere(Ask, book.asks, slots.asks, before, pool.arena[..], asks[..], bestAsk, askLevels, slot);
      MappedPut(ids, book, slots, order, slot);
      ids := ids[order.id := slot];
      Thread(slot, order);
      if publishAdd {
        Publish(Added(order));
      }
    }

    /** The linking half of Rest. */
    method Thread(slot: nat, order: Order)
      requires Sides() && InBand(order.price) && Apart(slots.bids, slots.asks)
      requires slot < pool.arena.Length && slot !in slots.bids && slot !in slots.asks
      requires pool.arena[slot] == Node(order, NIL, NIL)
      modifies this`bestBid, this`bestAsk, this`bidLevels, this`askLevels, this`book, this`slots, pool.arena, bids, asks
      ensures Sides()
      ensures book == Put(old(book), order)
      ensures var p := Back(old(book).On(order.side), order.side, order.price);
              p <= |old(slots).On(order.side)| &&
              slots == old(slots).With(order.side, InsertAt(old(slots).On(order.side), p, slot))
    {
      hide SideRep, Ordered, Distinct;
      SideSlots();
      ghost var orders, mine := book.On(order.side), slots.On(order.side);
      ghost var p := Back(orders, order.side, order.price);
      ghost var before := pool.arena[..];
      if order.side == Bid {
        bestBid, bidLevels := RestOn(Bid, bids, pool.arena, slot, order, bestBid, bidLevels, orders, mine);
        OtherSide(Ask, book.asks, slots.asks, before, pool.arena[..], asks[..], bestAsk, askLevels, mine + [slot]);
      } else {
        bestAsk, askLevels := RestOn(Ask, asks, pool.arena, slot, order, bestAsk, askLevels, orders, mine);
        OtherSide(Bid, book.bids, slots.bids, before, pool.arena[..], bids[..], bestBid, bidLevels, mine + [slot]);
      }
      InsertOrdered(orders, order.side, order);
      book := Put(book, order);
      slots := slots.With(order.side, InsertAt(mine, p, slot));
    }

    //--- matching ---

    predicate CrossesBest(a: Aggressor)
      reads this
    {
      if a.side == Bid then askLevels != 0 && (a.orderType == Market || a.price >= bestAsk)
      else bidLevels != 0 && (a.orderType == Market || a.price <= bestBid)
    }

    /** The cached best price and level count answer exactly whether the book crosses. */
    lemma CrossesExactly(a: Aggressor)
      requires Linked()
      ensures CrossesBest(a) <==> Crosses(a, book.On(Opposite(a.side)))
    {
      hide SideRep, Mapped, Pooled;
      CountIsZero(Bid, book.bids, slots.bids, pool.arena[..], bids[..], bestBid, bidLevels);
      CountIsZero(Ask, book.asks, slots.asks, pool.arena[..], asks[..], bestAsk, askLevels);
      if book.bids != [] {
        HeadIsFirst(Bid, book.bids, slots.bids, pool.arena[..], bids[..], bestBid, bidLevels);
      }
      if book.asks != [] {
        HeadIsFirst(Ask, book.asks, slots.asks, pool.arena[..], asks[..], bestAsk, askLevels);
      }
    }

    /** The oldest order at the best opposite price: the slot matching reads. */
    method FrontSlot(side: Side) returns (slot: nat)
      requires Linked() && book.On(side) != []
      ensures |slots.On(side)| == |book.On(side)| && slot == slots.On(side)[0]
      ensures slot < pool.arena.Length && pool.arena[slot].order == book.On(side)[0]
      ensures (if side == Bid then bestBid else bestAsk) == book.On(side)[0].price
    {
      hide SideRep, Mapped, Pooled;
      SideSlots();
      if side == Bid {
        HeadIsFirst(Bid, book.bids, slots.bids, pool.arena[..], bids[..], bestBid, bidLevels);
        LadderLength(Bid);
        slot := bids[..][bestBid - MIN_PRICE].head;
      } else {
        HeadIsFirst(Ask, book.asks, slots.asks, pool.arena[..], asks[..], bestAsk, askLevels);
        LadderLength(Ask);
        slot := asks[..][bestAsk - MIN_PRICE].head;
      }
    }

    lemma LadderLength(side: Side)
      requires Sides()
      ensures bids.Length == TICKS && asks.Length == TICKS
    {
      hide Holds, Ordered, Banded, Lists;
    }

    /** Both sides' events for a fill, and the resting side's ITCH. */
    method Report(a: Aggressor, resting: Order, levelPrice: Price, fill: Quantity, matchNumber: nat)
      requires Fed() && answered && levelPrice == resting.price
      modifies this`market, this`drops, this`published, this`out, this`answered
      ensures Fed() && answered
      ensures out == old(out) + TradeEvents(a, resting, fill, matchNumber)
      ensures published == old(published) + [OrderExecuted(resting.id, fill, matchNumber)]
    {
      Emit(Event(Executed, a.id, 0, matchNumber, a.clientId, levelPrice, fill, REMOVED_LIQUIDITY, false));
      Emit(Event(Executed, resting.id, 0, matchNumber, resting.clientId, levelPrice, fill, ADDED_LIQUIDITY, false));
      Publish(OrderExecuted(resting.id, fill, matchNumber));
    }

    /** Match numbers are consecutive. */
    method NextMatch() returns (matchNumber: nat)
      requires Linked() && nextMatch == book.nextMatch
      modifies this`nextMatch, this`book
      ensures Linked() && matchNumber == old(nextMatch) && nextMatch == matchNumber + 1
      ensures book == old(book).(nextMatch := nextMatch)
    {
      hide SideRep, Ordered, Pooled, MapsSide;
      matchNumber := nextMatch;
      nextMatch := nextMatch + 1;
      book := book.(nextMatch := nextMatch);
    }

    /** One fill against the front of the opposite side. */
    method TradeFront(a: Aggressor, remaining: Quantity) returns (fill: Quantity)
      requires Linked() && Fed() && answered && nextMatch == book.nextMatch
      requires Live(Opposite(a.side), book.On(Opposite(a.side)))
      requires remaining > 0 && book.On(Opposite(a.side)) != []
      modifies this`ids, this`bestBid, this`bestAsk, this`bidLevels, this`askLevels, this`book, this`slots,
               this`market, this`drops, this`published, this`out, this`answered, this`nextMatch,
               pool`free, pool.arena, bids, asks
      ensures Linked() && Fed() && answered && nextMatch == book.nextMatch
      ensures var other := Opposite(a.side);
              var opposite := old(book).On(other);
              && fill == Min(remaining, opposite[0].open)
              && book == old(book).With(other, Hit(opposite, fill)).(nextMatch := old(nextMatch) + 1)
              && out == old(out) + TradeEvents(a, opposite[0], fill, old(nextMatch))
              && published == old(published) + [OrderExecuted(opposite[0].id, fill, old(nextMatch))]
    {
      hide Linked, Fed, TradeEvents, Hit, RemoveAt, Live;
      FrontFill(book, Opposite(a.side), Min(remaining, book.On(Opposite(a.side))[0].open));
      var other := Opposite(a.side);
      var levelPrice := if a.side == Bid then bestAsk else bestBid;
      var slot := FrontSlot(other);
      var resting := pool.arena[slot].order;
      fill := Min(remaining, resting.open);
      var matchNumber := NextMatch();
      SetOrder(slot, Fill(resting, fill), other, 0);
      Report(a, resting, levelPrice, fill, matchNumber);
      if fill == resting.open {
        Drop(slot, other, 0);
      }
    }

    /** Fills an incoming order against the opposite side, best price first,
        until it is done or the book no longer crosses. */
    method Match(a: Aggressor, quantity: Quantity) returns (filled: Quantity)
      requires Linked() && Fed() && answered && nextMatch == book.nextMatch
      requires Live(Opposite(a.side), book.On(Opposite(a.side)))
      modifies this, pool, pool.arena, bids, asks
      ensures Linked() && Fed() && answered && nextMatch == book.nextMatch
      ensures var other := Opposite(a.side);
              var t := Walk(a, quantity, old(book).On(other), old(nextMatch));
              && filled == t.filled
              && book == old(book).With(other, t.left).(nextMatch := t.nextMatch)
              && out == old(out) + t.events
              && published == old(published) + t.itch
    {
      hide Linked, Fed, Walk, Crosses, CrossesBest, TradeEvents, Hit, Live;
      var other := Opposite(a.side);
      filled := 0;
      ghost var t := Walk(a, quantity, book.On(other), nextMatch);
      ghost var events: seq<Event>, itch: seq<Itch> := [], [];
      ExtendNothing(t);
      CrossesExactly(a);
      while filled < quantity && CrossesBest(a)
        invariant Linked() && Fed() && answered && nextMatch == book.nextMatch
        invariant Live(other, book.On(other)) && filled <= quantity
        invariant CrossesBest(a) <==> Crosses(a, book.On(other))
        invariant out == old(out) + events && published == old(published) + itch
        invariant book.On(a.side) == old(book).On(a.side)
        invariant t == Extend(Walk(a, quantity - filled, book.On(other), nextMatch), filled, events, itch)
        decreases |book.On(other)| + quantity - filled
      {
        ghost var opposite, m := book.On(other), nextMatch;
        CrossesFront(a, opposite);
        HitLive(other, opposite, Min(quantity - filled, opposite[0].open));
        WalkStep(a, quantity - filled, opposite, m);
        var fill := TradeFront(a, quantity - filled);
        ExtendTwice(Walk(a, quantity - filled - fill, book.On(other), nextMatch), fill,
                    TradeEvents(a, opposite[0], fill, m), [OrderExecuted(opposite[0].id, fill, m)], filled, events, itch);
        filled := filled + fill;
        events := events + TradeEvents(a, opposite[0], fill, m);
        itch := itch + [OrderExecuted(opposite[0].id, fill, m)];
        CrossesExactly(a);
      }
      WalkDone(a, quantity - filled, book.On(other), nextMatch);
    }

    //--- request handlers ---

    lemma FreeSlots()
      requires Linked()
      ensures |pool.free| + book.Size() == pool.arena.Length
    {
      hide SideRep, Mapped, Ordered;
      SideSlots();
    }

    /** Trade as the aggressor, then rest a remainder that may rest and cancel
        any other. */
    method Aggress(a: Aggressor, quantity: Quantity, executed: Quantity, mayRest: bool)
      requires Linked() && Fed() && answered && nextMatch == book.nextMatch
      requires WellFormed(book) && Uncrossed(book) && !Rests(book, a.id)
      requires mayRest ==> InBand(a.price) && book.Size() < pool.arena.Length
      modifies this, pool, pool.arena, bids, asks
      ensures Linked() && Fed() && nextMatch == book.nextMatch
      ensures var o := TradeAndRest(old(book), a, quantity, executed, mayRest);
              && o.handled && book == o.book && out == old(out) + o.events && published == old(published) + o.itch
    {
      hide Linked, Fed, Walk, Queue, UniqueIds, DisjointIds, Absent, Rests, Uncrossed, Back;
      RestsIff(book, a.id);
      WalkKeeps(book, a, quantity);
      LiveSide(book, Opposite(a.side));
      var filled := Match(a, quantity);
      RestsIff(book, a.id);
      FreeSlots();
      var remaining := quantity - filled;
      if remaining == 0 {
        return;
      }
      if mayRest {
        Rest(Order(a.id, a.clientId, a.side, a.price, remaining, executed + filled), true);
      } else {
        Emit(Event(Canceled, a.id, 0, 0, a.clientId, a.price, remaining, IMMEDIATE_OR_CANCEL, false));
      }
    }

    method Enter(req: Request) returns (handled: bool)
      requires Valid() && Restable(req) && req.kind == New && !answered
      modifies this, pool, pool.arena, bids, asks
      ensures Linked() && Fed() && nextMatch == book.nextMatch
      ensures var o := BookSpec.Enter(old(book), pool.arena.Length, req);
              && handled == o.handled && book == o.book
              && out == old(out) + MarkAnswer(o.events) && published == old(published) + o.itch
    {
      hide Linked, Fed, TradeAndRest, WellFormed, Uncrossed, Rests, BookSpec.Enter;
      EnterCases(book, pool.arena.Length, req);
      FreeSlots();
      HasId(req.orderId);
      if req.orderId in ids {
        return false;
      }
      handled := true;
      var mayRest := req.orderType == Limit && req.timeInForce == Day;
      if mayRest && |pool.free| == 0 {
        Emit(Event(Rejected, req.orderId, 0, 0, req.clientId, 0, 0, BOOK_FULL, false));
        return;
      }
      var accepted := Event(Accepted, req.orderId, 0, 0, req.clientId, req.price, req.quantity, NO_REASON, false);
      var a := Aggressor(req.orderId, req.clientId, req.side, req.orderType, req.price);
      Emit(accepted);
      AnswerFirst(old(out), accepted, TradeAndRest(book, a, req.quantity, 0, mayRest).events);
      Aggress(a, req.quantity, 0, mayRest);
    }

    lemma HasId(id: OrderId)
      requires Linked()
      ensures id in ids <==> Rests(book, id)
    {
      hide SideRep, Ordered, Pooled, MapsSide;
      MappedFind(ids, book, slots, id);
    }

    /** The slot an id maps to holds that order, at its place on its side. */
    lemma Locate(id: OrderId)
      requires Linked() && WellFormed(book) && id in ids
      ensures Find(book, id).Some?
      ensures var order := Find(book, id).value;
              var orders := book.On(order.side);
              var k := Position(orders, id);
              && order.id == id && k < |orders| && orders[k] == order
              && k < |slots.On(order.side)| && slots.On(order.side)[k] == ids[id]
              && ids[id] < pool.arena.Length && pool.arena[ids[id]].order == order
    {
      hide SideRep, Ordered, Pooled, MapsSide, UniqueIds, DisjointIds, Position;
      MappedFind(ids, book, slots, id);
      var side := if Position(book.bids, id) < |book.bids| then Bid else Ask;
      var k := Position(book.On(side), id);
      SideSlots();
      if side == Bid {
        SlotOf(Bid, book.bids, slots.bids, pool.arena[..], bids[..], bestBid, bidLevels, k);
      } else {
        SlotOf(Ask, book.asks, slots.asks, pool.arena[..], asks[..], bestAsk, askLevels, k);
      }
    }

    method Cancel(req: Request) returns (handled: bool)
      requires Valid() && req.kind == RequestKind.Cancel && !answered
      modifies this, pool, pool.arena, bids, asks
      ensures Linked() && Fed() && nextMatch == book.nextMatch
      ensures var o := CancelOrder(old(book), req);
              && handled == o.handled && book == o.book
              && out == old(out) + MarkAnswer(o.events) && published == old(published) + o.itch
    {
      hide Linked, Fed, Mirrored, WellFormed, Uncrossed, Rests, Position, Shrink;
      HasId(req.orderId);
      RestsIff(book, req.orderId);
      if req.orderId !in ids {
        return false;
      }
      Locate(req.orderId);
      var slot := ids[req.orderId];
      var order := pool.arena[slot].order;
      if order.clientId != req.clientId {
        return false;
      }
      var targetOpen := OpenAfter(req.quantity, order.executed);
      if targetOpen >= order.open {
        return false;
      }
      handled := true;
      var decrement := order.open - targetOpen;
      Emit(Event(Canceled, order.id, 0, 0, order.clientId, order.price, decrement, USER_REQUESTED, false));
      CutTo(slot, order, targetOpen);
    }

    /** Leaves the order targetOpen shares in its place, or none and no place. */
    method CutTo(slot: nat, order: Order, targetOpen: Quantity)
      requires Linked() && Fed() && targetOpen < order.open && slot < pool.arena.Length
      requires var k := Position(book.On(order.side), order.id);
               && k < |book.On(order.side)| && book.On(order.side)[k] == order
               && k < |slots.On(order.side)| && slots.On(order.side)[k] == slot
      modifies this`ids, this`bestBid, this`bestAsk, this`bidLevels, this`askLevels, this`book, this`slots,
               this`market, this`drops, this`published, pool`free, pool.arena, bids, asks
      ensures Linked() && Fed() && book == Shrink(old(book), order, targetOpen) && book.nextMatch == old(book).nextMatch
      ensures published == old(published)
                           + [if targetOpen == 0 then OrderDelete(order.id) else OrderCancel(order.id, order.open - targetOpen)]
    {
      hide Linked, Fed, Position, RemoveAt;
      ghost var k := Position(book.On(order.side), order.id);
      if targetOpen == 0 {
        Drop(slot, order.side, k);
        Publish(OrderDelete(order.id));
      } else {
        SetOrder(slot, order.(open := targetOpen), order.side, k);
        Publish(OrderCancel(order.id, order.open - targetOpen));
      }
    }

    method Replace(req: Request) returns (handled: bool)
      requires Valid() && Restable(req) && req.kind == RequestKind.Replace && !answered
      modifies this, pool, pool.arena, bids, asks
      ensures Linked() && Fed() && nextMatch == book.nextMatch
      ensures var o := ReplaceOrder(old(book), req);
              && handled == o.handled && book == o.book
              && out == old(out) + MarkAnswer(o.events) && published == old(published) + o.itch
    {
      hide Linked, Fed, Mirrored, WellFormed, Uncrossed, Rests, Position, Reenter, RemoveAt;
      HasId(req.orderId);
      HasId(req.newOrderId);
      RestsIff(book, req.orderId);
      if req.orderId !in ids {
        return false;
      }
      Locate(req.orderId);
      var slot := ids[req.orderId];
      var orig := pool.arena[slot].order;
      if orig.clientId != req.clientId || req.newOrderId in ids {
        return false;
      }
      handled := true;
      var open := OpenAfter(req.quantity, orig.executed);
      ghost var k := Position(book.On(orig.side), orig.id);
      WithoutKeeps(book, orig, req.newOrderId);
      if open == 0 {
        Emit(Event(Canceled, orig.id, 0, 0, orig.clientId, orig.price, orig.open, USER_REQUESTED, false));
        Drop(slot, orig.side, k);
        Publish(OrderDelete(orig.id));
        return;
      }
      ReenterHandled(Take(book, orig.side, orig.id), req, orig, open);
      FreeSlots();
      Drop(slot, orig.side, k);
      EnterReplacement(req, orig, open);
    }

    /** The replacement trades like any incoming order, unless it can rest
        without trading. */
    method EnterReplacement(req: Request, orig: Order, open: Quantity)
      requires Linked() && Fed() && !answered && nextMatch == book.nextMatch
      requires WellFormed(book) && Uncrossed(book) && !Rests(book, req.newOrderId)
      requires req.timeInForce == Day ==> InBand(req.price)
      requires book.Size() < pool.arena.Length
      modifies this, pool, pool.arena, bids, asks
      ensures Linked() && Fed() && nextMatch == book.nextMatch
      ensures var o := Reenter(old(book), req, orig, open);
              && book == o.book
              && out == old(out) + MarkAnswer(o.events) && published == old(published) + o.itch
    {
      hide Linked, Fed, WellFormed, Uncrossed, Rests, Put, TradeAndRest, Crosses, Reenter;
      ReenterCases(book, req, orig, open);
      FreeSlots();
      var replaced := Event(Replaced, req.newOrderId, orig.id, 0, req.clientId, req.price, open, NO_REASON, false);
      Emit(replaced);
      var a := Aggressor(req.newOrderId, req.clientId, orig.side, Limit, req.price);
      var day := req.timeInForce == Day;
      CrossesExactly(a);
      if day && !CrossesBest(a) {
        var order := Order(req.newOrderId, req.clientId, orig.side, req.price, open, orig.executed);
        PutMatch(book, order);
        Rest(order, false);
        Publish(OrderReplace(orig.id, req.newOrderId, open, ToItchPrice(req.price)));
        return;
      }
      Publish(OrderDelete(orig.id));
      ghost var o := TradeAndRest(book, a, open, orig.executed, day);
      AnswerFirst(old(out), replaced, o.events);
      PublishFirst(old(published), OrderDelete(orig.id), o.itch);
      Aggress(a, open, orig.executed, day);
    }

    /** One request: the structure afterwards represents exactly the reference
        book after it, and the events and ITCH it emitted are the same. */
    method Process(req: Request) returns (handled: bool)
      requires Valid() && Restable(req)
      modifies this, pool, pool.arena, bids, asks
      ensures Valid()
      ensures var o := BookSpec.Process(old(book), pool.arena.Length, req);
              && handled == o.handled && book == o.book
              && out == old(out) + o.events && published == old(published) + o.itch
    {
      hide Linked, Fed, WellFormed, Uncrossed, BookSpec.Enter, CancelOrder, ReplaceOrder, Feed.Fold, Feed.View;
      FreeSlots();
      ProcessKeeps(book, pool.arena.Length, req);
      Feed.ProcessFeeds(book, pool.arena.Length, req);
      Feed.FoldAppend(Feed.View(EmptyBook), published, BookSpec.Process(book, pool.arena.Length, req).itch);
      answered := false;
      match req.kind
      case New => handled := Enter(req);
      case Cancel => handled := Cancel(req);
      case Replace => handled := Replace(req);
    }

    /** A whole run of requests, in order. */
    method ProcessRun(reqs: seq<Request>)
      requires Valid() && forall i :: 0 <= i < |reqs| ==> Restable(reqs[i])
      modifies this, pool, pool.arena, bids, asks
      ensures Valid()
      ensures var o := ProcessAll(old(book), pool.arena.Length, reqs);
              book == o.book && out == old(out) + o.events && published == old(published) + o.itch
    {
      hide Valid, BookSpec.Process;
      for i := 0 to |reqs|
        invariant Valid()
        invariant var o := ProcessAll(old(book), pool.arena.Length, reqs[..i]);
                  book == o.book && out == old(out) + o.events && published == old(published) + o.itch
      {
        var handled := Process(reqs[i]);
        assert reqs[..i + 1][..i] == reqs[..i];
      }
      assert reqs[..|reqs|] == reqs;
    }

    /** As long as nothing was dropped, the market data alone gives the book's ids,
        sides, prices, open shares and queue order. */
    lemma FeedReproduces()
      requires Valid() && drops == 0
      ensures Feed.Fold(Feed.View(EmptyBook), market) == Feed.View(book)
    {
    }

    /** The cached best prices are the extreme occupied ticks (the band's ends
        when a side is empty) and the counters count the non-empty levels. */
    lemma CachesExact()
      requires Sides()
      ensures bids.Length == TICKS && asks.Length == TICKS
      ensures bidLevels == |set t | 0 <= t < TICKS && bids[t].head != NIL|
      ensures askLevels == |set t | 0 <= t < TICKS && asks[t].head != NIL|
      ensures InBand(bestBid) && (if bidLevels == 0 then bestBid == MIN_PRICE else bids[bestBid - MIN_PRICE].head != NIL)
      ensures InBand(bestAsk) && (if askLevels == 0 then bestAsk == MAX_PRICE else asks[bestAsk - MIN_PRICE].head != NIL)
      ensures forall t :: bestBid - MIN_PRICE < t < TICKS ==> bids[t].head == NIL
      ensures forall t :: 0 <= t < bestAsk - MIN_PRICE ==> asks[t].head == NIL
    {
      hide SideRep, Ordered;
      SideCaches(Bid, book.bids, slots.bids, pool.arena[..], bids[..], bestBid, bidLevels);
      SideCaches(Ask, book.asks, slots.asks, pool.arena[..], asks[..], bestAsk, askLevels);
      assert (set t | 0 <= t < TICKS && bids[t].head != NIL) == Occupied(bids[..]);
      assert (set t | 0 <= t < TICKS && asks[t].head != NIL) == Occupied(asks[..]);
    }

    /** Every arena slot is either on the free list or the slot of exactly one
        mapped order, never both. */
    lemma SlotsPartition(slot: nat)
      requires Linked() && slot < pool.arena.Length
      ensures slot in pool.free <==> forall id :: id in ids ==> ids[id] != slot
      ensures forall x, y :: x in ids && y in ids && ids[x] == slot && ids[y] == slot ==> x == y
    {
      hide SideRep, Ordered, Rests;
      SideSlots();
      Covered(pool.free, slots, pool.arena.Length, slot);
      MapsBack(ids, book, slots);
    }

    ghost function LevelAt(side: Side, price: Price): Level
      requires InBand(price) && bids.Length == TICKS && asks.Length == TICKS
      reads bids, asks
    {
      if side == Bid then bids[price - MIN_PRICE] else asks[price - MIN_PRICE]
    }

    /** A mapped slot is linked into the list of the level its own order names,
        once, and into no other level's list on either side. */
    lemma OneLevel(id: OrderId, side: Side, price: Price)
      requires Linked() && WellFormed(book) && id in ids && InBand(price)
      ensures bids.Length == TICKS && asks.Length == TICKS && ids[id] < pool.arena.Length
      ensures exists q :: Lists(LevelAt(side, price), pool.arena[..], q)
      ensures var order := pool.arena[ids[id]].order;
              forall q :: Lists(LevelAt(side, price), pool.arena[..], q) ==>
                Distinct(q) && (ids[id] in q <==> order.side == side && order.price == price)
    {
      hide Mapped, Position, Run, UniqueIds, DisjointIds;
      Locate(id);
      var order := Find(book, id).value;
      var q := Run(book.On(side), slots.On(side), side, price);
      assert Lists(LevelAt(side, price), pool.arena[..], q);
      RunHolds(book.On(side), slots.On(side), side, price, ids[id]);
      forall r | Lists(LevelAt(side, price), pool.arena[..], r) ensures r == q {
        ListsOnce(LevelAt(side, price), pool.arena[..], q, r);
      }
    }
  }

  /** A slot is in the run of a price exactly when the order it holds has that
      price. */
  lemma RunHolds(orders: seq<Order>, slots: seq<nat>, side: Side, price: Price, slot: nat)
    requires Ordered(side, orders) && |slots| == |orders| && Distinct(slots)
    ensures Distinct(Run(orders, slots, side, price))
    ensures slot in Run(orders, slots, side, price) <==>
            exists k :: 0 <= k < |slots| && slots[k] == slot && orders[k].price == price
  {
    hide Run, Front, Back, Ordered;
    RunElements(orders, slots, side, price);
    RunPrices(side, orders, price);
    var run, f := Run(orders, slots, side, price), Front(orders, side, price);
    if k :| 0 <= k < |slots| && slots[k] == slot && orders[k].price == price {
      assert run[k - f] == slot;
    }
  }

  function Occupied(levels: seq<Level>): set<int> {
    set t | 0 <= t < |levels| && levels[t].head != NIL
  }

  function Ticks(prices: set<Price>): set<int> {
    set p | p in prices :: p - MIN_PRICE
  }

  lemma {:induction false} TicksSize(prices: set<Price>)
    ensures |Ticks(prices)| == |prices|
  {
    if prices != {} {
      var x :| x in prices;
      TicksSize(prices - {x});
      forall t | t in Ticks(prices) ensures t in Ticks(prices - {x}) + {x - MIN_PRICE} {
        var p :| p in prices && t == p - MIN_PRICE;
        assert p == x || p in prices - {x};
      }
      assert Ticks(prices) == Ticks(prices - {x}) + {x - MIN_PRICE};
    }
  }

  lemma SideCaches(side: Side, orders: seq<Order>, slots: seq<nat>, arena: seq<Node>,
                   levels: seq<Level>, best: Price, count: nat)
    requires Ordered(side, orders) && SideRep(side, orders, slots, arena, levels, best, count)
    ensures |levels| == TICKS && count == |Occupied(levels)|
    ensures InBand(best)
    ensures if count == 0 then best == BestOf(side, []) else levels[best - MIN_PRICE].head != NIL
    ensures forall t :: 0 <= t < TICKS && !AsGood(side, best, MIN_PRICE + t) ==> levels[t].head == NIL
  {
    hide Ordered, Lists;
    forall t | 0 <= t < TICKS
      ensures levels[t].head != NIL <==> MIN_PRICE + t in Prices(orders)
      ensures levels[t].head != NIL ==> AsGood(side, best, MIN_PRICE + t)
    {
      LevelEmpty(side, orders, slots, arena, levels, MIN_PRICE + t);
      if levels[t].head != NIL { BestIsFirst(side, orders, MIN_PRICE + t); }
    }
    TicksSize(Prices(orders));
    forall t | t in Occupied(levels) ensures t in Ticks(Prices(orders)) {
      assert t == (MIN_PRICE + t) - MIN_PRICE;
    }
    assert Occupied(levels) == Ticks(Prices(orders));
    if orders != [] {
      PriceIn(orders, 0);
    }
  }

  function Below(n: nat): (s: set<nat>)
    ensures |s| == n && forall x: nat :: x in s <==> x < n
  {
    if n == 0 then {} else Below(n - 1) + {n - 1}
  }

  function Elements(q: seq<nat>): set<nat> {
    set x | x in q
  }

  lemma {:induction false} ElementsSize(q: seq<nat>)
    requires Distinct(q)
    ensures |Elements(q)| == |q|
  {
    if q != [] {
      var r, last := q[..|q| - 1], q[|q| - 1];
      ElementsSize(r);
      assert last !in r;
      assert Elements(q) == Elements(r) + {last};
    }
  }

  /** Distinct slots below n that miss one of them number fewer than n. */
  lemma Pigeonhole(q: seq<nat>, n: nat, missing: nat)
    requires Distinct(q) && (forall i :: 0 <= i < |q| ==> q[i] < n) && missing < n && missing !in q
    ensures |q| < n
  {
    ElementsSize(q);
    var some := Elements(q) + {missing};
    assert |some| == |q| + 1;
    assert some <= Below(n);
    assert |Below(n) - some| == |Below(n)| - |some|;
  }

  lemma Covered(free: seq<nat>, slots: Slots, capacity: nat, slot: nat)
    requires Pooled(free, slots, capacity) && Distinct(slots.bids) && Distinct(slots.asks) && slot < capacity
    requires forall i :: 0 <= i < |slots.bids| ==> slots.bids[i] < capacity
    requires forall i :: 0 <= i < |slots.asks| ==> slots.asks[i] < capacity
    ensures slot in free || slot in slots.bids || slot in slots.asks
  {
    if slot !in free && slot !in slots.bids && slot !in slots.asks {
      DistinctAppend(slots.bids, slots.asks);
      DistinctAppend(slots.bids + slots.asks, free);
      Pigeonhole(slots.bids + slots.asks + free, capacity, slot);
    }
  }

  lemma DistinctAppend(xs: seq<nat>, ys: seq<nat>)
    requires Distinct(xs) && Distinct(ys) && Apart(xs, ys)
    ensures Distinct(xs + ys)
  {
  }

  lemma SlotMapped(ids: map<OrderId, nat>, orders: seq<Order>, slots: seq<nat>, s: nat)
    requires MapsSide(ids, orders, slots) && s in slots
    ensures exists id :: id in ids && ids[id] == s
  {
    var i :| 0 <= i < |slots| && slots[i] == s;
    assert ids[orders[i].id] == s;
  }

  lemma IdsApart(ids: map<OrderId, nat>, book: Book, slots: Slots, x: OrderId, y: OrderId)
    requires Mapped(ids, book, slots) && Distinct(slots.bids) && Distinct(slots.asks) && Apart(slots.bids, slots.asks)
    requires x in ids && y in ids && ids[x] == ids[y]
    ensures x == y
  {
    hide Position;
    MappedFind(ids, book, slots, x);
    MappedFind(ids, book, slots, y);
  }

  lemma MapsBack(ids: map<OrderId, nat>, book: Book, slots: Slots)
    requires Mapped(ids, book, slots) && Distinct(slots.bids) && Distinct(slots.asks) && Apart(slots.bids, slots.asks)
    ensures forall s: nat :: s in slots.bids || s in slots.asks ==> exists id :: id in ids && ids[id] == s
    ensures forall id :: id in ids ==> ids[id] in slots.bids || ids[id] in slots.asks
    ensures forall x, y :: x in ids && y in ids && ids[x] == ids[y] ==> x == y
  {
    hide Position, MapsSide, Distinct, Apart, Rests;
    forall s: nat | s in slots.bids || s in slots.asks ensures exists id :: id in ids && ids[id] == s {
      if s in slots.bids {
        SlotMapped(ids, book.bids, slots.bids, s);
      } else {
        SlotMapped(ids, book.asks, slots.asks, s);
      }
    }
    forall x, y | x in ids && y in ids && ids[x] == ids[y] ensures x == y {
      IdsApart(ids, book, slots, x, y);
    }
    forall id | id in ids ensures ids[id] in slots.bids || ids[id] in slots.asks {
      MappedFind(ids, book, slots, id);
      MapsSizes(ids, book, slots);
    }
  }

  lemma MapsSizes(ids: map<OrderId, nat>, book: Book, slots: Slots)
    requires Mapped(ids, book, slots)
    ensures |slots.bids| == |book.bids| && |slots.asks| == |book.asks|
  {
  }

  lemma ReenterHandled(without: Book, req: Request, orig: Order, open: Quantity)
    ensures Reenter(without, req, orig, open).handled
  {
  }

  lemma PutMatch(book: Book, order: Order)
    ensures Put(book, order).nextMatch == book.nextMatch
  {
  }

  lemma ReenterCases(without: Book, req: Request, orig: Order, open: Quantity)
    ensures var replaced := Event(Replaced, req.newOrderId, orig.id, 0, req.clientId, req.price, open, NO_REASON, false);
            var a := Aggressor(req.newOrderId, req.clientId, orig.side, Limit, req.price);
            var o := Reenter(without, req, orig, open);
            if req.timeInForce == Day && !Crosses(a, without.On(Opposite(orig.side))) then
              && o.book == Put(without, Order(req.newOrderId, req.clientId, orig.side, req.price, open, orig.executed))
              && o.events == [replaced]
              && o.itch == [OrderReplace(orig.id, req.newOrderId, open, ToItchPrice(req.price))]
            else
              var t := TradeAndRest(without, a, open, orig.executed, req.timeInForce == Day);
              o.book == t.book && o.events == [replaced] + t.events && o.itch == [OrderDelete(orig.id)] + t.itch
  {
  }

  lemma AnswerFirst(out: seq<Event>, first: Event, rest: seq<Event>)
    ensures out + [first.(answersRequest := true)] + rest == out + MarkAnswer([first] + rest)
    ensures out + [first.(answersRequest := true)] == out + MarkAnswer([first])
    ensures out + MarkAnswer([]) == out
  {
    assert ([first] + rest)[1..] == rest;
  }

  lemma PublishFirst(published: seq<Itch>, first: Itch, rest: seq<Itch>)
    ensures published + [first] + rest == published + ([first] + rest)
  {
  }

  lemma EnterCases(book: Book, capacity: nat, req: Request)
    ensures var o := BookSpec.Enter(book, capacity, req);
            if Rests(book, req.orderId) then o == Ignored(book)
            else if MayRest(req) && capacity <= book.Size() then
              o == Outcome(book, [Event(Rejected, req.orderId, 0, 0, req.clientId, 0, 0, BOOK_FULL, false)], [], true)
            else
              var a := Aggressor(req.orderId, req.clientId, req.side, req.orderType, req.price);
              var t := TradeAndRest(book, a, req.quantity, 0, MayRest(req));
              var accepted := Event(Accepted, req.orderId, 0, 0, req.clientId, req.price, req.quantity, NO_REASON, false);
              o == Outcome(t.book, [accepted] + t.events, t.itch, t.handled)
  {
  }

  /** The book a replacement enters: the original gone, everything else kept. */
  lemma WithoutKeeps(book: Book, orig: Order, newId: OrderId)
    requires WellFormed(book) && Uncrossed(book) && Find(book, orig.id) == Some(orig) && !Rests(book, newId)
    ensures var without := Take(book, orig.side, orig.id);
            && WellFormed(without) && Uncrossed(without) && !Rests(without, newId)
            && without.Size() == book.Size() - 1
  {
    hide WellFormed, Uncrossed, Find, Take;
    RestsIff(book, newId);
    TakeKeeps(book, orig.side, orig.id);
    TakeAbsent(book, orig.side, orig.id, newId);
    TakeSize(book, orig);
    RestsIff(Take(book, orig.side, orig.id), newId);
  }

  /** A walk's result with earlier fills put in front of it. */
  function Extend(t: Trades, filled: Quantity, events: seq<Event>, itch: seq<Itch>): Trades {
    t.(filled := filled + t.filled, events := events + t.events, itch := itch + t.itch)
  }

  lemma ExtendNothing(t: Trades)
    ensures Extend(t, 0, [], []) == t
  {
  }

  lemma ExtendTwice(t: Trades, f2: Quantity, e2: seq<Event>, i2: seq<Itch>, f1: Quantity, e1: seq<Event>, i1: seq<Itch>)
    ensures Extend(Extend(t, f2, e2, i2), f1, e1, i1) == Extend(t, f1 + f2, e1 + e2, i1 + i2)
  {
    assert e1 + (e2 + t.events) == e1 + e2 + t.events;
    assert i1 + (i2 + t.itch) == i1 + i2 + t.itch;
  }

  /** A fill leaves the side live, and the walk nearer its end. */
  lemma HitLive(side: Side, opposite: seq<Order>, shares: Quantity)
    requires Live(side, opposite) && opposite != [] && shares <= opposite[0].open
    ensures Live(side, Hit(opposite, shares)) && |Hit(opposite, shares)| <= |opposite| && opposite[0].open > 0
  {
  }

  /** A fill of the front order, as the arena sees it: overwritten, and removed if
      nothing is left of it. */
  lemma FrontFill(book: Book, side: Side, fill: Quantity)
    requires Live(side, book.On(side)) && book.On(side) != [] && fill <= book.On(side)[0].open
    ensures var orders := book.On(side);
            var filled := orders[0 := Fill(orders[0], fill)];
            && filled[0].side == side
            && Hit(orders, fill) == if fill == orders[0].open then RemoveAt(filled, 0) else filled
  {
    var orders := book.On(side);
    assert orders[0 := Fill(orders[0], fill)][1..] == orders[1..];
  }

  lemma CrossesFront(a: Aggressor, opposite: seq<Order>)
    requires Crosses(a, opposite)
    ensures opposite != []
  {
  }

  lemma WalkStep(a: Aggressor, quantity: Quantity, opposite: seq<Order>, m: nat)
    requires quantity > 0 && Crosses(a, opposite)
    ensures var shares := Min(quantity, opposite[0].open);
            Walk(a, quantity, opposite, m) ==
            Extend(Walk(a, quantity - shares, Hit(opposite, shares), m + 1), shares,
                   TradeEvents(a, opposite[0], shares, m), [OrderExecuted(opposite[0].id, shares, m)])
  {
  }

  lemma WalkDone(a: Aggressor, quantity: Quantity, opposite: seq<Order>, m: nat)
    requires quantity == 0 || !Crosses(a, opposite)
    ensures Walk(a, quantity, opposite, m) == Trades(opposite, 0, m, [], [])
  {
  }

  /** Writing a slot a side does not hold leaves that side alone. */
  lemma Elsewhere(side: Side, orders: seq<Order>, slots: seq<nat>, before: seq<Node>, after: seq<Node>,
                  levels: seq<Level>, best: Price, count: nat, slot: nat)
    requires SideRep(side, orders, slots, before, levels, best, count)
    requires slot < |before| && |after| == |before| && after == before[slot := after[slot]] && slot !in slots
    ensures SideRep(side, orders, slots, after, levels, best, count)
  {
    hide Threaded;
    SideFrame(side, orders, slots, before, after, levels, best, count);
  }

  lemma EmptySide(side: Side, arena: seq<Node>, levels: seq<Level>)
    requires |levels| == TICKS && forall t :: 0 <= t < TICKS ==> levels[t] == EMPTY_LEVEL
    ensures SideRep(side, [], [], arena, levels, BestOf(side, []), 0)
  {
    forall price: nat | InBand(price)
      ensures Lists(levels[price - MIN_PRICE], arena, BookRep.Run([], [], side, price))
    {
      assert levels[price - MIN_PRICE] == EMPTY_LEVEL;
    }
  }

  lemma SlotOf(side: Side, orders: seq<Order>, slots: seq<nat>, arena: seq<Node>,
               levels: seq<Level>, best: Price, count: nat, k: nat)
    requires SideRep(side, orders, slots, arena, levels, best, count) && k < |slots|
    ensures |slots| == |orders| && slots[k] < |arena| && arena[slots[k]].order == orders[k] && InBand(orders[k].price)
    ensures Distinct(slots)
  {
  }

  /** One side's list surgery leaves the other side alone. */
  lemma OtherSide(side: Side, orders: seq<Order>, slots: seq<nat>, before: seq<Node>, after: seq<Node>,
                  levels: seq<Level>, best: Price, count: nat, touched: seq<nat>)
    requires SideRep(side, orders, slots, before, levels, best, count)
    requires OnlyLinksOf(touched, before, after) && (Apart(slots, touched) || Apart(touched, slots))
    ensures SideRep(side, orders, slots, after, levels, best, count)
  {
    hide Threaded;
    SideFrame(side, orders, slots, before, after, levels, best, count);
  }
}
