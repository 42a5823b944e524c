/** How the ladder of linked lists, with its cached best price and level count,
    represents one side of the reference book. */
module BookRep {
  import opened EngineTypes
  import opened BookSpec
  import opened BookLaws
  import opened PriceLevelQueue

  /** The first place whose order is no better than price. */
  function Front(orders: seq<Order>, side: Side, price: Price): (p: nat)
    ensures p <= Back(orders, side, price)
    ensures p < |orders| ==> AsGood(side, price, orders[p].price)
    ensures forall i :: 0 <= i < p ==> !AsGood(side, price, orders[i].price)
  {
    if orders == [] || AsGood(side, price, orders[0].price) then 0
    else 1 + Front(orders[1..], side, price)
  }

  /** The slots resting at price, oldest first. */
  function Run(orders: seq<Order>, slots: seq<nat>, side: Side, price: Price): seq<nat>
    requires |slots| == |orders|
  {
    slots[Front(orders, side, price)..Back(orders, side, price)]
  }

  function Prices(orders: seq<Order>): set<Price> {
    set i | 0 <= i < |orders| :: orders[i].price
  }

  /** The cached best price a side should have; a default when it is empty. */
  function BestOf(side: Side, orders: seq<Order>): Price {
    if orders != [] then orders[0].price else if side == Bid then MIN_PRICE else MAX_PRICE
  }

  /** slots holds orders, in order, in distinct arena slots. */
  ghost predicate Holds(orders: seq<Order>, slots: seq<nat>, arena: seq<Node>) {
    && |slots| == |orders| && Distinct(slots)
    && (forall i :: 0 <= i < |slots| ==> slots[i] < |arena| && arena[slots[i]].order == orders[i])
  }

  /** Every level's list is exactly the run of orders resting at its price. */
  ghost predicate Threaded(side: Side, orders: seq<Order>, slots: seq<nat>, arena: seq<Node>, levels: seq<Level>)
    requires |slots| == |orders|
  {
    && |levels| == TICKS
    && (forall price: nat {:trigger Run(orders, slots, side, price)} :: InBand(price) ==>
          Lists(levels[price - MIN_PRICE], arena, Run(orders, slots, side, price)))
  }

  ghost predicate Banded(orders: seq<Order>) {
    forall i :: 0 <= i < |orders| ==> InBand(orders[i].price)
  }

  ghost predicate SideRep(side: Side, orders: seq<Order>, slots: seq<nat>, arena: seq<Node>,
                          levels: seq<Level>, best: Price, count: nat) {
    && Holds(orders, slots, arena)
    && Banded(orders)
    && Threaded(side, orders, slots, arena, levels)
    && best == BestOf(side, orders)
    && count == |Prices(orders)|
  }

  //--- runs ---

  lemma FrontIs(orders: seq<Order>, side: Side, price: Price, p: nat)
    requires p <= |orders|
    requires forall i :: 0 <= i < p ==> !AsGood(side, price, orders[i].price)
    requires p < |orders| ==> AsGood(side, price, orders[p].price)
    ensures Front(orders, side, price) == p
  {
  }

  /** A run is exactly the orders at its price. */
  lemma RunPrices(side: Side, orders: seq<Order>, price: Price)
    requires Ordered(side, orders)
    ensures forall i :: 0 <= i < |orders| ==>
              (orders[i].price == price <==> Front(orders, side, price) <= i < Back(orders, side, price))
    ensures Front(orders, side, price) == Back(orders, side, price) <==> price !in Prices(orders)
  {
    hide Front, Back;
    var f, b := Front(orders, side, price), Back(orders, side, price);
    forall i | 0 <= i < |orders|
      ensures orders[i].price == price <==> f <= i < b
    {
      if f < i { assert AsGood(side, orders[f].price, orders[i].price); }
      if b < i { assert AsGood(side, orders[b].price, orders[i].price); }
    }
    if f < b {
      assert orders[f].price == price;
    }
  }

  lemma InsertSlice<T>(s: seq<T>, p: nat, x: T, f: nat, b: nat)
    requires f <= b <= |s| && p <= |s|
    ensures b <= p ==> InsertAt(s, p, x)[f..b] == s[f..b]
    ensures p <= f ==> InsertAt(s, p, x)[f + 1..b + 1] == s[f..b]
    ensures p == b ==> InsertAt(s, p, x)[f..b + 1] == s[f..b] + [x]
  {
  }

  lemma InsertFront(side: Side, orders: seq<Order>, order: Order, price: Price)
    requires Ordered(side, orders)
    ensures var p := Back(orders, side, order.price);
            var f := Front(orders, side, price);
            var f' := Front(InsertAt(orders, p, order), side, price);
            if AsGood(side, price, order.price) then f <= p && f' == f else p <= f && f' == f + 1
  {
    hide Front, Back;
    var p := Back(orders, side, order.price);
    var f := Front(orders, side, price);
    InsertElements(orders, p, order);
    if AsGood(side, price, order.price) {
      assert f <= p;
      FrontIs(InsertAt(orders, p, order), side, price, f);
    } else {
      assert p <= f;
      FrontIs(InsertAt(orders, p, order), side, price, f + 1);
    }
  }

  lemma InsertBack(side: Side, orders: seq<Order>, order: Order, price: Price)
    requires Ordered(side, orders)
    ensures var p := Back(orders, side, order.price);
            var b := Back(orders, side, price);
            var b' := Back(InsertAt(orders, p, order), side, price);
            if AsGood(side, order.price, price) then p <= b && b' == b + 1 else b <= p && b' == b
  {
    hide Back;
    var p := Back(orders, side, order.price);
    var b := Back(orders, side, price);
    InsertElements(orders, p, order);
    if AsGood(side, order.price, price) {
      assert p <= b;
      BackIs(InsertAt(orders, p, order), side, price, b + 1);
    } else {
      assert b <= p;
      BackIs(InsertAt(orders, p, order), side, price, b);
    }
  }

  /** Putting an order at the back of its price extends that run only. */
  lemma InsertRun(side: Side, orders: seq<Order>, slots: seq<nat>, order: Order, slot: nat, price: Price)
    requires Ordered(side, orders) && |slots| == |orders|
    ensures var p := Back(orders, side, order.price);
            Run(InsertAt(orders, p, order), InsertAt(slots, p, slot), side, price)
            == Run(orders, slots, side, price) + (if price == order.price then [slot] else [])
  {
    hide Front, Back, Ordered;
    InsertFront(side, orders, order, price);
    InsertBack(side, orders, order, price);
    var p := Back(orders, side, order.price);
    InsertSlice(slots, p, slot, Front(orders, side, price), Back(orders, side, price));
  }

  lemma RemoveSlice<T>(s: seq<T>, k: nat, f: nat, b: nat)
    requires f <= b <= |s| && k < |s|
    ensures b <= k ==> RemoveAt(s, k)[f..b] == s[f..b]
    ensures k < f ==> RemoveAt(s, k)[f - 1..b - 1] == s[f..b]
    ensures f <= k < b ==> RemoveAt(s, k)[f..b - 1] == RemoveAt(s[f..b], k - f)
  {
    hide RemoveAt;
    RemoveElements(s, k);
    var r := RemoveAt(s, k);
    if f <= k < b {
      RemoveElements(s[f..b], k - f);
      var run := RemoveAt(s[f..b], k - f);
      forall i | 0 <= i < b - 1 - f ensures r[f..b - 1][i] == run[i] {
        assert r[f + i] == s[if f + i < k then f + i else f + i + 1];
        assert run[i] == s[f..b][if i < k - f then i else i + 1];
      }
    } else if k < f {
      assert forall i :: 0 <= i < b - f ==> r[f - 1..b - 1][i] == s[f..b][i];
    }
  }

  lemma RemoveFront(side: Side, orders: seq<Order>, k: nat, price: Price)
    requires Ordered(side, orders) && k < |orders|
    ensures var f := Front(orders, side, price);
            Front(RemoveAt(orders, k), side, price) == if k < f then f - 1 else f
  {
    hide Front, Back;
    var f := Front(orders, side, price);
    RemoveElements(orders, k);
    if k == f && f + 1 < |orders| {
      assert AsGood(side, orders[f].price, orders[f + 1].price);
    }
    FrontIs(RemoveAt(orders, k), side, price, if k < f then f - 1 else f);
  }

  lemma RemoveBack(side: Side, orders: seq<Order>, k: nat, price: Price)
    requires Ordered(side, orders) && k < |orders|
    ensures var b := Back(orders, side, price);
            Back(RemoveAt(orders, k), side, price) == if k < b then b - 1 else b
  {
    hide Back;
    var b := Back(orders, side, price);
    RemoveElements(orders, k);
    if k == b && b + 1 < |orders| {
      assert AsGood(side, orders[b].price, orders[b + 1].price);
    }
    BackIs(RemoveAt(orders, k), side, price, if k < b then b - 1 else b);
  }

  /** Removing an order shortens its own run only. */
  lemma RemoveRun(side: Side, orders: seq<Order>, slots: seq<nat>, k: nat, price: Price)
    requires Ordered(side, orders) && |slots| == |orders| && k < |orders|
    ensures var f := Front(orders, side, price);
            var run := Run(orders, slots, side, price);
            && (price == orders[k].price <==> f <= k < f + |run|)
            && Run(RemoveAt(orders, k), RemoveAt(slots, k), side, price)
               == (if price == orders[k].price then RemoveAt(run, k - f) else run)
  {
    hide Front, Back, Ordered, AsGood;
    RunPrices(side, orders, price);
    RemoveFront(side, orders, k, price);
    RemoveBack(side, orders, k, price);
    RemoveSlice(slots, k, Front(orders, side, price), Back(orders, side, price));
  }

  /** Changing an order's shares moves nothing. */
  lemma UpdateRun(side: Side, orders: seq<Order>, slots: seq<nat>, k: nat, order: Order, price: Price)
    requires |slots| == |orders| && k < |orders| && order.price == orders[k].price
    ensures Run(orders[k := order], slots, side, price) == Run(orders, slots, side, price)
  {
    FrontIs(orders[k := order], side, price, Front(orders, side, price));
    BackIs(orders[k := order], side, price, Back(orders, side, price));
  }

  //--- what each change does to a side's representation ---

  /** A side is unaffected by changes to slots it does not hold. */
  lemma SameLists(level: Level, before: seq<Node>, after: seq<Node>, q: seq<nat>)
    requires Lists(level, before, q) && |after| == |before|
    requires forall i :: 0 <= i < |q| ==> q[i] < |before| && after[q[i]] == before[q[i]]
    ensures Lists(level, after, q)
  {
  }

  lemma RunFrom(orders: seq<Order>, slots: seq<nat>, side: Side, price: Price, i: nat)
    requires |slots| == |orders| && i < |Run(orders, slots, side, price)|
    ensures var f := Front(orders, side, price);
            f + i < |slots| && Run(orders, slots, side, price)[i] == slots[f + i]
  {
    hide Front, Back;
  }

  lemma SideFrame(side: Side, orders: seq<Order>, slots: seq<nat>, before: seq<Node>, after: seq<Node>,
                  levels: seq<Level>, best: Price, count: nat)
    requires SideRep(side, orders, slots, before, levels, best, count)
    requires |after| == |before| && forall i :: 0 <= i < |slots| ==> after[slots[i]] == before[slots[i]]
    ensures SideRep(side, orders, slots, after, levels, best, count)
  {
    hide Run, Lists;
    forall price: nat | InBand(price)
      ensures Lists(levels[price - MIN_PRICE], after, Run(orders, slots, side, price))
    {
      var run := Run(orders, slots, side, price);
      forall i | 0 <= i < |run| ensures run[i] < |before| && after[run[i]] == before[run[i]] {
        RunFrom(orders, slots, side, price, i);
      }
      SameLists(levels[price - MIN_PRICE], before, after, run);
    }
  }

  lemma InsertHolds(orders: seq<Order>, slots: seq<nat>, arena: seq<Node>, p: nat, order: Order, slot: nat)
    requires Holds(orders, slots, arena) && p <= |orders|
    requires slot < |arena| && slot !in slots && arena[slot].order == order
    ensures Holds(InsertAt(orders, p, order), InsertAt(slots, p, slot), arena)
  {
    InsertElements(orders, p, order);
    InsertElements(slots, p, slot);
  }

  lemma RemoveHolds(orders: seq<Order>, slots: seq<nat>, arena: seq<Node>, k: nat)
    requires Holds(orders, slots, arena) && k < |orders|
    ensures Holds(RemoveAt(orders, k), RemoveAt(slots, k), arena)
  {
    RemoveElements(orders, k);
    RemoveElements(slots, k);
  }

  lemma InsertPrices(orders: seq<Order>, p: nat, order: Order)
    requires p <= |orders|
    ensures Prices(InsertAt(orders, p, order)) == Prices(orders) + {order.price}
  {
    var after := InsertAt(orders, p, order);
    InsertElements(orders, p, order);
    assert after[p].price == order.price;
    forall i | 0 <= i < |orders| ensures orders[i].price in Prices(after) {
      assert orders[i] == after[if i < p then i else i + 1];
    }
  }

  lemma SizeWith(prices: set<Price>, price: Price)
    ensures |prices + {price}| == |prices| + if price in prices then 0 else 1
  {
    if price in prices { assert prices + {price} == prices; }
  }

  lemma RemovePrices(orders: seq<Order>, k: nat)
    requires k < |orders|
    ensures Prices(orders) == Prices(RemoveAt(orders, k)) + {orders[k].price}
  {
    var after := RemoveAt(orders, k);
    RemoveElements(orders, k);
    forall i | 0 <= i < |orders| && i != k ensures orders[i].price in Prices(after) {
      assert orders[i] == after[if i < k then i else i - 1];
    }
  }

  /** Where slot i of a run stands in the whole side. */
  lemma RunElements(orders: seq<Order>, slots: seq<nat>, side: Side, price: Price)
    requires |slots| == |orders|
    ensures var run := Run(orders, slots, side, price);
            var f := Front(orders, side, price);
            && f + |run| == Back(orders, side, price)
            && (forall i :: 0 <= i < |run| ==> run[i] == slots[f + i])
            && (Distinct(slots) ==> Distinct(run))
  {
  }

  /** Runs at different prices share no slot. */
  lemma RunsApart(side: Side, orders: seq<Order>, slots: seq<nat>, p: Price, q: Price)
    requires Ordered(side, orders) && |slots| == |orders| && Distinct(slots) && p != q
    ensures forall i, j :: 0 <= i < |Run(orders, slots, side, p)| && 0 <= j < |Run(orders, slots, side, q)|
              ==> Run(orders, slots, side, p)[i] != Run(orders, slots, side, q)[j]
  {
    hide Run, Front, Back;
    RunElements(orders, slots, side, p);
    RunElements(orders, slots, side, q);
    RunPrices(side, orders, p);
    RunPrices(side, orders, q);
  }

  /** Pushing a slot on the level of its price threads it at the back of that
      price in the side's order. */
  lemma ThreadedInsert(side: Side, orders: seq<Order>, slots: seq<nat>, before: seq<Node>, after: seq<Node>,
                       levels: seq<Level>, levels': seq<Level>, order: Order, slot: nat)
    requires Ordered(side, orders) && |slots| == |orders| && Distinct(slots) && slot !in slots
    requires Threaded(side, orders, slots, before, levels) && InBand(order.price)
    requires var run := Run(orders, slots, side, order.price);
             var t := order.price - MIN_PRICE;
             && |levels'| == |levels| && levels' == levels[t := levels'[t]]
             && Lists(levels'[t], after, run + [slot])
             && OnlyLinksOf(run + [slot], before, after)
    ensures var p := Back(orders, side, order.price);
            Threaded(side, InsertAt(orders, p, order), InsertAt(slots, p, slot), after, levels')
  {
    hide Lists, Ordered, Front, Back, OnlyLinksOf;
    var p := Back(orders, side, order.price);
    forall price: nat | InBand(price)
      ensures Lists(levels'[price - MIN_PRICE], after,
                    Run(InsertAt(orders, p, order), InsertAt(slots, p, slot), side, price))
    {
      InsertRun(side, orders, slots, order, slot, price);
      if price != order.price {
        var run := Run(orders, slots, side, price);
        var touched := Run(orders, slots, side, order.price) + [slot];
        RunsApart(side, orders, slots, price, order.price);
        RunElements(orders, slots, side, price);
        assert forall i :: 0 <= i < |run| ==> run[i] !in touched;
        ListsFrame(levels[price - MIN_PRICE], before, after, touched, run);
        assert run + [] == run;
      }
    }
  }

  /** Unlinking a slot from the level of its price removes it from the side. */
  lemma ThreadedRemove(side: Side, orders: seq<Order>, slots: seq<nat>, before: seq<Node>, after: seq<Node>,
                       levels: seq<Level>, levels': seq<Level>, k: nat)
    requires Ordered(side, orders) && |slots| == |orders| && Distinct(slots) && k < |orders|
    requires Threaded(side, orders, slots, before, levels) && InBand(orders[k].price)
    requires var run := Run(orders, slots, side, orders[k].price);
             var f := Front(orders, side, orders[k].price);
             var t := orders[k].price - MIN_PRICE;
             && f <= k < f + |run|
             && |levels'| == |levels| && levels' == levels[t := levels'[t]]
             && Lists(levels'[t], after, RemoveAt(run, k - f))
             && OnlyLinksOf(run, before, after)
    ensures Threaded(side, RemoveAt(orders, k), RemoveAt(slots, k), after, levels')
  {
    hide Lists, Ordered, Front, Back, OnlyLinksOf;
    forall price: nat | InBand(price)
      ensures Lists(levels'[price - MIN_PRICE], after, Run(RemoveAt(orders, k), RemoveAt(slots, k), side, price))
    {
      RemoveRun(side, orders, slots, k, price);
      if price != orders[k].price {
        var run := Run(orders, slots, side, price);
        var touched := Run(orders, slots, side, orders[k].price);
        RunsApart(side, orders, slots, price, orders[k].price);
        assert forall i :: 0 <= i < |run| ==> run[i] !in touched;
        ListsFrame(levels[price - MIN_PRICE], before, after, touched, run);
      }
    }
  }

  lemma ThreadedUpdate(side: Side, orders: seq<Order>, slots: seq<nat>, before: seq<Node>, after: seq<Node>,
                       levels: seq<Level>, k: nat, order: Order)
    requires |slots| == |orders| && k < |orders| && order.price == orders[k].price
    requires Threaded(side, orders, slots, before, levels)
    requires |after| == |before|
    requires forall i :: 0 <= i < |before| ==> after[i].prev == before[i].prev && after[i].next == before[i].next
    ensures Threaded(side, orders[k := order], slots, after, levels)
  {
    hide Front, Back;
    forall price: nat | InBand(price)
      ensures Lists(levels[price - MIN_PRICE], after, Run(orders[k := order], slots, side, price))
    {
      UpdateRun(side, orders, slots, k, order, price);
      assert Lists(levels[price - MIN_PRICE], before, Run(orders, slots, side, price));
    }
  }

  lemma UpdatePrices(orders: seq<Order>, k: nat, order: Order)
    requires k < |orders| && order.price == orders[k].price
    ensures Prices(orders[k := order]) == Prices(orders)
  {
    forall i | 0 <= i < |orders| ensures orders[i].price == orders[k := order][i].price {}
  }

  lemma UpdateSide(side: Side, orders: seq<Order>, slots: seq<nat>, before: seq<Node>,
                   levels: seq<Level>, best: Price, count: nat, k: nat, order: Order)
    requires SideRep(side, orders, slots, before, levels, best, count)
    requires k < |orders| && order.price == orders[k].price
    ensures SideRep(side, orders[k := order], slots, before[slots[k] := before[slots[k]].(order := order)],
                    levels, best, count)
  {
    hide Threaded;
    ThreadedUpdate(side, orders, slots, before, before[slots[k] := before[slots[k]].(order := order)], levels, k, order);
    UpdatePrices(orders, k, order);
  }

  /** A level is empty exactly when nothing rests at its price. */
  lemma LevelEmpty(side: Side, orders: seq<Order>, slots: seq<nat>, arena: seq<Node>, levels: seq<Level>, price: Price)
    requires Ordered(side, orders) && |slots| == |orders| && Threaded(side, orders, slots, arena, levels) && InBand(price)
    ensures levels[price - MIN_PRICE].head == NIL <==> Run(orders, slots, side, price) == []
    ensures levels[price - MIN_PRICE].head == NIL <==> price !in Prices(orders)
  {
    hide Front, Back, Prices, Ordered;
    RunPrices(side, orders, price);
    assert Lists(levels[price - MIN_PRICE], arena, Run(orders, slots, side, price));
  }

  /** The scan for the next best price after a level empties. */
  method UpdateBest(side: Side, levels: array<Level>, best: Price,
                    ghost orders: seq<Order>, ghost slots: seq<nat>, ghost arena: seq<Node>) returns (r: Price)
    requires Ordered(side, orders) && Banded(orders) && |slots| == |orders| && orders != []
    requires Threaded(side, orders, slots, arena, levels[..])
    requires InBand(best) && AsGood(side, best, orders[0].price)
    ensures r == orders[0].price
  {
    hide Threaded, Run, Prices;
    r := best;
    assert levels.Length == |levels[..]| == TICKS by { ThreadedLength(side, orders, slots, arena, levels[..]); }
    assert levels[..][orders[0].price - MIN_PRICE].head != NIL by {
      LevelEmpty(side, orders, slots, arena, levels[..], orders[0].price);
      PriceIn(orders, 0);
    }
    while (if side == Bid then r > MIN_PRICE else r < MAX_PRICE) && levels[r - MIN_PRICE].head == NIL
      invariant InBand(r) && AsGood(side, r, orders[0].price)
      decreases if side == Bid then r - MIN_PRICE else MAX_PRICE - r
    {
      r := if side == Bid then r - 1 else r + 1;
    }
    if levels[..][r - MIN_PRICE].head != NIL {
      LevelEmpty(side, orders, slots, arena, levels[..], r);
      BestIsFirst(side, orders, r);
    }
  }

  lemma ThreadedLength(side: Side, orders: seq<Order>, slots: seq<nat>, arena: seq<Node>, levels: seq<Level>)
    requires |slots| == |orders| && Threaded(side, orders, slots, arena, levels)
    ensures |levels| == TICKS
  {
  }

  lemma PriceIn(orders: seq<Order>, i: nat)
    requires i < |orders|
    ensures orders[i].price in Prices(orders)
  {
  }

  /** The front of a queue is the best price on it. */
  lemma BestIsFirst(side: Side, orders: seq<Order>, price: Price)
    requires Ordered(side, orders) && price in Prices(orders)
    ensures AsGood(side, orders[0].price, price)
  {
  }

  lemma InsertSide(side: Side, orders: seq<Order>, slots: seq<nat>, before: seq<Node>, after: seq<Node>,
                   levels: seq<Level>, levels': seq<Level>, best: Price, count: nat, order: Order, slot: nat)
    requires Ordered(side, orders) && SideRep(side, orders, slots, before, levels, best, count)
    requires InBand(order.price) && slot < |before| && slot !in slots && before[slot].order == order
    requires var run := Run(orders, slots, side, order.price);
             var t := order.price - MIN_PRICE;
             && |levels'| == |levels| && levels' == levels[t := levels'[t]]
             && Lists(levels'[t], after, run + [slot])
             && OnlyLinksOf(run + [slot], before, after)
    ensures var p := Back(orders, side, order.price);
            SideRep(side, InsertAt(orders, p, order), InsertAt(slots, p, slot), after, levels',
                    if !AsGood(side, best, order.price) then order.price else best,
                    if levels[order.price - MIN_PRICE].head == NIL then count + 1 else count)
  {
    hide Front, Back, Lists, Prices, Ordered, Run, Threaded;
    var p := Back(orders, side, order.price);
    var run := Run(orders, slots, side, order.price);
    LevelEmpty(side, orders, slots, before, levels, order.price);
    ThreadedInsert(side, orders, slots, before, after, levels, levels', order, slot);
    InsertPrices(orders, p, order);
    SizeWith(Prices(orders), order.price);
    HoldsFrame(orders, slots, before, after, run + [slot]);
    InsertHolds(orders, slots, after, p, order, slot);
    InsertBest(side, orders, order);
  }

  /** Threads an allocated slot at the back of its price level. */
  method RestOn(side: Side, levels: array<Level>, arena: array<Node>, slot: nat, order: Order,
                best: Price, count: nat, ghost orders: seq<Order>, ghost slots: seq<nat>)
    returns (best': Price, count': nat)
    requires Ordered(side, orders) && SideRep(side, orders, slots, arena[..], levels[..], best, count)
    requires InBand(order.price) && slot < arena.Length && slot !in slots
    requires arena[slot] == Node(order, NIL, NIL)
    modifies levels, arena
    ensures var p := Back(orders, side, order.price);
            SideRep(side, InsertAt(orders, p, order), InsertAt(slots, p, slot), arena[..], levels[..], best', count')
    ensures OnlyLinksOf(slots + [slot], old(arena[..]), arena[..])
  {
    hide Front, Back, Lists, OnlyLinksOf, Prices, Ordered, Run;
    ghost var run := Run(orders, slots, side, order.price);
    var t := order.price - MIN_PRICE;
    RunElements(orders, slots, side, order.price);
    count' := if levels[t].head == NIL then count + 1 else count;
    Push(levels, t, arena, slot, run);
    best' := if !AsGood(side, best, order.price) then order.price else best;
    InsertSide(side, orders, slots, old(arena[..]), arena[..], old(levels[..]), levels[..], best, count, order, slot);
    OnlyLinksWiden(run + [slot], slots + [slot], old(arena[..]), arena[..]);
  }

  /** Unthreads the order at place k of its side; the cached best price moves on
      when its level empties. */
  method UnlinkFrom(side: Side, levels: array<Level>, arena: array<Node>, slot: nat,
                    best: Price, count: nat, ghost orders: seq<Order>, ghost slots: seq<nat>, ghost k: nat)
    returns (best': Price, count': nat)
    requires Ordered(side, orders) && SideRep(side, orders, slots, arena[..], levels[..], best, count)
    requires k < |slots| && slots[k] == slot
    modifies levels, arena
    ensures SideRep(side, RemoveAt(orders, k), RemoveAt(slots, k), arena[..], levels[..], best', count')
    ensures OnlyLinksOf(slots, old(arena[..]), arena[..])
  {
    hide Front, Back, Lists, OnlyLinksOf, Prices, Ordered, Run;
    var price := arena[slot].order.price;
    ghost var run := Run(orders, slots, side, price);
    ghost var f := Front(orders, side, price);
    var t := price - MIN_PRICE;
    RunElements(orders, slots, side, price);
    RunPrices(side, orders, price);
    Remove(levels, t, arena, slot, run, k - f);
    best', count' := best, count;
    RemoveSide(side, orders, slots, old(arena[..]), arena[..], old(levels[..]), levels[..], count, k);
    OnlyLinksWiden(run, slots, old(arena[..]), arena[..]);
    if levels[t].head == NIL {
      count' := count - 1;
      if count' == 0 {
        best' := if side == Bid then MIN_PRICE else MAX_PRICE;
      } else if price == best {
        best' := UpdateBest(side, levels, best, RemoveAt(orders, k), RemoveAt(slots, k), arena[..]);
      }
    }
  }

  /** Everything but the cached best price, once place k is unlinked. */
  lemma RemoveSide(side: Side, orders: seq<Order>, slots: seq<nat>, before: seq<Node>, after: seq<Node>,
                   levels: seq<Level>, levels': seq<Level>, count: nat, k: nat)
    requires Ordered(side, orders) && SideRep(side, orders, slots, before, levels, BestOf(side, orders), count)
    requires k < |orders|
    requires var price := orders[k].price;
             var run := Run(orders, slots, side, price);
             var f := Front(orders, side, price);
             var t := price - MIN_PRICE;
             && f <= k < f + |run|
             && |levels'| == |levels| && levels' == levels[t := levels'[t]]
             && Lists(levels'[t], after, RemoveAt(run, k - f))
             && OnlyLinksOf(run, before, after)
    ensures var orders' := RemoveAt(orders, k);
            var slots' := RemoveAt(slots, k);
            var emptied := levels'[orders[k].price - MIN_PRICE].head == NIL;
            && Ordered(side, orders') && Holds(orders', slots', after) && Banded(orders')
            && Threaded(side, orders', slots', after, levels')
            && count == |Prices(orders')| + (if emptied then 1 else 0)
            && (orders' == [] <==> |Prices(orders')| == 0)
            && (orders' != [] ==> AsGood(side, orders[0].price, orders'[0].price))
            && (!emptied || orders[k].price != orders[0].price ==> orders' != [] && orders'[0].price == orders[0].price)
  {
    hide Front, Back, Lists, Prices, Ordered, Run, Threaded;
    var orders' := RemoveAt(orders, k);
    var slots' := RemoveAt(slots, k);
    RemoveElements(orders, k);
    HoldsFrame(orders, slots, before, after, Run(orders, slots, side, orders[k].price));
    RemoveHolds(orders, slots, after, k);
    ThreadedRemove(side, orders, slots, before, after, levels, levels', k);
    RemoveKeepsOrder(side, orders, k);
    LevelEmpty(side, orders', slots', after, levels', orders[k].price);
    RemovePrices(orders, k);
    SizeWith(Prices(orders'), orders[k].price);
    RemoveBest(side, orders, k);
  }

  lemma RemoveKeepsOrder(side: Side, orders: seq<Order>, k: nat)
    requires Ordered(side, orders) && k < |orders|
    ensures Ordered(side, RemoveAt(orders, k))
  {
    RemoveElements(orders, k);
  }

  lemma RemoveBest(side: Side, orders: seq<Order>, k: nat)
    requires Ordered(side, orders) && k < |orders|
    ensures var after := RemoveAt(orders, k);
            && (after == [] <==> |Prices(after)| == 0)
            && (after != [] ==> AsGood(side, orders[0].price, after[0].price))
            && (orders[k].price in Prices(after) || orders[k].price != orders[0].price
                ==> after != [] && after[0].price == orders[0].price)
  {
    var after := RemoveAt(orders, k);
    RemoveElements(orders, k);
    if after != [] {
      PriceIn(after, 0);
    }
    if orders[k].price in Prices(after) && k == 0 {
      var i :| 0 <= i < |after| && after[i].price == orders[0].price;
      assert AsGood(side, orders[0].price, orders[1].price);
      assert i > 0 ==> AsGood(side, orders[1].price, orders[i + 1].price);
    }
  }

  lemma OnlyLinksWiden(touched: seq<nat>, more: seq<nat>, before: seq<Node>, after: seq<Node>)
    requires OnlyLinksOf(touched, before, after) && forall i :: 0 <= i < |touched| ==> touched[i] in more
    ensures OnlyLinksOf(more, before, after)
  {
  }

  lemma HoldsFrame(orders: seq<Order>, slots: seq<nat>, before: seq<Node>, after: seq<Node>, touched: seq<nat>)
    requires Holds(orders, slots, before) && OnlyLinksOf(touched, before, after)
    ensures Holds(orders, slots, after)
  {
  }

  lemma InsertBest(side: Side, orders: seq<Order>, order: Order)
    requires Ordered(side, orders) && Banded(orders) && InBand(order.price)
    ensures var after := InsertAt(orders, Back(orders, side, order.price), order);
            && Banded(after)
            && BestOf(side, after) ==
               if !AsGood(side, BestOf(side, orders), order.price) then order.price else BestOf(side, orders)
  {
    var p := Back(orders, side, order.price);
    InsertElements(orders, p, order);
    assert p == 0 <==> orders == [] || !AsGood(side, orders[0].price, order.price);
  }
}
