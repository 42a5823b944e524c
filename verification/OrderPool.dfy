/** The fixed arena of order slots and its free-list stack. */
module OrderPool {
  import opened BookSpec
  import opened PriceLevelQueue

  class Pool {
    const arena: array<Node>
    var free: seq<nat>

    ghost predicate Valid()
      reads this
    {
      Distinct(free) && forall k :: 0 <= k < |free| ==> free[k] < arena.Length
    }

    /** Pushed in reverse, so the first allocations hand out the lowest slots. */
    constructor (capacity: nat)
      ensures Valid() && fresh(arena) && arena.Length == capacity
      ensures |free| == capacity && forall k :: 0 <= k < capacity ==> free[k] == capacity - 1 - k
    {
      arena := new Node[capacity];
      free := [];
      new;
      var i := capacity;
      while i > 0
        invariant i <= capacity && |free| == capacity - i
        invariant forall k :: 0 <= k < |free| ==> free[k] == capacity - 1 - k
      {
        i := i - 1;
        free := free + [i];
      }
    }

    /** A free slot holding order, unlinked; NIL when the pool is exhausted. */
    method Allocate(order: Order) returns (slot: int)
      requires Valid()
      modifies this`free, arena
      ensures Valid()
      ensures old(free) == [] ==> slot == NIL && free == [] && arena[..] == old(arena[..])
      ensures old(free) != [] ==>
                && old(free) == free + [slot] && 0 <= slot < arena.Length
                && arena[..] == old(arena[..])[slot := Node(order, NIL, NIL)]
    {
      if free == [] {
        return NIL;
      }
      slot := free[|free| - 1];
      free := free[..|free| - 1];
      arena[slot] := Node(order, NIL, NIL);
    }

    method Deallocate(slot: nat)
      requires Valid() && slot < arena.Length && slot !in free
      modifies this`free
      ensures Valid() && free == old(free) + [slot]
    {
      free := free + [slot];
    }
  }
}
