/** The book's storage: an arena of order slots handed out from a free-list
    stack, and one intrusive doubly linked FIFO per price level threaded
    through the slots. Pointers into the arena are slot numbers. */
module PriceLevelQueue {
  import opened BookSpec

  const NIL: int := -1

  /** An arena slot: an order with its intrusive links. */
  datatype Node = Node(order: Order, prev: int, next: int)

  datatype Level = Level(head: int, tail: int, size: nat)

  const EMPTY_LEVEL: Level := Level(NIL, NIL, 0)

  ghost predicate Distinct(q: seq<nat>) {
    forall i, j :: 0 <= i < j < |q| ==> q[i] != q[j]
  }

  /** level's list holds exactly the slots q, front to back, properly linked. */
  ghost predicate Lists(level: Level, arena: seq<Node>, q: seq<nat>) {
    && level.size == |q|
    && level.head == (if q == [] then NIL else q[0])
    && level.tail == (if q == [] then NIL else q[|q| - 1])
    && (forall i :: 0 <= i < |q| ==> q[i] < |arena|)
    && (forall i {:trigger arena[q[i]]} :: 0 <= i < |q| ==>
          && arena[q[i]].prev == (if i == 0 then NIL else q[i - 1])
          && arena[q[i]].next == (if i == |q| - 1 then NIL else q[i + 1]))
  }

  /** A level has one list. */
  lemma ListsOnce(level: Level, arena: seq<Node>, q: seq<nat>, r: seq<nat>)
    requires Lists(level, arena, q) && Lists(level, arena, r)
    ensures q == r
  {
    for i := 0 to |q|
      invariant q[..i] == r[..i]
      invariant i < |q| ==> q[i] == r[i]
    {
      assert arena[q[i]].next == arena[r[i]].next;
    }
  }

  /** Slots outside touched are as they were, and no slot's order changed. */
  ghost predicate OnlyLinksOf(touched: seq<nat>, before: seq<Node>, after: seq<Node>) {
    && |after| == |before|
    && (forall k :: 0 <= k < |before| ==> after[k].order == before[k].order)
    && (forall k :: 0 <= k < |before| && k !in touched ==> after[k] == before[k])
  }

  /** A list none of whose slots was touched is unaffected. */
  lemma ListsFrame(level: Level, before: seq<Node>, after: seq<Node>, touched: seq<nat>, q: seq<nat>)
    requires Lists(level, before, q) && OnlyLinksOf(touched, before, after)
    requires forall i :: 0 <= i < |q| ==> q[i] !in touched
    ensures Lists(level, after, q)
  {
  }

  method Push(levels: array<Level>, t: nat, arena: array<Node>, slot: nat, ghost q: seq<nat>)
    requires t < levels.Length && slot < arena.Length
    requires Lists(levels[t], arena[..], q) && Distinct(q) && slot !in q
    requires arena[slot].prev == NIL && arena[slot].next == NIL
    modifies levels, arena
    ensures Lists(levels[t], arena[..], q + [slot])
    ensures levels[..] == old(levels[..])[t := levels[t]]
    ensures OnlyLinksOf(q + [slot], old(arena[..]), arena[..])
  {
    if levels[t].head == NIL {
      levels[t] := levels[t].(head := slot);
    }
    if levels[t].tail != NIL {
      var tail := levels[t].tail;
      arena[tail] := arena[tail].(next := slot);
      arena[slot] := arena[slot].(prev := tail);
    }
    levels[t] := levels[t].(tail := slot, size := levels[t].size + 1);
  }

  method Pop(levels: array<Level>, t: nat, arena: array<Node>, ghost q: seq<nat>) returns (slot: int)
    requires t < levels.Length
    requires Lists(levels[t], arena[..], q) && Distinct(q)
    modifies levels, arena
    ensures slot == if q == [] then NIL else q[0]
    ensures Lists(levels[t], arena[..], if q == [] then [] else q[1..])
    ensures levels[..] == old(levels[..])[t := levels[t]]
    ensures OnlyLinksOf(q, old(arena[..]), arena[..])
  {
    if levels[t].head == NIL {
      return NIL;
    }
    slot := levels[t].head;
    var head := arena[slot].next;
    if head != NIL {
      arena[head] := arena[head].(prev := NIL);
      levels[t] := levels[t].(head := head, size := levels[t].size - 1);
    } else {
      levels[t] := Level(NIL, NIL, levels[t].size - 1);
    }
  }

  /** Slot k once the node at q[p] is bypassed. */
  function Bypassed(arena: seq<Node>, q: seq<nat>, p: nat, k: nat): Node
    requires p < |q| && k < |arena| && q[p] < |arena|
  {
    if p > 0 && k == q[p - 1] then arena[k].(next := arena[q[p]].next)
    else if p + 1 < |q| && k == q[p + 1] then arena[k].(prev := arena[q[p]].prev)
    else arena[k]
  }

  lemma BypassLinks(level: Level, before: seq<Node>, after: seq<Node>, q: seq<nat>, p: nat)
    requires Lists(level, before, q) && Distinct(q) && p < |q|
    requires |after| == |before|
    requires forall k :: 0 <= k < |after| ==> after[k] == Bypassed(before, q, p, k)
    ensures var r := RemoveAt(q, p);
            Lists(Level(if r == [] then NIL else r[0], if r == [] then NIL else r[|r| - 1], |r|), after, r)
  {
    var r := RemoveAt(q, p);
    forall i | 0 <= i < |r|
      ensures r[i] < |after|
      ensures after[r[i]].prev == (if i == 0 then NIL else r[i - 1])
      ensures after[r[i]].next == (if i == |r| - 1 then NIL else r[i + 1])
    {
      var j := if i < p then i else i + 1;
      assert r[i] == q[j];
      assert after[q[j]] == Bypassed(before, q, p, q[j]);
      assert before[q[p]].prev == (if p == 0 then NIL else q[p - 1]);
      assert before[q[p]].next == (if p == |q| - 1 then NIL else q[p + 1]);
    }
  }

  method Remove(levels: array<Level>, t: nat, arena: array<Node>, slot: nat, ghost q: seq<nat>, ghost p: nat)
    requires t < levels.Length && slot < arena.Length
    requires Lists(levels[t], arena[..], q) && Distinct(q)
    requires p < |q| && q[p] == slot
    modifies levels, arena
    ensures Lists(levels[t], arena[..], RemoveAt(q, p))
    ensures levels[..] == old(levels[..])[t := levels[t]]
    ensures OnlyLinksOf(q, old(arena[..]), arena[..])
  {
    assert arena[..][q[p]].prev == (if p == 0 then NIL else q[p - 1]);
    assert arena[..][q[p]].next == (if p == |q| - 1 then NIL else q[p + 1]);
    var prev, next := arena[slot].prev, arena[slot].next;
    if prev != NIL {
      arena[prev] := arena[prev].(next := next);
    } else {
      levels[t] := levels[t].(head := next);
    }
    if next != NIL {
      arena[next] := arena[next].(prev := prev);
    } else {
      levels[t] := levels[t].(tail := prev);
    }
    levels[t] := levels[t].(size := levels[t].size - 1);
    BypassLinks(old(levels[t]), old(arena[..]), arena[..], q, p);
  }
}
