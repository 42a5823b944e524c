/** One replay log per session, each created when its session is first logged in
    to. */
module LogShelf {
  import opened EngineTypes
  import opened Wire
  import L = SessionLog

  /** All a log's state: its own fields and its two arrays. */
  ghost function Footprint(log: L.Log): set<object> {
    {log, log.bytes, log.index}
  }

  class Shelf {
    const capacity: nat
    var logs: seq<L.Log?>
    ghost var contents: seq<Option<seq<L.Packet>>>
    ghost var Repr: set<object>

    ghost predicate Holds(c: nat)
      reads this, Repr
      requires c < |logs| == |contents|
    {
      if logs[c] == null then contents[c] == None
      else
        && Footprint(logs[c]) <= Repr && this !in Footprint(logs[c])
        && logs[c].Valid() && contents[c] == Some(logs[c].packets)
        && logs[c].capacity == capacity && logs[c].indexCapacity == capacity / L.BYTES_PER_INDEX_ENTRY
    }

    ghost predicate Valid()
      reads this, Repr
    {
      && this in Repr && |logs| == |contents| && L.BYTES_PER_INDEX_ENTRY <= capacity
      && (forall c :: 0 <= c < |logs| ==> Holds(c))
      && (forall c, d :: 0 <= c < d < |logs| && logs[c] != null && logs[d] != null ==>
            Footprint(logs[c]) !! Footprint(logs[d]))
    }

    constructor (clients: nat, capacityBytes: nat)
      requires L.BYTES_PER_INDEX_ENTRY <= capacityBytes
      ensures Valid() && fresh(Repr) && capacity == capacityBytes
      ensures contents == seq(clients, _ => None)
    {
      capacity := capacityBytes;
      logs := seq(clients, _ => null);
      contents := seq(clients, _ => None);
      Repr := {this};
    }

    method Has(c: nat) returns (yes: bool)
      requires Valid() && c < |contents|
      ensures yes <==> contents[c].Some?
    {
      assert Holds(c);
      yes := logs[c] != null;
    }

    method Create(c: nat)
      requires Valid() && c < |contents| && contents[c] == None
      modifies this
      ensures Valid() && contents == old(contents)[c := Some([])] && fresh(Repr - old(Repr))
    {
      var log := new L.Log(capacity);
      logs := logs[c := log];
      contents := contents[c := Some([])];
      Repr := Repr + Footprint(log);
      forall d | 0 <= d < |logs| ensures Holds(d) {
        if d != c { assert old(Holds(d)); }
      }
    }

    method Append(c: nat, packet: L.Packet)
      requires Valid() && c < |contents| && contents[c].Some? && |packet| < capacity
      modifies Repr
      ensures Valid() && contents == old(contents)[c := Some(old(contents)[c].value + [packet])] && Repr == old(Repr)
    {
      assert Holds(c);
      logs[c].Append(packet);
      contents := contents[c := Some(contents[c].value + [packet])];
      forall d | 0 <= d < |logs| ensures Holds(d) {
        if d != c { assert old(Holds(d)); }
      }
    }

    method NextSequence(c: nat) returns (next: nat)
      requires Valid() && c < |contents| && contents[c].Some?
      ensures next == |contents[c].value| + 1
    {
      assert Holds(c);
      next := logs[c].nextSeq;
    }

    method EndOf(c: nat) returns (end: nat)
      requires Valid() && c < |contents| && contents[c].Some?
      ensures end == |Stream(contents[c].value)|
    {
      assert Holds(c);
      end := logs[c].end;
    }

    /** Where message s starts, if it is among those whose suffix still fits. */
    method OffsetOf(c: nat, s: nat) returns (offset: Option<nat>)
      requires Valid() && c < |contents| && contents[c].Some?
      ensures offset.Some? <==>
                L.LeastFit(contents[c].value, capacity, capacity / L.BYTES_PER_INDEX_ENTRY, 1) <= s <= |contents[c].value| + 1
      ensures offset.Some? ==> offset.value == L.Offset(contents[c].value, s - 1)
    {
      assert Holds(c);
      logs[c].FirstIsLeast(1);
      offset := logs[c].OffsetOf(s);
    }

    method WouldOverwrite(c: nat, offset: nat, len: nat) returns (yes: bool)
      requires Valid() && c < |contents| && contents[c].Some? && offset <= |Stream(contents[c].value)|
      ensures yes <==> |Stream(contents[c].value)| + len - offset > capacity
    {
      assert Holds(c);
      yes := logs[c].WouldOverwrite(offset, len);
    }

    method ContiguousFrom(c: nat, offset: nat) returns (run: seq<Byte>)
      requires Valid() && c < |contents| && contents[c].Some?
      requires offset <= |Stream(contents[c].value)| <= offset + capacity
      ensures run == L.Contiguous(contents[c].value, capacity, offset)
    {
      assert Holds(c);
      run := logs[c].ContiguousFrom(offset);
    }
  }
}
