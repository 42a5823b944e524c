/** One session's Sequenced Data packets: a byte ring with a sequence index that
    serves both as the replay log and as the connection's send buffer, against
    the unbounded list of packets ever appended. */
module SessionLog {
  import opened EngineTypes
  import opened Modular
  import opened Wire

  type Packet = seq<Byte>

  const BYTES_PER_INDEX_ENTRY: nat := 32

  /** Where packet number i starts in the stream (the i'th, counting from 0). */
  function Offset(packets: seq<Packet>, i: nat): nat
    requires i <= |packets|
  {
    |Stream(packets[..i])|
  }

  /** Keeping messages from seq on would fit the ring and its index. */
  ghost predicate Fits(packets: seq<Packet>, capacity: nat, indexCapacity: nat, seq_: nat)
    requires 1 <= seq_ <= |packets| + 1
  {
    && |Stream(packets)| - Offset(packets, seq_ - 1) <= capacity
    && |packets| + 1 - seq_ <= indexCapacity
  }

  /** The stream from a message's offset on is that message and those after it. */
  lemma StreamFrom(packets: seq<Packet>, i: nat)
    requires i <= |packets|
    ensures Offset(packets, i) <= |Stream(packets)|
    ensures Stream(packets)[Offset(packets, i)..] == Stream(packets[i..])
    ensures Stream(packets)[..Offset(packets, i)] == Stream(packets[..i])
  {
    assert packets == packets[..i] + packets[i..];
    StreamAppend(packets[..i], packets[i..]);
  }

  lemma OffsetsRise(packets: seq<Packet>, i: nat, j: nat)
    requires i <= j <= |packets|
    ensures Offset(packets, i) <= Offset(packets, j)
  {
    assert packets[..j][..i] == packets[..i];
    StreamFrom(packets[..j], i);
  }

  /** Appending changes no earlier offset. */
  lemma OffsetStable(packets: seq<Packet>, packet: Packet, i: nat)
    requires i <= |packets|
    ensures Offset(packets + [packet], i) == Offset(packets, i)
    ensures Stream(packets + [packet]) == Stream(packets) + packet
    ensures Offset(packets, |packets|) == |Stream(packets)|
  {
    assert (packets + [packet])[..i] == packets[..i];
    assert (packets + [packet])[..|packets|] == packets;
    assert packets[..|packets|] == packets;
  }

  /** Once a suffix does not fit, no longer one does. */
  lemma FitsMonotone(packets: seq<Packet>, capacity: nat, indexCapacity: nat, s: nat, t: nat)
    requires 1 <= s <= t <= |packets| + 1 && Fits(packets, capacity, indexCapacity, s)
    ensures Fits(packets, capacity, indexCapacity, t)
  {
    OffsetsRise(packets, s - 1, t - 1);
  }

  /** The first number whose suffix fits: what a log of these packets still holds. */
  function LeastFit(packets: seq<Packet>, capacity: nat, indexCapacity: nat, s: nat): (r: nat)
    requires 1 <= s <= |packets| + 1
    ensures s <= r <= |packets| + 1
    ensures r <= |packets| ==> |Stream(packets)| - Offset(packets, r - 1) <= capacity && |packets| + 1 - r <= indexCapacity
    ensures r > s ==> !(|Stream(packets)| - Offset(packets, r - 2) <= capacity && |packets| + 2 - r <= indexCapacity)
    decreases |packets| + 1 - s
  {
    if s == |packets| + 1
       || (|Stream(packets)| - Offset(packets, s - 1) <= capacity && |packets| + 1 - s <= indexCapacity) then s
    else LeastFit(packets, capacity, indexCapacity, s + 1)
  }

  /** The part of the stream from offset to the end or the ring's wrap point. */
  function Contiguous(packets: seq<Packet>, capacity: nat, offset: nat): (run: seq<Byte>)
    requires 0 < capacity && offset <= |Stream(packets)|
    ensures |run| <= |Stream(packets)| - offset && run == Stream(packets)[offset..offset + |run|]
    ensures offset < |Stream(packets)| ==> run != []
  {
    Stream(packets)[offset..offset + Min(|Stream(packets)| - offset, capacity - offset % capacity)]
  }

  lemma LeastFitIs(packets: seq<Packet>, capacity: nat, indexCapacity: nat, first: nat)
    requires 1 <= first <= |packets| + 1 && Fits(packets, capacity, indexCapacity, first)
    requires first > 1 ==> !Fits(packets, capacity, indexCapacity, first - 1)
    ensures LeastFit(packets, capacity, indexCapacity, 1) == first
  {
    var r := LeastFit(packets, capacity, indexCapacity, 1);
    OffsetStable(packets, [], |packets|);
    if r < first {
      FitsMonotone(packets, capacity, indexCapacity, r, first - 1);
    } else if first < r {
      FitsMonotone(packets, capacity, indexCapacity, first, r - 1);
    }
  }

  /** Where in the ring the byte at an offset goes. */
  function Place(offset: nat, capacity: nat): nat
    requires 0 < capacity
  {
    offset % capacity
  }

  /** One of len bytes written from end on falls on the ring slot of a byte between
      offset and end. */
  ghost predicate Collides(offset: nat, end: nat, len: nat, capacity: nat)
    requires 0 < capacity
  {
    exists k: nat, j: nat :: offset <= k < end <= j < end + len && Place(k, capacity) == Place(j, capacity)
  }

  lemma CollidesExactly(offset: nat, end: nat, len: nat, capacity: nat)
    requires offset <= end && end - offset <= capacity && len < capacity
    ensures Collides(offset, end, len, capacity) <==> end + len - offset > capacity
  {
    if end + len - offset > capacity {
      SamePlace(offset, offset + capacity, capacity);
    } else {
      forall k: nat, j: nat | offset <= k < end <= j < end + len ensures Place(k, capacity) != Place(j, capacity) {
        SamePlace(k, j, capacity);
      }
    }
  }

  lemma SamePlace(k: nat, j: nat, capacity: nat)
    requires 0 < capacity && k <= j <= k + capacity
    ensures Place(k, capacity) == Place(j, capacity) <==> j == k || j == k + capacity
  {
    SameIndex(k, j, capacity);
  }

  class Log {
    const capacity: nat
    const indexCapacity: nat
    const bytes: array<Byte>
    const index: array<nat>
    var firstSeq: nat
    var nextSeq: nat
    var end: nat
    ghost var packets: seq<Packet>

    ghost predicate Shape()
      reads this
    {
      && 0 < capacity == bytes.Length && 0 < indexCapacity == index.Length
      && 1 <= firstSeq <= nextSeq == |packets| + 1 && end == |Stream(packets)|
    }

    /** first_sequence is the least number whose suffix fits. */
    ghost predicate Tight()
      reads this
      requires Shape()
    {
      && Fits(packets, capacity, indexCapacity, firstSeq)
      && (firstSeq > 1 ==> !Fits(packets, capacity, indexCapacity, firstSeq - 1))
    }

    ghost predicate Indexed()
      reads this, index
      requires Shape()
    {
      forall s {:trigger Offset(packets, s - 1)} :: firstSeq <= s < nextSeq ==>
        index[s % indexCapacity] == Offset(packets, s - 1)
    }

    /** The ring holds the last capacity bytes of the stream. */
    ghost predicate Held()
      reads this, bytes
      requires Shape()
    {
      forall k {:trigger Stream(packets)[k]} :: 0 <= k < end && end - k <= capacity ==>
        bytes[k % capacity] == Stream(packets)[k]
    }

    ghost predicate Valid()
      reads this, bytes, index
    {
      Shape() && Tight() && Indexed() && Held()
    }

    constructor (capacityBytes: nat)
      requires capacityBytes >= BYTES_PER_INDEX_ENTRY
      ensures Valid() && fresh(bytes) && fresh(index)
      ensures capacity == capacityBytes && indexCapacity == capacityBytes / BYTES_PER_INDEX_ENTRY
      ensures packets == []
    {
      capacity := capacityBytes;
      indexCapacity := capacityBytes / BYTES_PER_INDEX_ENTRY;
      bytes := new Byte[capacityBytes](_ => 0);
      index := new nat[capacityBytes / BYTES_PER_INDEX_ENTRY](_ => 0);
      firstSeq, nextSeq, end := 1, 1, 0;
      packets := [];
    }

    /** The log holds exactly the messages whose suffix fits; first_sequence is
        the least of them. */
    lemma FirstIsLeast(s: nat)
      requires Valid() && 1 <= s <= nextSeq
      ensures Fits(packets, capacity, indexCapacity, s) <==> firstSeq <= s
      ensures firstSeq == LeastFit(packets, capacity, indexCapacity, 1)
    {
      LeastFitIs(packets, capacity, indexCapacity, firstSeq);
      if firstSeq <= s {
        FitsMonotone(packets, capacity, indexCapacity, firstSeq, s);
      } else if Fits(packets, capacity, indexCapacity, s) {
        FitsMonotone(packets, capacity, indexCapacity, s, firstSeq - 1);
      }
    }

    /** Where message s starts, if it is still held; the next sequence number
        stands for the end. */
    method OffsetOf(s: nat) returns (offset: Option<nat>)
      requires Valid()
      ensures offset.Some? <==> firstSeq <= s <= nextSeq
      ensures offset.Some? ==> offset.value == Offset(packets, s - 1)
      ensures offset.Some? ==> offset.value <= end && end - offset.value <= capacity
    {
      if s < firstSeq || s > nextSeq {
        return None;
      }
      OffsetsRise(packets, firstSeq - 1, s - 1);
      OffsetStable(packets, [], |packets|);
      StreamFrom(packets, s - 1);
      if s == nextSeq {
        return Some(end);
      }
      offset := Some(index[s % indexCapacity]);
    }

    /** Whether some byte from offset on shares its place in the ring with one of the
        len bytes to come. */
    method WouldOverwrite(offset: nat, len: nat) returns (yes: bool)
      requires Valid() && offset <= end
      ensures yes <==> end + len - offset > capacity
      ensures end - offset <= capacity && len < capacity ==> (yes <==> Collides(offset, end, len, capacity))
    {
      if end - offset <= capacity && len < capacity {
        CollidesExactly(offset, end, len, capacity);
      }
      yes := end + len - offset > capacity;
    }

    /** The bytes from offset on that sit contiguously in the ring. */
    method ContiguousFrom(offset: nat) returns (run: seq<Byte>)
      requires Valid() && offset <= end && end - offset <= capacity
      ensures run == Contiguous(packets, capacity, offset)
    {
      var at := offset % capacity;
      var len := Min(end - offset, capacity - at);
      run := bytes[at..at + len];
      assert |run| == |Contiguous(packets, capacity, offset)|;
      forall i | 0 <= i < len ensures run[i] == Stream(packets)[offset + i] {
        if i > 0 { ShiftedIndex(offset, i, capacity); }
        assert bytes[(offset + i) % capacity] == Stream(packets)[offset + i];
      }
    }

    /** Reading on from any held offset yields the rest of the stream. */
    method ReadAll(offset: nat) returns (all: seq<Byte>)
      requires Valid() && offset <= end && end - offset <= capacity
      ensures all == Stream(packets)[offset..]
    {
      all := [];
      var at := offset;
      while at < end
        invariant offset <= at <= end && all == Stream(packets)[offset..at]
      {
        var run := ContiguousFrom(at);
        all := all + run;
        at := at + |run|;
      }
    }

    /** Drops the oldest messages until one more packet would fit. */
    method Evict(packet: Packet)
      requires Valid() && |packet| < capacity
      modifies this`firstSeq
      ensures Shape() && Indexed() && Held()
      ensures Fits(packets + [packet], capacity, indexCapacity, firstSeq)
      ensures firstSeq > 1 ==> !Fits(packets + [packet], capacity, indexCapacity, firstSeq - 1)
    {
      ghost var more := packets + [packet];
      if firstSeq > 1 { FitsShrinks(packets, packet, capacity, indexCapacity, firstSeq - 1); }
      while firstSeq < nextSeq &&
            (end + |packet| - index[firstSeq % indexCapacity] > capacity || nextSeq - firstSeq >= indexCapacity)
        invariant Shape() && Indexed() && Held()
        invariant firstSeq > 1 ==> !Fits(more, capacity, indexCapacity, firstSeq - 1)
      {
        OffsetStable(packets, packet, firstSeq - 1);
        assert index[firstSeq % indexCapacity] == Offset(packets, firstSeq - 1);
        firstSeq := firstSeq + 1;
      }
      OffsetStable(packets, packet, firstSeq - 1);
    }

    /** Copies the packet into the ring from the end on, around the wrap. */
    method Copy(packet: Packet)
      requires Shape() && Held() && |packet| < capacity
      modifies bytes
      ensures forall k :: 0 <= k < end && end + |packet| - k <= capacity ==> bytes[k % capacity] == Stream(packets)[k]
      ensures forall i {:trigger packet[i]} :: 0 <= i < |packet| ==> bytes[(end + i) % capacity] == packet[i]
    {
      var at := end % capacity;
      var first := Min(|packet|, capacity - at);
      forall i | 0 <= i < first {
        bytes[at + i] := packet[i];
      }
      forall i | 0 <= i < |packet| - first {
        bytes[i] := packet[first + i];
      }
      forall i | 0 <= i < |packet| ensures bytes[(end + i) % capacity] == packet[i] {
        if i > 0 { ShiftedIndex(end, i, capacity); }
        if i >= first { assert packet[i] == packet[first + (i - first)]; }
      }
      forall k | 0 <= k < end && end + |packet| - k <= capacity
        ensures bytes[k % capacity] == Stream(packets)[k]
      {
        assert old(bytes[k % capacity]) == Stream(packets)[k];
        Untouched(end, k, capacity, |packet|);
      }
    }

    /** The ring as it must be once the packet is counted in. */
    method CopyIn(packet: Packet)
      requires Shape() && Held() && |packet| < capacity
      modifies bytes
      ensures var stream := Stream(packets + [packet]);
              forall k {:trigger stream[k]} :: 0 <= k < |stream| && |stream| - k <= capacity ==>
                bytes[k % capacity] == stream[k]
    {
      hide Stream;
      OffsetStable(packets, packet, 0);
      Copy(packet);
      ghost var stream := Stream(packets + [packet]);
      forall k | 0 <= k < |stream| && |stream| - k <= capacity ensures bytes[k % capacity] == stream[k] {
        if k >= end { assert stream[k] == packet[k - end]; }
      }
    }

    /** The index as it must be once the packet is counted in. */
    method IndexNext(ghost packet: Packet)
      requires Shape() && Indexed() && Fits(packets + [packet], capacity, indexCapacity, firstSeq)
      modifies index
      ensures forall s {:trigger Offset(packets + [packet], s - 1)} :: firstSeq <= s <= nextSeq ==>
                index[s % indexCapacity] == Offset(packets + [packet], s - 1)
    {
      hide Stream;
      index[nextSeq % indexCapacity] := end;
      forall s | firstSeq <= s <= nextSeq
        ensures index[s % indexCapacity] == Offset(packets + [packet], s - 1)
      {
        OffsetStable(packets, packet, s - 1);
        if s < nextSeq {
          SameIndex(s, nextSeq, indexCapacity);
          assert old(index[s % indexCapacity]) == Offset(packets, s - 1);
        }
      }
    }

    method Append(packet: Packet)
      requires Valid() && |packet| < capacity
      modifies this, bytes, index
      ensures Valid() && packets == old(packets) + [packet]
    {
      hide Offset, Stream;
      OffsetStable(packets, packet, |packets|);
      Evict(packet);
      IndexNext(packet);
      CopyIn(packet);
      end := end + |packet|;
      nextSeq := nextSeq + 1;
      packets := packets + [packet];
    }
  }

  lemma FitsShrinks(packets: seq<Packet>, packet: Packet, capacity: nat, indexCapacity: nat, s: nat)
    requires 1 <= s <= |packets| + 1 && !Fits(packets, capacity, indexCapacity, s)
    ensures !Fits(packets + [packet], capacity, indexCapacity, s)
  {
    OffsetStable(packets, packet, s - 1);
  }

  /** A ring slot still needed is not one the packet is copied over. */
  lemma Untouched(end: nat, k: nat, capacity: nat, len: nat)
    requires k < end && end + len - k <= capacity && len < capacity
    ensures var at := end % capacity;
            var first := Min(len, capacity - at);
            !(at <= k % capacity < at + first) && !(0 <= k % capacity < len - first)
  {
    var at := end % capacity;
    var first := Min(len, capacity - at);
    var d := end - k;
    if d < capacity {
      ShiftedIndex(k, d, capacity);
    } else {
      Lap(k, capacity);
    }
  }
}
