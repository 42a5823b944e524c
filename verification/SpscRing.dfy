/** The single-producer single-consumer ring that joins the threads. Each side
    keeps a possibly stale copy of the other's index; every load, slot access
    and publish is a separate step, and the two sides' steps interleave freely. */
module SpscRing {
  import opened EngineTypes
  import opened Modular

  /** Where the producer is inside push(item). */
  datatype Producer<T> = Outside | Refreshing(item: T) | Writing(item: T) | Publishing(item: T)

  /** Where the consumer is inside pop(). */
  datatype Consumer<T> = Away | Reloading | Reading | Releasing(taken: T)

  /** The ring's fields, both threads' places, and the history: the items
      published and taken so far, and the counts the cached indices stand for. */
  datatype Ring<T> = Ring(
    size: nat,
    writeIdx: nat, cachedRead: nat, readIdx: nat, cachedWrite: nat, buffer: seq<T>,
    producer: Producer<T>, consumer: Consumer<T>,
    pushed: seq<T>, popped: seq<T>, seenRead: nat, seenWrite: nat)

  function NextIdx<T>(r: Ring<T>, idx: nat): nat
    requires r.size > 0
  {
    (idx + 1) % r.size
  }

  /** An acquire load returns some value published by the other side, never older
      than one this side has already seen; count is the number of operations it
      stands for. */
  datatype Step<T> =
    | StartPush(item: T)
    | LoadRead(count: nat)
    | WriteSlot
    | PublishWrite
    | StartPop
    | LoadWrite(count: nat)
    | ReadSlot
    | PublishRead

  predicate Enabled<T>(r: Ring<T>, step: Step<T>) {
    match step
    case StartPush(_) => r.producer.Outside?
    case LoadRead(count) => r.producer.Refreshing? && r.seenRead <= count <= |r.popped|
    case WriteSlot => r.producer.Writing? && r.writeIdx < |r.buffer|
    case PublishWrite => r.producer.Publishing?
    case StartPop => r.consumer.Away?
    case LoadWrite(count) => r.consumer.Reloading? && r.seenWrite <= count <= |r.pushed|
    case ReadSlot => r.consumer.Reading? && r.readIdx < |r.buffer|
    case PublishRead => r.consumer.Releasing?
  }

  function After<T>(r: Ring<T>, step: Step<T>): Ring<T>
    requires r.size > 0 && Enabled(r, step)
  {
    match step
    case StartPush(item) =>
      r.(producer := if NextIdx(r, r.writeIdx) == r.cachedRead then Refreshing(item) else Writing(item))
    case LoadRead(count) =>
      var cached := count % r.size;
      r.(cachedRead := cached, seenRead := count,
         producer := if NextIdx(r, r.writeIdx) == cached then Outside else Writing(r.producer.item))
    case WriteSlot =>
      r.(buffer := r.buffer[r.writeIdx := r.producer.item], producer := Publishing(r.producer.item))
    case PublishWrite =>
      r.(writeIdx := NextIdx(r, r.writeIdx), pushed := r.pushed + [r.producer.item], producer := Outside)
    case StartPop => r.(consumer := if r.readIdx == r.cachedWrite then Reloading else Reading)
    case LoadWrite(count) =>
      var cached := count % r.size;
      r.(cachedWrite := cached, seenWrite := count, consumer := if r.readIdx == cached then Away else Reading)
    case ReadSlot => r.(consumer := Releasing(r.buffer[r.readIdx]))
    case PublishRead =>
      r.(readIdx := NextIdx(r, r.readIdx), popped := r.popped + [r.consumer.taken], consumer := Away)
  }

  /** push() gave up at this step. */
  predicate PushFails<T>(r: Ring<T>, step: Step<T>)
    requires r.size > 0 && Enabled(r, step)
  {
    step.LoadRead? && After(r, step).producer.Outside?
  }

  predicate PopFails<T>(r: Ring<T>, step: Step<T>)
    requires r.size > 0 && Enabled(r, step)
  {
    step.LoadWrite? && After(r, step).consumer.Away?
  }

  //--- the invariant ---

  ghost predicate Indices<T>(r: Ring<T>) {
    && r.size > 0 && |r.buffer| == r.size
    && |r.popped| <= |r.pushed| <= |r.popped| + r.size - 1
    && r.seenRead <= |r.popped| && |r.pushed| <= r.seenRead + r.size - 1
    && |r.popped| <= r.seenWrite <= |r.pushed|
    && r.writeIdx == |r.pushed| % r.size && r.cachedRead == r.seenRead % r.size
    && r.readIdx == |r.popped| % r.size && r.cachedWrite == r.seenWrite % r.size
  }

  /** What has been taken is what was published first, and the slots between the
      two indices hold the rest. */
  ghost predicate Contents<T>(r: Ring<T>)
    requires Indices(r)
  {
    && r.popped == r.pushed[..|r.popped|]
    && (forall k {:trigger r.pushed[k]} :: |r.popped| <= k < |r.pushed| ==> r.buffer[k % r.size] == r.pushed[k])
  }

  /** Past its check the producer has a free slot, and the consumer an unread one. */
  ghost predicate Places<T>(r: Ring<T>)
    requires Indices(r)
  {
    && (r.producer.Writing? || r.producer.Publishing? ==> |r.pushed| < r.seenRead + r.size - 1)
    && (r.producer.Publishing? ==> r.buffer[r.writeIdx] == r.producer.item)
    && (r.consumer.Reading? || r.consumer.Releasing? ==> |r.popped| < r.seenWrite)
    && (r.consumer.Releasing? ==> r.consumer.taken == r.pushed[|r.popped|])
  }

  ghost predicate Inv<T>(r: Ring<T>) {
    Indices(r) && Contents(r) && Places(r)
  }

  function Empty<T>(buffer: seq<T>): Ring<T> {
    Ring(|buffer|, 0, 0, 0, 0, buffer, Outside, Away, [], [], 0, 0)
  }

  /** The producer's test is exact for the count it has seen. */
  lemma FullTest<T>(r: Ring<T>, seen: nat)
    requires Indices(r) && seen <= |r.popped| && r.seenRead <= seen
    ensures NextIdx(r, r.writeIdx) == seen % r.size <==> |r.pushed| == seen + r.size - 1
  {
    NextIs(|r.pushed|, r.size);
    SameIndex(seen, |r.pushed| + 1, r.size);
  }

  /** So is the consumer's. */
  lemma EmptyTest<T>(r: Ring<T>, seen: nat)
    requires Indices(r) && r.seenWrite <= seen <= |r.pushed|
    ensures r.readIdx == seen % r.size <==> seen == |r.popped|
  {
    SameIndex(|r.popped|, seen, r.size);
  }

  lemma ProducerKeeps<T>(r: Ring<T>, step: Step<T>)
    requires Inv(r) && Enabled(r, step) && (step.StartPush? || step.LoadRead?)
    ensures Inv(After(r, step))
  {
    FullTest(r, if step.LoadRead? then step.count else r.seenRead);
  }

  lemma WriteKeeps<T>(r: Ring<T>)
    requires Inv(r) && Enabled(r, WriteSlot)
    ensures Inv(After(r, WriteSlot))
  {
    forall k | |r.popped| <= k < |r.pushed| ensures k % r.size != r.writeIdx {
      SameIndex(k, |r.pushed|, r.size);
    }
  }

  lemma PublishKeeps<T>(r: Ring<T>)
    requires Inv(r) && Enabled(r, PublishWrite)
    ensures Inv(After(r, PublishWrite))
  {
    NextIs(|r.pushed|, r.size);
    var r' := After(r, PublishWrite);
    assert forall k :: 0 <= k < |r.pushed| ==> r'.pushed[k] == r.pushed[k];
  }

  lemma ConsumerKeeps<T>(r: Ring<T>, step: Step<T>)
    requires Inv(r) && Enabled(r, step) && (step.StartPop? || step.LoadWrite?)
    ensures Inv(After(r, step))
  {
    EmptyTest(r, if step.LoadWrite? then step.count else r.seenWrite);
  }

  lemma ReadKeeps<T>(r: Ring<T>)
    requires Inv(r) && Enabled(r, ReadSlot)
    ensures Inv(After(r, ReadSlot))
  {
    assert r.buffer[|r.popped| % r.size] == r.pushed[|r.popped|];
  }

  lemma ReleaseKeeps<T>(r: Ring<T>)
    requires Inv(r) && Enabled(r, PublishRead)
    ensures Inv(After(r, PublishRead))
  {
    NextIs(|r.popped|, r.size);
    assert r.popped + [r.pushed[|r.popped|]] == r.pushed[..|r.popped| + 1];
  }

  lemma StepKeeps<T>(r: Ring<T>, step: Step<T>)
    requires Inv(r) && Enabled(r, step)
    ensures Inv(After(r, step))
  {
    hide Inv, After, Enabled;
    match step
    case StartPush(_) => ProducerKeeps(r, step);
    case LoadRead(_) => ProducerKeeps(r, step);
    case WriteSlot => WriteKeeps(r);
    case PublishWrite => PublishKeeps(r);
    case StartPop => ConsumerKeeps(r, step);
    case LoadWrite(_) => ConsumerKeeps(r, step);
    case ReadSlot => ReadKeeps(r);
    case PublishRead => ReleaseKeeps(r);
  }

  //--- the bounded FIFO it implements ---

  /** Published and not yet taken. */
  ghost function Queue<T>(r: Ring<T>): seq<T>
    requires |r.popped| <= |r.pushed|
  {
    r.pushed[|r.popped|..]
  }

  /** Every step is either a push at the back of a queue with room, a pop at its
      front, or invisible. A failing push found size - 1 items beyond the reads
      it loaded, so a current load means the queue was full at that instant; a
      failing pop found nothing beyond the writes it loaded. */
  lemma StepRefines<T>(r: Ring<T>, step: Step<T>)
    requires Inv(r) && Enabled(r, step)
    ensures var r' := After(r, step);
            && |r'.popped| <= |r'.pushed|
            && (if step.PublishWrite? then |Queue(r)| < r.size - 1 && Queue(r') == Queue(r) + [r.producer.item]
                else if step.PublishRead? then Queue(r) == [r.consumer.taken] + Queue(r')
                else Queue(r') == Queue(r))
    ensures PushFails(r, step) ==> |r.pushed| - step.count == r.size - 1
                                   && (step.count == |r.popped| ==> |Queue(r)| == r.size - 1)
    ensures PopFails(r, step) ==> step.count == |r.popped| && (step.count == |r.pushed| ==> Queue(r) == [])
  {
    StepKeeps(r, step);
    if step.LoadRead? {
      FullTest(r, step.count);
    } else if step.LoadWrite? {
      EmptyTest(r, step.count);
    }
  }

  /** The slot being written holds no unread item and is not the one being read;
      the slot being read is published, and holds the oldest item not yet taken. */
  lemma SlotsDisjoint<T>(r: Ring<T>)
    requires Inv(r)
    ensures r.producer.Writing? ==> forall k :: |r.popped| <= k < |r.pushed| ==> k % r.size != r.writeIdx
    ensures r.producer.Writing? && r.consumer.Reading? ==> r.readIdx != r.writeIdx
    ensures r.consumer.Reading? ==> |r.popped| < |r.pushed| && r.buffer[r.readIdx] == r.pushed[|r.popped|]
  {
    if r.producer.Writing? {
      forall k | |r.popped| <= k < |r.pushed| ensures k % r.size != r.writeIdx {
        SameIndex(k, |r.pushed|, r.size);
      }
      if r.consumer.Reading? {
        SameIndex(|r.popped|, |r.pushed|, r.size);
      }
    }
  }

  ghost predicate Interleaving<T>(states: seq<Ring<T>>, steps: seq<Step<T>>) {
    && |states| == |steps| + 1
    && |states[0].buffer| > 0 && states[0] == Empty(states[0].buffer)
    && (forall i :: 0 <= i < |steps| ==>
          states[i].size > 0 && Enabled(states[i], steps[i]) && states[i + 1] == After(states[i], steps[i]))
  }

  /** Over every interleaving the consumer has taken exactly the first items the
      producer published, in order, and at most size - 1 are outstanding. */
  lemma {:induction false} Fifo<T>(states: seq<Ring<T>>, steps: seq<Step<T>>, i: nat)
    requires Interleaving(states, steps) && i <= |steps|
    ensures Inv(states[i])
    ensures states[i].popped <= states[i].pushed && |Queue(states[i])| <= states[i].size - 1
    decreases i
  {
    hide After, Enabled;
    if i > 0 {
      Fifo(states, steps, i - 1);
      StepKeeps(states[i - 1], steps[i - 1]);
    }
  }

  //--- one thread using both ends ---

  class RingBuffer<T(0)> {
    const size: nat
    const buffer: array<T>
    var writeIdx: nat
    var cachedRead: nat
    var readIdx: nat
    var cachedWrite: nat
    ghost var pushed: seq<T>
    ghost var popped: seq<T>
    ghost var seenRead: nat
    ghost var seenWrite: nat

    ghost function State(): Ring<T>
      reads this, buffer
    {
      Ring(size, writeIdx, cachedRead, readIdx, cachedWrite, buffer[..], Outside, Away, pushed, popped, seenRead, seenWrite)
    }

    ghost predicate Valid()
      reads this, buffer
    {
      Inv(State())
    }

    constructor (n: nat)
      requires n > 0
      ensures Valid() && fresh(buffer) && size == n && pushed == [] && popped == []
    {
      size := n;
      buffer := new T[n];
      writeIdx, cachedRead, readIdx, cachedWrite := 0, 0, 0, 0;
      pushed, popped, seenRead, seenWrite := [], [], 0, 0;
    }

    method Push(item: T) returns (ok: bool)
      requires Valid()
      modifies this, buffer
      ensures Valid() && popped == old(popped)
      ensures ok <==> old(|pushed| - |popped|) < size - 1
      ensures pushed == old(pushed) + if ok then [item] else []
    {
      ghost var r := State();
      var next := (writeIdx + 1) % size;
      FullTest(r, seenRead);
      FullTest(r, |popped|);
      if next == cachedRead {
        cachedRead, seenRead := readIdx, |popped|;
        if next == cachedRead {
          return false;
        }
      }
      r := State().(producer := Writing(item));
      assert Inv(r);
      WriteKeeps(r);
      r := After(r, WriteSlot);
      buffer[writeIdx] := item;
      PublishKeeps(r);
      r := After(r, PublishWrite);
      writeIdx, pushed := next, pushed + [item];
      assert State() == r;
      ok := true;
    }

    method Pop() returns (item: Option<T>)
      requires Valid()
      modifies this
      ensures Valid() && pushed == old(pushed)
      ensures item == if old(|popped| < |pushed|) then Some(old(pushed[|popped|])) else None
      ensures popped == old(popped) + if item.Some? then [item.value] else []
    {
      ghost var r := State();
      EmptyTest(r, seenWrite);
      EmptyTest(r, |pushed|);
      if readIdx == cachedWrite {
        cachedWrite, seenWrite := writeIdx, |pushed|;
        if readIdx == cachedWrite {
          return None;
        }
      }
      r := State().(consumer := Reading);
      assert Inv(r);
      ReadKeeps(r);
      r := After(r, ReadSlot);
      item := Some(buffer[readIdx]);
      ReleaseKeeps(r);
      r := After(r, PublishRead);
      readIdx, popped := (readIdx + 1) % size, popped + [item.value];
      assert State() == r;
    }

    /** Exact: no second thread moves an index meanwhile. */
    method Size() returns (n: nat)
      requires Valid()
      ensures n == |pushed| - |popped|
    {
      ghost var k := |pushed| - |popped|;
      if k > 0 {
        ShiftedIndex(|popped|, k, size);
      }
      n := if writeIdx >= readIdx then writeIdx - readIdx else size + writeIdx - readIdx;
    }
  }
}
