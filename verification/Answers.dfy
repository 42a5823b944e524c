/** What clients are told, end to end: each answer is about an order its client
    entered, under the number the client gave it, and both sides of a trade are told
    the same trade. */
module Answers {
  import opened EngineTypes
  import opened BookSpec
  import opened BookLaws
  import opened OrderEntry
  import opened OuchResponder
  import opened Reconcile
  import opened Requests
  import opened Dispositions
  import V = Validation
  import Pipeline

  //--- one request's answers ---

  /** The answer to the k'th of a batch of events, fed in order. */
  function AnswerAt(records: Records, events: seq<Event>, k: nat): Response
    requires Feed(records, events).Some? && k < |events|
  {
    FedSoFar(records, events, k);
    Message(Feed(records, events[..k]).value, events[k])
  }

  lemma {:induction false} FedSoFar(records: Records, events: seq<Event>, k: nat)
    requires Feed(records, events).Some? && k < |events|
    ensures var fed := Feed(records, events[..k]);
            fed.Some? && Addressed(fed.value, events[k]) && SameRecords(records, fed.value)
  {
    hide Known, AfterEvent;
    FeedAppend(records, events[..k], events[k..]);
    assert events == events[..k] + events[k..];
    RecordsStay(records, events[..k]);
  }

  /** Records may go, and their open counts change; what they say does not. */
  ghost predicate SameRecords(records: Records, later: Records) {
    forall id :: id in later ==> id in records && later[id].record == records[id].record
  }

  lemma {:induction false} RecordsStay(records: Records, events: seq<Event>)
    requires Feed(records, events).Some?
    ensures SameRecords(records, Feed(records, events).value)
    decreases |events|
  {
    if events != [] {
      RecordsStay(AfterEvent(records, events[0]), events[1..]);
    }
  }

  /** Each answer goes to the client its event is for, about the order as that client
      entered it. */
  lemma AnswerTells(records: Records, events: seq<Event>, k: nat)
    requires Feed(records, events).Some? && k < |events|
    ensures Known(records, events[k]) && Tells(records, events[k], AnswerAt(records, events, k))
    ensures AnswerAt(records, events, k).clientId == events[k].clientId
  {
    hide Feed;
    FedSoFar(records, events, k);
    MessageTells(Feed(records, events[..k]).value, events[k]);
  }

  /** The i'th trade of an incoming order, as its two clients hear of it: the same
      shares under the same match number at the resting order's price, each under the
      number its own client gave the order. */
  lemma TradeTold(records: Records, book: Book, order: Order, market: bool, day: bool, after: Book, events: seq<Event>, i: nat)
    requires Feed(records, events).Some? && events != []
    requires Incoming(book, order, market, day, after, events[1..]) && i < after.nextMatch - book.nextMatch
    ensures 2 * i + 2 < |events|
    ensures var resting := book.On(Opposite(order.side))[i];
            var taker, maker := AnswerAt(records, events, 2 * i + 1), AnswerAt(records, events, 2 * i + 2);
            && taker.clientId == order.clientId && maker.clientId == resting.clientId
            && taker.frame.FrameExecuted? && maker.frame.FrameExecuted?
            && taker.frame.shares == maker.frame.shares > 0
            && taker.frame.matchNumber == maker.frame.matchNumber == book.nextMatch + i
            && taker.frame.executionPrice == maker.frame.executionPrice == 100 * resting.price
            && taker.frame.liquidityFlag == 'R' && maker.frame.liquidityFlag == 'A'
            && order.id in records && taker.frame.userRefNum == records[order.id].record.userRefNum
            && resting.id in records && maker.frame.userRefNum == records[resting.id].record.userRefNum
  {
    hide Feed, Within, DropShares, Joined, AnswerAt;
    var resting := book.On(Opposite(order.side))[i];
    assert Trade(events[1..][2 * i], events[1..][2 * i + 1], order, resting, book.nextMatch + i);
    assert events[1..][2 * i] == events[2 * i + 1] && events[1..][2 * i + 1] == events[2 * i + 2];
    AnswerTells(records, events, 2 * i + 1);
    AnswerTells(records, events, 2 * i + 2);
  }

  //--- the first answer to a message ---

  /** Order Accepted says back what the client sent. */
  ghost predicate AcceptedAs(f: Frame, id: OrderId, m: V.EnterOrder) {
    && f.FrameAccepted? && f.orderRef == id && f.userRefNum == m.userRefNum && f.side == m.side && f.quantity == m.quantity
    && f.symbol == m.symbol && f.price == m.price && f.timeInForce == m.timeInForce && f.display == m.display
    && f.capacity == m.capacity && f.intermarketSweep == m.intermarketSweep && f.crossType == m.crossType
    && f.orderState == 'L' && f.clOrdId == m.clOrdId
  }

  lemma NoteAgrees(records: Records, book: Book, id: OrderId, record: OrderRecord)
    requires Agrees(records, book) && id !in records
    ensures !Rests(book, id) && Agrees(records[id := LiveOrder(record, 0)], book)
  {
    Unrecorded(records, book, id);
    Pipeline.AgreesBeside(records, book, id, LiveOrder(record, 0));
  }

  lemma Unrecorded(records: Records, book: Book, id: OrderId)
    requires Agrees(records, book) && id !in records
    ensures !Rests(book, id)
  {
    RestsIff(book, id);
  }

  /** An acceptable Enter Order is answered: with Order Accepted in the client's own
      fields, or, a day limit order on a full book, with Order Rejected. */
  lemma EnterAnswered(g: Gateway, clientId: U32, m: V.EnterOrder, book: Book, capacity: nat, records: Records)
    requires WellFormed(book) && Agrees(records, book) && g.nextOrderId !in records
    requires Acceptable(m) && m.userRefNum > g.LastRef(clientId)
    ensures var t := Translate(g, clientId, Inbound.Enter(m)).1;
            t.note.Some? &&
            var known, events := AfterNote(records, t.note.value), Effect(book, capacity, t).events;
            && Feed(known, events).Some? && events != []
            && (var answer := AnswerAt(known, events, 0);
                && answer.clientId == clientId
                && (AcceptedAs(answer.frame, g.nextOrderId, m)
                    || (&& m.price < 2_000_000_000 && m.timeInForce == '0' && |book.bids| + |book.asks| >= capacity
                        && answer.frame == FrameRejected(m.userRefNum, 0x000A, m.clOrdId))))
  {
    hide Acceptable, Translate, WellFormed, Rests, Feed, Agrees, AnswerAt, Incoming, Process;
    var t := Translate(g, clientId, Inbound.Enter(m)).1;
    EnterTranslates(g, clientId, m);
    NoteAgrees(records, book, g.nextOrderId, t.note.value.record);
    EnterDisposition(g, clientId, m, book, capacity);
    var known, events := AfterNote(records, t.note.value), Effect(book, capacity, t).events;
    ProcessAgrees(known, book, capacity, t.request.value);
    AnswerTells(known, events, 0);
  }

  /** Order Replaced names the original by its number and says back the replacement:
      what the client sent, and the rest as the original had it. */
  ghost predicate ReplacedAs(f: Frame, id: OrderId, orig: OrderRecord, open: Quantity, m: V.ReplaceOrder) {
    && f.FrameReplaced? && f.orderRef == id && f.origUserRefNum == m.origUserRefNum && f.userRefNum == m.userRefNum
    && f.quantity == open && f.price == m.price && f.timeInForce == m.timeInForce && f.display == m.display
    && f.intermarketSweep == m.intermarketSweep && f.clOrdId == m.clOrdId && f.side == orig.side && f.symbol == orig.symbol
    && f.capacity == orig.capacity && f.crossType == orig.crossType && f.orderState == 'L'
  }

  /** A valid Replace Order of an order that rests, for more than has been executed, is
      answered with Order Replaced for what is left. */
  lemma ReplaceAnswered(g: Gateway, clientId: U32, m: V.ReplaceOrder, book: Book, capacity: nat, records: Records, order: Order)
    requires Consistent(g) && WellFormed(book) && Uncrossed(book) && Agrees(records, book) && g.nextOrderId !in records
    requires var key := Key(clientId, m.origUserRefNum);
             && key in g.orders && m.userRefNum > g.LastRef(clientId) && Replaceable(m, g.orders[key].record.side)
             && Find(book, g.orders[key].orderId) == Some(order) && order.clientId == clientId && m.quantity > order.executed
             && order.id in records && records[order.id].record == g.orders[key].record
    ensures var t := Translate(g, clientId, Inbound.Replace(m)).1;
            t.note.Some? &&
            var known, events := AfterNote(records, t.note.value), Effect(book, capacity, t).events;
            && Feed(known, events).Some? && events != []
            && (var answer := AnswerAt(known, events, 0);
                && answer.clientId == clientId
                && ReplacedAs(answer.frame, g.nextOrderId, records[order.id].record, m.quantity - order.executed, m))
  {
    hide Replaceable, Translate, WellFormed, Uncrossed, Rests, Feed, Agrees, AnswerAt, Incoming, Process, Find, Lacks;
    var t := Translate(g, clientId, Inbound.Replace(m)).1;
    var orig := g.orders[Key(clientId, m.origUserRefNum)];
    ReplaceTranslates(g, clientId, m);
    NoteAgrees(records, book, g.nextOrderId, t.note.value.record);
    ReplaceDisposition(g, clientId, m, book, capacity);
    FoundLive(book, orig.orderId);
    KeyInjective(clientId, m.origUserRefNum, orig.record.clientId, orig.record.userRefNum);
    var known, events := AfterNote(records, t.note.value), Effect(book, capacity, t).events;
    ProcessAgrees(known, book, capacity, t.request.value);
    AnswerTells(known, events, 0);
  }

  //--- over every run ---

  /** The gateway has entered this order, with this record. */
  ghost predicate Entry(g: Gateway, id: OrderId, record: OrderRecord) {
    exists key :: key in g.orders && g.orders[key] == Entered(id, record)
  }

  /** Whatever the responder knows or is about to know of an order is what the gateway
      entered. */
  ghost predicate Mirrors(s: Pipeline.State) {
    && (forall id :: id in s.records ==> Entry(s.gateway, id, s.records[id].record))
    && NotesEntered(s.gateway, Pipeline.Untaken(s))
  }

  ghost predicate NotesEntered(g: Gateway, notes: seq<Note>) {
    forall i :: 0 <= i < |notes| && !notes[i].NoteRejected? ==> Entry(g, notes[i].orderId, notes[i].record)
  }

  /** The gateway forgets no order, and an order note is of one just entered. */
  lemma Remembers(g: Gateway, clientId: U32, message: Inbound)
    requires Consistent(g)
    ensures var (g', t) := Translate(g, clientId, message);
            && (forall key :: key in g.orders ==> key in g'.orders && g'.orders[key] == g.orders[key])
            && (t.note.Some? && !t.note.value.NoteRejected? ==> Entry(g', t.note.value.orderId, t.note.value.record))
  {
    hide Acceptable, Replaceable;
    match message
    case Enter(m) =>
      EnterTranslates(g, clientId, m);
      if m.userRefNum > g.LastRef(clientId) { FreshKey(g, clientId, m.userRefNum); }
      assert Acceptable(m) && m.userRefNum > g.LastRef(clientId) ==> Key(clientId, m.userRefNum) in Translate(g, clientId, message).0.orders;
    case Replace(m) =>
      ReplaceTranslates(g, clientId, m);
      if m.userRefNum > g.LastRef(clientId) { FreshKey(g, clientId, m.userRefNum); }
      assert Key(clientId, m.userRefNum) in Translate(g, clientId, message).0.orders || Translate(g, clientId, message).1.note == None;
    case _ =>
  }

  lemma EntryStays(g: Gateway, g': Gateway, id: OrderId, record: OrderRecord)
    requires Entry(g, id, record) && (forall key :: key in g.orders ==> key in g'.orders && g'.orders[key] == g.orders[key])
    ensures Entry(g', id, record)
  {
  }

  lemma MirrorsReceive(s: Pipeline.State, capacity: nat, clientId: U32, message: Inbound)
    requires Mirrors(s) && Consistent(s.gateway) && Pipeline.Enabled(s, Pipeline.Receive(clientId, message))
    ensures Mirrors(Pipeline.After(s, capacity, Pipeline.Receive(clientId, message)))
  {
    hide Entry, Consistent, Translate;
    var s' := Pipeline.After(s, capacity, Pipeline.Receive(clientId, message));
    Remembers(s.gateway, clientId, message);
    forall id | id in s.records ensures Entry(s'.gateway, id, s.records[id].record) {
      EntryStays(s.gateway, s'.gateway, id, s.records[id].record);
    }
    assert Pipeline.Untaken(s) == s.notes;
    var notes := Pipeline.Untaken(s');
    forall i | 0 <= i < |notes| && !notes[i].NoteRejected? ensures Entry(s'.gateway, notes[i].orderId, notes[i].record) {
      if i < |s.notes| {
        assert notes[i] == Pipeline.Untaken(s)[i];
        EntryStays(s.gateway, s'.gateway, notes[i].orderId, notes[i].record);
      }
    }
  }

  lemma MirrorsStep(s: Pipeline.State, capacity: nat, step: Pipeline.Step)
    requires Mirrors(s) && Consistent(s.gateway) && Pipeline.Enabled(s, step)
    ensures Mirrors(Pipeline.After(s, capacity, step))
  {
    hide Entry, Consistent, Translate, Process;
    var s' := Pipeline.After(s, capacity, step);
    match step
    case Receive(clientId, message) => MirrorsReceive(s, capacity, clientId, message);
    case PushNote => assert Pipeline.Untaken(s') == Pipeline.Untaken(s);
    case TakeNote =>
      var notes := Pipeline.Untaken(s);
      assert Pipeline.Untaken(s') == notes[1..] && notes[0] == s.notes[0];
    case _ => assert Pipeline.Untaken(s') == Pipeline.Untaken(s);
  }

  lemma InvConsistent(s: Pipeline.State, capacity: nat)
    requires Pipeline.Inv(s, capacity)
    ensures Consistent(s.gateway)
  {
  }

  lemma {:induction false} RunMirrors(states: seq<Pipeline.State>, steps: seq<Pipeline.Step>, capacity: nat, i: nat)
    requires Pipeline.Interleaving(states, steps, capacity) && i <= |steps|
    ensures Mirrors(states[i])
    decreases i
  {
    hide Pipeline.After, Pipeline.Inv, Pipeline.Faithful, Pipeline.Enabled, Consistent;
    if i > 0 {
      RunMirrors(states, steps, capacity, i - 1);
      Pipeline.NothingDropped(states, steps, capacity, i - 1);
      InvConsistent(states[i - 1], capacity);
      MirrorsStep(states[i - 1], capacity, steps[i - 1]);
    }
  }

  /** Over every interleaving, an event about to be answered is about an order that the
      client it is answered to entered, and the answer says so in that order's own
      fields, under the UserRefNum the client gave it. */
  lemma AnsweredAsEntered(states: seq<Pipeline.State>, steps: seq<Pipeline.Step>, capacity: nat, i: nat)
    requires Pipeline.Interleaving(states, steps, capacity) && i < |steps| && steps[i] == Pipeline.Answer
    ensures states[i].held.Some? &&
            var e, records := states[i].held.value.item, states[i].records;
            && Known(records, e) && Tells(records, e, Message(records, e)) && Message(records, e).clientId == e.clientId
            && exists key :: key in states[i].gateway.orders && states[i].gateway.orders[key].orderId == e.orderId
                 && (var record := states[i].gateway.orders[key].record;
                     && record == records[e.orderId].record && Message(records, e).frame.userRefNum == record.userRefNum
                     && key == Key(e.clientId, record.userRefNum))
  {
    hide Pipeline.After, Pipeline.Inv, Mirrors;
    Pipeline.NothingDropped(states, steps, capacity, i);
    RunMirrors(states, steps, capacity, i);
    var s := states[i];
    InvConsistent(s, capacity);
    MessageTells(s.records, s.held.value.item);
    var key := KeyOf(s, s.held.value.item.orderId);
  }

  lemma KeyOf(s: Pipeline.State, id: OrderId) returns (key: nat)
    requires Mirrors(s) && Consistent(s.gateway) && id in s.records
    ensures key in s.gateway.orders && s.gateway.orders[key] == Entered(id, s.records[id].record)
    ensures key == Key(s.records[id].record.clientId, s.records[id].record.userRefNum)
  {
    assert Entry(s.gateway, id, s.records[id].record);
    key :| key in s.gateway.orders && s.gateway.orders[key] == Entered(id, s.records[id].record);
  }
}
