/** The three threads between a client's message and its answer: the inbound
    thread (order entry, then a note, then a request), the engine (one request
    ahead), and the outbound thread (an event, then the notes, then the answer),
    joined by FIFO rings. A pop may find nothing though more has been pushed: all a
    thread can count on is what it has synchronised with. Over every interleaving,
    every event finds its order's record. */
module Pipeline {
  import opened EngineTypes
  import opened BookSpec
  import opened BookLaws
  import EngineBook
  import opened OrderEntry
  import opened OuchResponder
  import opened Reconcile

  //--- which ids an event is about ---

  predicate Mentions(e: Event, id: OrderId) {
    e.orderId == id || (e.kind == Replaced && e.origOrderId == id)
  }

  ghost predicate Silent(events: seq<Event>, id: OrderId) {
    forall i :: 0 <= i < |events| ==> !Mentions(events[i], id)
  }

  /** Events that do not mention an id leave its record alone. */
  lemma {:induction false} FeedSkips(records: Records, events: seq<Event>, id: OrderId)
    requires Silent(events, id) && Feed(records, events).Some?
    ensures var after := Feed(records, events).value;
            (id in after <==> id in records) && (id in records ==> after[id] == records[id])
    decreases |events|
  {
    if events != [] {
      FeedSkips(AfterEvent(records, events[0]), events[1..], id);
    }
  }

  /** A record nobody mentions may as well have been added later. */
  lemma {:induction false} FeedBeside(records: Records, events: seq<Event>, id: OrderId, live: LiveOrder)
    requires Silent(events, id) && Feed(records, events).Some?
    ensures Feed(records[id := live], events) == Some(Feed(records, events).value[id := live])
    decreases |events|
  {
    if events != [] {
      var e := events[0];
      assert AfterEvent(records[id := live], e) == AfterEvent(records, e)[id := live];
      FeedBeside(AfterEvent(records, e), events[1..], id, live);
    }
  }

  /** Whatever is fed without a drop was about recorded orders, and records are
      only ever lost. */
  lemma {:induction false} FeedKnown(records: Records, events: seq<Event>, id: OrderId)
    requires Feed(records, events).Some?
    ensures !Silent(events, id) ==> id in records
    ensures Feed(records, events).value.Keys <= records.Keys
    decreases |events|
  {
    if events != [] {
      FeedKnown(AfterEvent(records, events[0]), events[1..], id);
      assert AfterEvent(records, events[0]).Keys <= records.Keys;
    }
  }

  //--- what a request's events are about ---

  lemma {:induction false} WalkSilent(a: Aggressor, quantity: Quantity, opposite: seq<Order>, match_: nat, id: OrderId)
    requires Absent(opposite, id) && a.id != id
    ensures Silent(Walk(a, quantity, opposite, match_).events, id)
    decreases |opposite| + quantity
  {
    if quantity > 0 && Crosses(a, opposite) {
      var shares := Min(quantity, opposite[0].open);
      WalkSilent(a, quantity - shares, Hit(opposite, shares), match_ + 1, id);
    }
  }

  lemma {:induction false} WalkAbsent(a: Aggressor, quantity: Quantity, opposite: seq<Order>, match_: nat, id: OrderId)
    requires Absent(opposite, id)
    ensures Absent(Walk(a, quantity, opposite, match_).left, id)
    decreases |opposite| + quantity
  {
    if quantity > 0 && Crosses(a, opposite) {
      var shares := Min(quantity, opposite[0].open);
      WalkAbsent(a, quantity - shares, Hit(opposite, shares), match_ + 1, id);
    }
  }

  lemma PutAbsent(book: Book, order: Order, id: OrderId)
    requires !Rests(book, id) && id != order.id
    ensures !Rests(Put(book, order), id)
  {
    hide Back;
    RestsIff(book, id);
    var orders := book.On(order.side);
    InsertElements(orders, Back(orders, order.side, order.price), order);
    RestsIff(Put(book, order), id);
  }

  lemma TradeAndRestSilent(book: Book, a: Aggressor, quantity: Quantity, executed: Quantity, mayRest: bool, id: OrderId)
    requires !Rests(book, id) && a.id != id
    ensures var o := TradeAndRest(book, a, quantity, executed, mayRest);
            Silent(o.events, id) && !Rests(o.book, id)
  {
    hide Walk, Rests, Put;
    RestsIff(book, id);
    var other := Opposite(a.side);
    var t := Walk(a, quantity, book.On(other), book.nextMatch);
    WalkSilent(a, quantity, book.On(other), book.nextMatch, id);
    WalkAbsent(a, quantity, book.On(other), book.nextMatch, id);
    var after := book.With(other, t.left).(nextMatch := t.nextMatch);
    RestsIff(after, id);
    if quantity - t.filled > 0 && mayRest {
      PutAbsent(after, Order(a.id, a.clientId, a.side, a.price, quantity - t.filled, executed + t.filled), id);
    }
  }

  lemma TakeRests(book: Book, side: Side, gone: OrderId, id: OrderId)
    requires !Rests(book, id)
    ensures !Rests(Take(book, side, gone), id)
  {
    hide Take;
    RestsIff(book, id);
    TakeAbsent(book, side, gone, id);
    RestsIff(Take(book, side, gone), id);
  }

  lemma ShrinkRests(book: Book, order: Order, open: Quantity, id: OrderId)
    requires !Rests(book, id) && order.id != id
    ensures !Rests(Shrink(book, order, open), id)
  {
    TakeRests(book, order.side, order.id, id);
    RestsIff(book, id);
    RestsIff(Shrink(book, order, open), id);
  }

  lemma FoundOther(book: Book, found: OrderId, id: OrderId)
    requires !Rests(book, id) && Find(book, found).Some?
    ensures Find(book, found).value.id == found && found != id
  {
  }

  /** A request says nothing of an order that is neither resting nor its own, and
      does not bring it to rest. */
  lemma ProcessSilent(book: Book, capacity: nat, req: Request, id: OrderId)
    requires !Rests(book, id) && NewId(req) != Some(id)
    ensures var o := Process(book, capacity, req);
            Silent(o.events, id) && !Rests(o.book, id)
  {
    hide Rests, Take, Shrink, TradeAndRest, Put, Crosses, Find;
    var found := Find(book, req.orderId);
    if req.kind != New && found.Some? {
      FoundOther(book, req.orderId, id);
      TakeRests(book, found.value.side, found.value.id, id);
    }
    match req.kind
    case New =>
      var a := Aggressor(req.orderId, req.clientId, req.side, req.orderType, req.price);
      TradeAndRestSilent(book, a, req.quantity, 0, MayRest(req), id);
    case Cancel =>
      if found.Some? {
        ShrinkRests(book, found.value, OpenAfter(req.quantity, found.value.executed), id);
      }
    case Replace =>
      if found.Some? {
        var orig := found.value;
        var without := Take(book, orig.side, orig.id);
        var open := OpenAfter(req.quantity, orig.executed);
        var a := Aggressor(req.newOrderId, req.clientId, orig.side, Limit, req.price);
        PutAbsent(without, Order(req.newOrderId, req.clientId, orig.side, req.price, open, orig.executed), id);
        TradeAndRestSilent(without, a, open, orig.executed, req.timeInForce == Day, id);
      }
  }

  //--- the step system ---

  function Opt<T>(o: Option<T>): seq<T> {
    match o
    case None => []
    case Some(x) => [x]
  }

  /** An item on its way, and how many notes had been pushed when its request was:
      whoever pops the one is sure to find the others. */
  datatype Marked<T> = Marked(item: T, mark: nat)

  function Items<T>(xs: seq<Marked<T>>): seq<T> {
    seq(|xs|, i requires 0 <= i < |xs| => xs[i].item)
  }

  function Stamped<T>(items: seq<T>, mark: nat): seq<Marked<T>> {
    seq(|items|, i requires 0 <= i < |items| => Marked(items[i], mark))
  }

  datatype EnginePhase = Idle | HaveCurrent | Ready

  datatype State = State(
    // inbound thread: order entry, and what it still has to push for the message in hand
    gateway: Gateway, noteToPush: Option<Note>, requestToPush: Option<Request>,
    // the rings, and how many notes have come off theirs
    notes: seq<Note>, taken: nat, requests: seq<Marked<Request>>, events: seq<Marked<Event>>,
    // engine thread: the request in hand, the one popped ahead, and events still to push
    phase: EnginePhase, current: Option<Marked<Request>>, next: Option<Marked<Request>>, book: Book,
    emitting: seq<Marked<Event>>,
    // outbound thread: the event in hand, whether the notes have been drained since it
    // was popped, the responder's records, and how many events it had to drop
    held: Option<Marked<Event>>, drained: bool, records: Records, dropped: nat)

  const START :=
    State(FRESH_GATEWAY, None, None, [], 0, [], [], Idle, None, None, EmptyBook, [], None, false, map[], 0)

  datatype Step =
    | Receive(clientId: U32, message: Inbound)
    | PushNote
    | PushRequest
    | PopCurrent
    | PopNext(found: bool)
    | Execute
    | EmitEvent
    | PopEvent
    | TakeNote
    | EndDrain
    | Answer

  /** Whether a thread is at this step. A push that finds its ring full spins,
      which is the step not being taken yet. A pop may miss what was pushed
      meanwhile, so the engine may find no next request at any time, and the drain
      may end with notes on the ring -- but not before the notes its event's thread
      of causes went past. */
  predicate Enabled(s: State, step: Step) {
    match step
    case Receive(_, _) => s.noteToPush == None && s.requestToPush == None
    case PushNote => s.noteToPush.Some?
    case PushRequest => s.noteToPush == None && s.requestToPush.Some?
    case PopCurrent => s.phase == Idle && s.emitting == [] && s.requests != []
    case PopNext(found) => s.phase == HaveCurrent && s.emitting == [] && (found ==> s.requests != [])
    case Execute => s.phase == Ready && s.emitting == [] && s.current.Some?
    case EmitEvent => s.emitting != []
    case PopEvent => s.held == None && s.events != []
    case TakeNote => s.notes != [] && !s.drained
    case EndDrain => s.held.Some? && !s.drained && s.held.value.mark <= s.taken
    case Answer => s.held.Some? && s.drained
  }

  function After(s: State, capacity: nat, step: Step): State
    requires Enabled(s, step)
  {
    match step
    case Receive(clientId, message) =>
      var (g, t) := Translate(s.gateway, clientId, message);
      s.(gateway := g, noteToPush := t.note, requestToPush := t.request)
    case PushNote => s.(notes := s.notes + [s.noteToPush.value], noteToPush := None)
    case PushRequest =>
      s.(requests := s.requests + [Marked(s.requestToPush.value, s.taken + |s.notes|)], requestToPush := None)
    case PopCurrent => s.(current := Some(s.requests[0]), requests := s.requests[1..], phase := HaveCurrent)
    case PopNext(found) =>
      if !found then s.(next := None, phase := Ready)
      else s.(next := Some(s.requests[0]), requests := s.requests[1..], phase := Ready)
    case Execute =>
      var o := Process(s.book, capacity, s.current.value.item);
      s.(book := o.book, emitting := Stamped(o.events, s.current.value.mark), current := s.next, next := None,
         phase := if s.next.Some? then HaveCurrent else Idle)
    case EmitEvent => s.(events := s.events + [s.emitting[0]], emitting := s.emitting[1..])
    case PopEvent => s.(held := Some(s.events[0]), events := s.events[1..], drained := false)
    case TakeNote => s.(records := AfterNote(s.records, s.notes[0]), notes := s.notes[1..], taken := s.taken + 1)
    case EndDrain => s.(drained := true)
    case Answer =>
      var e := s.held.value.item;
      if Known(s.records, e) then s.(records := AfterEvent(s.records, e), held := None, drained := false)
      else s.(dropped := s.dropped + 1, held := None, drained := false)
  }

  //--- the view that matters: what is waiting, what is unhandled, what is known ---

  /** Notes the outbound thread has yet to take in, oldest first. */
  function Untaken(s: State): seq<Note> {
    s.notes + Opt(s.noteToPush)
  }

  /** Requests the engine has yet to execute, oldest first. */
  function Waiting(s: State): seq<Marked<Request>> {
    Opt(s.current) + Opt(s.next) + s.requests + Stamped(Opt(s.requestToPush), s.taken + |Untaken(s)|)
  }

  /** Events the responder has yet to handle, oldest first. */
  function Unhandled(s: State): seq<Marked<Event>> {
    Opt(s.held) + s.events + s.emitting
  }

  /** The records once every note already on the ring is taken in. */
  function TakeAll(records: Records, notes: seq<Note>): Records
    decreases |notes|
  {
    if notes == [] then records else TakeAll(AfterNote(records, notes[0]), notes[1..])
  }

  lemma {:induction false} TakeAllAppend(records: Records, notes: seq<Note>, note: Note)
    ensures TakeAll(records, notes + [note]) == AfterNote(TakeAll(records, notes), note)
    decreases |notes|
  {
    if notes == [] {
      assert TakeAll(AfterNote(records, note), []) == AfterNote(records, note);
      assert ([note] + [])[1..] == [];
      assert notes + [note] == [note];
    } else {
      assert (notes + [note])[1..] == notes[1..] + [note];
      TakeAllAppend(AfterNote(records, notes[0]), notes[1..], note);
    }
  }

  /** Order notes name ids no record has yet, and no other note has. */
  ghost predicate FreshNotes(records: Records, notes: seq<Note>) {
    && (forall i :: 0 <= i < |notes| && !notes[i].NoteRejected? ==> notes[i].orderId !in records)
    && (forall i, j :: 0 <= i < j < |notes| && !notes[i].NoteRejected? && !notes[j].NoteRejected? ==>
          notes[i].orderId != notes[j].orderId)
  }

  /** Handling an event and taking in later notes commute. */
  lemma {:induction false} NotesCommute(records: Records, notes: seq<Note>, e: Event)
    requires FreshNotes(records, notes) && Known(records, e)
    ensures Known(TakeAll(records, notes), e)
    ensures TakeAll(AfterEvent(records, e), notes) == AfterEvent(TakeAll(records, notes), e)
    decreases |notes|
  {
    if notes != [] {
      var note := notes[0];
      var records' := AfterNote(records, note);
      assert AfterNote(AfterEvent(records, e), note) == AfterEvent(records', e);
      assert FreshNotes(records', notes[1..]) by { FreshTail(records, notes); }
      NotesCommute(records', notes[1..], e);
    }
  }

  lemma FreshTail(records: Records, notes: seq<Note>)
    requires FreshNotes(records, notes) && notes != []
    ensures FreshNotes(AfterNote(records, notes[0]), notes[1..])
  {
    assert forall i :: 0 <= i < |notes| - 1 ==> notes[1..][i] == notes[i + 1];
  }

  lemma {:induction false} TakeAllKeys(records: Records, notes: seq<Note>, id: OrderId)
    ensures id in records ==> id in TakeAll(records, notes)
    ensures forall i :: 0 <= i < |notes| && !notes[i].NoteRejected? ==> notes[i].orderId in TakeAll(records, notes)
    decreases |notes|
  {
    if notes != [] {
      var records' := AfterNote(records, notes[0]);
      TakeAllKeys(records', notes[1..], id);
      if !notes[0].NoteRejected? {
        TakeAllKeys(records', notes[1..], notes[0].orderId);
      }
      assert forall i :: 0 < i < |notes| ==> notes[i] == notes[1..][i - 1];
    }
  }

  //--- the protocol invariant ---

  /** New ids wait in the order they were issued. */
  ghost predicate Rising(waiting: seq<Request>) {
    forall i, j :: 0 <= i < j < |waiting| && NewId(waiting[i]).Some? && NewId(waiting[j]).Some? ==>
      NewId(waiting[i]).value < NewId(waiting[j]).value
  }

  /** A waiting request is one the book is built for; its new id is issued, and
      nobody has heard of it yet. */
  ghost predicate Unborn(g: Gateway, req: Request, unhandled: seq<Event>, book: Book) {
    && EngineBook.Restable(req)
    && (NewId(req).Some? ==>
          var id := NewId(req).value;
          id < g.nextOrderId && !Rests(book, id) && Silent(unhandled, id))
  }

  ghost predicate Issued(records: Records, g: Gateway) {
    forall id :: id in records ==> id < g.nextOrderId
  }

  /** Fed every unhandled event, the records known so far drop none and agree
      with the book as it already is; the first announced waiting requests have
      their records. */
  ghost predicate Flow(g: Gateway, waiting: seq<Request>, announced: nat, unhandled: seq<Event>, records: Records, book: Book) {
    && Consistent(g) && WellFormed(book) && Issued(records, g)
    && Feed(records, unhandled).Some? && Agrees(Feed(records, unhandled).value, book)
    && Rising(waiting) && announced <= |waiting|
    && (forall i :: 0 <= i < |waiting| ==> Unborn(g, waiting[i], unhandled, book))
    && (forall i :: 0 <= i < announced ==> Announced(records, waiting[i]))
  }

  predicate Pending(note: Option<Note>) {
    note.Some? && !note.value.NoteRejected?
  }

  /** The note still to push belongs to the request still to push. */
  predicate Paired(note: Option<Note>, request: Option<Request>) {
    && (Pending(note) ==> request.Some? && NewId(request.value) == Some(note.value.orderId)
                          && note.value.record.clientId == request.value.clientId)
    && (note.Some? && note.value.NoteRejected? ==> request == None)
  }

  predicate EngineShape(s: State) {
    match s.phase
    case Idle => s.current == None && s.next == None
    case HaveCurrent => s.current.Some? && s.next == None
    case Ready => s.current.Some?
  }

  function AnnouncedCount(s: State): int {
    |Waiting(s)| - if Pending(s.noteToPush) then 1 else 0
  }

  //--- what the marks are worth ---

  /** The note is not about the request's new order or any order resting. */
  ghost predicate Ahead(note: Note, req: Request, book: Book) {
    !note.NoteRejected? ==> NewId(req) != Some(note.orderId) && !Rests(book, note.orderId)
  }

  ghost predicate Foreign(note: Note, e: Event) {
    !note.NoteRejected? ==> !Mentions(e, note.orderId)
  }

  /** No note past a request's mark, or an event's, is about what that request or
      event is about: the records it needs are in the notes before. */
  ghost predicate Causal(notes: seq<Note>, taken: nat, waiting: seq<Marked<Request>>, unhandled: seq<Marked<Event>>,
                         book: Book) {
    && (forall i, k :: 0 <= i < |waiting| && 0 <= k < |notes| && waiting[i].mark <= taken + k ==>
          Ahead(notes[k], waiting[i].item, book))
    && (forall i, k :: 0 <= i < |unhandled| && 0 <= k < |notes| && unhandled[i].mark <= taken + k ==>
          Foreign(notes[k], unhandled[i].item))
    && (forall i, j :: 0 <= i < j < |waiting| ==> waiting[i].mark <= waiting[j].mark)
    && (forall i :: 0 <= i < |waiting| ==> waiting[i].mark <= taken + |notes|)
    && (forall i :: 0 <= i < |unhandled| ==> unhandled[i].mark <= taken + |notes| && Proper(unhandled[i].item))
  }

  /** A replacement is not its own original. */
  predicate Proper(e: Event) {
    e.kind == Replaced ==> e.orderId != e.origOrderId
  }

  ghost predicate Inv(s: State, capacity: nat) {
    && Uncrossed(s.book) && s.book.Size() <= capacity
    && AnnouncedCount(s) >= 0
    && Flow(s.gateway, Items(Waiting(s)), AnnouncedCount(s), Items(Unhandled(s)), TakeAll(s.records, s.notes), s.book)
    && Causal(Untaken(s), s.taken, Waiting(s), Unhandled(s), s.book)
    && EngineShape(s) && Paired(s.noteToPush, s.requestToPush)
    && FreshNotes(s.records, Untaken(s))
    && (s.drained ==> s.held.Some? && Addressed(s.records, s.held.value.item))
    && s.dropped == 0
  }

  ghost predicate AllProper(events: seq<Event>) {
    forall i :: 0 <= i < |events| ==> Proper(events[i])
  }

  lemma ProperAppend(xs: seq<Event>, ys: seq<Event>)
    requires AllProper(xs) && AllProper(ys)
    ensures AllProper(xs + ys)
  {
    hide Proper;
  }

  lemma {:induction false} WalkProper(a: Aggressor, quantity: Quantity, opposite: seq<Order>, match_: nat)
    ensures var events := Walk(a, quantity, opposite, match_).events;
            AllProper(events)
    decreases |opposite| + quantity
  {
    if quantity > 0 && Crosses(a, opposite) {
      var shares := Min(quantity, opposite[0].open);
      WalkProper(a, quantity - shares, Hit(opposite, shares), match_ + 1);
      ProperAppend(TradeEvents(a, opposite[0], shares, match_),
                   Walk(a, quantity - shares, Hit(opposite, shares), match_ + 1).events);
    }
  }

  lemma TradeAndRestProper(book: Book, a: Aggressor, quantity: Quantity, executed: Quantity, mayRest: bool)
    ensures var events := TradeAndRest(book, a, quantity, executed, mayRest).events;
            AllProper(events)
  {
    hide Walk, Put;
    WalkProper(a, quantity, book.On(Opposite(a.side)), book.nextMatch);
    var t := Walk(a, quantity, book.On(Opposite(a.side)), book.nextMatch);
    var gone := Event(Canceled, a.id, 0, 0, a.clientId, a.price, quantity - t.filled, IMMEDIATE_OR_CANCEL, false);
    ProperAppend(t.events, [gone]);
  }

  lemma ProcessProper(book: Book, capacity: nat, req: Request)
    ensures var events := Process(book, capacity, req).events;
            AllProper(events)
  {
    hide TradeAndRest, Put, Take, Shrink, Crosses;
    match req.kind {
      case New =>
        var a := Aggressor(req.orderId, req.clientId, req.side, req.orderType, req.price);
        TradeAndRestProper(book, a, req.quantity, 0, MayRest(req));
      case Cancel =>
      case Replace =>
        if Find(book, req.orderId).Some? {
          var orig := Find(book, req.orderId).value;
          var a := Aggressor(req.newOrderId, req.clientId, orig.side, Limit, req.price);
          TradeAndRestProper(Take(book, orig.side, orig.id), a, OpenAfter(req.quantity, orig.executed), orig.executed,
                             req.timeInForce == Day);
          if !Rests(book, req.newOrderId) { FoundOther(book, req.orderId, req.newOrderId); }
        }
    }
  }

  /** A message's note is about an order nobody has heard of. */
  lemma CausalReceive(g: Gateway, notes: seq<Note>, taken: nat, waiting: seq<Marked<Request>>,
                      unhandled: seq<Marked<Event>>, records: Records, book: Book, t: Translation)
    requires Causal(notes, taken, waiting, unhandled, book)
    requires Flow(g, Items(waiting), |waiting|, Items(unhandled), records, book)
    requires Pending(t.note) ==> t.note.value.orderId == g.nextOrderId
    ensures var notes' := notes + Opt(t.note);
            Causal(notes', taken, waiting + Stamped(Opt(t.request), taken + |notes'|), unhandled, book)
  {
    hide Consistent, WellFormed, Agrees, Rests, Feed;
    Newborn(g, Items(unhandled), records, book);
    var notes' := notes + Opt(t.note);
    assert forall k :: 0 <= k < |notes| ==> notes'[k] == notes[k];
    forall i | 0 <= i < |waiting| ensures NewId(waiting[i].item) != Some(g.nextOrderId) {
      assert Unborn(g, Items(waiting)[i], Items(unhandled), book);
    }
    forall i | 0 <= i < |unhandled| ensures !Mentions(unhandled[i].item, g.nextOrderId) {
      assert !Mentions(Items(unhandled)[i], g.nextOrderId);
    }
  }

  /** What a request causes is about no note past its mark. */
  lemma CausalExecute(notes: seq<Note>, taken: nat, waiting: seq<Marked<Request>>, unhandled: seq<Marked<Event>>,
                      book: Book, capacity: nat)
    requires Causal(notes, taken, waiting, unhandled, book) && waiting != []
    ensures var o := Process(book, capacity, waiting[0].item);
            Causal(notes, taken, waiting[1..], unhandled + Stamped(o.events, waiting[0].mark), o.book)
  {
    hide Process, Rests, Mentions, Proper;
    var req, mark := waiting[0].item, waiting[0].mark;
    var o := Process(book, capacity, req);
    ProcessProper(book, capacity, req);
    forall k | 0 <= k < |notes| && mark <= taken + k && !notes[k].NoteRejected?
      ensures Silent(o.events, notes[k].orderId) && !Rests(o.book, notes[k].orderId)
    {
      assert Ahead(notes[k], waiting[0].item, book);
      ProcessSilent(book, capacity, req, notes[k].orderId);
    }
  }

  lemma CausalTake(notes: seq<Note>, taken: nat, waiting: seq<Marked<Request>>, unhandled: seq<Marked<Event>>, book: Book)
    requires Causal(notes, taken, waiting, unhandled, book) && notes != []
    ensures Causal(notes[1..], taken + 1, waiting, unhandled, book)
  {
    hide Ahead, Foreign, Proper;
    assert forall k :: 0 <= k < |notes| - 1 ==> notes[1..][k] == notes[k + 1];
  }

  /** Notes that are not about an event do nothing for it. */
  lemma {:induction false} TakeForeign(records: Records, notes: seq<Note>, e: Event)
    requires forall k :: 0 <= k < |notes| ==> Foreign(notes[k], e)
    ensures Addressed(TakeAll(records, notes), e) <==> Addressed(records, e)
    decreases |notes|
  {
    if notes != [] {
      assert Foreign(notes[0], e);
      assert Addressed(AfterNote(records, notes[0]), e) <==> Addressed(records, e);
      assert forall k :: 0 <= k < |notes| - 1 ==> notes[1..][k] == notes[k + 1];
      TakeForeign(AfterNote(records, notes[0]), notes[1..], e);
    }
  }

  //--- the four steps that change the view ---

  lemma FlowReceive(g: Gateway, waiting: seq<Request>, unhandled: seq<Event>, records: Records, book: Book,
                    clientId: U32, message: Inbound)
    requires Flow(g, waiting, |waiting|, unhandled, records, book)
    ensures var (g', t) := Translate(g, clientId, message);
            && Paired(t.note, t.request)
            && Flow(g', waiting + Opt(t.request),
                    |waiting| + |Opt(t.request)| - (if Pending(t.note) then 1 else 0), unhandled, records, book)
            && (Pending(t.note) ==> t.note.value.orderId == g.nextOrderId)
  {
    hide Consistent, WellFormed, Feed, Agrees, Translate, Known;
    TranslateKeeps(g, clientId, message);
    var (g', t) := Translate(g, clientId, message);
    var more := waiting + Opt(t.request);
    assert g'.nextOrderId >= g.nextOrderId;
    if t.request.Some? {
      assert more[|waiting|] == t.request.value;
      if NewId(t.request.value).Some? {
        Newborn(g, unhandled, records, book);
      }
    }
  }

  /** The next id to be issued is unheard of. */
  lemma Newborn(g: Gateway, unhandled: seq<Event>, records: Records, book: Book)
    requires Issued(records, g) && Feed(records, unhandled).Some? && Agrees(Feed(records, unhandled).value, book)
    ensures !Rests(book, g.nextOrderId) && Silent(unhandled, g.nextOrderId)
  {
    hide Position;
    FeedKnown(records, unhandled, g.nextOrderId);
  }

  lemma FlowPushNote(g: Gateway, waiting: seq<Request>, unhandled: seq<Event>, records: Records, book: Book, note: Note)
    requires waiting != [] && Flow(g, waiting, |waiting| - 1, unhandled, records, book)
    requires !note.NoteRejected? && NewId(waiting[|waiting| - 1]) == Some(note.orderId)
    requires note.record.clientId == waiting[|waiting| - 1].clientId
    ensures Flow(g, waiting, |waiting|, unhandled, AfterNote(records, note), book)
  {
    hide Consistent, WellFormed, Known, Rests;
    var id, live := note.orderId, LiveOrder(note.record, 0);
    assert Unborn(g, waiting[|waiting| - 1], unhandled, book);
    FeedBeside(records, unhandled, id, live);
    AgreesBeside(Feed(records, unhandled).value, book, id, live);
    forall i | 0 <= i < |waiting| ensures Announced(AfterNote(records, note), waiting[i]) {
      if i < |waiting| - 1 { assert Announced(records, waiting[i]); }
    }
  }

  lemma AgreesBeside(records: Records, book: Book, id: OrderId, live: LiveOrder)
    requires Agrees(records, book) && !Rests(book, id) && live.open == 0
    ensures Agrees(records[id := live], book)
  {
    hide Rests;
    RestsIff(book, id);
    RecordedBoth(records, book, id, live);
  }

  lemma FlowExecute(g: Gateway, waiting: seq<Request>, announced: nat, unhandled: seq<Event>, records: Records,
                    book: Book, capacity: nat)
    requires waiting != [] && announced > 0 && Flow(g, waiting, announced, unhandled, records, book)
    requires Uncrossed(book) && book.Size() <= capacity
    ensures var o := Process(book, capacity, waiting[0]);
            && Flow(g, waiting[1..], announced - 1, unhandled + o.events, records, o.book)
            && Uncrossed(o.book) && o.book.Size() <= capacity
  {
    hide Consistent, WellFormed, Known, Rests, Process, Agrees, Uncrossed;
    var req := waiting[0];
    var o := Process(book, capacity, req);
    var fed := Feed(records, unhandled).value;
    ProcessKeeps(book, capacity, req);
    assert Announced(records, waiting[0]) && Unborn(g, waiting[0], unhandled, book);
    if NewId(req).Some? { FeedSkips(records, unhandled, NewId(req).value); }
    ProcessAgrees(fed, book, capacity, req);
    FeedAppend(records, unhandled, o.events);
    forall i | 0 < i < |waiting| ensures Unborn(g, waiting[i], unhandled + o.events, o.book) {
      assert Unborn(g, waiting[i], unhandled, book);
      if NewId(waiting[i]).Some? {
        ProcessSilent(book, capacity, req, NewId(waiting[i]).value);
      }
    }
    assert forall i :: 0 <= i < |waiting| - 1 ==> waiting[1..][i] == waiting[i + 1];
  }

  lemma FlowAnswer(g: Gateway, waiting: seq<Request>, announced: nat, unhandled: seq<Event>, records: Records, book: Book)
    requires unhandled != [] && Flow(g, waiting, announced, unhandled, records, book)
    ensures Addressed(records, unhandled[0])
    ensures Flow(g, waiting, announced, unhandled[1..], AfterEvent(records, unhandled[0]), book)
  {
    hide Consistent, WellFormed, Rests, Agrees;
    var e := unhandled[0];
    var after := AfterEvent(records, e);
    assert after.Keys <= records.Keys;
    forall i | 0 <= i < |waiting| ensures Unborn(g, waiting[i], unhandled[1..], book) {
      assert Unborn(g, waiting[i], unhandled, book);
    }
    forall i | 0 <= i < announced ensures Announced(after, waiting[i]) {
      assert Announced(records, waiting[i]) && Unborn(g, waiting[i], unhandled, book);
      if NewId(waiting[i]).Some? {
        assert !Mentions(unhandled[0], NewId(waiting[i]).value);
      }
    }
  }

  //--- every step keeps the invariant ---

  lemma ItemsAppend<T>(xs: seq<Marked<T>>, items: seq<T>, mark: nat)
    ensures Items(xs + Stamped(items, mark)) == Items(xs) + items
  {
  }

  lemma FlowStart()
    ensures Flow(FRESH_GATEWAY, [], 0, [], map[], EmptyBook)
  {
    FeedNone(map[]);
  }

  lemma CausalStart()
    ensures Causal([], 0, [], [], EmptyBook)
  {
  }

  lemma StartInv(capacity: nat)
    ensures Inv(START, capacity)
  {
    hide Flow, TakeAll, Known, Causal;
    CausalStart();
    FlowStart();
    assert Untaken(START) == [];
    TakeNone(map[]);
    assert Waiting(START) == [] && Items(Waiting(START)) == [];
    assert Unhandled(START) == [] && Items(Unhandled(START)) == [];
  }

  lemma TakeNone(records: Records)
    ensures TakeAll(records, []) == records
  {
  }

  /** Notes still to be taken in only bring records with nothing open. */
  lemma {:induction false} AgreesUntaken(records: Records, notes: seq<Note>, book: Book)
    requires FreshNotes(records, notes) && WellFormed(book) && Agrees(TakeAll(records, notes), book)
    ensures Agrees(records, book)
    decreases |notes|
  {
    hide Position, FreshNotes;
    if notes != [] {
      var note := notes[0];
      FreshTail(records, notes);
      AgreesUntaken(AfterNote(records, note), notes[1..], book);
      if !note.NoteRejected? {
        FreshHead(records, notes);
        AgreesWithout(records, book, note.orderId, LiveOrder(note.record, 0));
      }
    }
  }

  lemma FreshHead(records: Records, notes: seq<Note>)
    requires FreshNotes(records, notes) && notes != [] && !notes[0].NoteRejected?
    ensures notes[0].orderId !in records
  {
  }

  lemma AgreesWithout(records: Records, book: Book, id: OrderId, live: LiveOrder)
    requires id !in records && live.open == 0 && WellFormed(book) && Agrees(records[id := live], book)
    ensures Agrees(records, book)
  {
    hide Position, Ordered, UniqueIds, DisjointIds;
  }

  /** No event was ever dropped, and one about to be answered has its records and
      is answered to the client whose order it is; a request about to be executed
      is one the book is built for; and with no event on its way, the responder
      holds open shares for exactly the orders resting in the book. */
  ghost predicate Faithful(s: State) {
    && s.dropped == 0
    && (s.held.Some? ==> Proper(s.held.value.item))
    && (s.held.Some? && s.drained ==> Addressed(s.records, s.held.value.item))
    && (s.phase == Ready && s.current.Some? ==> EngineBook.Restable(s.current.value.item))
    && (Unhandled(s) == [] ==> Agrees(s.records, s.book))
  }

  lemma InvMeans(s: State, capacity: nat)
    requires Inv(s, capacity)
    ensures Faithful(s)
  {
    hide Known, Uncrossed, Agrees, Consistent, WellFormed, FreshNotes, Feed;
    if s.current.Some? {
      assert Items(Waiting(s))[0] == s.current.value.item;
    }
    if s.held.Some? {
      assert Unhandled(s)[0] == s.held.value;
    }
    if Unhandled(s) == [] {
      assert Items(Unhandled(s)) == [];
      FeedNone(TakeAll(s.records, s.notes));
      FreshFront(s.records, s.notes, Opt(s.noteToPush));
      AgreesUntaken(s.records, s.notes, s.book);
    }
  }

  lemma ReceiveKeeps(s: State, capacity: nat, clientId: U32, message: Inbound)
    requires Inv(s, capacity) && Enabled(s, Receive(clientId, message))
    ensures Inv(After(s, capacity, Receive(clientId, message)), capacity)
  {
    hide Flow, Translate, Known, FreshNotes, Causal;
    var records := TakeAll(s.records, s.notes);
    var waiting, unhandled := Items(Waiting(s)), Items(Unhandled(s));
    FlowReceive(s.gateway, waiting, unhandled, records, s.book, clientId, message);
    var (g, t) := Translate(s.gateway, clientId, message);
    var s' := After(s, capacity, Receive(clientId, message));
    assert Untaken(s) == s.notes;
    assert Waiting(s) == Opt(s.current) + Opt(s.next) + s.requests;
    assert Waiting(s') == Waiting(s) + Stamped(Opt(t.request), s.taken + |Untaken(s')|);
    ItemsAppend(Waiting(s), Opt(t.request), s.taken + |Untaken(s')|);
    assert Unhandled(s') == Unhandled(s);
    CausalReceive(s.gateway, Untaken(s), s.taken, Waiting(s), Unhandled(s), records, s.book, t);
    FlowIssued(s.gateway, waiting, unhandled, records, s.book);
    FreshNext(s.records, s.notes, s.gateway, t.note);
  }

  lemma FlowIssued(g: Gateway, waiting: seq<Request>, unhandled: seq<Event>, records: Records, book: Book)
    requires Flow(g, waiting, |waiting|, unhandled, records, book)
    ensures Issued(records, g)
  {
  }

  lemma FreshNext(records: Records, notes: seq<Note>, g: Gateway, note: Option<Note>)
    requires FreshNotes(records, notes) && Issued(TakeAll(records, notes), g)
    requires Pending(note) ==> note.value.orderId == g.nextOrderId
    ensures FreshNotes(records, notes + Opt(note))
  {
    if note.Some? {
      var more := notes + [note.value];
      TakeAllKeys(records, notes, g.nextOrderId);
      assert forall i :: 0 <= i < |notes| ==> more[i] == notes[i];
    }
  }

  lemma PushNoteKeeps(s: State, capacity: nat)
    requires Inv(s, capacity) && Enabled(s, PushNote)
    ensures Inv(After(s, capacity, PushNote), capacity)
  {
    hide Flow, Known, FreshNotes, Causal;
    var note := s.noteToPush.value;
    var s' := After(s, capacity, PushNote);
    TakeAllAppend(s.records, s.notes, note);
    assert Untaken(s') == Untaken(s);
    assert Waiting(s') == Waiting(s) && Unhandled(s') == Unhandled(s);
    if Pending(s.noteToPush) {
      var waiting := Items(Waiting(s));
      assert waiting[|waiting| - 1] == s.requestToPush.value;
      FlowPushNote(s.gateway, waiting, Items(Unhandled(s)), TakeAll(s.records, s.notes), s.book, note);
    }
  }

  lemma ExecuteKeeps(s: State, capacity: nat)
    requires Inv(s, capacity) && Enabled(s, Execute)
    ensures Inv(After(s, capacity, Execute), capacity)
  {
    hide Flow, Known, FreshNotes, Process, Uncrossed, Causal;
    var s' := After(s, capacity, Execute);
    var waiting, unhandled := Waiting(s), Unhandled(s);
    var events := Process(s.book, capacity, s.current.value.item).events;
    assert waiting[0] == s.current.value;
    assert Waiting(s') == waiting[1..] && Items(waiting[1..]) == Items(waiting)[1..];
    assert Unhandled(s') == unhandled + Stamped(events, s.current.value.mark);
    ItemsAppend(unhandled, events, s.current.value.mark);
    if Pending(s.noteToPush) {
      assert |waiting| >= 2;
    }
    FlowExecute(s.gateway, Items(waiting), AnnouncedCount(s), Items(unhandled), TakeAll(s.records, s.notes), s.book, capacity);
    CausalExecute(Untaken(s), s.taken, waiting, unhandled, s.book, capacity);
  }

  lemma AnswerKeeps(s: State, capacity: nat, e: Event, s': State)
    requires s.held.Some? && s.drained && e == s.held.value.item && s' == After(s, capacity, Answer)
    requires Inv(s, capacity)
    ensures Addressed(s.records, e) && Inv(s', capacity)
  {
    hide Flow, Known, FreshNotes, AfterEvent, Causal;
    var unhandled := Unhandled(s);
    assert unhandled[0] == s.held.value && Items(unhandled)[0] == e;
    assert Unhandled(s') == unhandled[1..] && Items(unhandled[1..]) == Items(unhandled)[1..];
    assert Waiting(s') == Waiting(s);
    FreshFront(s.records, s.notes, Opt(s.noteToPush));
    NotesCommute(s.records, s.notes, e);
    FlowAnswer(s.gateway, Items(Waiting(s)), AnnouncedCount(s), Items(unhandled), TakeAll(s.records, s.notes), s.book);
    FreshAfter(s.records, Untaken(s), e);
    CausalAnswer(Untaken(s), s.taken, Waiting(s), unhandled, s.book);
  }

  lemma CausalAnswer(notes: seq<Note>, taken: nat, waiting: seq<Marked<Request>>, unhandled: seq<Marked<Event>>, book: Book)
    requires Causal(notes, taken, waiting, unhandled, book) && unhandled != []
    ensures Causal(notes, taken, waiting, unhandled[1..], book)
  {
    hide Ahead, Foreign, Proper;
  }

  lemma FreshFront(records: Records, xs: seq<Note>, ys: seq<Note>)
    requires FreshNotes(records, xs + ys)
    ensures FreshNotes(records, xs)
  {
    assert forall i :: 0 <= i < |xs| ==> (xs + ys)[i] == xs[i];
  }

  lemma FreshAfter(records: Records, notes: seq<Note>, e: Event)
    requires FreshNotes(records, notes) && Known(records, e)
    ensures FreshNotes(AfterEvent(records, e), notes)
  {
    assert AfterEvent(records, e).Keys <= records.Keys;
  }

  lemma WaitingSame(s: State, capacity: nat, step: Step)
    requires EngineShape(s) && Enabled(s, step) && (step.PushRequest? || step.PopCurrent? || step.PopNext?)
    ensures Waiting(After(s, capacity, step)) == Waiting(s)
  {
    var s' := After(s, capacity, step);
    if step.PushRequest? {
      var a, r := Opt(s.current) + Opt(s.next), Marked(s.requestToPush.value, s.taken + |s.notes|);
      assert Untaken(s) == s.notes == Untaken(s');
      assert Stamped(Opt(s.requestToPush), s.taken + |s.notes|) == [r];
      assert a + (s.requests + [r]) + [] == a + s.requests + [r];
    } else if s'.requests != s.requests {
      assert s.requests == [s.requests[0]] + s.requests[1..];
      assert Opt(s'.current) + Opt(s'.next) + s'.requests == Opt(s.current) + Opt(s.next) + s.requests;
    }
  }

  /** Steps that move a request along, or an event, leave the view as it was. */
  lemma MoveRequestKeeps(s: State, capacity: nat, step: Step)
    requires Inv(s, capacity) && Enabled(s, step) && (step.PushRequest? || step.PopCurrent? || step.PopNext?)
    ensures Inv(After(s, capacity, step), capacity)
  {
    hide Flow, Known, FreshNotes, TakeAll, Uncrossed, Waiting, Causal;
    WaitingSame(s, capacity, step);
    assert Unhandled(After(s, capacity, step)) == Unhandled(s);
    hide Unhandled;
  }

  lemma MoveEventKeeps(s: State, capacity: nat, step: Step)
    requires Inv(s, capacity) && Enabled(s, step) && (step.EmitEvent? || step.PopEvent?)
    ensures Inv(After(s, capacity, step), capacity)
  {
    hide Flow, Known, FreshNotes, TakeAll, Uncrossed, Causal, Waiting, Unhandled;
    var s' := After(s, capacity, step);
    UnhandledSame(s, capacity, step);
    WaitingUnmoved(s, s');
  }

  lemma UnhandledSame(s: State, capacity: nat, step: Step)
    requires Enabled(s, step) && (step.EmitEvent? || step.PopEvent?)
    ensures Unhandled(After(s, capacity, step)) == Unhandled(s)
  {
    if step.EmitEvent? {
      assert s.emitting == [s.emitting[0]] + s.emitting[1..];
    } else {
      assert s.events == [s.events[0]] + s.events[1..];
    }
  }

  lemma WaitingUnmoved(s: State, s': State)
    requires s'.current == s.current && s'.next == s.next && s'.requests == s.requests && s'.requestToPush == s.requestToPush
    requires s'.taken == s.taken && Untaken(s') == Untaken(s)
    ensures Waiting(s') == Waiting(s)
  {
  }

  lemma TakeNoteKeeps(s: State, capacity: nat)
    requires Inv(s, capacity) && Enabled(s, TakeNote)
    ensures Inv(After(s, capacity, TakeNote), capacity)
  {
    hide Flow, Known, FreshNotes, Uncrossed, Causal;
    var s' := After(s, capacity, TakeNote);
    assert Untaken(s') == Untaken(s)[1..];
    assert Waiting(s') == Waiting(s);
    assert Unhandled(s') == Unhandled(s);
    FreshTail(s.records, Untaken(s));
    CausalTake(Untaken(s), s.taken, Waiting(s), Unhandled(s), s.book);
  }

  /** However early the drain ends, it has taken in the notes the event needs. */
  lemma EndDrainKeeps(s: State, capacity: nat)
    requires Inv(s, capacity) && Enabled(s, EndDrain)
    ensures Inv(After(s, capacity, EndDrain), capacity)
  {
    hide Flow, Known, FreshNotes, Uncrossed, Causal, TakeAll, Feed;
    var s' := After(s, capacity, EndDrain);
    assert Waiting(s') == Waiting(s);
    assert Unhandled(s') == Unhandled(s);
    var e := s.held.value.item;
    assert Items(Unhandled(s))[0] == e;
    FlowAnswer(s.gateway, Items(Waiting(s)), AnnouncedCount(s), Items(Unhandled(s)), TakeAll(s.records, s.notes), s.book);
    PastForeign(s);
    TakeForeign(s.records, s.notes, e);
  }

  lemma PastForeign(s: State)
    requires Causal(Untaken(s), s.taken, Waiting(s), Unhandled(s), s.book)
    requires s.held.Some? && s.held.value.mark <= s.taken
    ensures forall k :: 0 <= k < |s.notes| ==> Foreign(s.notes[k], s.held.value.item)
  {
    hide Ahead, Foreign, Proper;
    assert Unhandled(s)[0] == s.held.value;
    assert forall k :: 0 <= k < |s.notes| ==> Untaken(s)[k] == s.notes[k];
  }

  lemma StepKeeps(s: State, capacity: nat, step: Step)
    requires Inv(s, capacity) && Enabled(s, step)
    ensures Inv(After(s, capacity, step), capacity)
  {
    hide Inv, After;
    match step
    case Receive(clientId, message) => ReceiveKeeps(s, capacity, clientId, message);
    case PushNote => PushNoteKeeps(s, capacity);
    case Execute => ExecuteKeeps(s, capacity);
    case Answer => AnswerKeeps(s, capacity, s.held.value.item, After(s, capacity, step));
    case TakeNote => TakeNoteKeeps(s, capacity);
    case EndDrain => EndDrainKeeps(s, capacity);
    case EmitEvent => MoveEventKeeps(s, capacity, step);
    case PopEvent => MoveEventKeeps(s, capacity, step);
    case _ => MoveRequestKeeps(s, capacity, step);
  }

  /** A run: any interleaving of enabled steps from the start. */
  ghost predicate Interleaving(states: seq<State>, steps: seq<Step>, capacity: nat) {
    && |states| == |steps| + 1 && states[0] == START
    && (forall i :: 0 <= i < |steps| ==>
          Enabled(states[i], steps[i]) && states[i + 1] == After(states[i], capacity, steps[i]))
  }

  /** Over every interleaving of the three threads, every state is faithful: each
      event finds its order's record (and, replaced, the original's) when it is
      answered, so on_event never drops a message or sends it to a stranger. */
  lemma {:induction false} NothingDropped(states: seq<State>, steps: seq<Step>, capacity: nat, i: nat)
    requires Interleaving(states, steps, capacity) && i <= |steps|
    ensures Inv(states[i], capacity) && Faithful(states[i])
    decreases i
  {
    hide After, Faithful, Inv, Enabled;
    if i == 0 {
      StartInv(capacity);
    } else {
      NothingDropped(states, steps, capacity, i - 1);
      StepKeeps(states[i - 1], capacity, steps[i - 1]);
    }
    InvMeans(states[i], capacity);
  }
}
