/** The server as a whole: the order pipeline and the session threads over the one
    ring of notes they share, where logins, disconnects and orders keep the order
    the inbound thread pushed them in. Over every interleaving, every answer the
    responder makes goes into its client's log. */
module Exchange {
  import opened EngineTypes
  import opened Wire
  import SoupBin
  import Transcript
  import Outbound
  import Sessions
  import OrderEntry
  import OuchResponder
  import OuchFrames
  import Pipeline

  datatype RingNote = ForSession(session: Outbound.Note) | ForGateway(gateway: OrderEntry.Note)

  /** An OUCH message for a client. */
  datatype Answer = Answer(clientId: nat, payload: seq<Byte>)

  /** answers is every message the responder has ever made. */
  datatype World = World(orders: Pipeline.State, sessions: Sessions.System, ring: seq<RingNote>, answers: seq<Answer>)

  /** The notes of each kind, in ring order. */
  function SessionNotes(ring: seq<RingNote>): seq<Outbound.Note> {
    if ring == [] then []
    else (if ring[0].ForSession? then [ring[0].session] else []) + SessionNotes(ring[1..])
  }

  function GatewayNotes(ring: seq<RingNote>): seq<OrderEntry.Note> {
    if ring == [] then []
    else (if ring[0].ForGateway? then [ring[0].gateway] else []) + GatewayNotes(ring[1..])
  }

  lemma {:induction false} NotesAppend(ring: seq<RingNote>, note: RingNote)
    ensures SessionNotes(ring + [note]) == SessionNotes(ring) + if note.ForSession? then [note.session] else []
    ensures GatewayNotes(ring + [note]) == GatewayNotes(ring) + if note.ForGateway? then [note.gateway] else []
  {
    if ring == [] {
      assert ring + [note] == [note] && [note][1..] == [];
    } else {
      assert (ring + [note])[1..] == ring[1..] + [note];
      NotesAppend(ring[1..], note);
    }
  }

  /** What one client was answered, in order. */
  function ToClient(answers: seq<Answer>, c: nat): seq<seq<Byte>> {
    if answers == [] then []
    else
      var last := answers[|answers| - 1];
      ToClient(answers[..|answers| - 1], c) + if last.clientId == c then [last.payload] else []
  }

  /** Each ring is the shared one's notes of its kind. */
  ghost predicate Coherent(w: World) {
    SessionNotes(w.ring) == w.sessions.notes && GatewayNotes(w.ring) == w.orders.notes
  }

  //--- steps ---

  datatype Step =
    // inbound thread: a connection's life, an order message, the order's note
    | Line(line: Sessions.Step)
    | Order(k: nat, message: OrderEntry.Inbound)
    | PushNote
    // inbound thread's request, the engine, the event the outbound thread pops and the end of its drain
    | Carry(carry: Pipeline.Step)
    // outbound thread: a note off the ring, an event answered, bytes sent
    | TakeNote(stamp: nat)
    | AnswerEvent(stamp: nat)
    | Send(move: Outbound.Move)

  predicate Enabled(w: World, step: Step) {
    match step
    case Line(t) =>
      (t.Connected? || t.Login? || t.Refuse? || t.Drop?) && Sessions.Enabled(w.sessions, t)
      && w.orders.noteToPush == None && w.orders.requestToPush == None
    case Order(k, message) =>
      k < |w.sessions.lines| && w.sessions.lines[k].open && w.sessions.lines[k].loggedIn
      && w.sessions.lines[k].clientId < 0x1_0000_0000 // ClientId is 32 bits
      && Pipeline.Enabled(w.orders, Pipeline.Receive(w.sessions.lines[k].clientId, message))
    case PushNote => Pipeline.Enabled(w.orders, Pipeline.PushNote)
    case Carry(t) =>
      !t.Receive? && !t.PushNote? && !t.TakeNote? && !t.Answer? && Pipeline.Enabled(w.orders, t)
    case TakeNote(_) => w.ring != [] && !w.orders.drained
    case AnswerEvent(_) => Pipeline.Enabled(w.orders, Pipeline.Answer)
    case Send(move) => Outbound.CanMove(w.sessions.out, move)
  }

  /** The response goes to its client's log -- if it has one. */
  ghost function Sent(w: World, r: OuchResponder.Response, stamp: nat, log: nat): World
    requires Sessions.SysInv(w.sessions, log)
  {
    var payload := OuchFrames.Payload(r.frame, stamp);
    w.(answers := w.answers + [Answer(r.clientId, payload)],
       sessions := if r.clientId < |w.sessions.messages|
                   then Sessions.Messaging(w.sessions, r.clientId, payload, log) else w.sessions)
  }

  function RejectResponse(note: OrderEntry.Note): OuchResponder.Response
    requires note.NoteRejected?
  {
    OuchResponder.Response(note.record.clientId,
      OuchResponder.FrameRejected(note.record.userRefNum, note.reason, note.record.clOrdId))
  }

  /** on_note_: a session note is heeded, an order note goes to the responder. */
  ghost function Taking(w: World, stamp: nat, pool: nat, log: nat): World
    requires w.ring != [] && !w.orders.drained && Coherent(w) && Sessions.SysInv(w.sessions, log)
  {
    match w.ring[0]
    case ForSession(_) => w.(sessions := Sessions.After(w.sessions, Sessions.Heed, log), ring := w.ring[1..])
    case ForGateway(note) =>
      var w' := w.(orders := Pipeline.After(w.orders, pool, Pipeline.TakeNote), ring := w.ring[1..]);
      if note.NoteRejected? then Sent(w', RejectResponse(note), stamp, log) else w'
  }

  ghost function Answering(w: World, stamp: nat, pool: nat, log: nat): World
    requires w.orders.held.Some? && w.orders.drained && Sessions.SysInv(w.sessions, log)
  {
    var records, e := w.orders.records, w.orders.held.value.item;
    var w' := w.(orders := Pipeline.After(w.orders, pool, Pipeline.Answer));
    if OuchResponder.Known(records, e) then Sent(w', OuchResponder.Message(records, e), stamp, log) else w'
  }

  /** pool is the engine's order capacity, log a session log's bytes. */
  ghost function After(w: World, step: Step, pool: nat, log: nat): World
    requires Sessions.SysInv(w.sessions, log) && Coherent(w) && Enabled(w, step)
  {
    match step
    case Line(t) =>
      var sessions := Sessions.After(w.sessions, t, log);
      var n := |w.sessions.notes|;
      w.(sessions := sessions,
         ring := if |sessions.notes| > n then w.ring + [ForSession(sessions.notes[n])] else w.ring)
    case Order(k, message) =>
      w.(orders := Pipeline.After(w.orders, pool, Pipeline.Receive(w.sessions.lines[k].clientId, message)))
    case PushNote =>
      w.(orders := Pipeline.After(w.orders, pool, Pipeline.PushNote), ring := w.ring + [ForGateway(w.orders.noteToPush.value)])
    case Carry(t) => w.(orders := Pipeline.After(w.orders, pool, t))
    case TakeNote(stamp) => Taking(w, stamp, pool, log)
    case AnswerEvent(stamp) => Answering(w, stamp, pool, log)
    case Send(move) => w.(sessions := Sessions.After(w.sessions, Sessions.Act(move), log))
  }

  //--- whoever is owed an answer has a log by the time it is made ---

  ghost predicate HasLog(sessions: seq<Outbound.Session>, c: nat) {
    c < |sessions| && sessions[c].log.Some?
  }

  predicate IsLogin(note: RingNote, c: nat) {
    note.ForSession? && note.session.LoggedIn? && note.session.clientId == c
  }

  /** By the time these notes are heeded, client c has a log. */
  ghost predicate Promised(sessions: seq<Outbound.Session>, notes: seq<RingNote>, c: nat) {
    c < |sessions| && (sessions[c].log.Some? || exists i :: 0 <= i < |notes| && IsLogin(notes[i], c))
  }

  ghost predicate RingPromised(sessions: seq<Outbound.Session>, ring: seq<RingNote>) {
    forall i :: 0 <= i < |ring| && ring[i].ForGateway? ==> Promised(sessions, ring[..i], ring[i].gateway.record.clientId)
  }

  ghost predicate LinesPromised(sessions: seq<Outbound.Session>, ring: seq<RingNote>, lines: seq<Sessions.Line>) {
    forall k :: 0 <= k < |lines| && lines[k].open && lines[k].loggedIn ==> Promised(sessions, ring, lines[k].clientId)
  }

  ghost predicate RecordsLogged(sessions: seq<Outbound.Session>, records: OuchResponder.Records) {
    forall id :: id in records ==> HasLog(sessions, records[id].record.clientId)
  }

  ghost predicate NotePromised(sessions: seq<Outbound.Session>, ring: seq<RingNote>, note: Option<OrderEntry.Note>) {
    note.Some? ==> Promised(sessions, ring, note.value.record.clientId)
  }

  /** Whoever has an order note on the ring or about to be, a logged-in connection,
      or an order on record, has a log when its turn comes. */
  ghost predicate Owed(w: World) {
    var sessions := w.sessions.out.sessions;
    && RingPromised(sessions, w.ring)
    && LinesPromised(sessions, w.ring, w.sessions.lines)
    && RecordsLogged(sessions, w.orders.records)
    && NotePromised(sessions, w.ring, w.orders.noteToPush)
  }

  /** Every session was sent exactly the answers made for it. */
  ghost predicate Delivered(w: World) {
    && (forall c :: 0 <= c < |w.sessions.messages| ==> w.sessions.messages[c] == ToClient(w.answers, c))
    && (forall i :: 0 <= i < |w.answers| ==> w.answers[i].clientId < |w.sessions.messages|)
  }

  ghost predicate Inv(w: World, pool: nat, log: nat) {
    && Pipeline.Inv(w.orders, pool) && Sessions.SysInv(w.sessions, log)
    && Coherent(w) && Owed(w) && Delivered(w)
  }

  //--- promises under each change ---

  ghost predicate LogsKept(a: seq<Outbound.Session>, b: seq<Outbound.Session>) {
    |a| == |b| && forall c :: 0 <= c < |a| && a[c].log.Some? ==> b[c].log.Some?
  }

  lemma PromisedMore(a: seq<Outbound.Session>, b: seq<Outbound.Session>, notes: seq<RingNote>, more: seq<RingNote>, c: nat)
    requires Promised(a, notes, c) && LogsKept(a, b) && notes <= more
    ensures Promised(b, more, c)
  {
    if i :| 0 <= i < |notes| && IsLogin(notes[i], c) {
      assert IsLogin(more[i], c);
    }
  }

  lemma PromisedTail(a: seq<Outbound.Session>, b: seq<Outbound.Session>, notes: seq<RingNote>, c: nat)
    requires notes != [] && Promised(a, notes, c) && LogsKept(a, b) && (IsLogin(notes[0], c) ==> HasLog(b, c))
    ensures Promised(b, notes[1..], c)
  {
    if i :| 0 < i < |notes| && IsLogin(notes[i], c) {
      assert IsLogin(notes[1..][i - 1], c);
    }
  }

  /** A note joins the ring, its own promise already made. */
  lemma RingGrows(a: seq<Outbound.Session>, b: seq<Outbound.Session>, ring: seq<RingNote>, more: seq<RingNote>)
    requires RingPromised(a, ring) && LogsKept(a, b) && |more| <= 1
    requires more != [] && more[0].ForGateway? ==> Promised(a, ring, more[0].gateway.record.clientId)
    ensures RingPromised(b, ring + more)
  {
    hide Promised, LogsKept;
    var all := ring + more;
    forall i | 0 <= i < |all| && all[i].ForGateway? ensures Promised(b, all[..i], all[i].gateway.record.clientId) {
      if i < |ring| {
        assert all[..i] == ring[..i];
        PromisedMore(a, b, ring[..i], ring[..i], ring[i].gateway.record.clientId);
      } else {
        assert all[..i] == ring;
        PromisedMore(a, b, ring, ring, more[0].gateway.record.clientId);
      }
    }
  }

  lemma RingShrinks(a: seq<Outbound.Session>, b: seq<Outbound.Session>, ring: seq<RingNote>)
    requires ring != [] && RingPromised(a, ring) && LogsKept(a, b)
    requires forall c: nat :: IsLogin(ring[0], c) ==> HasLog(b, c)
    ensures RingPromised(b, ring[1..])
  {
    hide Promised, LogsKept, HasLog, IsLogin;
    forall i | 0 <= i < |ring| - 1 && ring[1..][i].ForGateway?
      ensures Promised(b, ring[1..][..i], ring[1..][i].gateway.record.clientId)
    {
      assert ring[1..][i] == ring[i + 1] && ring[..i + 1][1..] == ring[1..][..i];
      PromisedTail(a, b, ring[..i + 1], ring[i + 1].gateway.record.clientId);
    }
  }

  lemma LinesGrow(a: seq<Outbound.Session>, b: seq<Outbound.Session>, ring: seq<RingNote>, more: seq<RingNote>, lines: seq<Sessions.Line>)
    requires LinesPromised(a, ring, lines) && LogsKept(a, b)
    ensures LinesPromised(b, ring + more, lines)
  {
    hide Promised, LogsKept;
    forall k | 0 <= k < |lines| && lines[k].open && lines[k].loggedIn ensures Promised(b, ring + more, lines[k].clientId) {
      PromisedMore(a, b, ring, ring + more, lines[k].clientId);
    }
  }

  lemma LinesShrink(a: seq<Outbound.Session>, b: seq<Outbound.Session>, ring: seq<RingNote>, lines: seq<Sessions.Line>)
    requires ring != [] && LinesPromised(a, ring, lines) && LogsKept(a, b)
    requires forall c: nat :: IsLogin(ring[0], c) ==> HasLog(b, c)
    ensures LinesPromised(b, ring[1..], lines)
  {
    hide Promised, LogsKept, HasLog, IsLogin;
    forall k | 0 <= k < |lines| && lines[k].open && lines[k].loggedIn ensures Promised(b, ring[1..], lines[k].clientId) {
      PromisedTail(a, b, ring, lines[k].clientId);
    }
  }

  /** Nothing but logs gained. */
  lemma OwedKept(w: World, w': World)
    requires Owed(w) && LogsKept(w.sessions.out.sessions, w'.sessions.out.sessions)
    requires w'.ring == w.ring && w'.sessions.lines == w.sessions.lines
    requires w'.orders.records == w.orders.records && w'.orders.noteToPush == w.orders.noteToPush
    ensures Owed(w')
  {
    hide Promised, RingPromised, LinesPromised;
    var a, b := w.sessions.out.sessions, w'.sessions.out.sessions;
    assert w.ring + [] == w.ring;
    RingGrows(a, b, w.ring, []);
    LinesGrow(a, b, w.ring, [], w.sessions.lines);
    if w.orders.noteToPush.Some? {
      PromisedMore(a, b, w.ring, w.ring, w.orders.noteToPush.value.record.clientId);
    }
  }

  /** A note has been taken off the ring. */
  lemma OwedShrunk(w: World, w': World)
    requires w.ring != [] && Owed(w) && LogsKept(w.sessions.out.sessions, w'.sessions.out.sessions)
    requires forall c: nat :: IsLogin(w.ring[0], c) ==> HasLog(w'.sessions.out.sessions, c)
    requires w'.ring == w.ring[1..] && w'.sessions.lines == w.sessions.lines
    requires RecordsLogged(w.sessions.out.sessions, w'.orders.records) && w'.orders.noteToPush == w.orders.noteToPush
    ensures Owed(w')
  {
    hide Promised, RingPromised, LinesPromised, IsLogin;
    var a, b := w.sessions.out.sessions, w'.sessions.out.sessions;
    RingShrinks(a, b, w.ring);
    LinesShrink(a, b, w.ring, w.sessions.lines);
    if w.orders.noteToPush.Some? {
      PromisedTail(a, b, w.ring, w.orders.noteToPush.value.record.clientId);
    }
  }

  //--- logs under each step ---

  lemma HeedLogs(out: Outbound.State, note: Outbound.Note, log: nat)
    requires Outbound.Heedable(out, note)
    ensures LogsKept(out.sessions, Outbound.Heeded(out, note, log).sessions)
    ensures note.LoggedIn? ==> HasLog(Outbound.Heeded(out, note, log).sessions, note.clientId)
  {
    hide SoupBin.Frame, Transcript.Offset, Outbound.FirstHeld, Outbound.StartOf, Outbound.Marked;
  }

  lemma MoveLogs(out: Outbound.State, move: Outbound.Move)
    requires Outbound.CanMove(out, move)
    ensures LogsKept(out.sessions, Outbound.Moved(out, move).sessions)
  {
    hide SoupBin.Frame, Stream, Outbound.Marked;
  }

  lemma SequenceLogs(out: Outbound.State, c: nat, packet: seq<Byte>, log: nat)
    requires Outbound.Paired(out.conns, out.sessions) && Outbound.Slotted(out.conns, out.closed) && c < |out.sessions|
    ensures LogsKept(out.sessions, Outbound.Sequence(out, c, packet, log).sessions)
  {
    hide Outbound.WouldOverwrite, Outbound.Marked;
  }

  //--- an answer made is an answer in the log ---

  lemma ToClientAppend(answers: seq<Answer>, a: Answer, c: nat)
    ensures ToClient(answers + [a], c) == ToClient(answers, c) + if a.clientId == c then [a.payload] else []
  {
    assert (answers + [a])[..|answers|] == answers;
  }

  lemma MessagingIs(s: Sessions.System, c: nat, payload: seq<Byte>, log: nat)
    requires Sessions.SysInv(s, log) && HasLog(s.out.sessions, c)
    ensures c < |s.messages|
    ensures var s' := Sessions.Messaging(s, c, payload, log);
            && s'.messages == s.messages[c := s.messages[c] + [payload]] && s'.lines == s.lines && s'.notes == s.notes
            && LogsKept(s.out.sessions, s'.out.sessions)
  {
    hide Outbound.Sequence, SoupBin.Frame, Outbound.Paired, Outbound.Slotted;
    SequenceLogs(s.out, c, SoupBin.Frame(SoupBin.Packet(SoupBin.SEQUENCED_DATA, payload)), log);
  }

  lemma SentKeeps(w: World, r: OuchResponder.Response, stamp: nat, pool: nat, log: nat)
    requires Inv(w, pool, log) && HasLog(w.sessions.out.sessions, r.clientId)
    ensures Inv(Sent(w, r, stamp, log), pool, log)
  {
    hide Sessions.SysInv, Sessions.Messaging, Pipeline.Inv, OuchFrames.Payload, Owed, LogsKept, SessionNotes, GatewayNotes,
         ToClient;
    var c, payload := r.clientId, OuchFrames.Payload(r.frame, stamp);
    OuchFrames.PayloadFits(r.frame, stamp);
    MessagingIs(w.sessions, c, payload, log);
    Sessions.StepKeeps(w.sessions, Sessions.Message(c, payload), log);
    var w' := Sent(w, r, stamp, log);
    OwedKept(w, w');
    forall d | 0 <= d < |w'.sessions.messages| ensures w'.sessions.messages[d] == ToClient(w'.answers, d) {
      ToClientAppend(w.answers, Answer(c, payload), d);
    }
  }

  //--- every step ---

  /** A connection's life: what it pushes, the ring gets. */
  lemma LineKeeps(w: World, t: Sessions.Step, pool: nat, log: nat)
    requires Inv(w, pool, log) && Enabled(w, Line(t))
    ensures Inv(After(w, Line(t), pool, log), pool, log)
  {
    hide Sessions.SysInv, Pipeline.Inv, RingPromised, LinesPromised, Promised, RecordsLogged, SessionNotes, GatewayNotes;
    Sessions.StepKeeps(w.sessions, t, log);
    var w' := After(w, Line(t), pool, log);
    var more := w'.ring[|w.ring|..];
    assert w'.ring == w.ring + more;
    if more != [] { NotesAppend(w.ring, more[0]); }
    var sessions := w.sessions.out.sessions;
    RingGrows(sessions, sessions, w.ring, more);
    LineOwed(w, t, pool, log);
  }

  lemma LineOwed(w: World, t: Sessions.Step, pool: nat, log: nat)
    requires Inv(w, pool, log) && Enabled(w, Line(t))
    ensures var w' := After(w, Line(t), pool, log);
            LinesPromised(w.sessions.out.sessions, w'.ring, w'.sessions.lines)
  {
    hide Pipeline.Inv, RingPromised, Promised, RecordsLogged, SessionNotes, GatewayNotes, Delivered;
    var w' := After(w, Line(t), pool, log);
    var sessions := w.sessions.out.sessions;
    LinesGrow(sessions, sessions, w.ring, w'.ring[|w.ring|..], w.sessions.lines);
    assert w'.ring == w.ring + w'.ring[|w.ring|..];
    if t.Login? {
      assert IsLogin(w'.ring[|w.ring|], t.clientId);
      assert Promised(sessions, w'.ring, t.clientId) by { LoginPromises(sessions, w'.ring, |w.ring|, t.clientId); }
    }
  }

  lemma LoginPromises(sessions: seq<Outbound.Session>, ring: seq<RingNote>, i: nat, c: nat)
    requires c < |sessions| && i < |ring| && IsLogin(ring[i], c)
    ensures Promised(sessions, ring, c)
  {
  }

  /** An order note is about the client that sent the message. */
  lemma NoteClient(g: OrderEntry.Gateway, clientId: OrderEntry.U32, message: OrderEntry.Inbound)
    requires OrderEntry.Consistent(g)
    ensures var (_, t) := OrderEntry.Translate(g, clientId, message);
            t.note.Some? ==> t.note.value.record.clientId == clientId
  {
    if message.Replace? {
      var key := OrderEntry.Key(clientId, message.replace.origUserRefNum);
      if key in g.orders {
        var record := g.orders[key].record;
        OrderEntry.KeyInjective(record.clientId, record.userRefNum, clientId, message.replace.origUserRefNum);
      }
    }
  }

  lemma OrderKeeps(w: World, k: nat, message: OrderEntry.Inbound, pool: nat, log: nat)
    requires Inv(w, pool, log) && Enabled(w, Order(k, message))
    ensures Inv(After(w, Order(k, message), pool, log), pool, log)
  {
    hide Sessions.SysInv, RingPromised, Promised, RecordsLogged, SessionNotes, GatewayNotes, OrderEntry.Consistent,
         OrderEntry.Translate, Pipeline.Causal, ToClient;
    var c := w.sessions.lines[k].clientId;
    NoteClient(w.orders.gateway, c, message);
    Pipeline.StepKeeps(w.orders, pool, Pipeline.Receive(c, message));
    hide Pipeline.Inv;
  }

  lemma PushNoteKeeps(w: World, pool: nat, log: nat)
    requires Inv(w, pool, log) && Enabled(w, PushNote)
    ensures Inv(After(w, PushNote, pool, log), pool, log)
  {
    hide Sessions.SysInv, Pipeline.Inv, RingPromised, LinesPromised, Promised, RecordsLogged, SessionNotes, GatewayNotes,
         ToClient;
    var note := ForGateway(w.orders.noteToPush.value);
    Pipeline.StepKeeps(w.orders, pool, Pipeline.PushNote);
    NotesAppend(w.ring, note);
    var sessions := w.sessions.out.sessions;
    RingGrows(sessions, sessions, w.ring, [note]);
    LinesGrow(sessions, sessions, w.ring, [note], w.sessions.lines);
  }

  lemma CarryKeeps(w: World, t: Pipeline.Step, pool: nat, log: nat)
    requires Inv(w, pool, log) && Enabled(w, Carry(t))
    ensures Inv(After(w, Carry(t), pool, log), pool, log)
  {
    hide Sessions.SysInv, Pipeline.Inv, RingPromised, LinesPromised, Promised, RecordsLogged, SessionNotes, GatewayNotes,
         ToClient;
    Pipeline.StepKeeps(w.orders, pool, t);
  }

  lemma HeedKeeps(w: World, stamp: nat, pool: nat, log: nat)
    requires w.ring != [] && w.ring[0].ForSession?
    requires Inv(w, pool, log) && Enabled(w, TakeNote(stamp))
    ensures Inv(After(w, TakeNote(stamp), pool, log), pool, log)
  {
    hide Sessions.SysInv, Pipeline.Inv, Owed, Outbound.Heeded, Outbound.Heedable, Sessions.InTurn, Sessions.Entered;
    Sessions.StepKeeps(w.sessions, Sessions.Heed, log);
    Sessions.NotesHeedable(w.sessions, log);
    HeedLogs(w.sessions.out, w.sessions.notes[0], log);
    var w' := After(w, TakeNote(stamp), pool, log);
    OwedLogged(w);
    OwedShrunk(w, w');
  }

  lemma OwedLogged(w: World)
    requires Owed(w)
    ensures RecordsLogged(w.sessions.out.sessions, w.orders.records)
  {
  }

  /** An order note reaches a client that has its log by then. */
  lemma HeadLogged(w: World)
    requires Owed(w) && w.ring != [] && w.ring[0].ForGateway?
    ensures HasLog(w.sessions.out.sessions, w.ring[0].gateway.record.clientId)
  {
    assert w.ring[..0] == [];
  }

  lemma TakeGatewayKeeps(w: World, stamp: nat, pool: nat, log: nat)
    requires w.ring != [] && w.ring[0].ForGateway?
    requires Inv(w, pool, log) && Enabled(w, TakeNote(stamp))
    ensures Inv(After(w, TakeNote(stamp), pool, log), pool, log)
  {
    hide Sessions.SysInv, Pipeline.Inv, Owed, Delivered, Sent, HasLog;
    var note := w.ring[0].gateway;
    HeadLogged(w);
    OwedLogged(w);
    Pipeline.StepKeeps(w.orders, pool, Pipeline.TakeNote);
    var w' := w.(orders := Pipeline.After(w.orders, pool, Pipeline.TakeNote), ring := w.ring[1..]);
    OwedShrunk(w, w');
    DeliveredSame(w, w');
    if note.NoteRejected? { SentKeeps(w', RejectResponse(note), stamp, pool, log); }
  }

  lemma DeliveredSame(w: World, w': World)
    requires Delivered(w) && w'.answers == w.answers && w'.sessions.messages == w.sessions.messages
    ensures Delivered(w')
  {
  }

  /** The event's record is there and names a client with a log. */
  lemma AnswerKeeps(w: World, stamp: nat, pool: nat, log: nat)
    requires w.orders.held.Some? && Inv(w, pool, log) && Enabled(w, AnswerEvent(stamp))
    ensures OuchResponder.Known(w.orders.records, w.orders.held.value.item)
    ensures Inv(After(w, AnswerEvent(stamp), pool, log), pool, log)
  {
    hide Sessions.SysInv, Pipeline.Inv, RingPromised, LinesPromised, Promised, SessionNotes, GatewayNotes, Delivered, Sent;
    Pipeline.AnswerKeeps(w.orders, pool, w.orders.held.value.item, Pipeline.After(w.orders, pool, Pipeline.Answer));
    var w' := w.(orders := Pipeline.After(w.orders, pool, Pipeline.Answer));
    DeliveredSame(w, w');
    SentKeeps(w', OuchResponder.Message(w.orders.records, w.orders.held.value.item), stamp, pool, log);
  }

  lemma SendKeeps(w: World, move: Outbound.Move, pool: nat, log: nat)
    requires Inv(w, pool, log) && Enabled(w, Send(move))
    ensures Inv(After(w, Send(move), pool, log), pool, log)
  {
    hide Sessions.SysInv, Pipeline.Inv, Owed, Outbound.Moved, SessionNotes, GatewayNotes, Delivered;
    Sessions.StepKeeps(w.sessions, Sessions.Act(move), log);
    MoveLogs(w.sessions.out, move);
    var w' := After(w, Send(move), pool, log);
    OwedKept(w, w');
    DeliveredSame(w, w');
  }

  lemma StepKeeps(w: World, step: Step, pool: nat, log: nat)
    requires Inv(w, pool, log) && Enabled(w, step)
    ensures Inv(After(w, step, pool, log), pool, log)
  {
    hide Inv, After;
    match step {
      case Line(t) => LineKeeps(w, t, pool, log);
      case Order(k, message) => OrderKeeps(w, k, message, pool, log);
      case PushNote => PushNoteKeeps(w, pool, log);
      case Carry(t) => CarryKeeps(w, t, pool, log);
      case TakeNote(stamp) =>
        if w.ring[0].ForSession? { HeedKeeps(w, stamp, pool, log); } else { TakeGatewayKeeps(w, stamp, pool, log); }
      case AnswerEvent(stamp) => AnswerKeeps(w, stamp, pool, log);
      case Send(move) => SendKeeps(w, move, pool, log);
    }
  }

  //--- what is answered when ---

  /** One more answer, and one more message in its client's log. */
  ghost predicate Answers(w: World, w': World, c: nat, payload: seq<Byte>) {
    && w'.answers == w.answers + [Answer(c, payload)]
    && c < |w.sessions.messages| && w'.sessions.messages == w.sessions.messages[c := w.sessions.messages[c] + [payload]]
  }

  ghost predicate Silent(w: World, w': World) {
    w'.answers == w.answers && w'.sessions.messages == w.sessions.messages
  }

  lemma SentAnswers(w: World, r: OuchResponder.Response, stamp: nat, log: nat)
    requires Sessions.SysInv(w.sessions, log) && HasLog(w.sessions.out.sessions, r.clientId)
    ensures Answers(w, Sent(w, r, stamp, log), r.clientId, OuchFrames.Payload(r.frame, stamp))
  {
    hide Sessions.SysInv, Sessions.Messaging, OuchFrames.Payload;
    MessagingIs(w.sessions, r.clientId, OuchFrames.Payload(r.frame, stamp), log);
  }

  /** An event is answered, once, to the client it is for, when its turn comes. */
  lemma EventAnswered(w: World, e: Event, stamp: nat, pool: nat, log: nat, w': World)
    requires w.orders.held.Some? && w.orders.drained && e == w.orders.held.value.item
    requires Sessions.SysInv(w.sessions, log) && w' == Answering(w, stamp, pool, log)
    requires Pipeline.Inv(w.orders, pool) && Owed(w)
    ensures OuchResponder.Known(w.orders.records, e)
    ensures Answers(w, w', e.clientId, OuchFrames.Payload(OuchResponder.Message(w.orders.records, e).frame, stamp))
  {
    hide Sessions.SysInv, Pipeline.Inv, RingPromised, LinesPromised, Promised, Sent, OuchFrames.Payload;
    var m := w.(orders := Pipeline.After(w.orders, pool, Pipeline.Answer));
    Pipeline.AnswerKeeps(w.orders, pool, e, m.orders);
    SentAnswers(m, OuchResponder.Message(w.orders.records, e), stamp, log);
  }

  /** An order note that says a message was rejected is answered with its reason, once,
      to the client that sent it; no other note is answered. */
  lemma NoteAnswered(w: World, stamp: nat, pool: nat, log: nat, w': World)
    requires w.ring != [] && !w.orders.drained && Coherent(w)
    requires Sessions.SysInv(w.sessions, log) && w' == Taking(w, stamp, pool, log)
    requires Owed(w)
    ensures w.ring[0].ForGateway? && w.ring[0].gateway.NoteRejected? ==>
              var note := w.ring[0].gateway;
              var frame := OuchResponder.FrameRejected(note.record.userRefNum, note.reason, note.record.clOrdId);
              Answers(w, w', note.record.clientId, OuchFrames.Payload(frame, stamp))
    ensures w.ring[0].ForSession? || !w.ring[0].gateway.NoteRejected? ==> Silent(w, w')
  {
    hide Sessions.SysInv, Owed, Sent, OuchFrames.Payload, Outbound.Heeded, Outbound.Heedable, Sessions.InTurn, Sessions.Entered;
    if w.ring[0].ForGateway? && w.ring[0].gateway.NoteRejected? {
      HeadLogged(w);
      var m := w.(orders := Pipeline.After(w.orders, pool, Pipeline.TakeNote), ring := w.ring[1..]);
      SentAnswers(m, RejectResponse(w.ring[0].gateway), stamp, log);
    }
  }

  /** Nothing else answers anything. */
  lemma OthersSilent(w: World, step: Step, pool: nat, log: nat)
    requires !step.AnswerEvent? && !step.TakeNote? && Enabled(w, step) && Inv(w, pool, log)
    ensures Silent(w, After(w, step, pool, log))
  {
    hide Sessions.SysInv, Pipeline.Inv, Owed, Delivered, Pipeline.After, Outbound.Moved, SessionNotes, GatewayNotes;
  }

  //--- every run ---

  /** Nothing connected, nothing entered, nothing answered. */
  function Boot(slots: nat, clients: nat): World {
    World(Pipeline.START, Sessions.Boot(slots, clients), [], [])
  }

  lemma BootInv(slots: nat, clients: nat, pool: nat, log: nat)
    ensures Inv(Boot(slots, clients), pool, log)
  {
    hide Sessions.SysInv, Pipeline.Inv;
    Pipeline.StartInv(pool);
    Sessions.BootInv(slots, clients, log);
  }

  /** w' is reached from w by an interleaving of enabled steps. */
  ghost predicate Run(w: World, steps: seq<Step>, w': World, pool: nat, log: nat)
    requires Inv(w, pool, log)
    decreases |steps|
  {
    if steps == [] then w' == w
    else
      Enabled(w, steps[0])
      && (StepKeeps(w, steps[0], pool, log);
          Run(After(w, steps[0], pool, log), steps[1..], w', pool, log))
  }

  lemma {:induction false} RunKeeps(w: World, steps: seq<Step>, w': World, pool: nat, log: nat)
    requires Inv(w, pool, log) && Run(w, steps, w', pool, log)
    ensures Inv(w', pool, log)
    decreases |steps|
  {
    hide Sessions.SysInv, Pipeline.Inv, Coherent, Owed, Delivered, Enabled, After;
    if steps != [] {
      StepKeeps(w, steps[0], pool, log);
      RunKeeps(After(w, steps[0], pool, log), steps[1..], w', pool, log);
    }
  }

  ghost predicate Reached(w: World, slots: nat, clients: nat, pool: nat, log: nat) {
    BootInv(slots, clients, pool, log);
    exists steps :: Run(Boot(slots, clients), steps, w, pool, log)
  }

  /** Whatever the threads do and however they interleave: no event is dropped for
      want of a record, every answer is in its client's log and nothing else is, and
      what a logged-in connection was handed is the start of Login Accepted and its
      client's answers from its number on, heartbeats only between whole packets. */
  lemma EveryAnswerReaches(w: World, slots: nat, clients: nat, pool: nat, log: nat, x: Outbound.ConnId)
    requires Reached(w, slots, clients, pool, log)
    ensures Pipeline.Faithful(w.orders) && Delivered(w)
    ensures x in w.sessions.out.transcripts ==>
              var t := w.sessions.out.transcripts[x];
              var all := ToClient(w.answers, t.clientId);
              Transcript.Placed(t.start, Transcript.Beats(t), |all|)
              && Outbound.SentTo(w.sessions.out.sent, x)
                 <= Stream(Transcript.Frames([Transcript.AcceptedPacket(t.start)]
                                             + Transcript.Items(all, t.start, Transcript.Beats(t), |all|)))
  {
    hide Pipeline.Inv, Pipeline.Faithful, Sessions.SysInv, Enabled, After, Coherent, Owed, ToClient, Transcript.Items,
         Transcript.Frames, Stream, Transcript.Beats, Transcript.Placed;
    BootInv(slots, clients, pool, log);
    var steps :| Run(Boot(slots, clients), steps, w, pool, log);
    RunKeeps(Boot(slots, clients), steps, w, pool, log);
    Pipeline.InvMeans(w.orders, pool);
    Sessions.OnTheWire(w.sessions, x, log);
  }
}
