/** The server's two session threads and the ring of notes between them, over
    every interleaving: the inbound thread opens, logs in, turns away and drops
    connections and says so in notes; the outbound thread heeds the notes in
    order, while it sends, closes slow consumers and finishes refusals on its
    own. */
module Sessions {
  import opened EngineTypes
  import opened Wire
  import opened SoupBin
  import opened Transcript
  import opened Outbound

  /** One slot as the inbound thread sees it. */
  datatype Line = Line(conn: ConnId, open: bool, loggedIn: bool, closing: bool, clientId: nat)

  /** What a run of notes says: the connection each slot is left with, the newest
      generation each slot has seen, and the slot each session is used from. */
  datatype Ledger = Ledger(live: seq<Option<ConnId>>, latest: seq<nat>, owner: seq<Option<nat>>)

  /** ledger is what the notes heeded so far say, messages what each session was
      ever sent. */
  datatype System = System(
    lines: seq<Line>, connected: seq<bool>, notes: seq<Note>, out: State,
    ledger: Ledger, messages: seq<seq<seq<Byte>>>)

  //--- notes in order ---

  predicate NewConn(l: Ledger, conn: ConnId) {
    conn.slot < |l.live| == |l.latest| && l.live[conn.slot] == None && l.latest[conn.slot] < conn.generation
  }

  predicate InTurn(l: Ledger, note: Note) {
    match note
    case LoggedIn(c, conn, _) => NewConn(l, conn) && 0 < c < |l.owner| && l.owner[c] == None
    case TurnedAway(conn, _) => NewConn(l, conn)
    case Disconnected(conn) => NewConn(l, conn) || (conn.slot < |l.live| == |l.latest| && l.live[conn.slot] == Some(conn))
  }

  function Held(l: Ledger, conn: ConnId): Ledger
    requires conn.slot < |l.live| == |l.latest|
  {
    l.(live := l.live[conn.slot := Some(conn)], latest := l.latest[conn.slot := conn.generation])
  }

  function Vacated(owner: seq<Option<nat>>, k: nat): seq<Option<nat>> {
    seq(|owner|, c requires 0 <= c < |owner| => if owner[c] == Some(k) then None else owner[c])
  }

  function Entered(l: Ledger, note: Note): Ledger
    requires InTurn(l, note)
  {
    match note
    case LoggedIn(c, conn, _) => Held(l, conn).(owner := l.owner[c := Some(conn.slot)])
    case TurnedAway(conn, _) => Held(l, conn)
    case Disconnected(conn) =>
      l.(live := l.live[conn.slot := None], latest := l.latest[conn.slot := conn.generation],
         owner := Vacated(l.owner, conn.slot))
  }

  predicate InOrder(l: Ledger, notes: seq<Note>)
    decreases |notes|
  {
    if notes == [] then true else InTurn(l, notes[0]) && InOrder(Entered(l, notes[0]), notes[1..])
  }

  function EnteredAll(l: Ledger, notes: seq<Note>): Ledger
    requires InOrder(l, notes)
    decreases |notes|
  {
    if notes == [] then l else EnteredAll(Entered(l, notes[0]), notes[1..])
  }

  lemma {:induction false} OneMore(l: Ledger, notes: seq<Note>, note: Note)
    requires InOrder(l, notes) && InTurn(EnteredAll(l, notes), note)
    ensures InOrder(l, notes + [note]) && EnteredAll(l, notes + [note]) == Entered(EnteredAll(l, notes), note)
    decreases |notes|
  {
    hide InTurn, Entered;
    if notes == [] {
      assert notes + [note] == [note] && [note][1..] == [];
    } else {
      OneMore(Entered(l, notes[0]), notes[1..], note);
      assert (notes + [note])[1..] == notes[1..] + [note];
    }
  }

  //--- the two threads against the ledger ---

  /** The inbound thread is where the notes it has pushed, heeded or not, lead. */
  ghost predicate Inbound(lines: seq<Line>, connected: seq<bool>, l: Ledger) {
    && |l.live| == |l.latest| == |lines| && |l.owner| == |connected|
    && (forall k :: 0 <= k < |lines| ==> Lined(lines[k], k, l))
    && (forall c :: 0 <= c < |connected| ==> Owned(lines, connected[c], c, l.owner[c]))
  }

  ghost predicate Lined(line: Line, k: nat, l: Ledger)
    requires k < |l.live| == |l.latest|
  {
    && l.latest[k] <= line.conn.generation
    && (line.open ==> line.conn.slot == k)
    && (if line.open && (line.loggedIn || line.closing) then l.live[k] == Some(line.conn) else l.live[k] == None)
    && (line.open && !line.loggedIn && !line.closing ==> l.latest[k] < line.conn.generation)
    && (line.open && line.loggedIn ==> line.clientId < |l.owner| && l.owner[line.clientId] == Some(k))
  }

  ghost predicate Owned(lines: seq<Line>, connected: bool, c: nat, owner: Option<nat>) {
    && (connected <==> owner.Some?)
    && (owner.Some? ==> owner.value < |lines| && lines[owner.value].open && lines[owner.value].loggedIn
                        && lines[owner.value].clientId == c)
  }

  /** The outbound thread has gone no further than the notes it has heeded: what
      it has open is what they left live, though it may have closed it already. */
  ghost predicate Abreast(out: State, l: Ledger) {
    && |l.live| == |l.latest| == |out.conns| && |l.owner| == |out.sessions|
    && (forall k :: 0 <= k < |out.conns| ==>
          && out.conns[k].closedGeneration <= l.latest[k]
          && (out.conns[k].open ==> l.live[k] == Some(out.conns[k].conn))
          && (l.live[k].Some? ==> l.live[k].value.slot == k && l.live[k].value.generation == l.latest[k]))
    && (forall c :: 0 <= c < |out.sessions| && out.sessions[c].slot.Some? ==> l.owner[c] == out.sessions[c].slot)
    && (forall x :: x in out.transcripts || x in out.sent ==> x.slot < |l.latest| && x.generation <= l.latest[x.slot])
  }

  /** Each session's log is its messages, framed. */
  ghost predicate Framed(sessions: seq<Session>, messages: seq<seq<seq<Byte>>>) {
    |messages| == |sessions|
    && (forall c :: 0 <= c < |sessions| ==> Sequenced(LogOf(sessions[c]), messages[c]))
  }

  /** A Login Rejected packet. */
  ghost predicate Refusal(bytes: seq<Byte>) {
    exists reason: Byte :: bytes == Frame(RejectedPacket(reason))
  }

  ghost predicate RefusalStart(bytes: seq<Byte>) {
    exists reason: Byte :: bytes <= Frame(RejectedPacket(reason))
  }

  /** A connection never logged in is sent one Login Rejected, if anything. */
  ghost predicate Curt(out: State) {
    && (forall k :: 0 <= k < |out.conns| && out.conns[k].open && out.conns[k].clientId == 0 && out.conns[k].control != [] ==>
          Refusal(out.conns[k].control))
    && (forall x :: x in out.sent && x !in out.transcripts ==> RefusalStart(SentTo(out.sent, x)))
  }

  ghost predicate SysInv(s: System, capacity: nat) {
    && Inv(s.out, capacity) && InOrder(s.ledger, s.notes) && Curt(s.out)
    && Inbound(s.lines, s.connected, EnteredAll(s.ledger, s.notes))
    && Abreast(s.out, s.ledger) && Framed(s.out.sessions, s.messages)
    && |s.lines| == |s.out.conns| && |s.connected| == |s.out.sessions| == |s.messages|
  }

  /** The next note always finds the outbound thread ready for it: a login finds
      its slot free and its session unused, a disconnect is never out of date. */
  lemma NeverTaken(out: State, l: Ledger, note: Note)
    requires Abreast(out, l) && InTurn(l, note)
    ensures Heedable(out, note)
  {
  }

  lemma NotesHeedable(s: System, capacity: nat)
    requires SysInv(s, capacity) && s.notes != []
    ensures Heedable(s.out, s.notes[0])
  {
    hide Inv, Abreast, Inbound, InTurn, Heedable;
    NeverTaken(s.out, s.ledger, s.notes[0]);
  }

  //--- steps ---

  datatype Step =
    | Connected(conn: ConnId)
    | Login(k: nat, clientId: nat, sequence: nat)
    | Refuse(k: nat, reason: Byte)
    | Drop(k: nat)
    | Heed
    | Message(clientId: nat, payload: seq<Byte>)
    | Act(move: Move)

  predicate Enabled(s: System, step: Step) {
    match step
    case Connected(conn) =>
      conn.slot < |s.lines| && !s.lines[conn.slot].open && s.lines[conn.slot].conn.generation < conn.generation
    case Login(k, c, _) =>
      k < |s.lines| && s.lines[k].open && !s.lines[k].loggedIn && !s.lines[k].closing
      && 0 < c < |s.connected| && !s.connected[c]
    case Refuse(k, _) => k < |s.lines| && s.lines[k].open && !s.lines[k].loggedIn && !s.lines[k].closing
    case Drop(k) => k < |s.lines| && s.lines[k].open
    case Heed => s.notes != []
    case Message(c, payload) =>
      c < |s.messages| && Frameable(Packet(SEQUENCED_DATA, payload)) && HEADER_LEN + |payload| <= MAX_SOUP_PACKET
    case Act(move) => CanMove(s.out, move)
  }

  function Connecting(s: System, conn: ConnId): System
    requires conn.slot < |s.lines|
  {
    s.(lines := s.lines[conn.slot := Line(conn, true, false, false, 0)])
  }

  function Logging(s: System, k: nat, c: nat, sequence: nat): System
    requires k < |s.lines| && c < |s.connected|
  {
    s.(lines := s.lines[k := s.lines[k].(loggedIn := true, clientId := c)], connected := s.connected[c := true],
       notes := s.notes + [LoggedIn(c, s.lines[k].conn, sequence)])
  }

  function Refusing(s: System, k: nat, reason: Byte): System
    requires k < |s.lines|
  {
    s.(lines := s.lines[k := s.lines[k].(closing := true)], notes := s.notes + [TurnedAway(s.lines[k].conn, reason)])
  }

  function Dropping(s: System, k: nat): System
    requires k < |s.lines|
  {
    var line := s.lines[k];
    s.(lines := s.lines[k := line.(open := false, loggedIn := false, closing := true)],
       connected := if line.loggedIn && line.clientId < |s.connected| then s.connected[line.clientId := false] else s.connected,
       notes := s.notes + [Disconnected(line.conn)])
  }

  function Heeding(s: System, capacity: nat): System
    requires s.notes != [] && InTurn(s.ledger, s.notes[0]) && Heedable(s.out, s.notes[0])
  {
    s.(notes := s.notes[1..], ledger := Entered(s.ledger, s.notes[0]), out := Heeded(s.out, s.notes[0], capacity))
  }

  function Messaging(s: System, c: nat, payload: seq<Byte>, capacity: nat): System
    requires c < |s.messages| == |s.out.sessions| && Inv(s.out, capacity)
  {
    if s.out.sessions[c].log == None then s
    else
      s.(out := Sequence(s.out, c, Frame(Packet(SEQUENCED_DATA, payload)), capacity),
         messages := s.messages[c := s.messages[c] + [payload]])
  }

  ghost function After(s: System, step: Step, capacity: nat): System
    requires SysInv(s, capacity) && Enabled(s, step)
  {
    match step
    case Connected(conn) => Connecting(s, conn)
    case Login(k, c, sequence) => Logging(s, k, c, sequence)
    case Refuse(k, reason) => Refusing(s, k, reason)
    case Drop(k) => Dropping(s, k)
    case Heed => NotesHeedable(s, capacity); Heeding(s, capacity)
    case Message(c, payload) => Messaging(s, c, payload, capacity)
    case Act(move) => s.(out := Moved(s.out, move))
  }

  //--- what the inbound thread does keeps up with its own notes ---

  lemma ConnectKeeps(lines: seq<Line>, connected: seq<bool>, l: Ledger, conn: ConnId)
    requires Inbound(lines, connected, l) && conn.slot < |lines|
    requires !lines[conn.slot].open && lines[conn.slot].conn.generation < conn.generation
    ensures Inbound(lines[conn.slot := Line(conn, true, false, false, 0)], connected, l)
  {
    var lines' := lines[conn.slot := Line(conn, true, false, false, 0)];
    forall c | 0 <= c < |connected| ensures Owned(lines', connected[c], c, l.owner[c]) {
      assert Owned(lines, connected[c], c, l.owner[c]);
    }
    forall k | 0 <= k < |lines'| ensures Lined(lines'[k], k, l) {
      assert Lined(lines[k], k, l);
    }
  }

  lemma LoginKeeps(lines: seq<Line>, connected: seq<bool>, l: Ledger, k: nat, c: nat, sequence: nat)
    requires Inbound(lines, connected, l) && k < |lines| && lines[k].open && !lines[k].loggedIn && !lines[k].closing
    requires 0 < c < |connected| && !connected[c]
    ensures var note := LoggedIn(c, lines[k].conn, sequence);
            && InTurn(l, note)
            && Inbound(lines[k := lines[k].(loggedIn := true, clientId := c)], connected[c := true], Entered(l, note))
  {
    assert Lined(lines[k], k, l) && Owned(lines, connected[c], c, l.owner[c]);
    var l' := Entered(l, LoggedIn(c, lines[k].conn, sequence));
    var lines', connected' := lines[k := lines[k].(loggedIn := true, clientId := c)], connected[c := true];
    forall d | 0 <= d < |connected| ensures Owned(lines', connected'[d], d, l'.owner[d]) {
      assert Owned(lines, connected[d], d, l.owner[d]);
    }
    forall i | 0 <= i < |lines'| ensures Lined(lines'[i], i, l') {
      assert Lined(lines[i], i, l);
    }
  }

  lemma RefuseKeeps(lines: seq<Line>, connected: seq<bool>, l: Ledger, k: nat, reason: Byte)
    requires Inbound(lines, connected, l) && k < |lines| && lines[k].open && !lines[k].loggedIn && !lines[k].closing
    ensures var note := TurnedAway(lines[k].conn, reason);
            InTurn(l, note) && Inbound(lines[k := lines[k].(closing := true)], connected, Entered(l, note))
  {
    assert Lined(lines[k], k, l);
    var l' := Entered(l, TurnedAway(lines[k].conn, reason));
    var lines' := lines[k := lines[k].(closing := true)];
    forall d | 0 <= d < |connected| ensures Owned(lines', connected[d], d, l'.owner[d]) {
      assert Owned(lines, connected[d], d, l.owner[d]);
    }
    forall i | 0 <= i < |lines'| ensures Lined(lines'[i], i, l') {
      assert Lined(lines[i], i, l);
    }
  }

  lemma DropKeeps(s: System, l: Ledger, k: nat)
    requires Inbound(s.lines, s.connected, l) && k < |s.lines| && s.lines[k].open
    ensures var note := Disconnected(s.lines[k].conn);
            InTurn(l, note) && Inbound(Dropping(s, k).lines, Dropping(s, k).connected, Entered(l, note))
  {
    assert Lined(s.lines[k], k, l);
    var l' := Entered(l, Disconnected(s.lines[k].conn));
    var s' := Dropping(s, k);
    forall d | 0 <= d < |s.connected| ensures Owned(s'.lines, s'.connected[d], d, l'.owner[d]) {
      assert Owned(s.lines, s.connected[d], d, l.owner[d]);
    }
    forall i | 0 <= i < |s.lines| ensures Lined(s'.lines[i], i, l') {
      assert Lined(s.lines[i], i, l);
    }
  }

  //--- the outbound thread stays abreast of the notes it has heeded ---

  lemma AcceptAbreast(out: State, l: Ledger, c: nat, conn: ConnId, sequence: nat, capacity: nat)
    requires Abreast(out, l) && InTurn(l, LoggedIn(c, conn, sequence)) && Paired(out.conns, out.sessions)
    ensures Abreast(Accept(out, c, conn, sequence, capacity), Entered(l, LoggedIn(c, conn, sequence)))
  {
    hide Frame, Offset, FirstHeld, Marked, LogOf;
  }

  lemma RejectAbreast(out: State, l: Ledger, conn: ConnId, reason: Byte)
    requires Abreast(out, l) && InTurn(l, TurnedAway(conn, reason)) && Paired(out.conns, out.sessions)
    ensures Abreast(Reject(out, conn, reason), Entered(l, TurnedAway(conn, reason)))
  {
    hide Frame, Marked;
  }

  /** With its connection closed, no session is used from the slot. */
  lemma CloseEmpties(out: State, conn: ConnId)
    requires Closable(out, conn) && Paired(out.conns, out.sessions) && Slotted(out.conns, out.closed)
    ensures var out' := Close(out, conn);
            && |out'.sessions| == |out.sessions| && |out'.conns| == |out.conns| && !out'.conns[conn.slot].open
            && out'.conns[conn.slot].closedGeneration == conn.generation
            && (forall c :: 0 <= c < |out.sessions| && out'.sessions[c].slot.Some? ==>
                  out'.sessions[c].slot == out.sessions[c].slot != Some(conn.slot))
  {
    forall c | 0 <= c < |out.sessions| && out.sessions[c].slot == Some(conn.slot)
      ensures out.conns[conn.slot].open && out.conns[conn.slot].clientId == c
    {
    }
    hide Paired;
  }

  lemma CloseAbreast(out: State, l: Ledger, conn: ConnId)
    requires Abreast(out, l) && InTurn(l, Disconnected(conn)) && Closable(out, conn)
    requires Paired(out.conns, out.sessions) && Slotted(out.conns, out.closed)
    ensures Abreast(Close(out, conn), Entered(l, Disconnected(conn)))
  {
    CloseEmpties(out, conn);
    CloseElsewhere(out, conn);
    hide Paired, Slotted, Close, Closable;
  }

  lemma CloseElsewhere(out: State, conn: ConnId)
    requires conn.slot < |out.conns|
    ensures var out' := Close(out, conn);
            && |out'.conns| == |out.conns| && out'.transcripts == out.transcripts && out'.sent == out.sent
            && (forall k :: 0 <= k < |out.conns| && k != conn.slot ==> out'.conns[k] == out.conns[k])
  {
  }

  lemma HeedAbreast(out: State, l: Ledger, note: Note, capacity: nat)
    requires Abreast(out, l) && InTurn(l, note) && Heedable(out, note)
    requires Paired(out.conns, out.sessions) && Slotted(out.conns, out.closed)
    ensures Abreast(Heeded(out, note, capacity), Entered(l, note))
  {
    hide Abreast, Accept, Reject, Close, Closable, Fresh, Entered, InTurn, Paired, Slotted;
    match note {
      case LoggedIn(c, conn, sequence) => AcceptAbreast(out, l, c, conn, sequence, capacity);
      case TurnedAway(conn, reason) => RejectAbreast(out, l, conn, reason);
      case Disconnected(conn) => CloseAbreast(out, l, conn);
    }
  }

  /** Closing on its own is something the outbound thread may always do. */
  lemma ShutAbreast(out: State, l: Ledger, k: nat)
    requires Abreast(out, l) && k < |out.conns| && out.conns[k].open && out.conns[k].conn.slot == k
    ensures Abreast(Close(out, out.conns[k].conn), l)
  {
  }

  lemma MoveAbreast(out: State, l: Ledger, m: Move)
    requires Abreast(out, l) && CanMove(out, m)
    ensures Abreast(Moved(out, m), l)
  {
    hide Frame, Stream, Marked, LogOf, Close, Controlled;
    if m.Finish? {
      ShutAbreast(out, l, m.k);
    }
  }

  lemma SequenceAbreast(out: State, l: Ledger, c: nat, packet: seq<Byte>, capacity: nat)
    requires Abreast(out, l) && Paired(out.conns, out.sessions) && Slotted(out.conns, out.closed) && c < |out.sessions|
    ensures Abreast(Sequence(out, c, packet, capacity), l)
  {
    hide Close, WouldOverwrite, Marked, LogOf;
    var session := out.sessions[c];
    if session.slot.Some? {
      DropFrees(out, c);
      ShutAbreast(out, l, session.slot.value);
    }
  }

  //--- logs, and what has been sent ---

  ghost predicate SameLogs(a: seq<Session>, b: seq<Session>) {
    |a| == |b| && (forall c :: 0 <= c < |a| ==> LogOf(a[c]) == LogOf(b[c]))
  }

  /** Sending only ever adds bytes, to connections that are still open; whom a
      connection serves and from which message never changes. */
  ghost predicate Grows(a: State, b: State) {
    && a.closed <= b.closed
    && (forall x :: SentTo(a.sent, x) <= SentTo(b.sent, x))
    && (forall x :: x in a.closed ==> SentTo(a.sent, x) == SentTo(b.sent, x))
    && (forall x :: x in a.transcripts ==>
          x in b.transcripts && b.transcripts[x].start == a.transcripts[x].start
          && b.transcripts[x].clientId == a.transcripts[x].clientId)
  }

  lemma CloseGrows(out: State, conn: ConnId)
    requires conn.slot < |out.conns|
    ensures Grows(out, Close(out, conn)) && SameLogs(out.sessions, Close(out, conn).sessions)
    ensures Close(out, conn).transcripts == out.transcripts
  {
  }

  lemma HeedGrows(out: State, note: Note, capacity: nat)
    requires Heedable(out, note)
    ensures Grows(out, Heeded(out, note, capacity)) && SameLogs(out.sessions, Heeded(out, note, capacity).sessions)
  {
    hide Frame, Offset, FirstHeld, StartOf, Marked, Close;
    if note.Disconnected? {
      CloseGrows(out, note.conn);
    }
  }

  /** Only a login gives a connection a transcript, from the number it asked for. */
  lemma HeedTold(out: State, note: Note, capacity: nat, x: ConnId)
    requires Heedable(out, note) && x in Heeded(out, note, capacity).transcripts && x !in out.transcripts
    ensures note.LoggedIn? && note.conn == x
    ensures var t := Heeded(out, note, capacity).transcripts[x];
            t.clientId == note.clientId && t.start == StartOf(LogOf(out.sessions[note.clientId]), note.sequence)
  {
    hide Frame, Offset, FirstHeld, StartOf, Marked;
  }

  lemma MoveGrows(out: State, m: Move, capacity: nat)
    requires Inv(out, capacity) && CanMove(out, m)
    ensures Grows(out, Moved(out, m)) && SameLogs(out.sessions, Moved(out, m).sessions)
    ensures Moved(out, m).transcripts.Keys == out.transcripts.Keys
  {
    hide Inv, Frame, Stream, Marked, Close;
    match m {
      case Control(k, _) => OpenFacts(out, k, capacity);
      case Payload(k, _) => OpenFacts(out, k, capacity);
      case Finish(k) => CloseGrows(out, out.conns[k].conn);
      case _ =>
    }
  }

  lemma SequenceGrows(out: State, c: nat, packet: seq<Byte>, capacity: nat)
    requires Paired(out.conns, out.sessions) && Slotted(out.conns, out.closed)
    requires c < |out.sessions| && out.sessions[c].log.Some?
    ensures var out' := Sequence(out, c, packet, capacity);
            && Grows(out, out') && out'.transcripts == out.transcripts
            && |out'.sessions| == |out.sessions| && LogOf(out'.sessions[c]) == LogOf(out.sessions[c]) + [packet]
            && (forall d :: 0 <= d < |out.sessions| && d != c ==> LogOf(out'.sessions[d]) == LogOf(out.sessions[d]))
  {
    hide Close, WouldOverwrite, Marked;
    if out.sessions[c].slot.Some? {
      DropFrees(out, c);
      CloseGrows(out, out.conns[out.sessions[c].slot.value].conn);
    }
  }

  lemma SameFramed(a: seq<Session>, b: seq<Session>, messages: seq<seq<seq<Byte>>>)
    requires Framed(a, messages) && SameLogs(a, b)
    ensures Framed(b, messages)
  {
    hide Sequenced;
  }

  lemma MoreFramed(out: State, messages: seq<seq<seq<Byte>>>, c: nat, payload: seq<Byte>, capacity: nat)
    requires Paired(out.conns, out.sessions) && Slotted(out.conns, out.closed)
    requires Framed(out.sessions, messages) && c < |messages| && out.sessions[c].log.Some?
    requires Frameable(Packet(SEQUENCED_DATA, payload))
    ensures Framed(Sequence(out, c, Frame(Packet(SEQUENCED_DATA, payload)), capacity).sessions,
                   messages[c := messages[c] + [payload]])
  {
    hide Sequence, Frame, Paired, Slotted, Frameable;
    SequenceGrows(out, c, Frame(Packet(SEQUENCED_DATA, payload)), capacity);
    hide Grows;
  }

  //--- connections turned away ---

  lemma AdmitCurt(out: State, conn: ConnId, clientId: nat, control: seq<Byte>, closing: bool)
    requires Curt(out) && conn.slot < |out.conns| && (clientId == 0 ==> Refusal(control))
    ensures Curt(Admitted(out, conn, clientId, control, closing))
  {
    hide Refusal, RefusalStart, Marked;
  }

  lemma RejectCurt(out: State, conn: ConnId, reason: Byte)
    requires Curt(out) && conn.slot < |out.conns|
    ensures Curt(Reject(out, conn, reason))
  {
    assert Refusal(Frame(RejectedPacket(reason)));
    hide Frame;
    AdmitCurt(out, conn, 0, Frame(RejectedPacket(reason)), true);
  }

  lemma HeedCurt(out: State, note: Note, capacity: nat)
    requires Curt(out) && Heedable(out, note)
    ensures Curt(Heeded(out, note, capacity))
  {
    hide Refusal, RefusalStart, Marked, Frame, Offset, FirstHeld, StartOf, LogOf, Admitted, Reject;
    match note {
      case LoggedIn(c, conn, sequence) =>
        var session := WithLog(out.sessions[c]);
        var log := LogOf(session);
        var start := StartOf(log, sequence);
        RejectCurt(out.(sessions := out.sessions[c := session]), conn, SESSION_NOT_AVAILABLE);
        if start >= FirstHeld(log, capacity) {
          StartHeld(log, sequence, capacity);
          var cursor := Offset(log, start - 1);
          AdmitCurt(out.(sessions := out.sessions[c := session.(slot := Some(conn.slot), cursor := cursor)],
                         transcripts := out.transcripts[conn := Transcript(c, start, false, [], cursor, 0, start - 1)]),
                    conn, c, Frame(AcceptedPacket(start)), false);
        }
      case TurnedAway(conn, reason) => RejectCurt(out, conn, reason);
      case Disconnected(conn) =>
    }
  }

  lemma ControlCurt(out: State, k: nat, n: nat, capacity: nat)
    requires Curt(out) && Inv(out, capacity) && CanMove(out, Control(k, n))
    ensures Curt(ControlTaken(out, k, n))
  {
    hide Reachable, Logged, Listed, Eager, Recorded, Follows, Frame, Controlled;
    var c := out.conns[k];
    var out' := ControlTaken(out, k, n);
    if c.clientId == 0 {
      var reason: Byte :| c.control == Frame(RejectedPacket(reason));
      assert SentTo(out'.sent, c.conn) == c.control[..c.controlSent + n];
      assert SentTo(out'.sent, c.conn) <= Frame(RejectedPacket(reason));
    }
  }

  lemma MoveCurt(out: State, m: Move, capacity: nat)
    requires Curt(out) && Inv(out, capacity) && CanMove(out, m)
    ensures Curt(Moved(out, m))
  {
    hide Inv, Refusal, RefusalStart, Marked, Frame, Stream, ControlTaken;
    if m.Control? {
      ControlCurt(out, m.k, m.n, capacity);
    }
  }

  lemma SequenceCurt(out: State, c: nat, packet: seq<Byte>, capacity: nat)
    requires Curt(out) && Paired(out.conns, out.sessions) && Slotted(out.conns, out.closed) && c < |out.sessions|
    ensures Curt(Sequence(out, c, packet, capacity))
  {
    hide Refusal, RefusalStart, Marked, WouldOverwrite;
  }

  //--- every step, every run ---

  lemma InboundStep(s: System, step: Step, capacity: nat)
    requires SysInv(s, capacity) && Enabled(s, step)
    requires step.Connected? || step.Login? || step.Refuse? || step.Drop?
    ensures SysInv(After(s, step, capacity), capacity)
  {
    hide Inv, Abreast, Inbound, Framed, Curt, InTurn, Entered;
    var l := EnteredAll(s.ledger, s.notes);
    match step {
      case Connected(conn) => ConnectKeeps(s.lines, s.connected, l, conn);
      case Login(k, c, sequence) =>
        LoginKeeps(s.lines, s.connected, l, k, c, sequence);
        OneMore(s.ledger, s.notes, LoggedIn(c, s.lines[k].conn, sequence));
      case Refuse(k, reason) =>
        RefuseKeeps(s.lines, s.connected, l, k, reason);
        OneMore(s.ledger, s.notes, TurnedAway(s.lines[k].conn, reason));
      case Drop(k) =>
        DropKeeps(s, l, k);
        OneMore(s.ledger, s.notes, Disconnected(s.lines[k].conn));
    }
  }

  lemma HeedStep(s: System, capacity: nat)
    requires SysInv(s, capacity) && s.notes != []
    ensures SysInv(After(s, Heed, capacity), capacity)
  {
    hide Abreast, Inbound, Framed, Curt, InTurn, Entered, Heeded, Heedable, Paired, Slotted, Told, Listed, Eager,
         Reachable, Logged;
    NotesHeedable(s, capacity);
    var out' := Heeded(s.out, s.notes[0], capacity);
    HeededInv(s.out, s.notes[0], capacity);
    HeedAbreast(s.out, s.ledger, s.notes[0], capacity);
    HeedGrows(s.out, s.notes[0], capacity);
    SameFramed(s.out.sessions, out'.sessions, s.messages);
    HeedSizes(s.out, s.notes[0], capacity);
    HeedCurt(s.out, s.notes[0], capacity);
  }

  lemma HeedSizes(out: State, note: Note, capacity: nat)
    requires Heedable(out, note)
    ensures |Heeded(out, note, capacity).conns| == |out.conns|
  {
    hide Frame, Offset, FirstHeld, StartOf, Marked;
  }

  lemma MessageStep(s: System, c: nat, payload: seq<Byte>, capacity: nat)
    requires SysInv(s, capacity) && Enabled(s, Message(c, payload))
    ensures SysInv(After(s, Message(c, payload), capacity), capacity)
  {
    hide Abreast, Inbound, Framed, Curt, InTurn, Entered, Paired, Slotted, Told, Listed, Eager, Reachable, Logged,
         Sequence, Frame, Frameable;
    if s.out.sessions[c].log.Some? {
      var packet := Frame(Packet(SEQUENCED_DATA, payload));
      FrameLength(Packet(SEQUENCED_DATA, payload), []);
      SequenceInv(s.out, c, packet, capacity);
      SequenceAbreast(s.out, s.ledger, c, packet, capacity);
      MoreFramed(s.out, s.messages, c, payload, capacity);
      SequenceCurt(s.out, c, packet, capacity);
      SequenceSizes(s.out, c, packet, capacity);
    }
  }

  lemma SequenceSizes(out: State, c: nat, packet: seq<Byte>, capacity: nat)
    requires Paired(out.conns, out.sessions) && Slotted(out.conns, out.closed) && c < |out.sessions|
    ensures var out' := Sequence(out, c, packet, capacity);
            |out'.conns| == |out.conns| && |out'.sessions| == |out.sessions|
  {
    hide Marked, WouldOverwrite;
  }

  lemma ActStep(s: System, m: Move, capacity: nat)
    requires SysInv(s, capacity) && CanMove(s.out, m)
    ensures SysInv(s.(out := Moved(s.out, m)), capacity)
  {
    hide Inv, Abreast, Inbound, Framed, Curt, InTurn, Entered, CanMove, Moved;
    MoveInv(s.out, m, capacity);
    MoveAbreast(s.out, s.ledger, m);
    MoveGrows(s.out, m, capacity);
    SameFramed(s.out.sessions, Moved(s.out, m).sessions, s.messages);
    MoveCurt(s.out, m, capacity);
    MoveSizes(s.out, m);
  }

  lemma MoveSizes(out: State, m: Move)
    requires CanMove(out, m)
    ensures |Moved(out, m).conns| == |out.conns| && |Moved(out, m).sessions| == |out.sessions|
  {
    hide Marked, Frame, Stream;
  }

  lemma StepKeeps(s: System, step: Step, capacity: nat)
    requires SysInv(s, capacity) && Enabled(s, step)
    ensures SysInv(After(s, step, capacity), capacity)
  {
    hide SysInv;
    match step {
      case Heed => HeedStep(s, capacity);
      case Message(c, payload) => MessageStep(s, c, payload, capacity);
      case Act(m) => ActStep(s, m, capacity);
      case _ => InboundStep(s, step, capacity);
    }
  }

  /** Nothing connected, nothing sent, no session begun. */
  function Boot(slots: nat, clients: nat): System {
    System(seq(slots, _ => Line(ConnId(0, 0), false, false, false, 0)), seq(clients + 1, _ => false), [],
           Start(slots, clients),
           Ledger(seq(slots, _ => None), seq(slots, _ => 0), seq(clients + 1, _ => None)),
           seq(clients + 1, _ => []))
  }

  lemma BootInv(slots: nat, clients: nat, capacity: nat)
    ensures SysInv(Boot(slots, clients), capacity)
  {
    hide Inv;
    StartInv(slots, clients, capacity);
  }

  /** s' is reached from s by a run of enabled steps. */
  ghost predicate Run(s: System, steps: seq<Step>, s': System, capacity: nat)
    requires SysInv(s, capacity)
    decreases |steps|
  {
    if steps == [] then s' == s
    else
      Enabled(s, steps[0])
      && (StepKeeps(s, steps[0], capacity);
          Run(After(s, steps[0], capacity), steps[1..], s', capacity))
  }

  lemma {:induction false} RunKeeps(s: System, steps: seq<Step>, s': System, capacity: nat)
    requires SysInv(s, capacity) && Run(s, steps, s', capacity)
    ensures SysInv(s', capacity)
    decreases |steps|
  {
    hide SysInv, Enabled, After;
    if steps != [] {
      StepKeeps(s, steps[0], capacity);
      RunKeeps(After(s, steps[0], capacity), steps[1..], s', capacity);
    }
  }

  //--- what every run guarantees ---

  /** A connection turned away is told the reason it was turned away for. */
  lemma RefusalTold(s: System, capacity: nat)
    requires SysInv(s, capacity) && s.notes != [] && s.notes[0].TurnedAway?
    ensures RefusedWith(After(s, Heed, capacity).out, s.notes[0].conn, s.notes[0].reason)
  {
    hide SysInv, Inv, Reject, RefusedWith, InTurn, Entered;
    NotesHeedable(s, capacity);
    RejectTells(s.out, s.notes[0].conn, s.notes[0].reason);
  }

  lemma StepGrows(s: System, step: Step, capacity: nat)
    requires SysInv(s, capacity) && Enabled(s, step)
    ensures Grows(s.out, After(s, step, capacity).out)
  {
    hide Abreast, Inbound, Framed, Curt, InTurn, Entered, Heeded, Heedable, Told, Listed, Eager, Reachable, Logged,
         CanMove, Moved, Sequence, Frame, Paired, Slotted;
    match step {
      case Heed =>
        NotesHeedable(s, capacity);
        HeedGrows(s.out, s.notes[0], capacity);
      case Message(c, payload) =>
        if s.out.sessions[c].log.Some? {
          SequenceGrows(s.out, c, Frame(Packet(SEQUENCED_DATA, payload)), capacity);
        }
      case Act(m) => MoveGrows(s.out, m, capacity);
      case _ =>
    }
  }

  /** Over any run, what was sent stays sent, and nothing is sent on a connection
      once it is closed. */
  lemma {:induction false} RunGrows(s: System, steps: seq<Step>, s': System, capacity: nat)
    requires SysInv(s, capacity) && Run(s, steps, s', capacity)
    ensures Grows(s.out, s'.out)
    decreases |steps|
  {
    hide SysInv, Enabled, After;
    if steps != [] {
      StepKeeps(s, steps[0], capacity);
      StepGrows(s, steps[0], capacity);
      RunGrows(After(s, steps[0], capacity), steps[1..], s', capacity);
    }
  }

  /** In every reachable state, all a logged-in connection was ever handed is the
      start of Login Accepted followed by its session's messages from its number
      on, heartbeats only between whole packets; any other connection was handed
      at most one Login Rejected. */
  lemma OnTheWire(s: System, x: ConnId, capacity: nat)
    requires SysInv(s, capacity)
    ensures x !in s.out.transcripts ==> RefusalStart(SentTo(s.out.sent, x))
    ensures x in s.out.transcripts ==>
              var t := s.out.transcripts[x];
              && 0 < t.clientId < |s.messages|
              && (var all := s.messages[t.clientId];
                  && Placed(t.start, Beats(t), |all|)
                  && SentTo(s.out.sent, x) <= Stream(Frames([AcceptedPacket(t.start)] + Items(all, t.start, Beats(t), |all|))))
  {
    hide Abreast, Inbound, InTurn, Entered, Listed, Eager, Reachable, Paired, Slotted, Good, Render, Frame, Items;
    if x in s.out.transcripts {
      var t := s.out.transcripts[x];
      assert Recorded(t, s.out.sessions, SentTo(s.out.sent, x));
      var log := LogOf(s.out.sessions[t.clientId]);
      assert Sequenced(log, s.messages[t.clientId]) && NonEmpty(log);
      RenderIsPrefix(t, log, s.messages[t.clientId]);
    } else {
      assert [] <= Frame(RejectedPacket(0));
    }
  }
}
