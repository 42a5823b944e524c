/** The session half of the server's outbound thread: logins and their replies,
    Sequenced Data appended to a session's log and sent from it, heartbeats,
    slow consumers dropped, and every connection closed exactly once. */
module Outbound {
  import opened EngineTypes
  import opened Wire
  import opened SoupBin
  import opened Transcript
  import L = SessionLog

  datatype ConnId = ConnId(slot: nat, generation: nat)

  /** The largest Sequenced Data packet the server makes. */
  const MAX_SOUP_PACKET: nat := 256

  /** What TCP was offered on a connection, and how many bytes of it it took. */
  datatype Offer = Offer(conn: ConnId, bytes: seq<Byte>, taken: nat)

  /** The TCP stack's sending side: it takes any prefix of what it is offered,
      and a connection may die at any time. */
  class TcpSender {
    var sent: map<ConnId, seq<Byte>>
    var closed: set<ConnId>
    var dead: set<ConnId>
    ghost var offers: seq<Offer>

    constructor ()
      ensures sent == map[] && closed == {} && dead == {}
    {
      sent, closed, dead, offers := map[], {}, {}, [];
    }

    method Send(conn: ConnId, bytes: seq<Byte>) returns (n: nat)
      requires conn !in closed
      modifies this`sent, this`dead, this`offers
      ensures n <= |bytes|
      ensures sent == old(sent)[conn := SentTo(old(sent), conn) + bytes[..n]]
      ensures dead == old(dead) || dead == old(dead) + {conn}
      ensures offers == old(offers) + [Offer(conn, bytes, n)]
    {
      n :| 0 <= n <= |bytes|;
      sent := sent[conn := SentTo(sent, conn) + bytes[..n]];
      offers := offers + [Offer(conn, bytes, n)];
      var dies: bool := *;
      if dies {
        dead := dead + {conn};
      }
    }

    method Sendable(conn: ConnId) returns (yes: bool)
      ensures yes <==> conn !in dead
    {
      yes := conn !in dead;
    }

    method Close(conn: ConnId)
      requires conn !in closed
      modifies this`closed
      ensures closed == old(closed) + {conn}
    {
      closed := closed + {conn};
    }
  }

  function SentTo(sent: map<ConnId, seq<Byte>>, conn: ConnId): seq<Byte> {
    if conn in sent then sent[conn] else []
  }

  datatype Conn = Conn(
    conn: ConnId, open: bool, closeWhenFlushed: bool, dirty: bool, clientId: nat,
    control: seq<Byte>, controlSent: nat, closedGeneration: nat)

  datatype Session = Session(log: Option<Log>, slot: Option<nat>, cursor: nat)

  function LogOf(s: Session): Log {
    if s.log.Some? then s.log.value else []
  }

  function End(s: Session): nat {
    |Stream(LogOf(s))|
  }

  //--- what holds between any two operations ---

  /** A connection ours to send on is newer than anything closed in its slot. */
  ghost predicate Slotted(conns: seq<Conn>, closed: set<ConnId>) {
    && (forall k :: 0 <= k < |conns| && conns[k].open ==>
          conns[k].conn.slot == k && conns[k].closedGeneration < conns[k].conn.generation)
    && (forall x :: x in closed ==> x.slot < |conns| && x.generation <= conns[x.slot].closedGeneration)
  }

  /** A session and the open connection logged into it point at each other. */
  ghost predicate Paired(conns: seq<Conn>, sessions: seq<Session>) {
    && |sessions| > 0 && sessions[0].slot == None
    && (forall k :: 0 <= k < |conns| && conns[k].open && conns[k].clientId != 0 ==>
          conns[k].clientId < |sessions| && sessions[conns[k].clientId].slot == Some(k))
    && (forall c :: 0 <= c < |sessions| && sessions[c].slot.Some? ==>
          && sessions[c].slot.value < |conns| && conns[sessions[c].slot.value].open
          && conns[sessions[c].slot.value].clientId == c && sessions[c].log.Some?)
  }

  /** A connected session's unsent bytes are all still in its ring. */
  ghost predicate Reachable(sessions: seq<Session>, capacity: nat) {
    forall c :: 0 <= c < |sessions| && sessions[c].slot.Some? ==>
      sessions[c].cursor <= End(sessions[c]) && End(sessions[c]) - sessions[c].cursor <= capacity
  }

  /** Logs hold whole packets, none empty, none as large as the ring. */
  ghost predicate Logged(sessions: seq<Session>) {
    forall c :: 0 <= c < |sessions| ==> NonEmpty(LogOf(sessions[c]))
  }

  /** dirty_ lists each dirty slot once and nothing else. */
  ghost predicate Listed(conns: seq<Conn>, dirty: seq<nat>) {
    && (forall i :: 0 <= i < |dirty| ==> dirty[i] < |conns| && conns[dirty[i]].dirty)
    && (forall i, j :: 0 <= i < j < |dirty| ==> dirty[i] != dirty[j])
    && (forall k :: 0 <= k < |conns| && conns[k].dirty ==> k in dirty)
  }

  predicate Unsent(c: Conn, sessions: seq<Session>) {
    c.controlSent < |c.control|
    || (0 < c.clientId < |sessions| && sessions[c.clientId].cursor < End(sessions[c.clientId]))
  }

  /** An open connection with bytes it could still be sent is on the list. */
  ghost predicate Eager(conns: seq<Conn>, sessions: seq<Session>, dead: set<ConnId>) {
    forall k :: 0 <= k < |conns| && conns[k].open && Unsent(conns[k], sessions) && conns[k].conn !in dead ==> conns[k].dirty
  }

  /** What TCP has been handed is what the transcript says. */
  ghost predicate Recorded(t: Transcript, sessions: seq<Session>, bytes: seq<Byte>) {
    && 0 < t.clientId < |sessions| && sessions[t.clientId].log.Some?
    && Good(t, sessions[t.clientId].log.value) && bytes == Render(t, sessions[t.clientId].log.value)
  }

  /** The connection's own fields are where its transcript is. */
  ghost predicate Follows(t: Transcript, c: Conn, s: Session) {
    && t.clientId == c.clientId && t.cursor == s.cursor && t.control == c.controlSent
    && s.log.Some? && t.mark <= |s.log.value|
    && (if c.control == [] then t.accepted && c.controlSent == 0
        else c.control == ControlFrame(t) && c.controlSent < |c.control|
             && (t.accepted ==> Offset(s.log.value, t.mark) == t.cursor))
  }

  ghost predicate Told(conns: seq<Conn>, sessions: seq<Session>, transcripts: map<ConnId, Transcript>,
                       sent: map<ConnId, seq<Byte>>) {
    && (forall x :: x in transcripts ==> Recorded(transcripts[x], sessions, SentTo(sent, x)))
    && (forall k :: 0 <= k < |conns| && conns[k].open && 0 < conns[k].clientId < |sessions| ==>
          conns[k].conn in transcripts && Follows(transcripts[conns[k].conn], conns[k], sessions[conns[k].clientId]))
    && (forall k :: 0 <= k < |conns| && conns[k].open && conns[k].clientId == 0 ==>
          conns[k].conn !in transcripts && conns[k].controlSent <= |conns[k].control|
          && (conns[k].control != [] ==> SentTo(sent, conns[k].conn) == conns[k].control[..conns[k].controlSent]))
  }

  /** The outbound thread's state, what TCP has taken, and the transcripts. */
  datatype State = State(
    conns: seq<Conn>, sessions: seq<Session>, dirty: seq<nat>, transcripts: map<ConnId, Transcript>,
    sent: map<ConnId, seq<Byte>>, closed: set<ConnId>, dead: set<ConnId>)

  ghost predicate Inv(s: State, capacity: nat) {
    && Slotted(s.conns, s.closed) && Paired(s.conns, s.sessions)
    && Reachable(s.sessions, capacity) && Logged(s.sessions)
    && Listed(s.conns, s.dirty) && Eager(s.conns, s.sessions, s.dead)
    && Told(s.conns, s.sessions, s.transcripts, s.sent)
  }

  /** Nobody connected, no session begun. */
  function Start(slots: nat, clients: nat): State {
    State(seq(slots, _ => Conn(ConnId(0, 0), false, false, false, 0, [], 0, 0)),
          seq(clients + 1, _ => Session(None, None, 0)), [], map[], map[], {}, {})
  }

  lemma StartInv(slots: nat, clients: nat, capacity: nat)
    ensures Inv(Start(slots, clients), capacity)
  {
    hide Recorded, Follows, Stream;
  }

  //--- closing ---

  /** Not the past: nothing newer is closed or open in the connection's slot. */
  predicate Closable(s: State, conn: ConnId) {
    && conn.slot < |s.conns| && s.conns[conn.slot].closedGeneration <= conn.generation
    && (s.conns[conn.slot].open ==> s.conns[conn.slot].conn == conn)
  }

  function Shut(c: Conn): Conn {
    c.(open := false, clientId := 0, control := [], controlSent := 0, closeWhenFlushed := false)
  }

  function Freed(sessions: seq<Session>, c: nat): seq<Session> {
    if 0 < c < |sessions| then sessions[c := sessions[c].(slot := None)] else sessions
  }

  function Close(s: State, conn: ConnId): State
    requires conn.slot < |s.conns|
  {
    var c := s.conns[conn.slot];
    if c.closedGeneration == conn.generation then s
    else if c.conn != conn || !c.open then
      s.(closed := s.closed + {conn}, conns := s.conns[conn.slot := c.(closedGeneration := conn.generation)])
    else
      s.(closed := s.closed + {conn},
         conns := s.conns[conn.slot := Shut(c).(closedGeneration := conn.generation)],
         sessions := Freed(s.sessions, c.clientId))
  }

  lemma ClosePaired(s: State, k: nat, generation: nat)
    requires Paired(s.conns, s.sessions) && k < |s.conns| && s.conns[k].open
    ensures Paired(s.conns[k := Shut(s.conns[k]).(closedGeneration := generation)], Freed(s.sessions, s.conns[k].clientId))
  {
  }

  lemma CloseTold(s: State, k: nat, generation: nat)
    requires Told(s.conns, s.sessions, s.transcripts, s.sent) && Paired(s.conns, s.sessions)
    requires k < |s.conns| && s.conns[k].open
    ensures Told(s.conns[k := Shut(s.conns[k]).(closedGeneration := generation)], Freed(s.sessions, s.conns[k].clientId),
                 s.transcripts, s.sent)
  {
    hide Good, Render;
    var sessions' := Freed(s.sessions, s.conns[k].clientId);
    forall x | x in s.transcripts ensures Recorded(s.transcripts[x], sessions', SentTo(s.sent, x)) {
      assert Recorded(s.transcripts[x], s.sessions, SentTo(s.sent, x));
    }
  }

  lemma CloseRest(s: State, k: nat, generation: nat, capacity: nat)
    requires Reachable(s.sessions, capacity) && Logged(s.sessions) && Listed(s.conns, s.dirty)
    requires Eager(s.conns, s.sessions, s.dead) && k < |s.conns| && s.conns[k].open
    ensures var conns' := s.conns[k := Shut(s.conns[k]).(closedGeneration := generation)];
            var sessions' := Freed(s.sessions, s.conns[k].clientId);
            Reachable(sessions', capacity) && Logged(sessions') && Listed(conns', s.dirty) && Eager(conns', sessions', s.dead)
  {
    hide NonEmpty, Stream;
  }

  lemma MarkClosed(s: State, k: nat, generation: nat)
    requires k < |s.conns| && !s.conns[k].open
    requires Paired(s.conns, s.sessions) && Listed(s.conns, s.dirty) && Eager(s.conns, s.sessions, s.dead)
    requires Told(s.conns, s.sessions, s.transcripts, s.sent)
    ensures var conns' := s.conns[k := s.conns[k].(closedGeneration := generation)];
            && Paired(conns', s.sessions) && Listed(conns', s.dirty) && Eager(conns', s.sessions, s.dead)
            && Told(conns', s.sessions, s.transcripts, s.sent)
  {
    hide Recorded, Follows, Unsent;
  }

  lemma CloseSlotted(conns: seq<Conn>, closed: set<ConnId>, conn: ConnId, c: Conn)
    requires Slotted(conns, closed) && conn.slot < |conns| && conns[conn.slot].closedGeneration <= conn.generation
    requires !c.open && c.closedGeneration == conn.generation
    ensures Slotted(conns[conn.slot := c], closed + {conn})
  {
  }

  lemma CloseInv(s: State, conn: ConnId, capacity: nat)
    requires Inv(s, capacity) && Closable(s, conn)
    ensures Inv(Close(s, conn), capacity)
  {
    hide Slotted, Paired, Reachable, Logged, Listed, Eager, Told;
    var c := s.conns[conn.slot];
    if c.closedGeneration != conn.generation {
      if !c.open {
        MarkClosed(s, conn.slot, conn.generation);
        CloseSlotted(s.conns, s.closed, conn, c.(closedGeneration := conn.generation));
      } else {
        ClosePaired(s, conn.slot, conn.generation);
        CloseTold(s, conn.slot, conn.generation);
        CloseRest(s, conn.slot, conn.generation, capacity);
        CloseSlotted(s.conns, s.closed, conn, Shut(c).(closedGeneration := conn.generation));
      }
    }
  }

  //--- queueing on a connection ---

  function Marked(dirty: seq<nat>, conns: seq<Conn>, k: nat): seq<nat>
    requires k < |conns|
  {
    if conns[k].dirty then dirty else dirty + [k]
  }

  /** A slot newly dirty joins the list, whatever else changes about it. */
  lemma MarkListed(conns: seq<Conn>, dirty: seq<nat>, k: nat, c: Conn)
    requires Listed(conns, dirty) && k < |conns| && c.dirty
    ensures Listed(conns[k := c], Marked(dirty, conns, k))
  {
    var dirty' := Marked(dirty, conns, k);
    if !conns[k].dirty {
      assert k !in dirty;
      assert forall i :: 0 <= i < |dirty| ==> dirty'[i] == dirty[i];
      assert dirty'[|dirty|] == k;
      forall j | 0 <= j < |conns| && conns[k := c][j].dirty ensures j in dirty' {
        if j != k { assert j in dirty; }
      }
    }
  }

  //--- logins ---

  function RejectedPacket(reason: Byte): Packet {
    Packet(LOGIN_REJECTED, [reason])
  }

  const SESSION_NOT_AVAILABLE: Byte := 83 // 'S'

  /** A connection TCP has just handed over: newer than its slot's past, and
      nothing sent on it yet. */
  predicate Fresh(s: State, conn: ConnId) {
    && conn.slot < |s.conns| && !s.conns[conn.slot].open
    && s.conns[conn.slot].closedGeneration < conn.generation
    && conn !in s.transcripts && SentTo(s.sent, conn) == []
  }

  /** Ours to send on, with its first control packet queued. */
  function Admitted(s: State, conn: ConnId, clientId: nat, control: seq<Byte>, closing: bool): State
    requires conn.slot < |s.conns|
  {
    var before := s.conns[conn.slot];
    s.(conns := s.conns[conn.slot := Conn(conn, true, closing, true, clientId, control, 0, before.closedGeneration)],
       dirty := Marked(s.dirty, s.conns, conn.slot))
  }

  function Reject(s: State, conn: ConnId, reason: Byte): State
    requires conn.slot < |s.conns|
  {
    Admitted(s, conn, 0, Frame(RejectedPacket(reason)), true)
  }

  lemma RejectInv(s: State, conn: ConnId, reason: Byte, capacity: nat)
    requires Inv(s, capacity) && Fresh(s, conn)
    ensures Inv(Reject(s, conn, reason), capacity)
  {
    hide Recorded, Follows, Reachable, Logged, Frame, Listed;
    var s' := Reject(s, conn, reason);
    MarkListed(s.conns, s.dirty, conn.slot, s'.conns[conn.slot]);
  }

  /** The session with its log, created on its first login. */
  function WithLog(session: Session): Session {
    session.(log := Some(LogOf(session)))
  }

  /** Where a login asking for sequence starts: 0, or a number past anything sent
      yet, means the next new message. */
  function StartOf(log: Log, sequence: nat): nat {
    if sequence == 0 || sequence > |log| + 1 then |log| + 1 else sequence
  }

  function FirstHeld(log: Log, capacity: nat): nat {
    L.LeastFit(log, capacity, capacity / L.BYTES_PER_INDEX_ENTRY, 1)
  }

  function Accept(s: State, c: nat, conn: ConnId, sequence: nat, capacity: nat): State
    requires c < |s.sessions| && conn.slot < |s.conns|
  {
    var session := WithLog(s.sessions[c]);
    var log := LogOf(session);
    var start := StartOf(log, sequence);
    if start < FirstHeld(log, capacity) then
      Reject(s.(sessions := s.sessions[c := session]), conn, SESSION_NOT_AVAILABLE)
    else
      var cursor := Offset(log, start - 1);
      Admitted(s.(sessions := s.sessions[c := session.(slot := Some(conn.slot), cursor := cursor)],
                  transcripts := s.transcripts[conn := Transcript(c, start, false, [], cursor, 0, start - 1)]),
               conn, c, Frame(AcceptedPacket(start)), false)
  }

  /** Appending only ever raises the oldest number held. */
  lemma {:induction false} HeldRises(log: Log, more: Log, capacity: nat)
    ensures FirstHeld(log, capacity) <= FirstHeld(log + more, capacity)
    decreases |more|
  {
    hide FirstHeld;
    if more == [] {
      assert log + more == log;
    } else {
      var front, last := more[..|more| - 1], more[|more| - 1];
      HeldRises(log, front, capacity);
      OneMoreHeld(log + front, last, capacity);
      assert log + more == log + front + [last];
    }
  }

  lemma OneMoreHeld(log: Log, packet: seq<Byte>, capacity: nat)
    ensures FirstHeld(log, capacity) <= FirstHeld(log + [packet], capacity)
  {
    hide L.LeastFit;
    var all, index := log + [packet], capacity / L.BYTES_PER_INDEX_ENTRY;
    var first, first' := FirstHeld(log, capacity), FirstHeld(all, capacity);
    if first' < first {
      L.OffsetStable(log, packet, first' - 1);
      L.OffsetStable(log, packet, first - 2);
      L.FitsMonotone(all, capacity, index, first', first - 1);
    }
  }

  /** The connection is served session c from number start: told so, with the log
      from there on, and nothing before it, still to be sent. */
  ghost predicate ServedFrom(s: State, c: nat, conn: ConnId, log: Log, start: nat) {
    && c < |s.sessions| && conn.slot < |s.conns| && 1 <= start <= |log| + 1
    && s.conns[conn.slot].conn == conn && s.conns[conn.slot].open && s.conns[conn.slot].clientId == c
    && s.conns[conn.slot].dirty && !s.conns[conn.slot].closeWhenFlushed
    && s.conns[conn.slot].control == Frame(AcceptedPacket(start)) && s.conns[conn.slot].controlSent == 0
    && s.sessions[c] == Session(Some(log), Some(conn.slot), Offset(log, start - 1))
    && conn in s.transcripts && s.transcripts[conn].clientId == c && s.transcripts[conn].start == start
  }

  /** The connection is told why it is turned away, and then closed. */
  ghost predicate RefusedWith(s: State, conn: ConnId, reason: Byte) {
    && conn.slot < |s.conns| && s.conns[conn.slot].conn == conn && s.conns[conn.slot].open
    && s.conns[conn.slot].clientId == 0 && s.conns[conn.slot].dirty && s.conns[conn.slot].closeWhenFlushed
    && s.conns[conn.slot].control == [0, 2, 74, reason] && s.conns[conn.slot].controlSent == 0
  }

  lemma RefusalBytes(reason: Byte)
    ensures Frame(RejectedPacket(reason)) == [0, 2, 74, reason]
  {
    assert Store(2, 2) == Store(0, 1) + [2] && Store(0, 1) == Store(0, 0) + [0];
  }

  lemma RejectTells(s: State, conn: ConnId, reason: Byte)
    requires conn.slot < |s.conns|
    ensures RefusedWith(Reject(s, conn, reason), conn, reason)
    ensures Reject(s, conn, reason).transcripts == s.transcripts && Reject(s, conn, reason).sessions == s.sessions
  {
    hide Frame, Marked;
    RefusalBytes(reason);
  }

  /** What a login is served: the number it asks for if the log still holds it; the
      next new one if it asks for 0 or past the end, and then nothing is replayed. A
      number no longer held is turned away with S. */
  lemma LoginServed(s: State, c: nat, conn: ConnId, n: nat, capacity: nat)
    requires c < |s.sessions| && conn.slot < |s.conns|
    ensures var s', log := Accept(s, c, conn, n, capacity), LogOf(s.sessions[c]);
            if n == 0 || n > |log| then ServedFrom(s', c, conn, log, |log| + 1) && s'.sessions[c].cursor == |Stream(log)|
            else if n >= FirstHeld(log, capacity) then ServedFrom(s', c, conn, log, n)
            else RefusedWith(s', conn, 83) && s'.transcripts == s.transcripts && s'.sessions[c].log == Some(log)
  {
    hide Frame, FirstHeld, Stream, Marked, Reject;
    var log, session := LogOf(s.sessions[c]), WithLog(s.sessions[c]);
    HeldRange(log, capacity);
    L.OffsetStable(log, [], |log|);
    RejectTells(s.(sessions := s.sessions[c := session]), conn, 83);
  }

  lemma HeldRange(log: Log, capacity: nat)
    ensures 1 <= FirstHeld(log, capacity) <= |log| + 1
  {
  }

  /** Giving the session its log first makes no difference. */
  lemma AcceptEnsured(s: State, c: nat, conn: ConnId, sequence: nat, capacity: nat)
    requires c < |s.sessions| && conn.slot < |s.conns|
    ensures Accept(s.(sessions := s.sessions[c := WithLog(s.sessions[c])]), c, conn, sequence, capacity)
            == Accept(s, c, conn, sequence, capacity)
  {
    hide Frame, Reject, Admitted, Offset, FirstHeld, StartOf;
    var sessions := s.sessions[c := WithLog(s.sessions[c])];
    assert sessions[c := WithLog(sessions[c])] == sessions;
    var start := StartOf(LogOf(sessions[c]), sequence);
    if start >= FirstHeld(LogOf(sessions[c]), capacity) {
      StartHeld(LogOf(sessions[c]), sequence, capacity);
      var session := sessions[c].(slot := Some(conn.slot), cursor := Offset(LogOf(sessions[c]), start - 1));
      assert sessions[c := session] == s.sessions[c := session];
    }
  }

  /** Giving a session its empty log changes nothing else. */
  lemma WithLogInv(s: State, c: nat, capacity: nat)
    requires Inv(s, capacity) && c < |s.sessions| && s.sessions[c].slot == None
    ensures Inv(s.(sessions := s.sessions[c := WithLog(s.sessions[c])]), capacity)
  {
    hide Good, Render, Listed, Slotted, NonEmpty, Stream;
    var sessions' := s.sessions[c := WithLog(s.sessions[c])];
    forall x | x in s.transcripts ensures Recorded(s.transcripts[x], sessions', SentTo(s.sent, x)) {
      assert Recorded(s.transcripts[x], s.sessions, SentTo(s.sent, x));
    }
  }

  /** What is still held from start on fits the ring. */
  lemma StartHeld(log: Log, sequence: nat, capacity: nat)
    ensures var start := StartOf(log, sequence);
            1 <= start <= |log| + 1
            && (start >= FirstHeld(log, capacity) ==>
                  Offset(log, start - 1) <= |Stream(log)| && |Stream(log)| - Offset(log, start - 1) <= capacity)
  {
    var start := StartOf(log, sequence);
    var first := FirstHeld(log, capacity);
    L.StreamFrom(log, start - 1);
    L.OffsetStable(log, [], |log|);
    if first <= start {
      L.OffsetsRise(log, first - 1, start - 1);
    }
  }

  lemma AcceptPaired(s: State, c: nat, conn: ConnId, session: Session, control: seq<Byte>)
    requires Paired(s.conns, s.sessions) && 0 < c < |s.sessions| && s.sessions[c].slot == None
    requires conn.slot < |s.conns| && !s.conns[conn.slot].open
    requires session.log.Some? && session.slot == Some(conn.slot)
    ensures Paired(s.conns[conn.slot := Conn(conn, true, false, true, c, control, 0, s.conns[conn.slot].closedGeneration)],
                   s.sessions[c := session])
  {
  }

  lemma AcceptEager(s: State, c: nat, conn: ConnId, session: Session, entry: Conn)
    requires Paired(s.conns, s.sessions) && Eager(s.conns, s.sessions, s.dead)
    requires 0 < c < |s.sessions| && s.sessions[c].slot == None && conn.slot < |s.conns| && entry.dirty
    ensures Eager(s.conns[conn.slot := entry], s.sessions[c := session], s.dead)
  {
    hide Stream;
  }

  lemma AcceptTold(s: State, c: nat, conn: ConnId, session: Session, t: Transcript, entry: Conn)
    requires Paired(s.conns, s.sessions) && Told(s.conns, s.sessions, s.transcripts, s.sent) && Fresh(s, conn)
    requires 0 < c < |s.sessions| && s.sessions[c].slot == None
    requires s.sessions[c].log.Some? && session.log == s.sessions[c].log
    requires Slotted(s.conns, s.closed)
    requires Good(t, session.log.value) && Render(t, session.log.value) == [] && t.clientId == c
    requires entry.conn == conn && entry.open && entry.clientId == c && Follows(t, entry, session)
    ensures Told(s.conns[conn.slot := entry], s.sessions[c := session], s.transcripts[conn := t], s.sent)
  {
    hide Good, Render, Follows;
    var sessions', transcripts' := s.sessions[c := session], s.transcripts[conn := t];
    forall x | x in transcripts' ensures Recorded(transcripts'[x], sessions', SentTo(s.sent, x)) {
      if x != conn { assert Recorded(s.transcripts[x], s.sessions, SentTo(s.sent, x)); }
    }
    var conns' := s.conns[conn.slot := entry];
    forall k | 0 <= k < |conns'| && conns'[k].open && 0 < conns'[k].clientId < |sessions'|
      ensures conns'[k].conn in transcripts' && Follows(transcripts'[conns'[k].conn], conns'[k], sessions'[conns'[k].clientId])
    {
      if k != conn.slot {
        assert conns'[k].conn.slot == k;
        assert conns'[k].clientId != c;
      }
    }
  }

  lemma AcceptInv(s: State, c: nat, conn: ConnId, sequence: nat, capacity: nat)
    requires Inv(s, capacity) && Fresh(s, conn) && 0 < c < |s.sessions| && s.sessions[c].slot == None
    ensures Inv(Accept(s, c, conn, sequence, capacity), capacity)
  {
    hide Paired, Listed, Eager, Told, Frame, Offset, FirstHeld, StartOf;
    var s1 := s.(sessions := s.sessions[c := WithLog(s.sessions[c])]);
    WithLogInv(s, c, capacity);
    var log := LogOf(s1.sessions[c]);
    var start := StartOf(log, sequence);
    StartHeld(log, sequence, capacity);
    if start < FirstHeld(log, capacity) {
      RejectInv(s1, conn, SESSION_NOT_AVAILABLE, capacity);
    } else {
      var cursor := Offset(log, start - 1);
      var session := s1.sessions[c].(slot := Some(conn.slot), cursor := cursor);
      var t := Transcript(c, start, false, [], cursor, 0, start - 1);
      var entry := Conn(conn, true, false, true, c, Frame(AcceptedPacket(start)), 0, s.conns[conn.slot].closedGeneration);
      NewTranscript(log, c, start);
      AcceptPaired(s1, c, conn, session, Frame(AcceptedPacket(start)));
      AcceptEager(s1, c, conn, session, entry);
      AcceptTold(s1, c, conn, session, t, entry);
      MarkListed(s1.conns, s1.dirty, conn.slot, entry);
      assert s1.sessions[c := session] == s.sessions[c := session];
    }
  }

  lemma NewTranscript(log: Log, c: nat, start: nat)
    requires 1 <= start <= |log| + 1
    ensures var t := Transcript(c, start, false, [], Offset(log, start - 1), 0, start - 1);
            Good(t, log) && Render(t, log) == [] && 0 < |ControlFrame(t)|
  {
    L.StreamFrom(log, start - 1);
  }

  //--- Sequenced Data ---

  predicate WouldOverwrite(session: Session, len: nat, capacity: nat) {
    End(session) + len - session.cursor > capacity
  }

  /** The packet joins the log; a connection it reaches is on the list. */
  function Appended(s: State, c: nat, packet: seq<Byte>): State
    requires c < |s.sessions| && (s.sessions[c].slot.Some? ==> s.sessions[c].slot.value < |s.conns|)
  {
    var session := s.sessions[c];
    var s' := s.(sessions := s.sessions[c := session.(log := Some(LogOf(session) + [packet]))]);
    match session.slot
    case None => s'
    case Some(k) => s'.(conns := s.conns[k := s.conns[k].(dirty := true)], dirty := Marked(s.dirty, s.conns, k))
  }

  /** A connection so far behind that len more bytes would overwrite what it has
      yet to be sent is dropped. */
  function Spared(s: State, c: nat, len: nat, capacity: nat): (s': State)
    requires Paired(s.conns, s.sessions) && Slotted(s.conns, s.closed) && c < |s.sessions|
    ensures |s'.sessions| == |s.sessions| && |s'.conns| == |s.conns| && s'.sessions[c].log == s.sessions[c].log
    ensures s'.sessions[c].slot.Some? ==> s'.sessions[c].slot.value < |s'.conns|
  {
    var session := s.sessions[c];
    if session.slot.Some? && WouldOverwrite(session, len, capacity) then Close(s, s.conns[session.slot.value].conn) else s
  }

  function Sequence(s: State, c: nat, packet: seq<Byte>, capacity: nat): State
    requires Paired(s.conns, s.sessions) && Slotted(s.conns, s.closed) && c < |s.sessions|
  {
    if s.sessions[c].log == None then s else Appended(Spared(s, c, |packet|, capacity), c, packet)
  }

  /** Dropping a session's connection leaves the session, and its log, as it was. */
  lemma DropFrees(s: State, c: nat)
    requires Paired(s.conns, s.sessions) && Slotted(s.conns, s.closed) && c < |s.sessions| && s.sessions[c].slot.Some?
    ensures Closable(s, s.conns[s.sessions[c].slot.value].conn)
    ensures var s' := Close(s, s.conns[s.sessions[c].slot.value].conn);
            |s'.sessions| == |s.sessions| && s'.sessions[c] == s.sessions[c].(slot := None)
  {
  }

  lemma AppendTold(s: State, c: nat, packet: seq<Byte>)
    requires Told(s.conns, s.sessions, s.transcripts, s.sent) && c < |s.sessions| && s.sessions[c].log.Some?
    ensures Told(s.conns, s.sessions[c := s.sessions[c].(log := Some(s.sessions[c].log.value + [packet]))],
                 s.transcripts, s.sent)
  {
    hide Good, Render, Offset;
    var log := s.sessions[c].log.value;
    var sessions' := s.sessions[c := s.sessions[c].(log := Some(log + [packet]))];
    forall x | x in s.transcripts ensures Recorded(s.transcripts[x], sessions', SentTo(s.sent, x)) {
      var t := s.transcripts[x];
      assert Recorded(t, s.sessions, SentTo(s.sent, x));
      if t.clientId == c { RenderStable(t, log, packet); }
    }
    forall k | 0 <= k < |s.conns| && s.conns[k].open && 0 < s.conns[k].clientId < |sessions'|
      ensures s.conns[k].conn in s.transcripts
              && Follows(s.transcripts[s.conns[k].conn], s.conns[k], sessions'[s.conns[k].clientId])
    {
      var t := s.transcripts[s.conns[k].conn];
      assert Follows(t, s.conns[k], s.sessions[s.conns[k].clientId]);
      if s.conns[k].clientId == c { OffsetStays(log, packet, t.mark); }
    }
  }

  lemma OffsetStays(log: Log, packet: seq<Byte>, i: nat)
    requires i <= |log|
    ensures Offset(log + [packet], i) == Offset(log, i)
  {
    L.OffsetStable(log, packet, i);
  }

  /** Marking a connection dirty is invisible to its transcript and session. */
  lemma MarkTold(conns: seq<Conn>, k: nat, sessions: seq<Session>, transcripts: map<ConnId, Transcript>,
                 sent: map<ConnId, seq<Byte>>)
    requires Told(conns, sessions, transcripts, sent) && k < |conns|
    ensures Told(conns[k := conns[k].(dirty := true)], sessions, transcripts, sent)
  {
    hide Recorded;
    var conns' := conns[k := conns[k].(dirty := true)];
    assert forall i :: 0 <= i < |conns| ==> conns'[i] == conns[i].(dirty := conns'[i].dirty);
  }

  lemma MarkPaired(conns: seq<Conn>, k: nat, sessions: seq<Session>, closed: set<ConnId>)
    requires Paired(conns, sessions) && Slotted(conns, closed) && k < |conns|
    ensures Paired(conns[k := conns[k].(dirty := true)], sessions) && Slotted(conns[k := conns[k].(dirty := true)], closed)
  {
    var conns' := conns[k := conns[k].(dirty := true)];
    assert forall i :: 0 <= i < |conns| ==> conns'[i] == conns[i].(dirty := conns'[i].dirty);
  }

  lemma LongerPaired(conns: seq<Conn>, sessions: seq<Session>, c: nat, log: Log)
    requires Paired(conns, sessions) && c < |sessions|
    ensures Paired(conns, sessions[c := sessions[c].(log := Some(log))])
  {
  }

  lemma AppendPaired(s: State, c: nat, packet: seq<Byte>)
    requires Paired(s.conns, s.sessions) && Slotted(s.conns, s.closed) && c < |s.sessions| && s.sessions[c].log.Some?
    ensures var s' := Appended(s, c, packet);
            Paired(s'.conns, s'.sessions) && Slotted(s'.conns, s'.closed)
  {
    hide Slotted;
    var sessions' := s.sessions[c := s.sessions[c].(log := Some(LogOf(s.sessions[c]) + [packet]))];
    LongerPaired(s.conns, s.sessions, c, LogOf(s.sessions[c]) + [packet]);
    if s.sessions[c].slot.Some? {
      MarkPaired(s.conns, s.sessions[c].slot.value, sessions', s.closed);
    }
  }

  lemma AppendLogged(s: State, c: nat, packet: seq<Byte>, capacity: nat)
    requires Paired(s.conns, s.sessions) && Reachable(s.sessions, capacity) && Logged(s.sessions)
    requires c < |s.sessions| && s.sessions[c].log.Some? && packet != []
    requires s.sessions[c].slot.Some? ==> !WouldOverwrite(s.sessions[c], |packet|, capacity)
    ensures var s' := Appended(s, c, packet);
            Reachable(s'.sessions, capacity) && Logged(s'.sessions)
  {
    hide Stream;
    L.OffsetStable(s.sessions[c].log.value, packet, 0);
  }

  lemma AppendEager(s: State, c: nat, packet: seq<Byte>)
    requires Paired(s.conns, s.sessions) && Eager(s.conns, s.sessions, s.dead)
    requires c < |s.sessions| && s.sessions[c].log.Some?
    ensures var s' := Appended(s, c, packet);
            Eager(s'.conns, s'.sessions, s'.dead)
  {
    hide Stream;
    var s' := Appended(s, c, packet);
    forall k | 0 <= k < |s'.conns| && s'.conns[k].open && Unsent(s'.conns[k], s'.sessions) && s'.conns[k].conn !in s'.dead
      ensures s'.conns[k].dirty
    {
      if s.conns[k].clientId != c { assert Unsent(s.conns[k], s.sessions); }
    }
  }

  lemma AppendInv(s: State, c: nat, packet: seq<Byte>, capacity: nat)
    requires Inv(s, capacity) && c < |s.sessions| && s.sessions[c].log.Some? && packet != []
    requires s.sessions[c].slot.Some? ==> !WouldOverwrite(s.sessions[c], |packet|, capacity)
    ensures Inv(Appended(s, c, packet), capacity)
  {
    hide Slotted, Reachable, Logged, Listed, Eager, Told, WouldOverwrite;
    AppendPaired(s, c, packet);
    AppendLogged(s, c, packet, capacity);
    AppendEager(s, c, packet);
    AppendTold(s, c, packet);
    if s.sessions[c].slot.Some? {
      var k := s.sessions[c].slot.value;
      MarkListed(s.conns, s.dirty, k, s.conns[k].(dirty := true));
      MarkTold(s.conns, k, s.sessions[c := s.sessions[c].(log := Some(LogOf(s.sessions[c]) + [packet]))], s.transcripts, s.sent);
    }
  }

  lemma SequenceInv(s: State, c: nat, packet: seq<Byte>, capacity: nat)
    requires Inv(s, capacity) && c < |s.sessions| && packet != []
    ensures Inv(Sequence(s, c, packet, capacity), capacity)
  {
    hide Reachable, Logged, Listed, Eager, Told, WouldOverwrite, Close, Appended, Closable;
    var session := s.sessions[c];
    if session.log.Some? {
      if session.slot.Some? && WouldOverwrite(session, |packet|, capacity) {
        var conn := s.conns[session.slot.value].conn;
        DropFrees(s, c);
        CloseInv(s, conn, capacity);
        AppendInv(Close(s, conn), c, packet, capacity);
      } else {
        AppendInv(s, c, packet, capacity);
      }
    }
  }

  /** The packet is the log's next, in that session only. A connected client keeps its
      connection, now with something to send, exactly if its unsent bytes and the
      packet fit the ring together; no other connection is touched. */
  lemma SequenceEffect(s: State, c: nat, packet: seq<Byte>, capacity: nat)
    requires Inv(s, capacity) && c < |s.sessions| && s.sessions[c].log.Some?
    ensures Paired(s.conns, s.sessions) && Slotted(s.conns, s.closed)
    ensures var s', session := Sequence(s, c, packet, capacity), s.sessions[c];
            var fits := |Stream(session.log.value)| - session.cursor + |packet| <= capacity;
            && |s'.sessions| == |s.sessions| && |s'.conns| == |s.conns|
            && s'.sessions[c] == Session(Some(session.log.value + [packet]), if fits then session.slot else None, session.cursor)
            && (forall d :: 0 <= d < |s.sessions| && d != c ==> s'.sessions[d] == s.sessions[d])
            && (forall k :: 0 <= k < |s.conns| && session.slot != Some(k) ==> s'.conns[k] == s.conns[k])
            && (session.slot.Some? ==>
                  session.slot.value < |s.conns| &&
                  if fits then s'.conns[session.slot.value] == s.conns[session.slot.value].(dirty := true)
                  else !s'.conns[session.slot.value].open && s.conns[session.slot.value].conn in s'.closed)
  {
    hide Told, Reachable, Logged, Listed, Eager, Stream, Marked;
    if s.sessions[c].slot.Some? { DropFrees(s, c); }
  }

  //--- heartbeats ---

  /** Nothing else is queued: the cursor stands at a packet boundary, the end. */
  predicate Quiet(s: State, k: nat)
    requires k < |s.conns|
  {
    var c := s.conns[k];
    && c.open && 0 < c.clientId < |s.sessions| && c.control == []
    && s.sessions[c.clientId].log.Some? && s.sessions[c.clientId].cursor == End(s.sessions[c.clientId])
    && c.conn in s.transcripts
  }

  function Beat(s: State, k: nat): State
    requires k < |s.conns| && Quiet(s, k)
  {
    var c := s.conns[k];
    var log := s.sessions[c.clientId].log.value;
    s.(conns := s.conns[k := c.(control := Frame(HEARTBEAT), controlSent := 0, dirty := true)],
       dirty := Marked(s.dirty, s.conns, k),
       transcripts := s.transcripts[c.conn := s.transcripts[c.conn].(mark := |log|)])
  }

  lemma BeatInv(s: State, k: nat, capacity: nat)
    requires Inv(s, capacity) && k < |s.conns| && Quiet(s, k)
    ensures Inv(Beat(s, k), capacity)
  {
    hide Listed, Told, Reachable, Logged, Stream, Frame;
    var s' := Beat(s, k);
    MarkListed(s.conns, s.dirty, k, s'.conns[k]);
    BeatTold(s, k);
  }

  lemma BeatTold(s: State, k: nat)
    requires Told(s.conns, s.sessions, s.transcripts, s.sent) && Slotted(s.conns, s.closed)
    requires k < |s.conns| && Quiet(s, k)
    ensures var s' := Beat(s, k);
            Told(s'.conns, s'.sessions, s'.transcripts, s'.sent)
  {
    hide Good, Render, Follows;
    var s' := Beat(s, k);
    var c := s.conns[k];
    var t, log := s.transcripts[c.conn], s.sessions[c.clientId].log.value;
    assert Recorded(t, s.sessions, SentTo(s.sent, c.conn)) && Follows(t, c, s.sessions[c.clientId]);
    FollowsClient(t, c, s.sessions[c.clientId]);
    Remark(t, log, c, s'.conns[k], s.sessions[c.clientId]);
    forall x | x in s'.transcripts ensures Recorded(s'.transcripts[x], s'.sessions, SentTo(s.sent, x)) {
      assert Recorded(s.transcripts[x], s.sessions, SentTo(s.sent, x));
    }
    forall i | 0 <= i < |s'.conns| && s'.conns[i].open && 0 < s'.conns[i].clientId < |s'.sessions|
      ensures s'.conns[i].conn in s'.transcripts
              && Follows(s'.transcripts[s'.conns[i].conn], s'.conns[i], s'.sessions[s'.conns[i].clientId])
    {
      if i != k { assert s.conns[i].conn.slot == i && s.conns[k].conn.slot == k; }
    }
  }

  lemma FollowsClient(t: Transcript, c: Conn, session: Session)
    requires Follows(t, c, session)
    ensures t.clientId == c.clientId && t.cursor == session.cursor && t.control == c.controlSent && session.log.Some?
  {
  }

  /** A heartbeat queued at the end stands before the next new message. */
  lemma Remark(t: Transcript, log: Log, c: Conn, c': Conn, session: Session)
    requires Good(t, log) && Follows(t, c, session) && c.control == [] && session.log == Some(log)
    requires session.cursor == |Stream(log)| && c' == c.(control := Frame(HEARTBEAT), controlSent := 0, dirty := true)
    ensures var t' := t.(mark := |log|);
            Good(t', log) && Render(t', log) == Render(t, log) && Follows(t', c', session)
  {
    L.OffsetStable(log, [], |log|);
    FrameLength(HEARTBEAT, []);
  }

  //--- sending ---

  function Handed(sent: map<ConnId, seq<Byte>>, conn: ConnId, bytes: seq<Byte>): map<ConnId, seq<Byte>> {
    sent[conn := SentTo(sent, conn) + bytes]
  }

  /** TCP took n bytes of the control packet; done with, it is cleared. */
  function ControlTaken(s: State, k: nat, n: nat): State
    requires k < |s.conns| && s.conns[k].controlSent + n <= |s.conns[k].control|
  {
    var c := s.conns[k];
    var c' := if c.controlSent + n == |c.control| then c.(control := [], controlSent := 0)
              else c.(controlSent := c.controlSent + n);
    s.(conns := s.conns[k := c'],
       sent := Handed(s.sent, c.conn, c.control[c.controlSent..c.controlSent + n]),
       transcripts := if c.conn in s.transcripts then s.transcripts[c.conn := Controlled(s.transcripts[c.conn], n)]
                      else s.transcripts)
  }

  /** TCP took n bytes of the log. */
  function DataTaken(s: State, k: nat, n: nat): State
    requires k < |s.conns| && s.conns[k].clientId < |s.sessions| && s.conns[k].conn in s.transcripts
    requires s.sessions[s.conns[k].clientId].cursor + n <= End(s.sessions[s.conns[k].clientId])
  {
    var c := s.conns[k];
    var session := s.sessions[c.clientId];
    var t := s.transcripts[c.conn];
    s.(sessions := s.sessions[c.clientId := session.(cursor := session.cursor + n)],
       sent := Handed(s.sent, c.conn, Stream(LogOf(session))[session.cursor..session.cursor + n]),
       transcripts := s.transcripts[c.conn := t.(cursor := t.cursor + n)])
  }

  /** A logged-in connection moves on, its session, transcript and bytes with it;
      every other connection is told what it was. */
  lemma OneTold(s: State, k: nat, c: Conn, session: Session, t: Transcript, bytes: seq<Byte>)
    requires Told(s.conns, s.sessions, s.transcripts, s.sent) && Slotted(s.conns, s.closed) && Paired(s.conns, s.sessions)
    requires k < |s.conns| && s.conns[k].open && 0 < c.clientId < |s.sessions|
    requires c.open && c.conn == s.conns[k].conn && c.clientId == s.conns[k].clientId
    requires session.log == s.sessions[c.clientId].log && Follows(t, c, session)
    requires Recorded(t, s.sessions, SentTo(s.sent, c.conn) + bytes)
    ensures Told(s.conns[k := c], s.sessions[c.clientId := session], s.transcripts[c.conn := t], Handed(s.sent, c.conn, bytes))
  {
    hide Good, Render, Follows;
    var sessions', transcripts', sent' :=
      s.sessions[c.clientId := session], s.transcripts[c.conn := t], Handed(s.sent, c.conn, bytes);
    forall x | x in transcripts' ensures Recorded(transcripts'[x], sessions', SentTo(sent', x)) {
      if x != c.conn { assert Recorded(s.transcripts[x], s.sessions, SentTo(s.sent, x)); }
    }
    OthersTold(s, k);
  }

  lemma OthersTold(s: State, k: nat)
    requires Slotted(s.conns, s.closed) && Paired(s.conns, s.sessions) && k < |s.conns| && s.conns[k].open
    ensures forall i :: 0 <= i < |s.conns| && i != k && s.conns[i].open ==>
              s.conns[i].conn != s.conns[k].conn && (s.conns[i].clientId != 0 ==> s.conns[i].clientId != s.conns[k].clientId)
  {
    assert s.conns[k].conn.slot == k;
  }

  /** The same for a connection that is only being told it was turned away. */
  lemma LoneTold(s: State, k: nat, c: Conn, bytes: seq<Byte>)
    requires Told(s.conns, s.sessions, s.transcripts, s.sent) && Slotted(s.conns, s.closed) && Paired(s.conns, s.sessions)
    requires k < |s.conns| && s.conns[k].open && s.conns[k].clientId == 0
    requires c.open && c.conn == s.conns[k].conn && c.clientId == 0 && c.controlSent <= |c.control|
    requires c.control != [] ==> SentTo(s.sent, c.conn) + bytes == c.control[..c.controlSent]
    ensures Told(s.conns[k := c], s.sessions, s.transcripts, Handed(s.sent, c.conn, bytes))
  {
    hide Good, Render, Follows;
    var sent' := Handed(s.sent, c.conn, bytes);
    forall x | x in s.transcripts ensures Recorded(s.transcripts[x], s.sessions, SentTo(sent', x)) {
      assert Recorded(s.transcripts[x], s.sessions, SentTo(s.sent, x));
    }
    OthersTold(s, k);
  }

  lemma ControlTold(s: State, k: nat, n: nat)
    requires Told(s.conns, s.sessions, s.transcripts, s.sent) && Slotted(s.conns, s.closed) && Paired(s.conns, s.sessions)
    requires Logged(s.sessions) && k < |s.conns| && s.conns[k].open
    requires s.conns[k].controlSent < |s.conns[k].control| && s.conns[k].controlSent + n <= |s.conns[k].control|
    ensures var s' := ControlTaken(s, k, n);
            Told(s'.conns, s'.sessions, s'.transcripts, s'.sent)
  {
    hide Told, Slotted, Paired, Logged, ControlTaken;
    if s.conns[k].clientId != 0 {
      MemberControlTold(s, k, n);
    } else {
      LoneControlTold(s, k, n);
    }
  }

  lemma LoneControlTold(s: State, k: nat, n: nat)
    requires Told(s.conns, s.sessions, s.transcripts, s.sent) && Slotted(s.conns, s.closed) && Paired(s.conns, s.sessions)
    requires k < |s.conns| && s.conns[k].open && s.conns[k].clientId == 0
    requires s.conns[k].controlSent < |s.conns[k].control| && s.conns[k].controlSent + n <= |s.conns[k].control|
    ensures var s' := ControlTaken(s, k, n);
            Told(s'.conns, s'.sessions, s'.transcripts, s'.sent)
  {
    hide Good, Render, Frame, Offset, Follows, Recorded;
    var c := s.conns[k];
    var bytes := c.control[c.controlSent..c.controlSent + n];
    assert c.control[..c.controlSent] + bytes == c.control[..c.controlSent + n];
    LoneTold(s, k, ControlTaken(s, k, n).conns[k], bytes);
  }

  lemma MemberControlTold(s: State, k: nat, n: nat)
    requires Told(s.conns, s.sessions, s.transcripts, s.sent) && Slotted(s.conns, s.closed) && Paired(s.conns, s.sessions)
    requires Logged(s.sessions) && k < |s.conns| && s.conns[k].open && s.conns[k].clientId != 0
    requires s.conns[k].controlSent < |s.conns[k].control| && s.conns[k].controlSent + n <= |s.conns[k].control|
    ensures var s' := ControlTaken(s, k, n);
            Told(s'.conns, s'.sessions, s'.transcripts, s'.sent)
  {
    hide Told, Slotted, Logged, Follows, Good, Render, ControlFrame, Controlled, NonEmpty, Offset, Stream;
    MemberFacts(s, k);
    var c := s.conns[k];
    var t, session := s.transcripts[c.conn], s.sessions[c.clientId];
    var c' := ControlTaken(s, k, n).conns[k];
    SendControl(t, session.log.value, n);
    ControlledFollows(t, c, c', session, n);
    ControlledSame(t, n);
    OneTold(s, k, c', session, Controlled(t, n), c.control[c.controlSent..c.controlSent + n]);
    assert s.sessions[c.clientId := session] == s.sessions;
  }

  /** Where a logged-in connection's control packet stands. */
  lemma MemberFacts(s: State, k: nat)
    requires Told(s.conns, s.sessions, s.transcripts, s.sent) && Paired(s.conns, s.sessions) && Logged(s.sessions)
    requires k < |s.conns| && s.conns[k].open && s.conns[k].clientId != 0
    ensures s.conns[k].clientId < |s.sessions| && s.conns[k].conn in s.transcripts
    ensures var c := s.conns[k];
            var t, session := s.transcripts[c.conn], s.sessions[c.clientId];
            && Follows(t, c, session) && t.clientId == c.clientId && t.control == c.controlSent && session.log.Some?
            && NonEmpty(session.log.value) && Good(t, session.log.value)
            && SentTo(s.sent, c.conn) == Render(t, session.log.value)
            && (c.control != [] ==>
                  c.control == ControlFrame(t)
                  && (t.accepted ==> t.mark <= |session.log.value| && Offset(session.log.value, t.mark) == t.cursor))
  {
    hide Good, Render, NonEmpty, ControlFrame, Offset;
    var c := s.conns[k];
    assert Recorded(s.transcripts[c.conn], s.sessions, SentTo(s.sent, c.conn));
    assert NonEmpty(LogOf(s.sessions[c.clientId]));
  }

  lemma ControlledSame(t: Transcript, n: nat)
    ensures Controlled(t, n).clientId == t.clientId
  {
  }

  lemma ControlledFollows(t: Transcript, c: Conn, c': Conn, session: Session, n: nat)
    requires Follows(t, c, session) && c.controlSent < |c.control| && c.controlSent + n <= |c.control|
    requires c' == if c.controlSent + n == |c.control| then c.(control := [], controlSent := 0)
                   else c.(controlSent := c.controlSent + n)
    ensures Follows(Controlled(t, n), c', session)
  {
    hide Frame, Offset;
  }

  lemma ControlInv(s: State, k: nat, n: nat, capacity: nat)
    requires Inv(s, capacity) && k < |s.conns| && s.conns[k].open
    requires s.conns[k].controlSent < |s.conns[k].control| && s.conns[k].controlSent + n <= |s.conns[k].control|
    ensures Inv(ControlTaken(s, k, n), capacity)
  {
    hide Told, Reachable, Logged;
    ControlTold(s, k, n);
  }

  lemma DataTold(s: State, k: nat, n: nat)
    requires Told(s.conns, s.sessions, s.transcripts, s.sent) && Slotted(s.conns, s.closed) && Paired(s.conns, s.sessions)
    requires Logged(s.sessions) && k < |s.conns| && s.conns[k].open
    requires 0 < s.conns[k].clientId < |s.sessions| && s.conns[k].control == [] && s.conns[k].conn in s.transcripts
    requires s.sessions[s.conns[k].clientId].cursor + n <= End(s.sessions[s.conns[k].clientId])
    ensures var s' := DataTaken(s, k, n);
            Told(s'.conns, s'.sessions, s'.transcripts, s'.sent)
  {
    hide Told, Slotted, Logged, Good, Render, ControlFrame, NonEmpty, Offset, Stream;
    MemberFacts(s, k);
    var c := s.conns[k];
    var t, session := s.transcripts[c.conn], s.sessions[c.clientId];
    SendData(t, session.log.value, n);
    OneTold(s, k, c, session.(cursor := session.cursor + n), t.(cursor := t.cursor + n),
            Stream(LogOf(session))[session.cursor..session.cursor + n]);
    assert s.conns[k := c] == s.conns;
  }

  lemma DataInv(s: State, k: nat, n: nat, capacity: nat)
    requires Inv(s, capacity) && k < |s.conns| && s.conns[k].open
    requires 0 < s.conns[k].clientId < |s.sessions| && s.conns[k].control == [] && s.conns[k].conn in s.transcripts
    requires s.sessions[s.conns[k].clientId].cursor + n <= End(s.sessions[s.conns[k].clientId])
    ensures Inv(DataTaken(s, k, n), capacity)
  {
    hide Told, NonEmpty, Stream;
    DataTold(s, k, n);
  }

  //--- flushing ---

  /** The list without slot k, which then is not dirty. */
  function Unmarked(s: State, i: nat): State
    requires i < |s.dirty| && s.dirty[i] < |s.conns|
  {
    s.(dirty := s.dirty[..i] + s.dirty[i + 1..], conns := s.conns[s.dirty[i] := s.conns[s.dirty[i]].(dirty := false)])
  }

  /** Nothing more can be sent on it: gone, dead, or with nothing queued. */
  predicate Idle(s: State, k: nat)
    requires k < |s.conns|
  {
    !s.conns[k].open || s.conns[k].conn in s.dead || !Unsent(s.conns[k], s.sessions)
  }

  lemma Spliced(dirty: seq<nat>, i: nat, j: nat)
    requires i < |dirty| && j < |dirty| - 1
    ensures (dirty[..i] + dirty[i + 1..])[j] == if j < i then dirty[j] else dirty[j + 1]
  {
  }

  lemma UnmarkListed(conns: seq<Conn>, dirty: seq<nat>, i: nat)
    requires Listed(conns, dirty) && i < |dirty|
    ensures Listed(conns[dirty[i] := conns[dirty[i]].(dirty := false)], dirty[..i] + dirty[i + 1..])
  {
    var k := dirty[i];
    var conns', dirty' := conns[k := conns[k].(dirty := false)], dirty[..i] + dirty[i + 1..];
    forall j | 0 <= j < |dirty'| ensures dirty'[j] < |conns'| && conns'[dirty'[j]].dirty {
      Spliced(dirty, i, j);
    }
    forall j, m | 0 <= j < m < |dirty'| ensures dirty'[j] != dirty'[m] {
      Spliced(dirty, i, j);
      Spliced(dirty, i, m);
    }
    forall j | 0 <= j < |conns'| && conns'[j].dirty ensures j in dirty' {
      assert j in dirty && dirty == dirty[..i] + [k] + dirty[i + 1..];
    }
  }

  lemma UnmarkTold(s: State, k: nat)
    requires Told(s.conns, s.sessions, s.transcripts, s.sent) && k < |s.conns|
    requires Paired(s.conns, s.sessions) && Slotted(s.conns, s.closed)
    ensures var conns' := s.conns[k := s.conns[k].(dirty := false)];
            Told(conns', s.sessions, s.transcripts, s.sent) && Paired(conns', s.sessions) && Slotted(conns', s.closed)
  {
    hide Recorded;
    var conns' := s.conns[k := s.conns[k].(dirty := false)];
    assert forall i :: 0 <= i < |s.conns| ==> conns'[i] == s.conns[i].(dirty := conns'[i].dirty);
  }

  lemma UnmarkInv(s: State, i: nat, capacity: nat)
    requires Inv(s, capacity) && i < |s.dirty| && s.dirty[i] < |s.conns| && Idle(s, s.dirty[i])
    ensures Inv(Unmarked(s, i), capacity)
  {
    hide Listed, Told, Reachable, Logged, Paired, Slotted, Stream;
    UnmarkListed(s.conns, s.dirty, i);
    UnmarkTold(s, s.dirty[i]);
  }

  /** What the thread does between notes and messages, one send, close, heartbeat
      or list entry at a time. */
  datatype Move =
    | Control(k: nat, n: nat)
    | Payload(k: nat, n: nat)
    | Finish(k: nat)
    | Unmark(i: nat)
    | Pulse(k: nat)
    | Die(conn: ConnId)

  predicate CanMove(s: State, m: Move) {
    match m
    case Control(k, n) => k < |s.conns| && s.conns[k].open && s.conns[k].controlSent < |s.conns[k].control|
                          && s.conns[k].controlSent + n <= |s.conns[k].control|
    case Payload(k, n) => k < |s.conns| && s.conns[k].open && 0 < s.conns[k].clientId < |s.sessions|
                          && s.conns[k].control == [] && s.conns[k].conn in s.transcripts
                          && s.sessions[s.conns[k].clientId].cursor + n <= End(s.sessions[s.conns[k].clientId])
    case Finish(k) => k < |s.conns| && s.conns[k].open && s.conns[k].closeWhenFlushed && s.conns[k].conn.slot == k
    case Unmark(i) => i < |s.dirty| && s.dirty[i] < |s.conns| && Idle(s, s.dirty[i])
    case Pulse(k) => k < |s.conns| && Quiet(s, k)
    case Die(conn) => true
  }

  function Moved(s: State, m: Move): State
    requires CanMove(s, m)
  {
    match m
    case Control(k, n) => ControlTaken(s, k, n)
    case Payload(k, n) => DataTaken(s, k, n)
    case Finish(k) => Close(s, s.conns[k].conn)
    case Unmark(i) => Unmarked(s, i)
    case Pulse(k) => Beat(s, k)
    case Die(conn) => s.(dead := s.dead + {conn})
  }

  lemma MoveInv(s: State, m: Move, capacity: nat)
    requires Inv(s, capacity) && CanMove(s, m)
    ensures Inv(Moved(s, m), capacity)
  {
    hide Paired, Reachable, Logged, Listed, Told, Unsent, ControlTaken, DataTaken, Close, Unmarked, Beat;
    match m {
      case Control(k, n) => ControlInv(s, k, n, capacity);
      case Payload(k, n) => DataInv(s, k, n, capacity);
      case Finish(k) => CloseInv(s, s.conns[k].conn, capacity);
      case Unmark(i) => UnmarkInv(s, i, capacity);
      case Pulse(k) => BeatInv(s, k, capacity);
      case Die(conn) =>
    }
  }

  /** s' comes from s by moves alone. */
  ghost predicate Flushed(s: State, moves: seq<Move>, s': State)
    decreases |moves|
  {
    if moves == [] then s' == s
    else CanMove(s, moves[0]) && Flushed(Moved(s, moves[0]), moves[1..], s')
  }

  lemma {:induction false} FlushedThen(s: State, moves: seq<Move>, s': State, m: Move)
    requires Flushed(s, moves, s') && CanMove(s', m)
    ensures Flushed(s, moves + [m], Moved(s', m))
    decreases |moves|
  {
    hide CanMove, Moved;
    if moves != [] {
      FlushedThen(Moved(s, moves[0]), moves[1..], s', m);
      assert (moves + [m])[1..] == moves[1..] + [m];
    } else {
      assert ([m])[1..] == [];
      assert moves + [m] == [m];
    }
  }

  lemma {:induction false} FlushedJoin(s: State, a: seq<Move>, s1: State, b: seq<Move>, s2: State)
    requires Flushed(s, a, s1) && Flushed(s1, b, s2)
    ensures Flushed(s, a + b, s2)
    decreases |a|
  {
    hide CanMove, Moved;
    if a == [] {
      assert a + b == b;
    } else {
      FlushedJoin(Moved(s, a[0]), a[1..], s1, b, s2);
      assert (a + b)[1..] == a[1..] + b;
    }
  }

  /** What sending on an open connection relies on. */
  lemma OpenFacts(s: State, k: nat, capacity: nat)
    requires Inv(s, capacity) && k < |s.conns| && s.conns[k].open
    ensures s.conns[k].conn !in s.closed && s.conns[k].conn.slot == k && Closable(s, s.conns[k].conn)
    ensures s.conns[k].closedGeneration < s.conns[k].conn.generation && s.conns[k].clientId < |s.sessions|
    ensures s.conns[k].clientId != 0 ==>
              var session := s.sessions[s.conns[k].clientId];
              && session.log.Some? && s.conns[k].conn in s.transcripts
              && session.cursor <= End(session) && End(session) - session.cursor <= capacity
              && (s.conns[k].control == [] || s.conns[k].controlSent < |s.conns[k].control|)
  {
    hide Recorded, Stream;
  }

  /** The move just made, and the connection's death if it died meanwhile. */
  lemma Took(s: State, m: Move, conn: ConnId, s': State, capacity: nat) returns (moves: seq<Move>)
    requires Inv(s, capacity) && CanMove(s, m)
    requires s' == Moved(s, m) || s' == Moved(s, m).(dead := Moved(s, m).dead + {conn})
    ensures Flushed(s, moves, s') && Inv(s', capacity)
  {
    hide Inv, Idle, Quiet, ControlTaken, DataTaken, Close, Unmarked, Beat;
    MoveInv(s, m, capacity);
    moves := [m];
    assert moves[1..] == [];
    if s' != Moved(s, m) {
      FlushedThen(s, moves, Moved(s, m), Die(conn));
      MoveInv(Moved(s, m), Die(conn), capacity);
      moves := moves + [Die(conn)];
    }
  }

  /** The entries of the list are different slots, with different connections and
      sessions. */
  lemma WaitingDirty(s: State, i: nat, capacity: nat)
    requires Inv(s, capacity) && i < |s.dirty|
    ensures s.dirty[i] < |s.conns|
    ensures forall j :: 0 <= j < |s.dirty| && j != i ==>
              s.dirty[j] < |s.conns| && s.dirty[j] != s.dirty[i] && Separate(s.conns[s.dirty[i]], s.conns[s.dirty[j]])
  {
    hide Told, Reachable, Logged, Eager;
  }

  ghost predicate Separate(c: Conn, d: Conn) {
    c.open && d.open ==> c.conn != d.conn && (d.clientId != 0 ==> c.clientId != d.clientId)
  }

  lemma UnmarkTook(s: State, i: nat, capacity: nat) returns (moves: seq<Move>)
    requires Inv(s, capacity) && i < |s.dirty| && s.dirty[i] < |s.conns| && Idle(s, s.dirty[i])
    ensures Flushed(s, moves, Unmarked(s, i)) && Inv(Unmarked(s, i), capacity)
  {
    hide Inv, Idle, Quiet, ControlTaken, DataTaken, Close, Unmarked, Beat;
    moves := Took(s, Unmark(i), s.conns[s.dirty[i]].conn, Unmarked(s, i), capacity);
  }

  lemma IdleUnlessOpen(s: State, k: nat)
    requires k < |s.conns|
    ensures !s.conns[k].open ==> Idle(s, k)
  {
  }

  lemma Pulsed(s: State, k: nat, capacity: nat)
    requires Inv(s, capacity) && k < |s.conns| && Quiet(s, k)
    ensures Flushed(s, [Pulse(k)], Beat(s, k)) && Inv(Beat(s, k), capacity)
  {
    hide Inv, Idle, Quiet, ControlTaken, DataTaken, Close, Unmarked, Beat;
    BeatInv(s, k, capacity);
    assert [Pulse(k)][1..] == [];
  }

  lemma ControlTook(s: State, k: nat, n: nat, s': State, capacity: nat) returns (moves: seq<Move>)
    requires Inv(s, capacity) && k < |s.conns| && s.conns[k].open
    requires s.conns[k].controlSent < |s.conns[k].control| && s.conns[k].controlSent + n <= |s.conns[k].control|
    requires var t := ControlTaken(s, k, n); s' == t || s' == t.(dead := t.dead + {s.conns[k].conn})
    ensures Flushed(s, moves, s') && Inv(s', capacity)
  {
    hide Inv, Idle, Quiet, ControlTaken, DataTaken, Close, Unmarked, Beat;
    moves := Took(s, Control(k, n), s.conns[k].conn, s', capacity);
  }

  lemma PayloadTook(s: State, k: nat, n: nat, s': State, capacity: nat) returns (moves: seq<Move>)
    requires Inv(s, capacity) && k < |s.conns| && s.conns[k].open
    requires 0 < s.conns[k].clientId < |s.sessions| && s.conns[k].control == [] && s.conns[k].conn in s.transcripts
    requires s.sessions[s.conns[k].clientId].cursor + n <= End(s.sessions[s.conns[k].clientId])
    requires var t := DataTaken(s, k, n); s' == t || s' == t.(dead := t.dead + {s.conns[k].conn})
    ensures Flushed(s, moves, s') && Inv(s', capacity)
  {
    hide Inv, Idle, Quiet, ControlTaken, DataTaken, Close, Unmarked, Beat;
    moves := Took(s, Payload(k, n), s.conns[k].conn, s', capacity);
  }

  //--- notes from the inbound thread ---

  datatype Note =
    | LoggedIn(clientId: nat, conn: ConnId, sequence: nat)
    | TurnedAway(conn: ConnId, reason: Byte)
    | Disconnected(conn: ConnId)

  predicate Heedable(s: State, note: Note) {
    match note
    case LoggedIn(c, conn, _) => Fresh(s, conn) && 0 < c < |s.sessions| && s.sessions[c].slot == None
    case TurnedAway(conn, _) => Fresh(s, conn)
    case Disconnected(conn) => Closable(s, conn)
  }

  function Heeded(s: State, note: Note, capacity: nat): State
    requires Heedable(s, note)
  {
    match note
    case LoggedIn(c, conn, sequence) => Accept(s, c, conn, sequence, capacity)
    case TurnedAway(conn, reason) => Reject(s, conn, reason)
    case Disconnected(conn) => Close(s, conn)
  }

  lemma HeededInv(s: State, note: Note, capacity: nat)
    requires Inv(s, capacity) && Heedable(s, note)
    ensures Inv(Heeded(s, note, capacity), capacity)
  {
    hide Inv, Accept, Reject, Close, Fresh, Closable;
    match note {
      case LoggedIn(c, conn, sequence) => AcceptInv(s, c, conn, sequence, capacity);
      case TurnedAway(conn, reason) => RejectInv(s, conn, reason, capacity);
      case Disconnected(conn) => CloseInv(s, conn, capacity);
    }
  }

  /** A session's own facts: connected, its unsent bytes are in the ring. */
  lemma SessionFacts(s: State, c: nat, capacity: nat)
    requires Inv(s, capacity) && c < |s.sessions| && s.sessions[c].slot.Some?
    ensures s.sessions[c].slot.value < |s.conns| && s.sessions[c].log.Some?
    ensures s.sessions[c].cursor <= End(s.sessions[c]) <= s.sessions[c].cursor + capacity
    ensures Closable(s, s.conns[s.sessions[c].slot.value].conn)
  {
    hide Told, Stream;
    DropFrees(s, c);
  }

  /** What TCP took of the run it was offered is the log's next bytes. */
  lemma RunTaken(session: Session, capacity: nat, n: nat)
    requires 0 < capacity && session.cursor <= End(session)
    requires n <= |L.Contiguous(LogOf(session), capacity, session.cursor)|
    ensures session.cursor + n <= End(session)
    ensures L.Contiguous(LogOf(session), capacity, session.cursor)[..n]
            == Stream(LogOf(session))[session.cursor..session.cursor + n]
  {
    hide Stream, L.Contiguous;
  }

  lemma InvPaired(s: State, capacity: nat)
    requires Inv(s, capacity)
    ensures Paired(s.conns, s.sessions) && Slotted(s.conns, s.closed)
  {
  }

  /** The next bytes to be sent on a connection: the rest of its control packet, or
      the log from the cursor up to the ring's wrap. */
  function Due(c: Conn, sessions: seq<Session>, capacity: nat): seq<Byte> {
    if c.controlSent < |c.control| then c.control[c.controlSent..]
    else if 0 < capacity && c.clientId < |sessions| && sessions[c.clientId].cursor <= End(sessions[c.clientId]) then
      L.Contiguous(LogOf(sessions[c.clientId]), capacity, sessions[c.clientId].cursor)
    else []
  }
}
