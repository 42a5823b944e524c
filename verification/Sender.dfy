/** The outbound thread's connection and session tables, and the methods that
    change them: each is one of Outbound's state changes, so the invariant holds
    between any two of them and TCP is never misused in one. */
module Sender {
  import opened EngineTypes
  import opened Wire
  import opened SoupBin
  import opened Transcript
  import opened Outbound
  import opened LogShelf
  import L = SessionLog

  /** A session as the thread keeps it, its log aside: the slot of the connection
      logged in to it, and how far that has been sent. */
  datatype Seat = Seat(slot: Option<nat>, cursor: nat)

  ghost predicate Seated(seats: seq<Seat>, sessions: seq<Session>) {
    |seats| == |sessions| && forall c :: 0 <= c < |seats| ==> seats[c] == Seat(sessions[c].slot, sessions[c].cursor)
  }

  ghost function LogsOf(sessions: seq<Session>): seq<Option<Log>> {
    seq(|sessions|, c requires 0 <= c < |sessions| => sessions[c].log)
  }

  /** A session moves to another slot or on in its log, which stays as it was. */
  lemma Reseated(seats: seq<Seat>, sessions: seq<Session>, c: nat, session: Session)
    requires Seated(seats, sessions) && c < |sessions| && session.log == sessions[c].log
    ensures Seated(seats[c := Seat(session.slot, session.cursor)], sessions[c := session])
    ensures LogsOf(sessions[c := session]) == LogsOf(sessions)
  {
  }

  /** Only the log changes. */
  lemma Relogged(seats: seq<Seat>, sessions: seq<Session>, c: nat, log: Log)
    requires Seated(seats, sessions) && c < |sessions|
    ensures Seated(seats, sessions[c := sessions[c].(log := Some(log))])
    ensures LogsOf(sessions[c := sessions[c].(log := Some(log))]) == LogsOf(sessions)[c := Some(log)]
  {
  }

  /** Rebuilding a list in place: what was kept so far, then what is yet to come. */
  lemma Compacted(list: seq<nat>, kept: nat, i: nat)
    requires kept <= i < |list|
    ensures var all := list[..kept] + list[i..];
            && all[kept] == list[i] && (forall j :: 0 <= j < kept ==> all[j] == list[j])
            && (forall j :: i <= j < |list| ==> all[kept + (j - i)] == list[j])
            && all[..kept] + all[kept + 1..] == list[..kept] + list[i + 1..]
            && (var moved := list[kept := list[i]]; moved[..kept + 1] + moved[i + 1..] == all)
  {
    var all, moved := list[..kept] + list[i..], list[kept := list[i]];
    assert all[kept + 1..] == list[i + 1..] && moved[i + 1..] == list[i + 1..];
    assert all[..kept] == list[..kept] == moved[..kept];
    assert moved[..kept + 1] == list[..kept] + [list[i]];
    assert list[i..] == [list[i]] + list[i + 1..];
  }

  //--- what one call offered TCP ---

  ghost predicate OnlyTo(before: seq<Offer>, now: seq<Offer>, conn: ConnId) {
    before <= now && forall i :: |before| <= i < |now| ==> now[i].conn == conn
  }

  ghost predicate FirstOffered(before: seq<Offer>, now: seq<Offer>, conn: ConnId, bytes: seq<Byte>) {
    |before| < |now| && now[|before|].conn == conn && now[|before|].bytes == bytes
  }

  /** The last offer of the call was not taken whole. */
  ghost predicate Refused(before: seq<Offer>, now: seq<Offer>, conn: ConnId) {
    |before| < |now| && now[|now| - 1].conn == conn && now[|now| - 1].taken < |now[|now| - 1].bytes|
  }

  lemma NoOffer(before: seq<Offer>, conn: ConnId)
    ensures OnlyTo(before, before, conn)
  {
  }

  lemma OnlyMore(before: seq<Offer>, now: seq<Offer>, conn: ConnId)
    requires OnlyTo(before, now, conn)
    ensures before <= now
  {
  }

  lemma OneMoreOffer(before: seq<Offer>, now: seq<Offer>, offer: Offer, conn: ConnId, first: seq<Byte>)
    requires OnlyTo(before, now, conn) && offer.conn == conn
    requires if now == before then offer.bytes == first else FirstOffered(before, now, conn, first)
    ensures OnlyTo(before, now + [offer], conn) && FirstOffered(before, now + [offer], conn, first)
    ensures offer.taken < |offer.bytes| ==> Refused(before, now + [offer], conn)
  {
  }

  lemma OffersJoin(before: seq<Offer>, mid: seq<Offer>, now: seq<Offer>, conn: ConnId, first: seq<Byte>)
    requires OnlyTo(before, mid, conn) && OnlyTo(mid, now, conn)
    ensures OnlyTo(before, now, conn)
    ensures FirstOffered(before, mid, conn, first) ==> FirstOffered(before, now, conn, first)
    ensures before == mid && FirstOffered(mid, now, conn, first) ==> FirstOffered(before, now, conn, first)
    ensures Refused(mid, now, conn) ==> Refused(before, now, conn)
  {
  }

  //--- what a whole flush offered TCP ---

  ghost predicate OfferedTo(before: seq<Offer>, now: seq<Offer>, conn: ConnId) {
    exists i :: |before| <= i < |now| && now[i].conn == conn
  }

  /** The last offer to the connection since before was not taken whole. */
  ghost predicate LeftShort(before: seq<Offer>, now: seq<Offer>, conn: ConnId) {
    exists i :: |before| <= i < |now| && now[i].conn == conn && now[i].taken < |now[i].bytes|
                && (forall j :: i < j < |now| ==> now[j].conn != conn)
  }

  lemma OffersStay(before: seq<Offer>, mid: seq<Offer>, now: seq<Offer>, conn: ConnId, other: ConnId)
    requires OnlyTo(mid, now, other)
    ensures OfferedTo(before, mid, conn) ==> OfferedTo(before, now, conn)
    ensures conn != other && LeftShort(before, mid, conn) ==> LeftShort(before, now, conn)
  {
    if OfferedTo(before, mid, conn) {
      var i :| |before| <= i < |mid| && mid[i].conn == conn;
      assert now[i].conn == conn;
    }
    if conn != other && LeftShort(before, mid, conn) {
      var i :| |before| <= i < |mid| && mid[i].conn == conn && mid[i].taken < |mid[i].bytes|
               && (forall j :: i < j < |mid| ==> mid[j].conn != conn);
      assert now[i] == mid[i];
    }
  }

  lemma OffersMade(before: seq<Offer>, mid: seq<Offer>, now: seq<Offer>, conn: ConnId, bytes: seq<Byte>)
    requires before <= mid && OnlyTo(mid, now, conn)
    ensures FirstOffered(mid, now, conn, bytes) ==> OfferedTo(before, now, conn)
    ensures Refused(mid, now, conn) ==> LeftShort(before, now, conn)
  {
    if FirstOffered(mid, now, conn, bytes) { assert now[|mid|].conn == conn; }
    if Refused(mid, now, conn) { assert now[|now| - 1].conn == conn; }
  }

  /** xs is ys with some entries left out. */
  ghost predicate Within(xs: seq<nat>, ys: seq<nat>) {
    xs == []
    || (ys != [] && Within(xs, ys[..|ys| - 1]))
    || (ys != [] && xs[|xs| - 1] == ys[|ys| - 1] && Within(xs[..|xs| - 1], ys[..|ys| - 1]))
  }

  lemma WithinNext(xs: seq<nat>, ys: seq<nat>, y: nat)
    requires Within(xs, ys)
    ensures Within(xs, ys + [y]) && Within(xs + [y], ys + [y])
  {
    assert (ys + [y])[..|ys|] == ys && (xs + [y])[..|xs|] == xs;
  }

  /** A connection and its session are as they were. */
  ghost predicate Untouched(conns: seq<Conn>, sessions: seq<Session>, conns': seq<Conn>, sessions': seq<Session>, k: nat) {
    && k < |conns| == |conns'| && |sessions'| == |sessions| && conns'[k] == conns[k]
    && (conns[k].open && 0 < conns[k].clientId < |sessions| ==> sessions'[conns[k].clientId] == sessions[conns[k].clientId])
  }

  /** What entry k of the list had to be sent, the flush has offered. */
  ghost predicate Attended(conns: seq<Conn>, sessions: seq<Session>, before: seq<Offer>, now: seq<Offer>, k: nat) {
    k < |conns| && (conns[k].open && Unsent(conns[k], sessions) ==> OfferedTo(before, now, conns[k].conn))
  }

  /** What had to be sent then is what has to be sent now. */
  lemma AttendedSame(conns: seq<Conn>, sessions: seq<Session>, conns': seq<Conn>, sessions': seq<Session>,
                     before: seq<Offer>, now: seq<Offer>, k: nat)
    requires Untouched(conns, sessions, conns', sessions', k) && Attended(conns', sessions', before, now, k)
    ensures Attended(conns, sessions, before, now, k)
  {
    hide OfferedTo, Stream;
  }

  lemma AttendedStays(conns: seq<Conn>, sessions: seq<Session>, before: seq<Offer>, mid: seq<Offer>, now: seq<Offer>, k: nat)
    requires Attended(conns, sessions, before, mid, k)
    requires forall x :: OfferedTo(before, mid, x) ==> OfferedTo(before, now, x)
    ensures Attended(conns, sessions, before, now, k)
  {
    hide OfferedTo, Unsent;
  }

  lemma UntouchedTwice(s: State, s': State, s'': State, k: nat)
    requires Untouched(s.conns, s.sessions, s'.conns, s'.sessions, k)
    requires Untouched(s'.conns, s'.sessions, s''.conns, s''.sessions, k)
    ensures Untouched(s.conns, s.sessions, s''.conns, s''.sessions, k)
  {
  }

  /** Of a list rebuilt in place, the first i entries dealt with, some of them kept. */
  ghost predicate Rebuilt(list: seq<nat>, now: seq<nat>, kept: nat, i: nat) {
    |now| == |list| && kept <= i <= |list| && now[i..] == list[i..] && Within(now[..kept], list[..i])
  }

  lemma RebuiltNone(list: seq<nat>)
    ensures Rebuilt(list, list, 0, 0)
  {
  }

  lemma RebuiltNext(list: seq<nat>, now: seq<nat>, kept: nat, i: nat, keep: bool)
    requires Rebuilt(list, now, kept, i) && i < |list|
    ensures Rebuilt(list, if keep then now[kept := now[i]] else now, if keep then kept + 1 else kept, i + 1)
    ensures forall j :: i <= j < |list| ==> now[j] == list[j]
  {
    assert forall j :: i <= j < |list| ==> now[j] == now[i..][j - i] == list[i..][j - i] == list[j];
    WithinNext(now[..kept], list[..i], list[i]);
    assert list[..i + 1] == list[..i] + [list[i]];
    if keep {
      assert now[kept := now[i]][..kept + 1] == now[..kept] + [list[i]];
    }
  }

  lemma RebuiltSize(list: seq<nat>, now: seq<nat>, kept: nat, i: nat)
    requires Rebuilt(list, now, kept, i)
    ensures |now| == |list|
  {
  }

  lemma RebuiltAll(list: seq<nat>, now: seq<nat>, kept: nat)
    requires Rebuilt(list, now, kept, |list|)
    ensures Within(now[..kept], list)
  {
    assert list[..|list|] == list;
  }

  /** The first i entries of the list have been attended to; the rest are as the
      flush found them. */
  ghost predicate Swept(before: State, since: seq<Offer>, now: State, offers: seq<Offer>, i: nat) {
    && i <= |before.dirty|
    && (forall j :: 0 <= j < i ==> Attended(before.conns, before.sessions, since, offers, before.dirty[j]))
    && (forall j :: i <= j < |before.dirty| ==>
          Untouched(before.conns, before.sessions, now.conns, now.sessions, before.dirty[j]))
  }

  lemma SweptNone(s: State, offers: seq<Offer>, capacity: nat)
    requires Inv(s, capacity)
    ensures Swept(s, offers, s, offers, 0)
  {
    hide Told, Reachable, Logged, Eager, Paired;
  }

  lemma SweptNext(before: State, since: seq<Offer>, s: State, offers: seq<Offer>, s': State, offers': seq<Offer>, i: nat)
    requires Swept(before, since, s, offers, i) && i < |before.dirty|
    requires Attended(s.conns, s.sessions, since, offers', before.dirty[i])
    requires forall x :: OfferedTo(since, offers, x) ==> OfferedTo(since, offers', x)
    requires forall j :: i < j < |before.dirty| ==> Untouched(s.conns, s.sessions, s'.conns, s'.sessions, before.dirty[j])
    ensures Swept(before, since, s', offers', i + 1)
  {
    hide OfferedTo, Attended, Untouched;
    AttendedSame(before.conns, before.sessions, s.conns, s.sessions, since, offers', before.dirty[i]);
    forall j | 0 <= j < i ensures Attended(before.conns, before.sessions, since, offers', before.dirty[j]) {
      AttendedStays(before.conns, before.sessions, since, offers, offers', before.dirty[j]);
    }
    forall j | i < j < |before.dirty|
      ensures Untouched(before.conns, before.sessions, s'.conns, s'.sessions, before.dirty[j])
    {
      UntouchedTwice(before, s, s', before.dirty[j]);
    }
  }

  lemma SweptAll(before: State, since: seq<Offer>, s: State, offers: seq<Offer>)
    requires Swept(before, since, s, offers, |before.dirty|)
    ensures forall j :: 0 <= j < |before.dirty| ==> Attended(before.conns, before.sessions, since, offers, before.dirty[j])
  {
    hide Attended;
  }

  lemma NothingFlushed(s: State)
    ensures Flushed(s, [], s)
  {
  }

  /** Of the first n slots, the moves are one heartbeat to each that is due one and
      quiet, and nothing else. */
  ghost predicate Beaten(moves: seq<Move>, s: State, due: seq<bool>, n: nat) {
    && n <= |s.conns| == |due|
    && (forall m :: m in moves <==> m.Pulse? && m.k < n && due[m.k] && Quiet(s, m.k))
    && (forall i, j :: 0 <= i < j < |moves| ==> moves[i] != moves[j])
  }

  lemma BeatenNone(s: State, due: seq<bool>)
    requires |due| == |s.conns|
    ensures Beaten([], s, due, 0)
  {
  }

  lemma BeatenNext(moves: seq<Move>, s: State, due: seq<bool>, k: nat)
    requires Beaten(moves, s, due, k) && k < |due|
    ensures Beaten(moves + (if due[k] && Quiet(s, k) then [Pulse(k)] else []), s, due, k + 1)
  {
    hide Quiet;
  }

  /** Whether a connection is quiet is its own, its session's and the log's matter. */
  lemma QuietSame(s: State, s': State, k: nat)
    requires k < |s.conns| == |s'.conns| && s'.conns[k] == s.conns[k] && s'.sessions == s.sessions
    requires s'.transcripts.Keys == s.transcripts.Keys
    ensures Quiet(s', k) <==> Quiet(s, k)
  {
    hide Stream;
  }

  class Server {
    const capacity: nat
    const tcp: TcpSender
    const shelf: Shelf
    var conns: seq<Conn>
    var seats: seq<Seat>
    var dirty: seq<nat>
    ghost var sessions: seq<Session>
    ghost var transcripts: map<ConnId, Transcript>
    /** The dirty list as it stands: dirty itself, except while it is rebuilt. */
    ghost var waiting: seq<nat>

    ghost function View(): State
      reads this, tcp
    {
      State(conns, sessions, waiting, transcripts, tcp.sent, tcp.closed, tcp.dead)
    }

    /** The seats and the logs on the shelf are the sessions. */
    ghost predicate Backed()
      reads this`seats, this`sessions, shelf, shelf.Repr
    {
      && this !in shelf.Repr && tcp !in shelf.Repr && shelf.Valid()
      && shelf.capacity == capacity && MAX_SOUP_PACKET < capacity
      && shelf.contents == LogsOf(sessions) && Seated(seats, sessions)
    }

    ghost predicate Sound()
      reads this, tcp, shelf, shelf.Repr
    {
      Inv(View(), capacity) && Backed()
    }

    ghost predicate Valid()
      reads this, tcp, shelf, shelf.Repr
    {
      Sound() && dirty == waiting
    }

    constructor (slots: nat, clients: nat, replayBytes: nat)
      requires MAX_SOUP_PACKET < replayBytes
      ensures Valid() && fresh(tcp) && fresh(shelf) && fresh(shelf.Repr) && capacity == replayBytes
      ensures View() == Start(slots, clients)
    {
      capacity := replayBytes;
      tcp := new TcpSender();
      shelf := new Shelf(clients + 1, replayBytes);
      conns := seq(slots, _ => Conn(ConnId(0, 0), false, false, false, 0, [], 0, 0));
      seats := seq(clients + 1, _ => Seat(None, 0));
      sessions := seq(clients + 1, _ => Session(None, None, 0));
      dirty, waiting, transcripts := [], [], map[];
      new;
      hide Inv;
      StartInv(slots, clients, capacity);
      assert View() == Start(slots, clients);
      assert shelf.contents == LogsOf(sessions);
    }

    //--- closing ---

    method CloseConnection(conn: ConnId)
      requires Sound() && Closable(View(), conn)
      modifies this`conns, this`seats, this`sessions, tcp`closed
      ensures Sound() && View() == Close(old(View()), conn)
    {
      hide Told, Reachable, Logged, Listed, Eager, Seated, LogsOf;
      ghost var s := View();
      CloseInv(s, conn, capacity);
      var c := conns[conn.slot];
      if c.closedGeneration == conn.generation {
        return;
      }
      conns := conns[conn.slot := c.(closedGeneration := conn.generation)];
      tcp.Close(conn);
      if c.conn != conn || !c.open {
        return;
      }
      if c.clientId != 0 {
        FreeSeat(c.clientId, conn.slot);
      }
      conns := conns[conn.slot := Shut(conns[conn.slot])];
      assert conns == Close(s, conn).conns;
    }

    method FreeSeat(c: nat, k: nat)
      requires Backed() && c < |sessions|
      modifies this`seats, this`sessions
      ensures Backed()
      ensures sessions == if old(sessions)[c].slot == Some(k) then old(sessions)[c := old(sessions)[c].(slot := None)]
                          else old(sessions)
    {
      assert seats[c] == Seat(sessions[c].slot, sessions[c].cursor);
      if seats[c].slot == Some(k) {
        Reseated(seats, sessions, c, sessions[c].(slot := None));
        seats := seats[c := seats[c].(slot := None)];
        sessions := sessions[c := sessions[c].(slot := None)];
      }
    }

    //--- queueing ---

    method MarkDirty(k: nat)
      requires k < |conns| && dirty == waiting
      modifies this`conns, this`dirty, this`waiting
      ensures conns == old(conns)[k := old(conns)[k].(dirty := true)]
      ensures dirty == waiting == Marked(old(dirty), old(conns), k)
    {
      if conns[k].dirty {
        return;
      }
      conns := conns[k := conns[k].(dirty := true)];
      dirty := dirty + [k];
      waiting := dirty;
    }

    method Open(conn: ConnId)
      requires conn.slot < |conns|
      modifies this`conns
      ensures conns == old(conns)[conn.slot :=
                Conn(conn, true, false, old(conns)[conn.slot].dirty, 0, [], 0, old(conns)[conn.slot].closedGeneration)]
    {
      var c := conns[conn.slot];
      conns := conns[conn.slot := Conn(conn, true, false, c.dirty, 0, [], 0, c.closedGeneration)];
    }

    method SendControl(k: nat, packet: seq<Byte>)
      requires k < |conns| && dirty == waiting
      modifies this`conns, this`dirty, this`waiting
      ensures conns == old(conns)[k := old(conns)[k].(control := packet, controlSent := 0, dirty := true)]
      ensures dirty == waiting == Marked(old(dirty), old(conns), k)
    {
      conns := conns[k := conns[k].(control := packet, controlSent := 0)];
      MarkDirty(k);
    }

    //--- logins ---

    method RejectLogin(conn: ConnId, reason: Byte)
      requires Valid() && Fresh(View(), conn)
      modifies this`conns, this`dirty, this`waiting
      ensures Valid() && View() == Reject(old(View()), conn, reason)
    {
      hide Inv, Backed;
      ShelfReady();
      RejectInv(View(), conn, reason, capacity);
      Refuse(conn, reason);
    }

    /** Opened only to be told so, and closed once it has been. */
    method Refuse(conn: ConnId, reason: Byte)
      requires conn.slot < |conns| && dirty == waiting
      modifies this`conns, this`dirty, this`waiting
      ensures dirty == waiting && View() == Reject(old(View()), conn, reason)
    {
      hide Frame;
      ghost var s := View();
      Open(conn);
      SendControl(conn.slot, Frame(RejectedPacket(reason)));
      conns := conns[conn.slot := conns[conn.slot].(closeWhenFlushed := true)];
      assert conns == Reject(s, conn, reason).conns;
    }

    /** Opened and tied to its session, to be sent the log from message start on. */
    method Serve(c: nat, conn: ConnId, ghost start: nat, cursor: nat, accepted: seq<Byte>)
      requires conn.slot < |conns| && dirty == waiting && Backed() && c < |sessions| && sessions[c].log.Some?
      modifies this`conns, this`seats, this`sessions, this`dirty, this`waiting, this`transcripts
      ensures dirty == waiting && Backed()
      ensures var s, session := old(View()), old(sessions)[c];
              View() == Admitted(s.(sessions := s.sessions[c := session.(slot := Some(conn.slot), cursor := cursor)],
                                    transcripts := s.transcripts[conn := Transcript(c, start, false, [], cursor, 0, start - 1)]),
                                 conn, c, accepted, false)
      requires 1 <= start
    {
      hide Seated, LogsOf;
      ghost var before := conns;
      Open(conn);
      conns := conns[conn.slot := conns[conn.slot].(clientId := c)];
      Reseated(seats, sessions, c, sessions[c].(slot := Some(conn.slot), cursor := cursor));
      SeatCount();
      seats := seats[c := Seat(Some(conn.slot), cursor)];
      sessions := sessions[c := sessions[c].(slot := Some(conn.slot), cursor := cursor)];
      SendControl(conn.slot, accepted);
      transcripts := transcripts[conn := Transcript(c, start, false, [], cursor, 0, start - 1)];
      assert conns == before[conn.slot := Conn(conn, true, false, true, c, accepted, 0, before[conn.slot].closedGeneration)];
    }

    lemma SeatCount()
      requires Backed()
      ensures |seats| == |sessions| == |shelf.contents|
      ensures forall c :: 0 <= c < |sessions| ==>
                shelf.contents[c] == sessions[c].log && seats[c] == Seat(sessions[c].slot, sessions[c].cursor)
    {
    }

    /** The session's log, empty on its first login. */
    method EnsureLog(c: nat)
      requires Backed() && c < |sessions|
      modifies this`sessions, shelf
      ensures Backed() && sessions == old(sessions)[c := WithLog(old(sessions)[c])] && fresh(shelf.Repr - old(shelf.Repr))
    {
      hide Seated, LogsOf;
      SeatCount();
      var has := shelf.Has(c);
      if !has {
        Relogged(seats, sessions, c, []);
        shelf.Create(c);
        sessions := sessions[c := sessions[c].(log := Some([]))];
      }
    }

    /** With its log there, the session is served from the number asked for, or the
        next one, or turned away if the log no longer holds it. */
    method Admit(c: nat, conn: ConnId, sequence: nat)
      requires dirty == waiting && Backed() && conn.slot < |conns| && c < |sessions| && sessions[c].log.Some?
      modifies this`conns, this`seats, this`sessions, this`dirty, this`waiting, this`transcripts
      ensures dirty == waiting && Backed() && View() == Accept(old(View()), c, conn, sequence, capacity)
    {
      hide Frame, L.Offset, L.LeastFit, Reject, Backed, Admitted, Stream;
      ghost var s := View();
      SeatCount();
      ShelfReady();
      assert s.sessions[c := s.sessions[c]] == s.sessions;
      ghost var log := sessions[c].log.value;
      var next := shelf.NextSequence(c);
      var start := if sequence == 0 || sequence > next then next else sequence;
      var offset := shelf.OffsetOf(c, start);
      if offset == None {
        Refuse(conn, SESSION_NOT_AVAILABLE);
        return;
      }
      assert offset.value == Offset(log, start - 1);
      Serve(c, conn, start, offset.value, Frame(AcceptedPacket(start)));
    }

    method AcceptLogin(c: nat, conn: ConnId, sequence: nat)
      requires Valid() && Fresh(View(), conn) && 0 < c < |sessions| && sessions[c].slot == None
      modifies this`conns, this`seats, this`sessions, this`dirty, this`waiting, this`transcripts, shelf
      ensures Valid() && View() == Accept(old(View()), c, conn, sequence, capacity)
      ensures fresh(shelf.Repr - old(shelf.Repr))
    {
      hide Inv, Accept, Backed;
      ghost var s := View();
      ShelfReady();
      AcceptInv(s, c, conn, sequence, capacity);
      AcceptEnsured(s, c, conn, sequence, capacity);
      EnsureLog(c);
      Admit(c, conn, sequence);
    }

    lemma ShelfReady()
      requires Backed()
      ensures shelf.Valid() && shelf.capacity == capacity && MAX_SOUP_PACKET < capacity
      ensures this !in shelf.Repr && tcp !in shelf.Repr && shelf in shelf.Repr
    {
    }

    method OnNote(note: Note)
      requires Valid() && Heedable(View(), note)
      modifies this`conns, this`seats, this`sessions, this`dirty, this`waiting, this`transcripts, tcp`closed, shelf
      ensures Valid() && View() == Heeded(old(View()), note, capacity)
      ensures fresh(shelf.Repr - old(shelf.Repr))
    {
      hide Inv, Accept, Reject, Close, Fresh, Closable;
      match note {
        case LoggedIn(c, conn, sequence) => AcceptLogin(c, conn, sequence);
        case TurnedAway(conn, reason) => RejectLogin(conn, reason);
        case Disconnected(conn) => CloseConnection(conn);
      }
    }

    //--- Sequenced Data ---

    /** A connected client this packet would overrun is dropped first. */
    method DropSlow(c: nat, len: nat)
      requires Sound() && c < |sessions| && sessions[c].log.Some?
      modifies this`conns, this`seats, this`sessions, tcp`closed
      ensures Sound() && View() == Spared(old(View()), c, len, capacity)
    {
      hide Inv, Close, Closable, Backed, Stream, Paired, Slotted;
      ghost var s := View();
      InvPaired(s, capacity);
      SeatCount();
      ShelfReady();
      if seats[c].slot == None {
        return;
      }
      SessionFacts(s, c, capacity);
      var over := shelf.WouldOverwrite(c, seats[c].cursor, len);
      if over {
        CloseConnection(conns[seats[c].slot.value].conn);
      }
    }

    method SendSequenced(c: nat, packet: seq<Byte>)
      requires Valid() && c < |sessions| && packet != [] && |packet| <= MAX_SOUP_PACKET
      modifies this`conns, this`seats, this`sessions, this`dirty, this`waiting, tcp`closed, shelf.Repr
      ensures Valid() && View() == Sequence(old(View()), c, packet, capacity) && shelf.Repr == old(shelf.Repr)
    {
      hide Inv, Close, Appended, Backed, Spared, Paired, Slotted, Stream, Closable;
      ghost var s := View();
      InvPaired(s, capacity);
      SequenceInv(s, c, packet, capacity);
      SeatCount();
      ShelfReady();
      var has := shelf.Has(c);
      if !has {
        return;
      }
      DropSlow(c, |packet|);
      ShelfReady();
      AppendPacket(c, packet);
    }

    method AppendPacket(c: nat, packet: seq<Byte>)
      requires dirty == waiting && Backed() && c < |sessions| && sessions[c].log.Some? && |packet| <= MAX_SOUP_PACKET
      requires sessions[c].slot.Some? ==> sessions[c].slot.value < |conns|
      modifies this`conns, this`sessions, this`dirty, this`waiting, shelf.Repr
      ensures dirty == waiting && Backed() && View() == Appended(old(View()), c, packet) && shelf.Repr == old(shelf.Repr)
    {
      hide Seated, LogsOf;
      SeatCount();
      Relogged(seats, sessions, c, sessions[c].log.value + [packet]);
      shelf.Append(c, packet);
      sessions := sessions[c := sessions[c].(log := Some(sessions[c].log.value + [packet]))];
      if seats[c].slot == None {
        return;
      }
      MarkDirty(seats[c].slot.value);
    }

    //--- sending ---

    /** Offers TCP the rest of the control packet. */
    method FlushControl(k: nat) returns (done: bool, ghost moves: seq<Move>)
      requires Sound() && k < |conns| && conns[k].open && conns[k].controlSent < |conns[k].control|
      modifies this`conns, this`transcripts, tcp`sent, tcp`dead, tcp`offers
      ensures Sound() && Flushed(old(View()), moves, View())
      ensures |conns| == |old(conns)| && conns[k].open && (done ==> conns[k].control == [] && conns[k].controlSent == 0)
      ensures conns[k].conn == old(conns)[k].conn && conns[k].clientId == old(conns)[k].clientId
      ensures forall i :: 0 <= i < |conns| && i != k ==> conns[i] == old(conns)[i]
      ensures var c := old(conns)[k];
              && OnlyTo(old(tcp.offers), tcp.offers, c.conn)
              && FirstOffered(old(tcp.offers), tcp.offers, c.conn, c.control[c.controlSent..])
              && (!done ==> Refused(old(tcp.offers), tcp.offers, c.conn))
    {
      hide Inv, CanMove, Moved, Flushed, Controlled, Closable, End, Backed, Stream, OnlyTo, FirstOffered, Refused;
      ghost var s := View();
      var c := conns[k];
      ShelfReady();
      OpenFacts(s, k, capacity);
      ghost var offers := tcp.offers;
      var n := tcp.Send(c.conn, c.control[c.controlSent..]);
      NoOffer(offers, c.conn);
      OneMoreOffer(offers, offers, Offer(c.conn, c.control[c.controlSent..], n), c.conn, c.control[c.controlSent..]);
      assert c.control[c.controlSent..][..n] == c.control[c.controlSent..c.controlSent + n];
      conns := conns[k := c.(controlSent := c.controlSent + n)];
      done := c.controlSent + n == |c.control|;
      if done {
        conns := conns[k := c.(control := [], controlSent := 0)];
      }
      if c.conn in transcripts {
        transcripts := transcripts[c.conn := Controlled(transcripts[c.conn], n)];
      }
      moves := ControlTook(s, k, n, View(), capacity);
    }

    /** One run of the log, contiguous in the ring. */
    method OfferRun(k: nat) returns (n: nat, ghost moves: seq<Move>)
      requires Sound() && k < |conns| && conns[k].open && conns[k].clientId != 0 && conns[k].control == []
      requires conns[k].clientId < |sessions| && sessions[conns[k].clientId].cursor < End(sessions[conns[k].clientId])
      modifies this`seats, this`sessions, this`transcripts, tcp`sent, tcp`dead, tcp`offers
      ensures Sound() && Flushed(old(View()), moves, View())
      ensures var c, session := conns[k].clientId, old(sessions)[conns[k].clientId];
              && session.cursor + n <= End(session) && sessions == old(sessions)[c := session.(cursor := session.cursor + n)]
              && (var run := L.Contiguous(LogOf(session), capacity, session.cursor);
                  run != [] && tcp.offers == old(tcp.offers) + [Offer(conns[k].conn, run, n)])
    {
      hide Inv, CanMove, Moved, Stream, Backed, L.Contiguous;
      var conn, c := conns[k].conn, conns[k].clientId;
      ghost var s := View();
      OpenFacts(s, k, capacity);
      SeatCount();
      ShelfReady();
      var run := shelf.ContiguousFrom(c, seats[c].cursor);
      n := tcp.Send(conn, run);
      ghost var session := sessions[c];
      RunTaken(session, capacity, n);
      MoveCursor(c, seats[c].cursor + n);
      transcripts := transcripts[conn := transcripts[conn].(cursor := transcripts[conn].cursor + n)];
      moves := PayloadTook(s, k, n, View(), capacity);
    }

    method MoveCursor(c: nat, cursor: nat)
      requires Backed() && c < |sessions|
      modifies this`seats, this`sessions
      ensures Backed() && sessions == old(sessions)[c := old(sessions)[c].(cursor := cursor)]
    {
      hide Seated, LogsOf;
      SeatCount();
      Reseated(seats, sessions, c, sessions[c].(cursor := cursor));
      seats := seats[c := seats[c].(cursor := cursor)];
      sessions := sessions[c := sessions[c].(cursor := cursor)];
    }

    /** Offers TCP the session's log from the cursor on, until it takes no more. */
    method FlushLog(k: nat) returns (done: bool, ghost moves: seq<Move>)
      requires Sound() && k < |conns| && conns[k].open && conns[k].clientId != 0 && conns[k].control == []
      modifies this`seats, this`sessions, this`transcripts, tcp`sent, tcp`dead, tcp`offers
      ensures Sound() && Flushed(old(View()), moves, View())
      ensures conns[k].clientId < |sessions| == |old(sessions)|
      ensures done <==> sessions[conns[k].clientId].cursor == End(sessions[conns[k].clientId])
      ensures forall c :: 0 <= c < |sessions| && c != conns[k].clientId ==> sessions[c] == old(sessions)[c]
      ensures OnlyTo(old(tcp.offers), tcp.offers, conns[k].conn)
      ensures var session := old(sessions)[conns[k].clientId];
              session.cursor < End(session) ==>
                FirstOffered(old(tcp.offers), tcp.offers, conns[k].conn, L.Contiguous(LogOf(session), capacity, session.cursor))
      ensures !done ==> Refused(old(tcp.offers), tcp.offers, conns[k].conn)
    {
      hide Inv, CanMove, Moved, Stream, Backed, OnlyTo, FirstOffered, Refused, L.Contiguous;
      var conn, c := conns[k].conn, conns[k].clientId;
      ghost var before, offers := View(), tcp.offers;
      moves := [];
      OpenFacts(before, k, capacity);
      SeatCount();
      ShelfReady();
      NoOffer(offers, conn);
      var end := shelf.EndOf(c);
      ghost var first := L.Contiguous(LogOf(sessions[c]), capacity, sessions[c].cursor);
      while seats[c].cursor < end
        invariant Sound() && Flushed(before, moves, View())
        invariant |seats| == |sessions| == |old(sessions)| && seats[c].cursor == sessions[c].cursor && end == End(sessions[c])
        invariant forall d :: 0 <= d < |sessions| && d != c ==> sessions[d] == old(sessions)[d]
        invariant offers <= tcp.offers && OnlyTo(offers, tcp.offers, conn)
        invariant if tcp.offers == offers then sessions[c] == old(sessions)[c] else FirstOffered(offers, tcp.offers, conn, first)
        decreases end - seats[c].cursor
      {
        ghost var s, made := View(), tcp.offers;
        var n, more := OfferRun(k);
        OneMoreOffer(offers, made, tcp.offers[|made|], conn, first);
        FlushedJoin(before, moves, s, more, View());
        moves := moves + more;
        SeatCount();
        if n == 0 {
          break;
        }
      }
      OpenFacts(View(), k, capacity);
      done := seats[c].cursor == end;
    }

    /** The pending control packet first, then the log from the cursor. True when
        nothing more is to be sent on the connection; false only if TCP refused some
        of what this call offered it. */
    method FlushConnection(k: nat) returns (done: bool, ghost moves: seq<Move>)
      requires Sound() && k < |conns| && conns[k].open
      modifies this`conns, this`seats, this`sessions, this`transcripts, tcp
      ensures Sound() && Flushed(old(View()), moves, View())
      ensures |conns| == |old(conns)| && (done ==> Idle(View(), k)) && (!done ==> conns[k].open)
      ensures conns[k].conn == old(conns)[k].conn
      ensures forall i :: 0 <= i < |conns| && i != k ==> conns[i] == old(conns)[i]
      ensures |sessions| == |old(sessions)|
      ensures forall c :: 0 <= c < |sessions| && c != old(conns)[k].clientId ==> sessions[c] == old(sessions)[c]
      ensures OnlyTo(old(tcp.offers), tcp.offers, conns[k].conn)
      ensures Unsent(old(conns)[k], old(sessions)) ==>
                FirstOffered(old(tcp.offers), tcp.offers, conns[k].conn, Due(old(conns)[k], old(sessions), capacity))
      ensures !done ==> Refused(old(tcp.offers), tcp.offers, conns[k].conn)
    {
      hide Inv, CanMove, Moved, Stream, Backed, OnlyTo, FirstOffered, Refused, L.Contiguous;
      ghost var before, offers, conn := View(), tcp.offers, conns[k].conn;
      ghost var first := Due(conns[k], sessions, capacity);
      done, moves := true, [];
      OpenFacts(before, k, capacity);
      NoOffer(offers, conn);
      if conns[k].controlSent < |conns[k].control| {
        done, moves := FlushControl(k);
      }
      if done && conns[k].clientId != 0 {
        ghost var s, more, made := View(), [], tcp.offers;
        OpenFacts(s, k, capacity);
        done, more := FlushLog(k);
        FlushedJoin(before, moves, s, more, View());
        OffersJoin(offers, made, tcp.offers, conn, first);
        moves := moves + more;
      }
      if !done {
        var alive := tcp.Sendable(conns[k].conn);
        done := !alive;
        return;
      }
      if conns[k].closeWhenFlushed {
        ghost var s := View();
        ghost var more := FinishConnection(k);
        FlushedJoin(before, moves, s, more, View());
        moves := moves + more;
      }
    }

    method FinishConnection(k: nat) returns (ghost moves: seq<Move>)
      requires Sound() && k < |conns| && conns[k].open && conns[k].closeWhenFlushed
      modifies this`conns, this`seats, this`sessions, tcp`closed
      ensures Sound() && Flushed(old(View()), moves, View())
      ensures |conns| == |old(conns)| && !conns[k].open && conns[k].conn == old(conns)[k].conn
      ensures forall i :: 0 <= i < |conns| && i != k ==> conns[i] == old(conns)[i]
      ensures |sessions| == |old(sessions)|
      ensures forall c :: 0 <= c < |sessions| && c != old(conns)[k].clientId ==> sessions[c] == old(sessions)[c]
    {
      hide Inv, Told, Reachable, Logged, Listed, Eager, ControlTaken, DataTaken, Unmarked, Beat, Idle, Quiet, Backed;
      ghost var s := View();
      OpenFacts(s, k, capacity);
      CloseConnection(conns[k].conn);
      moves := Took(s, Finish(k), s.conns[k].conn, View(), capacity);
    }

    /** Open, and TCP would not take all it was last offered since then. */
    ghost predicate Stuck(k: nat, since: seq<Offer>)
      reads this`conns, tcp`offers
    {
      k < |conns| && conns[k].open && LeftShort(since, tcp.offers, conns[k].conn)
    }

    /** Sends what can be sent on slot k, if its connection is still open. */
    method Attend(k: nat, ghost since: seq<Offer>) returns (done: bool, ghost moves: seq<Move>)
      requires Sound() && k < |conns| && since <= tcp.offers
      modifies this`conns, this`seats, this`sessions, this`transcripts, tcp
      ensures Sound() && Flushed(old(View()), moves, View()) && |conns| == |old(conns)|
      ensures since <= tcp.offers && (if done then Idle(View(), k) else Stuck(k, since))
      ensures Attended(old(conns), old(sessions), since, tcp.offers, k)
      ensures forall x :: OfferedTo(since, old(tcp.offers), x) ==> OfferedTo(since, tcp.offers, x)
      ensures forall j :: 0 <= j < |conns| && j != k && Separate(old(conns)[k], old(conns)[j]) ==>
                Untouched(old(conns), old(sessions), conns, sessions, j) && (old(Stuck(j, since)) ==> Stuck(j, since))
    {
      hide Inv, CanMove, Moved, Idle, Backed, OfferedTo, LeftShort, OnlyTo, FirstOffered, Refused, Unsent, Due;
      ghost var s := View();
      done, moves := true, [];
      IdleUnlessOpen(s, k);
      if conns[k].open {
        done, moves := FlushConnection(k);
        ghost var before, conn := old(tcp.offers), s.conns[k].conn;
        forall x ensures OfferedTo(since, before, x) ==> OfferedTo(since, tcp.offers, x) {
          OffersStay(since, before, tcp.offers, x, conn);
        }
        forall j | 0 <= j < |conns| && j != k && Separate(s.conns[k], s.conns[j]) && old(Stuck(j, since)) ensures Stuck(j, since) {
          OffersStay(since, before, tcp.offers, s.conns[j].conn, conn);
        }
        OffersMade(since, before, tcp.offers, conn, Due(s.conns[k], s.sessions, capacity));
        OnlyMore(before, tcp.offers, conn);
      }
    }

    /** Entry i of the list: still more to send, it moves up to place kept; else
        it is dropped and its slot is no longer dirty. */
    method FlushEntry(kept: nat, i: nat, ghost since: seq<Offer>) returns (keep: bool, ghost moves: seq<Move>)
      requires Sound() && kept <= i < |dirty| && waiting == dirty[..kept] + dirty[i..]
      requires since <= tcp.offers && forall j :: 0 <= j < kept ==> Stuck(dirty[j], since)
      modifies this`conns, this`seats, this`sessions, this`transcripts, this`dirty, this`waiting, tcp
      ensures Sound() && Flushed(old(View()), moves, View())
      ensures dirty == if keep then old(dirty)[kept := old(dirty)[i]] else old(dirty)
      ensures waiting == dirty[..if keep then kept + 1 else kept] + dirty[i + 1..]
      ensures since <= tcp.offers
      ensures forall j :: 0 <= j < (if keep then kept + 1 else kept) ==> Stuck(dirty[j], since)
      ensures Attended(old(conns), old(sessions), since, tcp.offers, old(dirty)[i])
      ensures forall x :: OfferedTo(since, old(tcp.offers), x) ==> OfferedTo(since, tcp.offers, x)
      ensures forall j :: i < j < |dirty| ==> Untouched(old(conns), old(sessions), conns, sessions, dirty[j])
    {
      hide Inv, CanMove, Moved, Idle, Backed, OfferedTo, LeftShort, Attended, Separate, Flushed, Due, Unsent;
      ghost var s := View();
      var k := dirty[i];
      Compacted(dirty, kept, i);
      WaitingDirty(s, kept, capacity);
      ShelfReady();
      var done;
      done, moves := Attend(k, since);
      forall j | 0 <= j < kept ensures Stuck(dirty[j], since) && dirty[j] != k {
        assert s.dirty[j] == dirty[j];
      }
      forall j | i < j < |dirty| ensures Untouched(s.conns, s.sessions, conns, sessions, dirty[j]) && dirty[j] != k {
        assert s.dirty[kept + (j - i)] == dirty[j];
      }
      keep := !done;
      if keep {
        dirty := dirty[kept := k];
      } else {
        ghost var u := View();
        ghost var more := Delist(kept, k);
        FlushedJoin(s, moves, u, more, View());
        moves := moves + more;
      }
    }

    /** Off the list as it stands, and no longer dirty. */
    method Delist(ghost at: nat, k: nat) returns (ghost moves: seq<Move>)
      requires Sound() && at < |waiting| && waiting[at] == k < |conns| && Idle(View(), k)
      modifies this`conns, this`waiting
      ensures Sound() && Flushed(old(View()), moves, View())
      ensures waiting == old(waiting)[..at] + old(waiting)[at + 1..]
      ensures conns == old(conns)[k := old(conns)[k].(dirty := false)]
    {
      hide Inv, Backed, Idle;
      ShelfReady();
      ghost var s := View();
      conns := conns[k := conns[k].(dirty := false)];
      waiting := waiting[..at] + waiting[at + 1..];
      moves := UnmarkTook(s, at, capacity);
    }

    /** The flush that began at before has dealt with the first i entries. */
    ghost predicate Sweeping(before: State, since: seq<Offer>, moves: seq<Move>, kept: nat, i: nat)
      reads this, tcp, shelf, shelf.Repr
    {
      && Sound() && kept <= i <= |dirty| && Rebuilt(before.dirty, dirty, kept, i)
      && waiting == dirty[..kept] + dirty[i..]
      && Flushed(before, moves, View()) && since <= tcp.offers && Swept(before, since, View(), tcp.offers, i)
      && (forall j :: 0 <= j < kept ==> Stuck(dirty[j], since))
    }

    method Sweep(kept: nat, i: nat, ghost before: State, ghost since: seq<Offer>, ghost moves: seq<Move>)
      returns (keep: bool, ghost moves': seq<Move>)
      requires Sweeping(before, since, moves, kept, i) && i < |dirty|
      modifies this`conns, this`seats, this`sessions, this`transcripts, this`dirty, this`waiting, tcp
      ensures Sweeping(before, since, moves', if keep then kept + 1 else kept, i + 1) && |dirty| == |old(dirty)|
    {
      hide Inv, Backed, Stuck, OfferedTo, Attended, Untouched, Swept, Flushed, Rebuilt;
      ghost var s, offers, list := View(), tcp.offers, dirty;
      RebuiltSize(before.dirty, dirty, kept, i);
      var k, more := FlushEntry(kept, i, since);
      keep := k;
      FlushedJoin(before, moves, s, more, View());
      RebuiltNext(before.dirty, list, kept, i, keep);
      SweptNext(before, since, s, offers, View(), tcp.offers, i);
      moves' := moves + more;
    }

    /** Every dirty connection is offered what it has to be sent. Those left on the
        list, in the order they were in, are open ones whose last offer TCP did not
        take whole. */
    method Flush() returns (ghost moves: seq<Move>)
      requires Valid()
      modifies this`conns, this`seats, this`sessions, this`transcripts, this`dirty, this`waiting, tcp
      ensures Valid() && Flushed(old(View()), moves, View())
      ensures Within(dirty, old(dirty))
      ensures forall j :: 0 <= j < |old(dirty)| ==> Attended(old(conns), old(sessions), old(tcp.offers), tcp.offers, old(dirty)[j])
      ensures forall j :: 0 <= j < |dirty| ==> Stuck(dirty[j], old(tcp.offers))
    {
      hide Inv, Backed, Stuck, Within, Attended, Untouched, Swept, Flushed, Rebuilt;
      ghost var before, since := View(), tcp.offers;
      moves := [];
      var kept := 0;
      SweptNone(before, since, capacity);
      NothingFlushed(before);
      RebuiltNone(dirty);
      for i := 0 to |dirty|
        invariant Sweeping(before, since, moves, kept, i) && |dirty| == |old(dirty)|
      {
        var keep;
        keep, moves := Sweep(kept, i, before, since, moves);
        if keep {
          kept := kept + 1;
        }
      }
      SweptAll(before, since, View(), tcp.offers);
      RebuiltAll(old(dirty), dirty, kept);
      ShelfReady();
      dirty := dirty[..kept];
    }

    //--- heartbeats ---

    method HeartbeatTo(k: nat, due: bool) returns (ghost moves: seq<Move>)
      requires Valid() && k < |conns|
      modifies this`conns, this`transcripts, this`dirty, this`waiting
      ensures Valid() && Flushed(old(View()), moves, View())
      ensures moves == if due && Quiet(old(View()), k) then [Pulse(k)] else []
      ensures |conns| == |old(conns)| && transcripts.Keys == old(transcripts).Keys
      ensures forall j :: 0 <= j < |conns| && j != k ==> conns[j] == old(conns)[j]
    {
      hide Inv, CanMove, Moved, Stream, Backed;
      moves := [];
      if !conns[k].open || conns[k].clientId == 0 || conns[k].control != [] || !due {
        return;
      }
      ghost var s := View();
      OpenFacts(s, k, capacity);
      SeatCount();
      ShelfReady();
      var c := conns[k].clientId;
      var end := shelf.EndOf(c);
      if seats[c].cursor != end {
        return;
      }
      Pulsed(s, k, capacity);
      moves := [Pulse(k)];
      transcripts := transcripts[conns[k].conn := transcripts[conns[k].conn].(mark := |sessions[c].log.value|)];
      SendControl(k, Frame(HEARTBEAT));
    }

    /** A heartbeat to exactly those connections that are due one (have been sent
        nothing for a while, by the clock), are logged in and have nothing queued. */
    method Heartbeat(due: seq<bool>) returns (ghost moves: seq<Move>)
      requires Valid() && |due| == |conns|
      modifies this`conns, this`transcripts, this`dirty, this`waiting
      ensures Valid() && Flushed(old(View()), moves, View())
      ensures Beaten(moves, old(View()), due, |due|)
    {
      hide Inv, CanMove, Moved, Stream, Backed, Quiet, Beaten;
      ghost var before := View();
      moves := [];
      NothingFlushed(before);
      BeatenNone(before, due);
      for k := 0 to |conns|
        invariant |conns| == |old(conns)| && Valid() && Flushed(before, moves, View()) && Beaten(moves, before, due, k)
        invariant transcripts.Keys == old(transcripts).Keys && forall j :: k <= j < |conns| ==> conns[j] == old(conns)[j]
      {
        ghost var s := View();
        ghost var more := HeartbeatTo(k, due[k]);
        QuietSame(before, s, k);
        FlushedJoin(before, moves, s, more, View());
        BeatenNext(moves, before, due, k);
        moves := moves + more;
      }
    }
  }
}
