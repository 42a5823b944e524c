/** Clients that lose their connections and log back in, against the server: what
    a client has handled is at every moment its session's messages from the first
    to the one before the number it would ask for next. */
module Resume {
  import opened EngineTypes
  import opened Wire
  import opened SoupBin
  import opened Transcript
  import opened Outbound
  import opened Sessions
  import opened Subscriber
  import Logins

  /** What a Login Request asked for. */
  datatype Wanted = Wanted(clientId: nat, sequence: nat)

  /** A client: its session, its connection, and how much of what the server
      handed to TCP on it has arrived. */
  datatype Follower = Follower(session: nat, link: Option<ConnId>, reader: Reader, buffer: seq<Byte>, received: nat)

  datatype World = World(server: System, asked: map<ConnId, Wanted>, followers: seq<Follower>)

  datatype Event =
    | Serve(step: Step)
    | Dial(j: nat, conn: ConnId)
    | Read(j: nat, n: nat, packets: seq<Packet>, more: bool)
    | HangUp(j: nat)

  function Wired(w: World, x: ConnId): seq<Byte> {
    SentTo(w.server.out.sent, x)
  }

  /** What is read when n more bytes arrive, behind the packet left unfinished. */
  function Arrived(w: World, f: Follower, n: nat): seq<Byte>
    requires f.link.Some? && f.received + n <= |Wired(w, f.link.value)|
  {
    f.buffer + Wired(w, f.link.value)[f.received..f.received + n]
  }

  /** Nobody has logged in on the connection. */
  predicate Unused(s: System, conn: ConnId) {
    conn !in s.out.transcripts && (forall i :: 0 <= i < |s.notes| ==> !(s.notes[i].LoggedIn? && s.notes[i].conn == conn))
  }

  /** Anybody may log in, to any session, and ask for anything; on a client's own
      connection it is what that client asked. */
  predicate Possible(w: World, e: Event) {
    match e
    case Serve(step) =>
      && Enabled(w.server, step)
      && (step.Login? && step.k < |w.server.lines| && w.server.lines[step.k].conn in w.asked ==>
            w.asked[w.server.lines[step.k].conn] == Wanted(step.clientId, step.sequence))
      && (step.Message? ==> step.clientId < |w.server.messages| && |w.server.messages[step.clientId]| + 2 < TWO_64)
    case Dial(j, conn) => j < |w.followers| && w.followers[j].link == None && Unused(w.server, conn) && conn !in w.asked
    case Read(j, n, packets, more) =>
      && j < |w.followers| && w.followers[j].link.Some?
      && w.followers[j].received + n <= |Wired(w, w.followers[j].link.value)|
      && (var bytes := Arrived(w, w.followers[j], n);
          packets <= Packets(bytes) && (more ==> packets == Packets(bytes) && Parse(Rest(bytes)) == Incomplete))
    case HangUp(j) => j < |w.followers|
  }

  function Dropped(f: Follower): Follower {
    f.(link := None, reader := f.reader.(loggedIn := false))
  }

  function Dialled(f: Follower, conn: ConnId): Follower {
    Follower(f.session, Some(conn), f.reader.(loggedIn := false), [], 0)
  }

  function HasRead(w: World, f: Follower, n: nat, packets: seq<Packet>, more: bool): Follower
    requires f.link.Some? && f.received + n <= |Wired(w, f.link.value)|
  {
    var f' := f.(reader := HandleAll(f.reader, packets));
    if more then f'.(buffer := Rest(Arrived(w, f, n)), received := f.received + n) else Dropped(f')
  }

  ghost function Next(w: World, e: Event, capacity: nat): World
    requires SysInv(w.server, capacity) && Possible(w, e)
  {
    match e
    case Serve(step) => w.(server := After(w.server, step, capacity))
    case Dial(j, conn) =>
      w.(followers := w.followers[j := Dialled(w.followers[j], conn)],
         asked := w.asked[conn := Wanted(w.followers[j].session, w.followers[j].reader.next)])
    case Read(j, n, packets, more) =>
      w.(followers := w.followers[j := HasRead(w, w.followers[j], n, packets, more)])
    case HangUp(j) => w.(followers := w.followers[j := Dropped(w.followers[j])])
  }

  //--- the invariant ---

  ghost predicate Asks(w: World) {
    forall x :: x in w.asked ==>
      0 < w.asked[x].clientId < |w.server.messages|
      && 1 <= w.asked[x].sequence <= |w.server.messages[w.asked[x].clientId]| + 1
  }

  ghost predicate Noted(w: World) {
    forall i :: 0 <= i < |w.server.notes| && w.server.notes[i].LoggedIn? && w.server.notes[i].conn in w.asked ==>
      w.asked[w.server.notes[i].conn] == Wanted(w.server.notes[i].clientId, w.server.notes[i].sequence)
  }

  /** A connection is served what its client asked for. */
  ghost predicate Served(w: World) {
    forall x :: x in w.server.out.transcripts && x in w.asked ==>
      w.asked[x] == Wanted(w.server.out.transcripts[x].clientId, w.server.out.transcripts[x].start)
  }

  ghost predicate Short(messages: seq<seq<seq<Byte>>>) {
    forall c :: 0 <= c < |messages| ==> |messages[c]| + 1 < TWO_64
  }

  /** Gap-free and duplicate-free: exactly the messages before the next. */
  ghost predicate Caught(r: Reader, session: nat, messages: seq<seq<seq<Byte>>>) {
    && 0 < session < |messages| && 1 <= r.next <= |messages[session]| + 1
    && r.handled == messages[session][..r.next - 1]
  }

  /** The reader a connection started with: all before what it asked for. */
  function Base(w: World, x: ConnId): Reader
    requires x in w.asked && w.asked[x].clientId < |w.server.messages|
    requires 1 <= w.asked[x].sequence <= |w.server.messages[w.asked[x].clientId]| + 1
  {
    Reader(w.asked[x].sequence, false, w.server.messages[w.asked[x].clientId][..w.asked[x].sequence - 1])
  }

  ghost predicate InLink(w: World, f: Follower)
    requires Asks(w)
  {
    f.link.Some? ==>
      var x := f.link.value;
      && x in w.asked && w.asked[x].clientId == f.session && f.received <= |Wired(w, x)|
      && f.buffer == Rest(Wired(w, x)[..f.received]) && Parse(f.buffer) == Incomplete
      && f.reader == HandleAll(Base(w, x), Packets(Wired(w, x)[..f.received]))
  }

  ghost predicate WorldInv(w: World, capacity: nat) {
    && SysInv(w.server, capacity) && Asks(w) && Noted(w) && Served(w) && Short(w.server.messages)
    && (forall j :: 0 <= j < |w.followers| ==>
          Caught(w.followers[j].reader, w.followers[j].session, w.server.messages) && InLink(w, w.followers[j]))
  }

  //--- reading ---

  ghost predicate AllFit(packets: seq<Packet>) {
    forall i :: 0 <= i < |packets| ==> Frameable(packets[i])
  }

  lemma DataFits(all: seq<seq<Byte>>, i: nat, j: nat)
    requires AllFit(Data(all)) && i <= j <= |all|
    ensures AllFit(Data(all[i..j]))
  {
    forall k | 0 <= k < j - i ensures Frameable(Data(all[i..j])[k]) {
      assert Data(all[i..j])[k] == Data(all)[i + k];
    }
  }

  lemma {:induction false} ItemsFit(all: seq<seq<Byte>>, start: nat, beats: seq<nat>, upto: nat)
    requires Placed(start, beats, upto) && upto <= |all| && AllFit(Data(all))
    ensures AllFit(Items(all, start, beats, upto))
    decreases |beats|
  {
    hide Data;
    if beats == [] {
      DataFits(all, start - 1, upto);
    } else {
      ItemsFit(all, start, beats[..|beats| - 1], beats[|beats| - 1]);
      DataFits(all, beats[|beats| - 1], upto);
    }
  }

  lemma MessagesFit(s: System, c: nat, capacity: nat)
    requires SysInv(s, capacity) && c < |s.messages|
    ensures AllFit(Data(s.messages[c]))
  {
    hide Inv, Curt, Inbound, Abreast, InOrder;
    assert Sequenced(LogOf(s.out.sessions[c]), s.messages[c]);
  }

  lemma AllOfItFits(s: System, c: nat, start: nat, beats: seq<nat>, capacity: nat)
    requires SysInv(s, capacity) && c < |s.messages| && Placed(start, beats, |s.messages[c]|)
    ensures AllFit([AcceptedPacket(start)] + Items(s.messages[c], start, beats, |s.messages[c]|))
  {
    hide SysInv, Items, Placed;
    MessagesFit(s, c, capacity);
    ItemsFit(s.messages[c], start, beats, |s.messages[c]|);
  }

  /** On a connection that was let in, whatever packets its bytes hold leave the
      reader caught up. */
  lemma AdmittedCaught(w: World, x: ConnId, bytes: seq<Byte>, packets: seq<Packet>, capacity: nat)
    requires SysInv(w.server, capacity) && Asks(w) && Served(w) && Short(w.server.messages)
    requires x in w.asked && x in w.server.out.transcripts
    requires bytes <= Wired(w, x) && packets <= Packets(bytes)
    ensures Caught(HandleAll(Base(w, x), packets), w.asked[x].clientId, w.server.messages)
  {
    hide SysInv, Items, Placed, AcceptedPacket, Frame, Frameable, HandleAll, Packets, Stream, Frames, Beats;
    OnTheWire(w.server, x, capacity);
    var t := w.server.out.transcripts[x];
    var all := w.server.messages[t.clientId];
    var items := [AcceptedPacket(t.start)] + Items(all, t.start, Beats(t), |all|);
    AllOfItFits(w.server, t.clientId, t.start, Beats(t), capacity);
    PacketsOfPrefix(items, bytes);
    Resumed(Base(w, x), all, t.start, Beats(t), packets);
  }

  /** On any other, they leave it where it was. */
  lemma RefusedCaught(w: World, x: ConnId, bytes: seq<Byte>, packets: seq<Packet>, capacity: nat)
    requires SysInv(w.server, capacity) && Asks(w)
    requires x in w.asked && x !in w.server.out.transcripts
    requires bytes <= Wired(w, x) && packets <= Packets(bytes)
    ensures Caught(HandleAll(Base(w, x), packets), w.asked[x].clientId, w.server.messages)
  {
    hide SysInv, HandleAll, Packets, Frame, Stream;
    OnTheWire(w.server, x, capacity);
    var reason: Byte :| Wired(w, x) <= Frame(RejectedPacket(reason));
    var items := [RejectedPacket(reason)];
    assert Frames(items) == [Frame(items[0])];
    StreamOne(Frame(items[0]));
    PacketsOfPrefix(items, bytes);
    Unmoved(Base(w, x), reason, packets);
  }

  /** More bytes read: the packets so far, and those now, are the stream's. */
  lemma ReadOn(w: World, f: Follower, n: nat, packets: seq<Packet>)
    requires Asks(w) && InLink(w, f) && f.link.Some? && f.received + n <= |Wired(w, f.link.value)|
    requires packets <= Packets(Arrived(w, f, n))
    ensures var wired := Wired(w, f.link.value);
            var before, now := Packets(wired[..f.received]), wired[..f.received + n];
            && before + packets <= Packets(now) && Rest(now) == Rest(Arrived(w, f, n))
            && (packets == Packets(Arrived(w, f, n)) ==> before + packets == Packets(now))
            && HandleAll(f.reader, packets) == HandleAll(Base(w, f.link.value), before + packets)
  {
    hide Packets, Rest, HandleAll, Parse;
    var wired := Wired(w, f.link.value);
    var a, b := wired[..f.received], wired[f.received..f.received + n];
    assert wired[..f.received + n] == a + b;
    PacketsSplit(a, b);
    HandleAppend(Base(w, f.link.value), Packets(a), packets);
  }

  lemma ReadKeeps(w: World, j: nat, n: nat, packets: seq<Packet>, more: bool, capacity: nat)
    requires WorldInv(w, capacity) && Possible(w, Read(j, n, packets, more))
    ensures var f := HasRead(w, w.followers[j], n, packets, more);
            Caught(f.reader, f.session, w.server.messages) && InLink(w, f)
  {
    hide SysInv, Noted, Served, Short, Packets, Rest, HandleAll, Parse;
    var f := w.followers[j];
    var x := f.link.value;
    assert InLink(w, f);
    ReadOn(w, f, n, packets);
    var all := Packets(Wired(w, x)[..f.received]) + packets;
    if x in w.server.out.transcripts {
      AdmittedCaught(w, x, Wired(w, x)[..f.received + n], all, capacity);
    } else {
      RefusedCaught(w, x, Wired(w, x)[..f.received + n], all, capacity);
    }
  }

  //--- the server going on ---

  ghost predicate Longer(a: seq<seq<seq<Byte>>>, b: seq<seq<seq<Byte>>>) {
    |a| == |b| && (forall c :: 0 <= c < |a| ==> a[c] <= b[c])
  }

  /** A connection's reader is untouched by whatever the server does. */
  lemma InLinkStays(w: World, w': World, f: Follower)
    requires Asks(w) && Asks(w') && InLink(w, f) && w'.asked == w.asked
    requires Longer(w.server.messages, w'.server.messages) && Grows(w.server.out, w'.server.out)
    ensures InLink(w', f)
  {
    hide Packets, Rest, HandleAll, Parse;
    if f.link.Some? {
      var x := f.link.value;
      assert Wired(w, x) <= Wired(w', x);
      assert Wired(w', x)[..f.received] == Wired(w, x)[..f.received];
      var c := w.asked[x].clientId;
      assert w.server.messages[c] <= w'.server.messages[c];
      assert Base(w, x) == Base(w', x);
    }
  }

  lemma CaughtStays(r: Reader, session: nat, a: seq<seq<seq<Byte>>>, b: seq<seq<seq<Byte>>>)
    requires Caught(r, session, a) && Longer(a, b)
    ensures Caught(r, session, b)
  {
    assert a[session] <= b[session];
  }

  lemma MessagesGrow(w: World, step: Step, capacity: nat)
    requires SysInv(w.server, capacity) && Possible(w, Serve(step)) && Short(w.server.messages)
    ensures var s' := After(w.server, step, capacity);
            Longer(w.server.messages, s'.messages) && Short(s'.messages)
  {
    hide Inv, Curt, Inbound, Abreast, InOrder, Framed, Heeded, Heedable, Entered, InTurn, Sequence, Moved, CanMove,
         Frame, Frameable;
  }

  lemma NotesKept(w: World, step: Step, capacity: nat)
    requires SysInv(w.server, capacity) && Possible(w, Serve(step)) && Noted(w)
    ensures Noted(Next(w, Serve(step), capacity))
  {
    hide Inv, Curt, Inbound, Abreast, InOrder, Framed, Heeded, Heedable, Entered, InTurn, Sequence, Moved, CanMove,
         Frame, Frameable;
  }

  lemma HeedServed(w: World, capacity: nat)
    requires SysInv(w.server, capacity) && w.server.notes != [] && Asks(w) && Noted(w) && Served(w)
    ensures Served(Next(w, Serve(Heed), capacity))
  {
    hide Inv, Curt, Inbound, Abreast, InOrder, Heeded, Heedable, Entered, InTurn;
    NotesHeedable(w.server, capacity);
    var s, note := w.server, w.server.notes[0];
    var out' := Heeded(s.out, note, capacity);
    HeedGrows(s.out, note, capacity);
    forall x | x in out'.transcripts && x in w.asked
      ensures w.asked[x] == Wanted(out'.transcripts[x].clientId, out'.transcripts[x].start)
    {
      if x !in s.out.transcripts {
        HeedTold(s.out, note, capacity, x);
        assert Sequenced(LogOf(s.out.sessions[note.clientId]), s.messages[note.clientId]);
      }
    }
  }

  lemma StepServed(w: World, step: Step, capacity: nat)
    requires SysInv(w.server, capacity) && Possible(w, Serve(step)) && Asks(w) && Noted(w) && Served(w)
    ensures Served(Next(w, Serve(step), capacity))
  {
    hide Curt, Inbound, Abreast, InOrder, Framed, Heeded, Heedable, Entered, InTurn, Sequence, Moved, CanMove,
         Frame, Frameable, Paired, Slotted, Listed, Eager, Reachable, Logged, Told;
    match step {
      case Heed => HeedServed(w, capacity);
      case Message(c, payload) =>
        if w.server.out.sessions[c].log.Some? {
          SequenceGrows(w.server.out, c, Frame(Packet(SEQUENCED_DATA, payload)), capacity);
        }
      case Act(m) => MoveGrows(w.server.out, m, capacity);
      case _ =>
    }
  }

  //--- every event, every run ---

  lemma AsksStay(w: World, step: Step, capacity: nat)
    requires SysInv(w.server, capacity) && Possible(w, Serve(step)) && Asks(w) && Short(w.server.messages)
    ensures Asks(Next(w, Serve(step), capacity))
  {
    hide SysInv, After, Possible;
    MessagesGrow(w, step, capacity);
    var w' := Next(w, Serve(step), capacity);
    forall x | x in w'.asked
      ensures 0 < w'.asked[x].clientId < |w'.server.messages|
              && 1 <= w'.asked[x].sequence <= |w'.server.messages[w'.asked[x].clientId]| + 1
    {
      assert w.server.messages[w.asked[x].clientId] <= w'.server.messages[w.asked[x].clientId];
    }
  }

  lemma ServeEnabled(w: World, step: Step)
    requires Possible(w, Serve(step))
    ensures Enabled(w.server, step)
  {
    hide Enabled, Arrived, Packets, Rest;
  }

  lemma ServeKeeps(w: World, step: Step, capacity: nat)
    requires WorldInv(w, capacity) && Possible(w, Serve(step))
    ensures WorldInv(Next(w, Serve(step), capacity), capacity)
  {
    hide SysInv, Asks, Noted, Served, Short, Caught, InLink, Longer, Grows, After, Enabled, Possible;
    ServeEnabled(w, step);
    var w' := Next(w, Serve(step), capacity);
    StepKeeps(w.server, step, capacity);
    StepGrows(w.server, step, capacity);
    MessagesGrow(w, step, capacity);
    NotesKept(w, step, capacity);
    StepServed(w, step, capacity);
    AsksStay(w, step, capacity);
    forall j | 0 <= j < |w.followers|
      ensures Caught(w'.followers[j].reader, w'.followers[j].session, w'.server.messages) && InLink(w', w'.followers[j])
    {
      var f := w.followers[j];
      CaughtStays(f.reader, f.session, w.server.messages, w'.server.messages);
      InLinkStays(w, w', f);
    }
  }

  lemma NewLink(w: World, f: Follower, conn: ConnId)
    requires Asks(w) && Caught(f.reader, f.session, w.server.messages)
    requires conn in w.asked && w.asked[conn] == Wanted(f.session, f.reader.next)
    ensures InLink(w, Dialled(f, conn))
  {
    HandleNone(Base(w, conn));
    assert Wired(w, conn)[..0] == [];
  }

  lemma DialKeeps(w: World, j: nat, conn: ConnId, capacity: nat)
    requires WorldInv(w, capacity) && Possible(w, Dial(j, conn))
    ensures WorldInv(Next(w, Dial(j, conn), capacity), capacity)
  {
    hide SysInv, Packets, Rest, HandleAll, Parse;
    var w' := Next(w, Dial(j, conn), capacity);
    NewLink(w', w.followers[j], conn);
    forall i | 0 <= i < |w.followers| && i != j ensures InLink(w', w'.followers[i]) {
      assert InLink(w, w.followers[i]);
    }
  }

  lemma EventKeeps(w: World, e: Event, capacity: nat)
    requires WorldInv(w, capacity) && Possible(w, e)
    ensures WorldInv(Next(w, e, capacity), capacity)
  {
    match e {
      case Serve(step) => ServeKeeps(w, step, capacity);
      case Dial(j, conn) => DialKeeps(w, j, conn, capacity);
      case _ => FollowerKeeps(w, e, capacity);
    }
  }

  lemma SameLink(w: World, w': World, f: Follower)
    requires Asks(w) && InLink(w, f) && w'.server == w.server && w'.asked == w.asked
    ensures Asks(w') && InLink(w', f)
  {
    hide Packets, Rest, HandleAll, Parse;
  }

  lemma FollowerKeeps(w: World, e: Event, capacity: nat)
    requires WorldInv(w, capacity) && Possible(w, e) && (e.Read? || e.HangUp?)
    ensures WorldInv(Next(w, e, capacity), capacity)
  {
    hide SysInv, HasRead, Short;
    var w' := Next(w, e, capacity);
    if e.Read? {
      ReadKeeps(w, e.j, e.n, e.packets, e.more, capacity);
    }
    hide Caught, InLink;
    forall i | 0 <= i < |w.followers| ensures InLink(w', w'.followers[i]) {
      if i != e.j || e.Read? {
        SameLink(w, w', w'.followers[i]);
      } else {
        NoLink(w', w'.followers[i]);
      }
    }
  }

  lemma NoLink(w: World, f: Follower)
    requires Asks(w) && f.link == None
    ensures InLink(w, f)
  {
  }

  /** Nothing sent yet, nobody connected, every client about to ask for message 1. */
  function Opening(slots: nat, clients: nat, sessions: seq<nat>): World {
    World(Boot(slots, clients), map[],
          seq(|sessions|, j requires 0 <= j < |sessions| => Follower(sessions[j], None, Reader(1, false, []), [], 0)))
  }

  lemma OpeningInv(slots: nat, clients: nat, sessions: seq<nat>, capacity: nat)
    requires forall j :: 0 <= j < |sessions| ==> 0 < sessions[j] <= clients
    ensures WorldInv(Opening(slots, clients, sessions), capacity)
  {
    hide SysInv, HandleAll, Packets;
    BootInv(slots, clients, capacity);
  }

  ghost predicate Lived(w: World, events: seq<Event>, w': World, capacity: nat)
    requires WorldInv(w, capacity)
    decreases |events|
  {
    if events == [] then w' == w
    else
      Possible(w, events[0])
      && (EventKeeps(w, events[0], capacity);
          Lived(Next(w, events[0], capacity), events[1..], w', capacity))
  }

  lemma SameSessions(w: World, e: Event, capacity: nat)
    requires SysInv(w.server, capacity) && Possible(w, e)
    ensures |Next(w, e, capacity).followers| == |w.followers|
    ensures forall j :: 0 <= j < |w.followers| ==> Next(w, e, capacity).followers[j].session == w.followers[j].session
  {
    hide SysInv, After, Enabled, HandleAll, Packets, Rest;
  }

  lemma {:induction false} LivedKeeps(w: World, events: seq<Event>, w': World, capacity: nat)
    requires WorldInv(w, capacity) && Lived(w, events, w', capacity)
    ensures WorldInv(w', capacity) && |w'.followers| == |w.followers|
    ensures forall j :: 0 <= j < |w.followers| ==> w'.followers[j].session == w.followers[j].session
    decreases |events|
  {
    hide SysInv, Asks, Noted, Served, Short, Caught, InLink, Possible, Next;
    if events != [] {
      SameSessions(w, events[0], capacity);
      EventKeeps(w, events[0], capacity);
      LivedKeeps(Next(w, events[0], capacity), events[1..], w', capacity);
    }
  }

  /** However often clients are disconnected and log back in, and whatever is sent,
      read or refused meanwhile: the Sequenced Data a client has handled is the
      first messages its session was ever sent, none missing and none twice, and
      the number it would ask for next is one more than how many that is. */
  lemma NoGapNoRepeat(slots: nat, clients: nat, sessions: seq<nat>, events: seq<Event>, w: World, capacity: nat, j: nat)
    requires forall i :: 0 <= i < |sessions| ==> 0 < sessions[i] <= clients
    requires (OpeningInv(slots, clients, sessions, capacity);
              Lived(Opening(slots, clients, sessions), events, w, capacity))
    requires j < |sessions|
    ensures j < |w.followers| && sessions[j] < |w.server.messages|
    ensures var r := w.followers[j].reader;
            r.handled <= w.server.messages[sessions[j]] && r.next == |r.handled| + 1
  {
    hide SysInv, InLink, Next, Possible;
    OpeningInv(slots, clients, sessions, capacity);
    LivedKeeps(Opening(slots, clients, sessions), events, w, capacity);
  }

  //--- a client whose next message is still held gets it ---

  /** What the outbound thread has told the inbound one about a session's oldest
      message: nothing yet, or what was oldest at some earlier length of the log. */
  ghost predicate Published(oldest: nat, log: Log, capacity: nat) {
    oldest == 0 || exists i :: 0 <= i <= |log| && oldest == FirstHeld(log[..i], capacity)
  }

  lemma PublishedIsOlder(oldest: nat, log: Log, capacity: nat)
    requires Published(oldest, log, capacity)
    ensures oldest <= FirstHeld(log, capacity)
  {
    hide FirstHeld;
    if oldest != 0 {
      var i :| 0 <= i <= |log| && oldest == FirstHeld(log[..i], capacity);
      HeldRises(log[..i], log[i..], capacity);
      assert log[..i] + log[i..] == log;
    }
  }

  /** Logging back in, with a name whose session nobody uses, for a message the log
      still holds: the inbound thread lets the client in, however stale what it knows
      of the log, and the login is one the session threads allow. */
  lemma HeldIsLetIn(w: World, x: ConnId, k: nat, d: Logins.Directory, retained: seq<nat>, username: seq<Byte>,
                    password: seq<Byte>, capacity: nat)
    requires WorldInv(w, capacity) && x in w.asked && w.asked[x].clientId < |w.server.out.sessions|
    requires k < |w.server.lines| && w.server.lines[k] == Line(x, true, false, false, 0)
    requires |username| == 6 && |password| == 10 && Logins.Named(username) && Logins.Numbered(d)
    requires Logins.NameKey(username) in d.clients && d.clients[Logins.NameKey(username)] == w.asked[x].clientId
    requires |w.server.connected| == |retained| == Logins.MAX_CLIENTS + 1 && w.asked[x].clientId < |retained|
    requires !w.server.connected[w.asked[x].clientId]
    requires Published(retained[w.asked[x].clientId], LogOf(w.server.out.sessions[w.asked[x].clientId]), capacity)
    requires w.asked[x].sequence >= FirstHeld(LogOf(w.server.out.sessions[w.asked[x].clientId]), capacity)
    ensures var c, n := w.asked[x].clientId, w.asked[x].sequence;
            var payload := username + password + Logins.BLANK_SESSION + Numeric(n, NUMERIC_LEN);
            && Logins.Judge(d, w.server.connected, retained, payload).1 == Logins.Admit(c, n)
            && Possible(w, Serve(Step.Login(k, c, n)))
  {
    hide SysInv, Noted, Served, InLink, Caught, FirstHeld, Logins.Judge, Logins.NameKey, Logins.Named, Logins.Numbered, Numeric;
    var c, n := w.asked[x].clientId, w.asked[x].sequence;
    PublishedIsOlder(retained[c], LogOf(w.server.out.sessions[c]), capacity);
    Logins.LetIn(d, w.server.connected, retained, username, password, Logins.BLANK_SESSION, n);
  }

  /** When the outbound thread comes to its login, the client is served from the
      message it asked for if the log still holds it, and is told it is not available
      if it does not: never from any other message. */
  lemma HeldIsServed(w: World, capacity: nat)
    requires WorldInv(w, capacity) && w.server.notes != [] && w.server.notes[0].LoggedIn? && w.server.notes[0].conn in w.asked
    ensures var x := w.server.notes[0].conn;
            var c, n := w.asked[x].clientId, w.asked[x].sequence;
            c < |w.server.out.sessions| &&
            var log, out := LogOf(w.server.out.sessions[c]), After(w.server, Heed, capacity).out;
            if n >= FirstHeld(log, capacity) then ServedFrom(out, c, x, log, n)
            else RefusedWith(out, x, 83) && out.transcripts == w.server.out.transcripts
  {
    hide Inv, Curt, Inbound, Abreast, InTurn, Entered, Noted, Served, InLink, Caught, FirstHeld, Accept, ServedFrom,
         RefusedWith, Short, Sequenced;
    var note := w.server.notes[0];
    NotesHeedable(w.server, capacity);
    NotedFirst(w);
    HeldRange(LogOf(w.server.out.sessions[note.clientId]), capacity);
    LogLength(w.server, note.clientId, capacity);
    LoginServed(w.server.out, note.clientId, note.conn, note.sequence, capacity);
  }

  lemma NotedFirst(w: World)
    requires Noted(w) && w.server.notes != [] && w.server.notes[0].LoggedIn? && w.server.notes[0].conn in w.asked
    ensures w.asked[w.server.notes[0].conn] == Wanted(w.server.notes[0].clientId, w.server.notes[0].sequence)
  {
  }

  lemma LogLength(s: System, c: nat, capacity: nat)
    requires SysInv(s, capacity) && c < |s.messages|
    ensures c < |s.out.sessions| && |LogOf(s.out.sessions[c])| == |s.messages[c]|
  {
    hide Inv, Curt, Inbound, Abreast, InTurn, Entered;
    assert Sequenced(LogOf(s.out.sessions[c]), s.messages[c]);
  }
}
