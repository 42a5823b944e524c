/** The inbound thread's connection table: who is logged in where, which username
    owns which session, and the notes that tell the outbound thread. */
module Logins {
  import opened EngineTypes
  import opened Wire
  import opened SoupBin
  import opened Transcript
  import opened Outbound
  import opened Sessions

  const MAX_CLIENTS: nat := 64
  const NOT_AUTHORIZED: Byte := 65 // 'A'
  const LOGIN_REQUEST_LEN: nat := 46

  /** The current session may be asked for by name, padded either way, or blank. */
  const SESSION_ID_LEFT: seq<Byte> := [83, 73, 77, 32, 32, 32, 32, 32, 32, 32]

  const BLANK_SESSION: seq<Byte> := [32, 32, 32, 32, 32, 32, 32, 32, 32, 32]

  datatype LoginRequest = LoginRequest(username: seq<Byte>, session: seq<Byte>, sequence: nat)

  function DecodeLogin(payload: seq<Byte>): (login: Option<LoginRequest>)
    ensures login.Some? ==> |login.value.username| == 6
  {
    if |payload| != LOGIN_REQUEST_LEN then None
    else
      match ReadValue(payload[26..])
      case None => None
      case Some(sequence) => Some(LoginRequest(payload[..6], payload[16..26], sequence))
  }

  /** What a client encodes is what the server decodes. */
  lemma LoginRoundTrip(username: seq<Byte>, password: seq<Byte>, session: seq<Byte>, sequence: nat)
    requires |username| == 6 && |password| == 10 && |session| == 10 && sequence < TWO_64
    ensures DecodeLogin(username + password + session + Numeric(sequence, NUMERIC_LEN))
         == Some(LoginRequest(username, session, sequence))
  {
    var payload := username + password + session + Numeric(sequence, NUMERIC_LEN);
    assert payload[..6] == username && payload[16..26] == session;
    assert payload[26..] == Numeric(sequence, NUMERIC_LEN);
    FieldRange();
    NumericRoundTrip(sequence);
  }

  //--- usernames ---

  /** A username's characters: case does not matter, and NUL pads like a space. */
  function Normal(name: seq<Byte>): seq<Byte> {
    seq(|name|, i requires 0 <= i < |name| => NormalChar(name[i]))
  }

  function NormalChar(b: Byte): Byte {
    if b == 0 then SPACE else if 97 <= b <= 122 then b - 32 else b
  }

  function NameKey(name: seq<Byte>): nat {
    Load(Normal(name))
  }

  method PackName(name: seq<Byte>) returns (key: nat, blank: bool)
    ensures key == NameKey(name)
    ensures blank <==> forall i :: 0 <= i < |name| ==> NormalChar(name[i]) == SPACE
  {
    key, blank := 0, true;
    for i := 0 to |name|
      invariant key == Load(Normal(name[..i]))
      invariant blank <==> forall j :: 0 <= j < i ==> NormalChar(name[j]) == SPACE
    {
      assert Normal(name[..i + 1])[..i] == Normal(name[..i]);
      blank := blank && NormalChar(name[i]) == SPACE;
      key := 256 * key + NormalChar(name[i]);
    }
    assert name[..|name|] == name;
  }

  /** Sessions by username key, numbered from 1 in the order names first came. */
  datatype Directory = Directory(clients: map<nat, nat>, next: nat)

  ghost predicate Numbered(d: Directory) {
    && 1 <= d.next <= MAX_CLIENTS + 1 && |d.clients| == d.next - 1
    && (forall u :: u in d.clients ==> 0 < d.clients[u] < d.next)
    && (forall u, v :: u in d.clients && v in d.clients && d.clients[u] == d.clients[v] ==> u == v)
  }

  /** The same character, the same letter in either case, or padding either way. */
  predicate SameChar(a: Byte, b: Byte) {
    a == b || ((a == 0 || a == 32) && (b == 0 || b == 32)) || (65 <= a <= 90 && b == a + 32) || (65 <= b <= 90 && a == b + 32)
  }

  predicate SameName(a: seq<Byte>, b: seq<Byte>) {
    |a| == |b| && forall i :: 0 <= i < |a| ==> SameChar(a[i], b[i])
  }

  lemma NormalSame(a: seq<Byte>, b: seq<Byte>)
    requires |a| == |b|
    ensures NameKey(a) == NameKey(b) <==> SameName(a, b)
  {
    StoreLoad(Normal(a));
    StoreLoad(Normal(b));
    if SameName(a, b) {
      assert Normal(a) == Normal(b);
    } else {
      var i :| 0 <= i < |a| && !SameChar(a[i], b[i]);
      assert Normal(a)[i] != Normal(b)[i];
    }
  }

  /** Two usernames share a session exactly when they are the same but for case and
      padding. */
  lemma OneNameOneSession(d: Directory, a: seq<Byte>, b: seq<Byte>)
    requires Numbered(d) && |a| == |b| && NameKey(a) in d.clients && NameKey(b) in d.clients
    ensures d.clients[NameKey(a)] == d.clients[NameKey(b)] <==> SameName(a, b)
  {
    NormalSame(a, b);
  }

  //--- what a login comes to ---

  datatype Verdict = Admit(clientId: nat, sequence: nat) | Deny(reason: Byte)

  predicate ThisSession(requested: seq<Byte>) {
    requested == BLANK_SESSION || requested == SESSION_ID || requested == SESSION_ID_LEFT
  }

  predicate BlankName(name: seq<Byte>) {
    forall i :: 0 <= i < |name| ==> NormalChar(name[i]) == SPACE
  }

  /** The username's session, a new one if there is room for it. */
  function Looked(d: Directory, key: nat): (Directory, Option<nat>) {
    if key in d.clients then (d, Some(d.clients[key]))
    else if d.next <= MAX_CLIENTS then (Directory(d.clients[key := d.next], d.next + 1), Some(d.next))
    else (d, None)
  }

  /** retained[c] is the oldest message the outbound thread last said session c
      still holds. */
  function Judge(d: Directory, connected: seq<bool>, retained: seq<nat>, payload: seq<Byte>): (Directory, Verdict) {
    match DecodeLogin(payload)
    case None => (d, Deny(NOT_AUTHORIZED))
    case Some(login) =>
      if !ThisSession(login.session) then (d, Deny(SESSION_NOT_AVAILABLE))
      else if BlankName(login.username) then (d, Deny(NOT_AUTHORIZED))
      else
        var (d', client) := Looked(d, NameKey(login.username));
        match client
        case None => (d', Deny(NOT_AUTHORIZED))
        case Some(c) =>
          if c < |connected| && connected[c] then (d', Deny(NOT_AUTHORIZED))
          else if login.sequence != 0 && c < |retained| && login.sequence < retained[c] then
            (d', Deny(SESSION_NOT_AVAILABLE))
          else (d', Admit(c, login.sequence))
  }

  lemma LookedKeeps(d: Directory, key: nat)
    requires Numbered(d)
    ensures var (d', client) := Looked(d, key);
            && Numbered(d') && (forall u :: u in d.clients ==> u in d'.clients && d'.clients[u] == d.clients[u])
            && (client.Some? ==> 0 < client.value <= MAX_CLIENTS && key in d'.clients && d'.clients[key] == client.value)
  {
  }

  /** No login moves a username to another session, and the one it is let into is
      its own and free. */
  lemma JudgeKeeps(d: Directory, connected: seq<bool>, retained: seq<nat>, payload: seq<Byte>)
    requires Numbered(d) && |connected| == MAX_CLIENTS + 1
    ensures var (d', v) := Judge(d, connected, retained, payload);
            && Numbered(d') && (forall u :: u in d.clients ==> u in d'.clients && d'.clients[u] == d.clients[u])
            && (v.Admit? ==>
                  && 0 < v.clientId <= MAX_CLIENTS && !connected[v.clientId] && DecodeLogin(payload).Some?
                  && (var key := NameKey(DecodeLogin(payload).value.username);
                      key in d'.clients && d'.clients[key] == v.clientId))
  {
    hide DecodeLogin, NameKey, BlankName, ThisSession, Numbered;
    if DecodeLogin(payload).Some? {
      LookedKeeps(d, NameKey(DecodeLogin(payload).value.username));
    }
  }

  /** Asked for blank, or as SIM with spaces on either side. */
  predicate OurSession(session: seq<Byte>) {
    |session| == 10
    && ((forall i :: 0 <= i < 10 ==> session[i] == 32)
        || (session[0] == 83 && session[1] == 73 && session[2] == 77 && forall i :: 3 <= i < 10 ==> session[i] == 32)
        || (session[7] == 83 && session[8] == 73 && session[9] == 77 && forall i :: 0 <= i < 7 ==> session[i] == 32))
  }

  /** Some character is neither a space nor a NUL. */
  predicate Named(username: seq<Byte>) {
    exists i :: 0 <= i < |username| && username[i] != 32 && username[i] != 0
  }

  /** The username's own session, or the next number for a name not seen before. */
  function SessionOf(d: Directory, username: seq<Byte>): nat {
    if NameKey(username) in d.clients then d.clients[NameKey(username)] else |d.clients| + 1
  }

  /** A name with a session, or room for one, that nobody is using. */
  ghost predicate Welcome(d: Directory, connected: seq<bool>, username: seq<Byte>) {
    && Named(username) && (NameKey(username) in d.clients || |d.clients| < 64)
    && SessionOf(d, username) < |connected| && !connected[SessionOf(d, username)]
  }

  lemma SessionsAre(session: seq<Byte>)
    ensures |session| == 10 ==> (ThisSession(session) <==> OurSession(session))
  {
    if |session| == 10 {
      var spaces: seq<Byte> := [32, 32, 32, 32, 32, 32, 32, 32, 32, 32];
      if forall i :: 0 <= i < 10 ==> session[i] == 32 { assert session == spaces; }
      if session[0] == 83 && session[1] == 73 && session[2] == 77 && forall i :: 3 <= i < 10 ==> session[i] == 32 {
        assert session == SESSION_ID_LEFT;
      }
      if session[7] == 83 && session[8] == 73 && session[9] == 77 && forall i :: 0 <= i < 7 ==> session[i] == 32 {
        assert session == SESSION_ID;
      }
    }
  }

  /** Who is let in, and what anyone else is told. A login with the fields a client
      sends is let in exactly if it is for this session, its name has a session nobody
      is using or can have one, and the message it asks for is not older than the
      oldest still held. It is told S exactly if the session is wrong, or only the
      message is missing; and A for anything else. */
  lemma LetIn(d: Directory, connected: seq<bool>, retained: seq<nat>,
              username: seq<Byte>, password: seq<Byte>, session: seq<Byte>, n: nat)
    requires Numbered(d) && |connected| == |retained| == MAX_CLIENTS + 1
    requires |username| == 6 && |password| == 10 && |session| == 10 && n < TWO_64
    ensures var (d', v) := Judge(d, connected, retained, username + password + session + Numeric(n, NUMERIC_LEN));
            var c := SessionOf(d, username);
            && d'.clients == (if OurSession(session) && Named(username) && |d.clients| < 64 then d.clients[NameKey(username) := c]
                              else d.clients)
            && (OurSession(session) && Welcome(d, connected, username) ==> c < |retained|)
            && (v.Admit? <==> OurSession(session) && Welcome(d, connected, username) && (n == 0 || n >= retained[c]))
            && (v.Admit? ==> v == Admit(c, n))
            && (v == Deny(83) <==> !OurSession(session) || (Welcome(d, connected, username) && 0 < n < retained[c]))
            && (v.Deny? && v != Deny(83) ==> v == Deny(65))
  {
    hide NameKey, Numeric, DecodeLogin, ThisSession, OurSession;
    LoginRoundTrip(username, password, session, n);
    SessionsAre(session);
    if NameKey(username) in d.clients {
      assert d.clients[NameKey(username) := d.clients[NameKey(username)]] == d.clients;
    }
  }

  /** A payload that is not a Login Request, or whose sequence number is not one, is
      told A. */
  lemma NotALogin(d: Directory, connected: seq<bool>, retained: seq<nat>, payload: seq<Byte>)
    requires |payload| != 46 || !exists digits :: Spells(payload[26..], digits)
    ensures Judge(d, connected, retained, payload) == (d, Deny(65))
  {
    if |payload| == 46 { ReadsExactly(payload[26..]); }
  }

  /** What the TCP stack reports of a connection: opened, bytes, or over, whether
      the client closed or reset it or our own close is done. */
  datatype TcpEvent = Accepted(conn: ConnId) | Data(conn: ConnId) | Ended(conn: ConnId)

  class Inbound {
    var lines: seq<Line>
    var connected: seq<bool>
    var notes: seq<Note>
    var clients: map<nat, nat>
    var nextClientId: nat
    /** The rest of the server, which this thread does not touch. */
    ghost const rest: System

    ghost function View(): System
      reads this
    {
      rest.(lines := lines, connected := connected, notes := notes)
    }

    ghost predicate Valid()
      reads this
    {
      && |connected| == MAX_CLIENTS + 1 && Numbered(Directory(clients, nextClientId))
      && (forall k :: 0 <= k < |lines| && lines[k].loggedIn ==> 0 < lines[k].clientId < |connected|)
    }

    constructor (slots: nat, ghost server: System)
      ensures Valid() && |lines| == slots && notes == [] && forall k :: 0 <= k < slots ==> !lines[k].open
    {
      lines := seq(slots, _ => Line(ConnId(0, 0), false, false, false, 0));
      connected := seq(MAX_CLIENTS + 1, _ => false);
      notes, clients, nextClientId := [], map[], 1;
      rest := server;
    }

    method RejectLogin(k: nat, reason: Byte)
      requires Valid() && k < |lines|
      modifies this`lines, this`notes
      ensures Valid() && View() == Refusing(old(View()), k, reason)
      ensures lines[k].closing && notes == old(notes) + [TurnedAway(old(lines)[k].conn, reason)]
    {
      lines := lines[k := lines[k].(closing := true)];
      notes := notes + [TurnedAway(lines[k].conn, reason)];
    }

    method Lookup(key: nat) returns (client: Option<nat>)
      requires Valid()
      modifies this`clients, this`nextClientId
      ensures Valid() && (Directory(clients, nextClientId), client) == Looked(Directory(old(clients), old(nextClientId)), key)
      ensures client.Some? ==> 0 < client.value <= MAX_CLIENTS
    {
      if key in clients {
        return Some(clients[key]);
      }
      if nextClientId > MAX_CLIENTS {
        return None;
      }
      client := Some(nextClientId);
      clients := clients[key := nextClientId];
      nextClientId := nextClientId + 1;
    }

    /** Does what Judge says, which is always a step the session threads allow. */
    method Login(k: nat, payload: seq<Byte>, retained: seq<nat>)
      requires Valid() && k < |lines| && lines[k].open && !lines[k].loggedIn && !lines[k].closing
      requires |retained| == MAX_CLIENTS + 1
      modifies this
      ensures Valid()
      ensures var (d, v) := Judge(Directory(old(clients), old(nextClientId)), old(connected), retained, payload);
              && Directory(clients, nextClientId) == d
              && (if v.Admit? then
                    Enabled(old(View()), Step.Login(k, v.clientId, v.sequence))
                    && View() == Logging(old(View()), k, v.clientId, v.sequence)
                  else Enabled(old(View()), Refuse(k, v.reason)) && View() == Refusing(old(View()), k, v.reason))
              && notes == old(notes) + [if v.Admit? then LoggedIn(v.clientId, old(lines)[k].conn, v.sequence)
                                        else TurnedAway(old(lines)[k].conn, v.reason)]
    {
      hide DecodeLogin, NameKey, ThisSession, Numbered, Looked;
      JudgeKeeps(Directory(clients, nextClientId), connected, retained, payload);
      var login := DecodeLogin(payload);
      if login == None {
        RejectLogin(k, NOT_AUTHORIZED);
        return;
      }
      if !ThisSession(login.value.session) {
        RejectLogin(k, SESSION_NOT_AVAILABLE);
        return;
      }
      var key, blank := PackName(login.value.username);
      if blank {
        RejectLogin(k, NOT_AUTHORIZED);
        return;
      }
      var client := Lookup(key);
      if client == None {
        RejectLogin(k, NOT_AUTHORIZED);
        return;
      }
      var c := client.value;
      if connected[c] {
        RejectLogin(k, NOT_AUTHORIZED);
        return;
      }
      if login.value.sequence != 0 && login.value.sequence < retained[c] {
        RejectLogin(k, SESSION_NOT_AVAILABLE);
        return;
      }
      connected := connected[c := true];
      lines := lines[k := lines[k].(loggedIn := true, clientId := c)];
      notes := notes + [LoggedIn(c, lines[k].conn, login.value.sequence)];
    }

    /** Safe to call more than once: only the first does anything. */
    method Disconnect(k: nat)
      requires Valid() && k < |lines|
      modifies this`lines, this`connected, this`notes
      ensures Valid() && View() == if old(lines)[k].open then Dropping(old(View()), k) else old(View())
    {
      var line := lines[k];
      if !line.open {
        return;
      }
      if line.loggedIn {
        connected := connected[line.clientId := false];
      }
      notes := notes + [Disconnected(line.conn)];
      lines := lines[k := line.(open := false, loggedIn := false, closing := true)];
    }

    /** A new connection takes over its slot; any other event counts only if it is
        about the connection the slot holds now. True when its bytes are to be
        read: exactly when a packet in them may be handled. */
    method OnTcpEvent(event: TcpEvent) returns (heard: bool)
      requires Valid() && event.conn.slot < |lines|
      modifies this`lines, this`connected, this`notes
      ensures Valid() && |lines| == |old(lines)|
      ensures event.Accepted? ==> !heard && View() == Connecting(old(View()), event.conn)
      ensures event.Ended? ==>
                var line := old(lines)[event.conn.slot];
                && !heard
                && (line.conn == event.conn && line.open ==>
                      Enabled(old(View()), Drop(event.conn.slot)) && View() == Dropping(old(View()), event.conn.slot))
                && (line.conn != event.conn || !line.open ==> View() == old(View()))
      ensures event.Data? ==>
                var line := lines[event.conn.slot];
                View() == old(View()) && (heard <==> line.conn == event.conn && line.open && !line.closing)
    {
      var k := event.conn.slot;
      heard := false;
      if event.Accepted? {
        lines := lines[k := Line(event.conn, true, false, false, 0)];
      } else if lines[k].conn == event.conn {
        if event.Data? {
          heard := lines[k].open && !lines[k].closing;
        } else {
          Disconnect(k);
        }
      }
    }

    /** One packet: a first login, a message for order entry once logged in, a
        logout. False once the connection takes no more input. */
    method HandlePacket(k: nat, packet: Packet, retained: seq<nat>) returns (more: bool, message: Option<seq<Byte>>)
      requires Valid() && k < |lines| && lines[k].open && !lines[k].closing
      requires |retained| == MAX_CLIENTS + 1
      modifies this
      ensures Valid() && |lines| == |old(lines)| && (more <==> lines[k].open && !lines[k].closing)
      ensures message == if packet.kind == UNSEQUENCED_DATA && old(lines)[k].loggedIn then Some(packet.payload) else None
      ensures packet.kind == LOGOUT_REQUEST ==> View() == Dropping(old(View()), k) && !more
      ensures packet.kind == LOGIN_REQUEST && !old(lines)[k].loggedIn ==>
                var (d, v) := Judge(Directory(old(clients), old(nextClientId)), old(connected), retained, packet.payload);
                Directory(clients, nextClientId) == d && more == v.Admit?
                && (v.Admit? ==> v.clientId < |connected| && View() == Logging(old(View()), k, v.clientId, v.sequence))
                && (v.Deny? ==> View() == Refusing(old(View()), k, v.reason))
      ensures packet.kind != LOGOUT_REQUEST && (packet.kind != LOGIN_REQUEST || old(lines)[k].loggedIn) ==>
                View() == old(View()) && clients == old(clients) && nextClientId == old(nextClientId) && more
    {
      hide Judge, Numbered;
      message := None;
      if packet.kind == LOGIN_REQUEST {
        if !lines[k].loggedIn {
          Login(k, packet.payload, retained);
        }
      } else if packet.kind == UNSEQUENCED_DATA {
        if lines[k].loggedIn {
          message := Some(packet.payload);
        }
      } else if packet.kind == LOGOUT_REQUEST {
        Disconnect(k);
      }
      more := lines[k].open && !lines[k].closing;
    }
  }
}
