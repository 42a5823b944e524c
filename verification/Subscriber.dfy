/** The client's end of a session: packets parsed out of the stream, Sequenced
    Data counted, and the count used to ask for the rest after a reconnect. */
module Subscriber {
  import opened EngineTypes
  import opened Wire
  import opened SoupBin
  import opened Transcript
  import Logins

  const LOGIN_ACCEPTED_LEN: nat := 30

  /** The next sequence number, whether this connection is logged in, and the
      Sequenced Data handled over all connections. */
  datatype Reader = Reader(next: nat, loggedIn: bool, handled: seq<seq<Byte>>)

  function AcceptedFrom(payload: seq<Byte>): Option<nat> {
    if |payload| != LOGIN_ACCEPTED_LEN then None else ReadValue(payload[10..])
  }

  /** What a packet does to the reader, and whether the connection goes on;
      content is whether the order layer makes sense of a message. */
  function Handle(r: Reader, p: Packet, content: bool): (Reader, bool) {
    if p.kind == LOGIN_ACCEPTED then
      match AcceptedFrom(p.payload)
      case None => (r, false)
      case Some(start) => (r.(next := start, loggedIn := true), true)
    else if p.kind == SEQUENCED_DATA then
      if !r.loggedIn then (r, false) else (r.(next := r.next + 1, handled := r.handled + [p.payload]), content)
    else (r, p.kind == SERVER_HEARTBEAT || p.kind == DEBUG_PACKET)
  }

  function HandleAll(r: Reader, packets: seq<Packet>): Reader {
    if packets == [] then r else Handle(HandleAll(r, packets[..|packets| - 1]), packets[|packets| - 1], true).0
  }

  lemma {:induction false} HandleAppend(r: Reader, xs: seq<Packet>, ys: seq<Packet>)
    ensures HandleAll(r, xs + ys) == HandleAll(HandleAll(r, xs), ys)
    decreases |ys|
  {
    hide Handle;
    if ys == [] {
      assert xs + ys == xs;
    } else {
      HandleAppend(r, xs, ys[..|ys| - 1]);
      assert (xs + ys)[..|xs + ys| - 1] == xs + ys[..|ys| - 1];
    }
  }

  /** The unfinished packet at the end of a stream. */
  function Rest(bytes: seq<Byte>): seq<Byte>
    decreases |bytes|
  {
    match Parse(bytes)
    case Whole(_, n) => Rest(bytes[n..])
    case _ => bytes
  }

  /** Reading on from the unfinished packet is reading the whole stream. */
  lemma {:induction false} PacketsSplit(x: seq<Byte>, y: seq<Byte>)
    requires !Parse(Rest(x)).Malformed?
    ensures Packets(x + y) == Packets(x) + Packets(Rest(x) + y) && Rest(x + y) == Rest(Rest(x) + y)
    decreases |x|
  {
    hide Parse;
    match Parse(x) {
      case Whole(p, n) =>
        PacketsSplit(x[n..], y);
        ParseMore(x, y);
        assert [p] + Packets(x[n..]) + Packets(Rest(x) + y) == [p] + (Packets(x[n..]) + Packets(Rest(x) + y));
      case _ =>
    }
  }

  lemma Next(packets: seq<Packet>, buf: seq<Byte>)
    requires Parse(buf).Whole?
    ensures var p, n := Parse(buf).packet, Parse(buf).consumed;
            packets + Packets(buf) == packets + [p] + Packets(buf[n..]) && Rest(buf) == Rest(buf[n..])
  {
    var p, n := Parse(buf).packet, Parse(buf).consumed;
    assert packets + ([p] + Packets(buf[n..])) == packets + [p] + Packets(buf[n..]);
  }

  class Client {
    var next: nat
    var loggedIn: bool
    var readBuf: seq<Byte>
    ghost var handled: seq<seq<Byte>>

    ghost function View(): Reader
      reads this
    {
      Reader(next, loggedIn, handled)
    }

    constructor ()
      ensures View() == Reader(1, false, []) && readBuf == []
    {
      next, loggedIn, readBuf, handled := 1, false, [], [];
    }

    /** A new connection starts empty and logs in to the current session: what it
        sends is one whole packet, which the server reads as this username asking for
        the message after the last one handled. */
    method Connect(username: seq<Byte>, password: seq<Byte>) returns (packet: seq<Byte>)
      requires |username| == 6 && |password| == 10 && next < TWO_64
      modifies this`loggedIn, this`readBuf
      ensures View() == old(View()).(loggedIn := false) && readBuf == []
      ensures Parse(packet).Whole? && Parse(packet).consumed == |packet| && Parse(packet).packet.kind == LOGIN_REQUEST
      ensures var request := Logins.DecodeLogin(Parse(packet).packet.payload);
              && request.Some? && request.value.username == username && request.value.sequence == next
              && Logins.ThisSession(request.value.session)
    {
      hide Numeric, Parse, Frame, Logins.DecodeLogin;
      loggedIn, readBuf := false, [];
      var payload := username + password + Logins.BLANK_SESSION + Numeric(next, NUMERIC_LEN);
      packet := Frame(Packet(LOGIN_REQUEST, payload));
      ParseFrame(Packet(LOGIN_REQUEST, payload), []);
      assert packet + [] == packet;
      Logins.LoginRoundTrip(username, password, Logins.BLANK_SESSION, next);
    }

    method HandlePacket(p: Packet, content: bool) returns (more: bool)
      modifies this`next, this`loggedIn, this`handled
      ensures (View(), more) == Handle(old(View()), p, content)
    {
      if p.kind == LOGIN_ACCEPTED {
        var start: Option<nat> := None;
        if |p.payload| == LOGIN_ACCEPTED_LEN {
          start := ReadNumeric(p.payload[10..]);
        }
        if start == None {
          return false;
        }
        next, loggedIn := start.value, true;
        return true;
      }
      if p.kind == SEQUENCED_DATA {
        if !loggedIn {
          return false;
        }
        next := next + 1;
        handled := handled + [p.payload];
        return content;
      }
      return p.kind == SERVER_HEARTBEAT || p.kind == DEBUG_PACKET;
    }

    /** Handles every whole packet received. Should the connection not go on, what
        was handled is some of them, from the first on. */
    method HandleReadable(bytes: seq<Byte>) returns (more: bool, ghost packets: seq<Packet>)
      modifies this
      ensures packets <= Packets(old(readBuf) + bytes) && View() == HandleAll(old(View()), packets)
      ensures more ==> packets == Packets(old(readBuf) + bytes) && readBuf == Rest(old(readBuf) + bytes)
      ensures more ==> Parse(readBuf) == Incomplete
    {
      hide Handle, HandleAll, Parse;
      HandleNone(View());
      ghost var all := readBuf + bytes;
      readBuf := readBuf + bytes;
      packets := [];
      while true
        invariant Packets(all) == packets + Packets(readBuf) && Rest(all) == Rest(readBuf)
        invariant View() == HandleAll(old(View()), packets)
        decreases |readBuf|
      {
        match Parse(readBuf) {
          case Incomplete => return true, packets;
          case Malformed => return false, packets;
          case Whole(p, n) =>
            var content: bool := *;
            ghost var more' := packets + [p];
            HandleNext(old(View()), packets, p, content);
            Next(packets, readBuf);
            more := HandlePacket(p, content);
            packets := more';
            if !more {
              return false, packets;
            }
            readBuf := readBuf[n..];
        }
      }
    }
  }

  //--- what a connection's packets leave the reader with ---

  /** The messages among a run of packets. */
  function Payloads(packets: seq<Packet>): seq<seq<Byte>> {
    if packets == [] then []
    else
      var p := packets[|packets| - 1];
      Payloads(packets[..|packets| - 1]) + (if p.kind == SEQUENCED_DATA then [p.payload] else [])
  }

  lemma {:induction false} PayloadsAppend(xs: seq<Packet>, ys: seq<Packet>)
    ensures Payloads(xs + ys) == Payloads(xs) + Payloads(ys)
    decreases |ys|
  {
    if ys == [] {
      assert xs + ys == xs;
    } else {
      PayloadsAppend(xs, ys[..|ys| - 1]);
      assert (xs + ys)[..|xs + ys| - 1] == xs + ys[..|ys| - 1];
    }
  }

  lemma {:induction false} PayloadsOfData(all: seq<seq<Byte>>)
    ensures Payloads(Data(all)) == all
  {
    if all != [] {
      var front := all[..|all| - 1];
      PayloadsOfData(front);
      assert Data(all)[..|all| - 1] == Data(front);
      assert all == front + [all[|all| - 1]];
    }
  }

  lemma PayloadsOfOther(p: Packet)
    requires p.kind != SEQUENCED_DATA
    ensures Payloads([p]) == []
  {
    assert [p][..0] == [];
  }

  /** However heartbeats fall, the messages are those from start on. */
  lemma {:induction false} PayloadsOfItems(all: seq<seq<Byte>>, start: nat, beats: seq<nat>, upto: nat)
    requires Placed(start, beats, upto) && upto <= |all|
    ensures Payloads(Items(all, start, beats, upto)) == all[start - 1..upto]
    decreases |beats|
  {
    hide Payloads, Data;
    if beats == [] {
      PayloadsOfData(all[start - 1..upto]);
    } else {
      var last, front := beats[|beats| - 1], beats[..|beats| - 1];
      var items := Items(all, start, front, last);
      PayloadsOfItems(all, start, front, last);
      PayloadsOfData(all[last..upto]);
      PayloadsAppend(items + [HEARTBEAT], Data(all[last..upto]));
      PayloadsAppend(items, [HEARTBEAT]);
      PayloadsOfOther(HEARTBEAT);
      assert all[start - 1..upto] == all[start - 1..last] + all[last..upto];
    }
  }

  ghost predicate Plain(packets: seq<Packet>) {
    forall i :: 0 <= i < |packets| ==> packets[i].kind == SEQUENCED_DATA || packets[i] == HEARTBEAT
  }

  lemma {:induction false} ItemsPlain(all: seq<seq<Byte>>, start: nat, beats: seq<nat>, upto: nat)
    requires Placed(start, beats, upto) && upto <= |all|
    ensures Plain(Items(all, start, beats, upto))
    decreases |beats|
  {
    if beats != [] {
      ItemsPlain(all, start, beats[..|beats| - 1], beats[|beats| - 1]);
    }
  }

  /** A logged-in reader takes each message once, in order, and counts it. */
  lemma {:induction false} HandlePlain(r: Reader, packets: seq<Packet>)
    requires r.loggedIn && Plain(packets)
    ensures HandleAll(r, packets) == Reader(r.next + |Payloads(packets)|, true, r.handled + Payloads(packets))
  {
    if packets != [] {
      HandlePlain(r, packets[..|packets| - 1]);
      var p := packets[|packets| - 1];
      var before := Payloads(packets[..|packets| - 1]);
      assert r.handled + before + [p.payload] == r.handled + (before + [p.payload]);
    }
  }

  lemma HandleAccepted(r: Reader, start: nat)
    requires start < TWO_64
    ensures Handle(r, AcceptedPacket(start), true) == (Reader(start, true, r.handled), true)
  {
    FieldRange();
    NumericRoundTrip(start);
    assert AcceptedPacket(start).payload[10..] == Numeric(start, NUMERIC_LEN);
  }

  lemma ServedOn(r: Reader, all: seq<seq<Byte>>, start: nat, beats: seq<nat>, packets: seq<Packet>)
    requires 1 <= start <= |all| + 1 && r == Reader(start, true, all[..start - 1])
    requires Placed(start, beats, |all|) && packets <= Items(all, start, beats, |all|)
    ensures var r' := HandleAll(r, packets);
            1 <= r'.next <= |all| + 1 && r'.handled == all[..r'.next - 1]
  {
    hide Payloads, Items, HandleAll;
    var items := Items(all, start, beats, |all|);
    ItemsPlain(all, start, beats, |all|);
    HandlePlain(r, packets);
    PayloadsOfItems(all, start, beats, |all|);
    PayloadsAppend(packets, items[|packets|..]);
    assert items == packets + items[|packets|..];
    TakeOn(all, start - 1, Payloads(packets));
  }

  lemma TakeOn(all: seq<seq<Byte>>, n: nat, more: seq<seq<Byte>>)
    requires n <= |all| && more <= all[n..]
    ensures all[..n] + more == all[..n + |more|]
  {
    assert forall i :: 0 <= i < |more| ==> more[i] == all[n..][i];
  }

  lemma PrefixTail(first: Packet, items: seq<Packet>, packets: seq<Packet>)
    requires packets != [] && packets <= [first] + items
    ensures packets == [first] + packets[1..] && packets[1..] <= items
  {
    assert ([first] + items)[1..] == items;
  }

  lemma HandleNone(r: Reader)
    ensures HandleAll(r, []) == r
  {
  }

  lemma HandleNext(r: Reader, packets: seq<Packet>, p: Packet, content: bool)
    ensures HandleAll(r, packets + [p]) == Handle(HandleAll(r, packets), p, content).0
  {
    assert (packets + [p])[..|packets|] == packets;
  }

  lemma HandleOne(r: Reader, p: Packet)
    ensures HandleAll(r, [p]) == Handle(r, p, true).0
  {
    assert [p][..0] == [];
  }

  /** A reader holding the first start - 1 messages, served from start on, holds at
      every moment exactly the messages up to the one it would ask for next. */
  lemma Resumed(r: Reader, all: seq<seq<Byte>>, start: nat, beats: seq<nat>, packets: seq<Packet>)
    requires 1 <= start <= |all| + 1 && start < TWO_64 && r.next == start && r.handled == all[..start - 1]
    requires Placed(start, beats, |all|) && packets <= [AcceptedPacket(start)] + Items(all, start, beats, |all|)
    ensures var r' := HandleAll(r, packets);
            1 <= r'.next <= |all| + 1 && r'.handled == all[..r'.next - 1]
  {
    hide Items, Handle, AcceptedPacket, HandleAll, Placed;
    HandleNone(r);
    if packets != [] {
      var accepted, more := AcceptedPacket(start), packets[1..];
      PrefixTail(accepted, Items(all, start, beats, |all|), packets);
      HandleAppend(r, [accepted], more);
      HandleOne(r, accepted);
      HandleAccepted(r, start);
      ServedOn(Reader(start, true, r.handled), all, start, beats, more);
    }
  }

  /** Once all of it has come, the reader holds every message there is, asks for the
      next one, and nothing on the way made it hang up. */
  lemma HearsAll(r: Reader, all: seq<seq<Byte>>, start: nat, beats: seq<nat>, k: nat)
    requires 1 <= start <= |all| + 1 && start < TWO_64 && r.handled == all[..start - 1] && Placed(start, beats, |all|)
    requires k <= |Items(all, start, beats, |all|)|
    ensures var packets := [AcceptedPacket(start)] + Items(all, start, beats, |all|);
            && HandleAll(r, packets) == Reader(|all| + 1, true, all)
            && Handle(HandleAll(r, packets[..k]), packets[k], true).1
  {
    hide Items, AcceptedPacket, HandleAll, Placed, Payloads, Handle;
    var accepted, items := AcceptedPacket(start), Items(all, start, beats, |all|);
    var served := Reader(start, true, r.handled);
    HandleAccepted(r, start);
    HandleOne(r, accepted);
    HandleAppend(r, [accepted], items);
    ItemsPlain(all, start, beats, |all|);
    HandlePlain(served, items);
    PayloadsOfItems(all, start, beats, |all|);
    assert all[..start - 1] + all[start - 1..] == all && all[start - 1..|all|] == all[start - 1..];
    HandleNone(r);
    if k > 0 {
      assert ([accepted] + items)[..k] == [accepted] + items[..k - 1];
      HandleAppend(r, [accepted], items[..k - 1]);
      HandlePlain(served, items[..k - 1]);
      PlainGoesOn(HandleAll(served, items[..k - 1]), items[k - 1]);
    }
  }

  lemma PlainGoesOn(r: Reader, p: Packet)
    requires r.loggedIn && (p.kind == SEQUENCED_DATA || p == HEARTBEAT)
    ensures Handle(r, p, true).1
  {
  }

  /** A connection turned away leaves the reader as it was. */
  lemma Unmoved(r: Reader, reason: Byte, packets: seq<Packet>)
    requires packets <= [Packet(LOGIN_REJECTED, [reason])]
    ensures HandleAll(r, packets) == r
  {
    if packets != [] {
      assert packets == [Packet(LOGIN_REJECTED, [reason])];
      HandleOne(r, packets[0]);
    }
  }
}
