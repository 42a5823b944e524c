/** SoupBinTCP packets out of TCP segments: whole packets are handled straight
    from the segment, and only the start of a packet a segment cut off is kept,
    in a fixed buffer, for the next one to finish. */
module Reassembly {
  import opened EngineTypes
  import opened Wire
  import opened SoupBin

  /** The largest packet that may be split across segments. */
  const MAX_PACKET: nat := 512

  /** What the connection does with a packet: its new state, and whether it still
      takes input. */
  type Handler<!S> = (S, Packet) -> (S, bool)

  datatype Status = Open | Stopped | Dropped

  /** One connection's input side: the handler's state, whether it still takes
      input, the start of an unfinished packet, and the packets handled so far. */
  datatype Link<S> = Link(state: S, status: Status, partial: seq<Byte>, handled: seq<Packet>)

  predicate TooLong(stream: seq<Byte>) {
    |stream| >= 2 && Announced(stream) > MAX_PACKET
  }

  /** Handling a stream that arrives all at once. */
  function ParseAll<S>(h: Handler<S>, state: S, handled: seq<Packet>, stream: seq<Byte>): Link<S>
    decreases |stream|
  {
    match Parse(stream)
    case Whole(p, n) =>
      var (state', more) := h(state, p);
      if more then ParseAll(h, state', handled + [p], stream[n..]) else Link(state', Stopped, [], handled + [p])
    case Malformed => Link(state, Dropped, [], handled)
    case Incomplete => if TooLong(stream) then Link(state, Dropped, [], handled) else Link(state, Open, stream, handled)
  }

  /** The packet started in partial is complete: handle it, then the rest. */
  function Finish<S>(h: Handler<S>, link: Link<S>, whole: seq<Byte>, rest: seq<Byte>): Link<S> {
    match Parse(whole)
    case Whole(p, _) =>
      var (state', more) := h(link.state, p);
      if more then ParseAll(h, state', link.handled + [p], rest) else Link(state', Stopped, [], link.handled + [p])
    case _ => link.(status := Dropped, partial := [])
  }

  /** Finishing a packet whose length is known. */
  function Complete<S>(h: Handler<S>, link: Link<S>, have: seq<Byte>, bytes: seq<Byte>): Link<S>
    requires |have| >= 2 && |have| <= Announced(have)
  {
    var total := Announced(have);
    var take := Min(total - |have|, |bytes|);
    var have' := have + bytes[..take];
    if |have'| < total then link.(partial := have') else Finish(h, link, have', bytes[take..])
  }

  /** Handling one segment, as the server does. */
  function Receive<S>(h: Handler<S>, link: Link<S>, bytes: seq<Byte>): Link<S>
    requires Sound(link)
  {
    if link.status != Open then link
    else if link.partial == [] then ParseAll(h, link.state, link.handled, bytes)
    else if |link.partial| >= 2 then Complete(h, link, link.partial, bytes)
    else
      var take := Min(2 - |link.partial|, |bytes|);
      var have := link.partial + bytes[..take];
      if |have| < 2 then link.(partial := have)
      else if TooLong(have) then link.(status := Dropped, partial := [])
      else Complete(h, link, have, bytes[take..])
  }

  /** What a connection keeps is the unfinished start of a packet that fits. */
  ghost predicate Sound<S>(link: Link<S>) {
    link.status == Open ==> |link.partial| < 2 || (Parse(link.partial) == Incomplete && !TooLong(link.partial))
  }

  lemma {:induction false} ParseAllSound<S>(h: Handler<S>, state: S, handled: seq<Packet>, stream: seq<Byte>)
    ensures Sound(ParseAll(h, state, handled, stream))
    decreases |stream|
  {
    match Parse(stream)
    case Whole(p, n) =>
      var (state', more) := h(state, p);
      if more { ParseAllSound(h, state', handled + [p], stream[n..]); }
    case _ =>
  }

  lemma CompleteSound<S>(h: Handler<S>, link: Link<S>, have: seq<Byte>, bytes: seq<Byte>)
    requires |have| >= 2 && |have| <= Announced(have) && !TooLong(have)
    ensures Sound(Complete(h, link, have, bytes))
  {
    var take := Min(Announced(have) - |have|, |bytes|);
    var have' := have + bytes[..take];
    assert have'[..2] == have[..2];
    if |have'| == Announced(have) {
      match Parse(have')
      case Whole(p, _) =>
        var (state', more) := h(link.state, p);
        ParseAllSound(h, state', link.handled + [p], bytes[take..]);
      case _ =>
    }
  }

  lemma ReceiveSound<S>(h: Handler<S>, link: Link<S>, bytes: seq<Byte>)
    requires Sound(link)
    ensures Sound(Receive(h, link, bytes))
  {
    ParseAllSound(h, link.state, link.handled, bytes);
    if link.status == Open && link.partial != [] {
      if |link.partial| >= 2 {
        CompleteSound(h, link, link.partial, bytes);
      } else {
        var take := Min(2 - |link.partial|, |bytes|);
        var have := link.partial + bytes[..take];
        if |have| == 2 && !TooLong(have) {
          CompleteSound(h, link, have, bytes[take..]);
        }
      }
    }
  }

  //--- segments make no difference to packets that fit ---

  ghost predicate AllSmall(packets: seq<Packet>) {
    forall i :: 0 <= i < |packets| ==> |Frame(packets[i])| <= MAX_PACKET
  }

  /** Packets handled only accumulate. */
  lemma {:induction false} HandledGrows<S>(h: Handler<S>, state: S, handled: seq<Packet>, stream: seq<Byte>)
    ensures handled <= ParseAll(h, state, handled, stream).handled
    decreases |stream|
  {
    match Parse(stream)
    case Whole(p, n) =>
      var (state', more) := h(state, p);
      if more { HandledGrows(h, state', handled + [p], stream[n..]); }
    case _ =>
  }

  function Continue<S>(h: Handler<S>, link: Link<S>, y: seq<Byte>): Link<S> {
    if link.status == Open then ParseAll(h, link.state, link.handled, link.partial + y) else link
  }

  /** Handling x, then carrying on with y, is handling x + y -- unless that
      handles a packet too long to be split. */
  lemma {:induction false} ParseSplit<S>(h: Handler<S>, state: S, handled: seq<Packet>, x: seq<Byte>, y: seq<Byte>)
    requires AllSmall(ParseAll(h, state, handled, x + y).handled)
    ensures ParseAll(h, state, handled, x + y) == Continue(h, ParseAll(h, state, handled, x), y)
    decreases |x|
  {
    ParseMore(x, y);
    match Parse(x)
    case Whole(p, n) =>
      var (state', more) := h(state, p);
      if more { ParseSplit(h, state', handled + [p], x[n..], y); }
    case Malformed =>
    case Incomplete =>
      if TooLong(x) && Parse(x + y).Whole? {
        var p := Parse(x + y).packet;
        FrameParse(x + y);
        var (state', more) := h(state, p);
        HandledGrows(h, state', handled + [p], (x + y)[Parse(x + y).consumed..]);
        assert ParseAll(h, state, handled, x + y).handled[|handled|] == p;
        assert false;
      }
  }

  lemma CompleteIs<S>(h: Handler<S>, link: Link<S>, have: seq<Byte>, bytes: seq<Byte>)
    requires link.status == Open && |have| >= 2 && |have| <= Announced(have) && !TooLong(have)
    ensures Complete(h, link, have, bytes) == ParseAll(h, link.state, link.handled, have + bytes)
  {
    hide Announced, ParseAll;
    var total := Announced(have);
    var take := Min(total - |have|, |bytes|);
    var have' := have + bytes[..take];
    SameFront(have, bytes[..take]);
    assert have + bytes == have' + bytes[take..];
    if |have'| < total {
      assert have' == have + bytes;
      ShortOpen(h, link, have');
    } else {
      WholeFirst(h, link, have', bytes[take..]);
    }
  }

  lemma SameFront(have: seq<Byte>, more: seq<Byte>)
    requires |have| >= 2
    ensures Announced(have + more) == Announced(have)
  {
    assert (have + more)[..2] == have[..2];
  }

  lemma ShortOpen<S>(h: Handler<S>, link: Link<S>, stream: seq<Byte>)
    requires link.status == Open && 2 <= |stream| < Announced(stream) && !TooLong(stream)
    ensures ParseAll(h, link.state, link.handled, stream) == link.(partial := stream)
  {
  }

  lemma WholeFirst<S>(h: Handler<S>, link: Link<S>, whole: seq<Byte>, rest: seq<Byte>)
    requires link.status == Open && |whole| >= 2 && |whole| == Announced(whole)
    ensures Finish(h, link, whole, rest) == ParseAll(h, link.state, link.handled, whole + rest)
  {
    ParseMore(whole, rest);
    assert whole[|whole|..] + rest == rest;
  }

  lemma ReceiveIs<S>(h: Handler<S>, link: Link<S>, bytes: seq<Byte>)
    requires Sound(link) && AllSmall(Continue(h, link, bytes).handled)
    ensures Receive(h, link, bytes) == Continue(h, link, bytes)
  {
    hide Complete, AllSmall;
    if link.status == Open {
      var stream := link.partial + bytes;
      if link.partial == [] {
        assert stream == bytes;
      } else if |link.partial| >= 2 {
        CompleteIs(h, link, link.partial, bytes);
      } else {
        var take := Min(2 - |link.partial|, |bytes|);
        var have := link.partial + bytes[..take];
        assert stream == have + bytes[take..];
        if |have| < 2 {
          assert have == stream;
        } else if TooLong(have) {
          LongDropped(h, link, have, bytes[take..]);
        } else {
          CompleteIs(h, link, have, bytes[take..]);
        }
      }
    }
  }

  /** A packet too long to split that was never handled ended the connection. */
  lemma LongDropped<S>(h: Handler<S>, link: Link<S>, have: seq<Byte>, bytes: seq<Byte>)
    requires |have| == 2 && TooLong(have)
    requires AllSmall(ParseAll(h, link.state, link.handled, have + bytes).handled)
    ensures ParseAll(h, link.state, link.handled, have + bytes) == link.(status := Dropped, partial := [])
  {
    var stream := have + bytes;
    ParseMore(have, bytes);
    if Parse(stream).Whole? {
      var p := Parse(stream).packet;
      FrameParse(stream);
      var (state', more) := h(link.state, p);
      HandledGrows(h, state', link.handled + [p], stream[Parse(stream).consumed..]);
      assert ParseAll(h, link.state, link.handled, stream).handled[|link.handled|] == p;
      assert false;
    }
  }

  //--- any number of segments ---

  function ReceiveAll<S>(h: Handler<S>, link: Link<S>, segments: seq<seq<Byte>>): (after: Link<S>)
    requires Sound(link)
    ensures Sound(after)
  {
    if segments == [] then link
    else
      var before := ReceiveAll(h, link, segments[..|segments| - 1]);
      ReceiveSound(h, before, segments[|segments| - 1]);
      Receive(h, before, segments[|segments| - 1])
  }

  function Start<S>(state: S): Link<S> {
    Link(state, Open, [], [])
  }

  lemma HandledPrefix<S>(h: Handler<S>, state: S, handled: seq<Packet>, x: seq<Byte>, y: seq<Byte>)
    ensures ParseAll(h, state, handled, x).handled <= ParseAll(h, state, handled, x + y).handled
    decreases |x|
  {
    ParseMore(x, y);
    HandledGrows(h, state, handled, x + y);
    match Parse(x)
    case Whole(p, n) =>
      var (state', more) := h(state, p);
      if more { HandledPrefix(h, state', handled + [p], x[n..], y); }
    case _ =>
  }

  /** However a stream is cut, its packets -- and where it ends -- come out the
      same, provided each packet it hands on could be split. */
  lemma {:induction false} CutsAgree<S>(h: Handler<S>, state: S, segments: seq<seq<Byte>>)
    requires AllSmall(ParseAll(h, state, [], Stream(segments)).handled)
    ensures ReceiveAll(h, Start(state), segments) == ParseAll(h, state, [], Stream(segments))
  {
    hide ParseAll, Receive, AllSmall;
    if segments == [] {
      ParseNothing(h, state);
    } else {
      var front, last := segments[..|segments| - 1], segments[|segments| - 1];
      var x := Stream(front);
      var before := ParseAll(h, state, [], x);
      HandledPrefix(h, state, [], x, last);
      SmallPrefix(before.handled, ParseAll(h, state, [], x + last).handled);
      CutsAgree(h, state, front);
      ParseSplit(h, state, [], x, last);
      ParseAllSound(h, state, [], x);
      ReceiveIs(h, before, last);
    }
  }

  lemma ParseNothing<S>(h: Handler<S>, state: S)
    ensures ParseAll(h, state, [], []) == Start(state)
  {
  }

  lemma SmallPrefix(xs: seq<Packet>, ys: seq<Packet>)
    requires xs <= ys && AllSmall(ys)
    ensures AllSmall(xs)
  {
  }

  lemma FirstHandled<S>(h: Handler<S>, state: S, handled: seq<Packet>, stream: seq<Byte>)
    requires AllSmall(handled) && !AllSmall(ParseAll(h, state, handled, stream).handled)
    ensures Parse(stream).Whole?
    ensures Parse(stream).consumed <= MAX_PACKET ==> h(state, Parse(stream).packet).1
  {
    if Parse(stream).Whole? {
      FrameParse(stream);
    }
  }

  lemma SmallMore(handled: seq<Packet>, p: Packet)
    requires AllSmall(handled) && |Frame(p)| <= MAX_PACKET
    ensures AllSmall(handled + [p])
  {
  }

  lemma CutBehindLength(stream: seq<Byte>)
    requires Parse(stream).Whole? && Parse(stream).consumed > MAX_PACKET
    ensures Parse(stream[..2]) == Incomplete && TooLong(stream[..2])
  {
    assert stream[..2][..2] == stream[..2];
  }

  /** A cut beyond the first packet leaves it whole. */
  lemma ParseCutLater(stream: seq<Byte>, k: nat)
    requires Parse(stream).Whole? && k <= |stream| - Parse(stream).consumed
    ensures var n := Parse(stream).consumed;
            Parse(stream[..n + k]) == Parse(stream) && stream[..n + k][n..] == stream[n..][..k]
  {
    var n := Parse(stream).consumed;
    var cut := stream[..n + k];
    assert cut[..2] == stream[..2];
    assert cut[3..n] == stream[3..n];
  }

  /** Where a stream hands on a packet too long to split, cutting it just behind
      that packet's length ends the connection before it. */
  lemma {:induction false} BadCut<S>(h: Handler<S>, state: S, handled: seq<Packet>, stream: seq<Byte>) returns (k: nat)
    requires AllSmall(handled) && !AllSmall(ParseAll(h, state, handled, stream).handled)
    ensures k <= |stream|
    ensures ParseAll(h, state, handled, stream[..k]).status == Dropped
    ensures |ParseAll(h, state, handled, stream[..k]).handled| < |ParseAll(h, state, handled, stream).handled|
    decreases |stream|
  {
    hide AllSmall, Parse;
    FirstHandled(h, state, handled, stream);
    var p, n := Parse(stream).packet, Parse(stream).consumed;
    var (state', more) := h(state, p);
    FrameParse(stream);
    HandledGrows(h, state', handled + [p], stream[n..]);
    if n > MAX_PACKET {
      k := 2;
      CutBehindLength(stream);
    } else {
      SmallMore(handled, p);
      k := BadCut(h, state', handled + [p], stream[n..]);
      ParseCutLater(stream, k);
      k := n + k;
    }
  }

  /** Every way of cutting the stream into segments gives what the uncut stream
      does. */
  ghost predicate CutsSame<S>(h: Handler<S>, state: S, stream: seq<Byte>) {
    forall segments: seq<seq<Byte>> {:trigger Stream(segments)} :: Stream(segments) == stream ==>
      ReceiveAll(h, Start(state), segments) == ParseAll(h, state, [], stream)
  }

  /** Cutting makes no difference if and only if no packet the uncut stream hands
      on is longer than the 512 bytes the buffer can hold. */
  lemma CutIndependence<S>(h: Handler<S>, state: S, stream: seq<Byte>)
    ensures CutsSame(h, state, stream) <==> AllSmall(ParseAll(h, state, [], stream).handled)
  {
    hide ParseAll, Receive, ReceiveAll, AllSmall, Stream;
    NoneSmall();
    if AllSmall(ParseAll(h, state, [], stream).handled) {
      forall segments: seq<seq<Byte>> | Stream(segments) == stream
        ensures ReceiveAll(h, Start(state), segments) == ParseAll(h, state, [], stream)
      {
        CutsAgree(h, state, segments);
      }
    } else {
      var k := BadCut(h, state, [], stream);
      var segments := [stream[..k], stream[k..]];
      TwoSegments(h, state, stream[..k], stream[k..]);
      assert Stream(segments) == stream;
    }
  }

  /** A handler that takes every packet and goes on. */
  ghost predicate Unstopping<S(!new)>(h: Handler<S>) {
    forall state, p :: h(state, p).1
  }

  /** The packets handled are the first of the packets in the bytes, and all of
      them when the handler never stops. */
  lemma {:induction false} HandledPackets<S(!new)>(h: Handler<S>, state: S, handled: seq<Packet>, stream: seq<Byte>)
    ensures ParseAll(h, state, handled, stream).handled <= handled + Packets(stream)
    ensures Unstopping(h) ==> ParseAll(h, state, handled, stream).handled == handled + Packets(stream)
    decreases |stream|
  {
    match Parse(stream)
    case Whole(p, n) =>
      var (state', more) := h(state, p);
      assert handled + Packets(stream) == handled + [p] + Packets(stream[n..]);
      if more { HandledPackets(h, state', handled + [p], stream[n..]); }
    case _ =>
  }

  /** The same on the bytes alone: a stream whose packets all fit is safe to cut
      anywhere, whatever the connection does with them; and one that holds a
      packet too long for the buffer has a cut that tells under every handler
      that gets to it. */
  lemma SafeToCut<S(!new)>(h: Handler<S>, state: S, stream: seq<Byte>)
    ensures AllSmall(Packets(stream)) ==> CutsSame(h, state, stream)
    ensures Unstopping(h) ==> (CutsSame(h, state, stream) <==> AllSmall(Packets(stream)))
  {
    hide ParseAll, Receive, ReceiveAll, Stream, Packets;
    HandledPackets(h, state, [], stream);
    CutIndependence(h, state, stream);
    assert [] + Packets(stream) == Packets(stream);
  }

  lemma NoneSmall()
    ensures AllSmall([])
  {
  }

  lemma TwoSegments<S>(h: Handler<S>, state: S, x: seq<Byte>, y: seq<Byte>)
    ensures Stream([x, y]) == x + y
    ensures ReceiveAll(h, Start(state), [x, y]) == Receive(h, ReceiveAll(h, Start(state), [x]), y)
    ensures ReceiveAll(h, Start(state), [x]) == ParseAll(h, state, [], x)
    ensures ParseAll(h, state, [], x).status != Open ==> ReceiveAll(h, Start(state), [x, y]) == ParseAll(h, state, [], x)
  {
    assert [x, y][..1] == [x] && [x][..0] == [];
    assert Stream([x]) == x;
  }

  /** The 513-byte case: handled when it arrives in one segment, and fatal to the
      connection when its length arrives ahead of it. */
  lemma LongPacketSplit(h: Handler<bool>)
    requires forall b, p :: h(b, p) == (b, true)
    ensures var p := Packet(UNSEQUENCED_DATA, seq(510, _ => 0));
            && ParseAll(h, true, [], Frame(p)).handled == [p]
            && ReceiveAll(h, Start(true), [Frame(p)[..2], Frame(p)[2..]]) == Link(true, Dropped, [], [])
  {
    var p := Packet(UNSEQUENCED_DATA, seq(510, _ => 0));
    var stream := Frame(p);
    FrameLength(p, []);
    ParseFrame(p, []);
    assert stream + [] == stream;
    CutBehindLength(stream);
    TwoSegments(h, true, stream[..2], stream[2..]);
  }

  //--- the object as built ---

  class Connection<S> {
    const h: Handler<S>
    const partial: array<Byte>
    var partialLen: nat
    var status: Status
    var state: S
    ghost var handled: seq<Packet>

    ghost function View(): Link<S>
      reads this, partial
      requires partialLen <= partial.Length
    {
      Link(state, status, partial[..partialLen], handled)
    }

    /** The unfinished packet always fits the buffer, with room to finish it. */
    ghost predicate Valid()
      reads this, partial
    {
      partial.Length == MAX_PACKET && partialLen < MAX_PACKET && Sound(View()) && (status != Open ==> partialLen == 0)
    }

    constructor (h: Handler<S>, state: S)
      ensures Valid() && View() == Start(state) && this.h == h && fresh(partial)
    {
      this.h := h;
      partial := new Byte[MAX_PACKET](_ => 0);
      partialLen, status, this.state, handled := 0, Open, state, [];
    }

    /** Appends to the partial buffer; there is always room for what is asked. */
    method Keep(bytes: seq<Byte>)
      requires partialLen + |bytes| <= partial.Length
      modifies this`partialLen, partial
      ensures partialLen == old(partialLen) + |bytes|
      ensures partial[..partialLen] == old(partial[..partialLen]) + bytes
    {
      forall i | 0 <= i < |bytes| {
        partial[partialLen + i] := bytes[i];
      }
      partialLen := partialLen + |bytes|;
    }

    method Disconnect()
      modifies this`status, this`partialLen
      ensures status == Dropped && partialLen == 0
    {
      status := Dropped;
      partialLen := 0;
    }

    /** false once the connection takes no more input. */
    method Handle(p: Packet) returns (more: bool)
      requires status == Open
      modifies this`state, this`status, this`handled
      ensures (state, more) == h(old(state), p) && handled == old(handled) + [p]
      ensures status == if more then Open else Stopped
    {
      var (s, m) := h(state, p);
      state, more := s, m;
      handled := handled + [p];
      if !more {
        status := Stopped;
      }
    }

    /** Whole packets straight from the segment; the start of one is kept. */
    method Segment(bytes: seq<Byte>)
      requires partial.Length == MAX_PACKET && status == Open && partialLen == 0
      modifies this, partial
      ensures Valid() && View() == ParseAll(h, old(state), old(handled), bytes)
    {
      ghost var result := ParseAll(h, state, handled, bytes);
      ParseAllSound(h, state, handled, bytes);
      var rest := bytes;
      while rest != []
        invariant status == Open && partialLen == 0 && partial.Length == MAX_PACKET
        invariant result == ParseAll(h, state, handled, rest)
        decreases |rest|
      {
        match Parse(rest)
        case Whole(p, n) =>
          var more := Handle(p);
          if !more {
            return;
          }
          rest := rest[n..];
        case Malformed =>
          Disconnect();
          return;
        case Incomplete =>
          if TooLong(rest) {
            Disconnect();
            return;
          }
          Keep(rest);
          assert partial[..partialLen] == rest;
          return;
      }
    }

    method OnData(bytes: seq<Byte>)
      requires Valid()
      modifies this, partial
      ensures Valid() && View() == Receive(h, old(View()), bytes)
    {
      ReceiveSound(h, View(), bytes);
      if status != Open {
        return;
      }
      if partialLen == 0 {
        Segment(bytes);
        return;
      }
      var rest := bytes;
      if partialLen < 2 {
        var take := Min(2 - partialLen, |rest|);
        Keep(rest[..take]);
        rest := rest[take..];
        if partialLen < 2 {
          return;
        }
        if TooLong(partial[..2]) {
          Disconnect();
          return;
        }
      }
      FinishPartial(rest);
    }

    /** The length is known: finish the packet it announces. */
    method FinishPartial(bytes: seq<Byte>)
      requires partial.Length == MAX_PACKET && status == Open && 2 <= partialLen < MAX_PACKET
      requires partialLen <= Announced(partial[..partialLen]) && !TooLong(partial[..partialLen])
      modifies this, partial
      ensures Valid() && View() == Complete(h, old(View()), old(partial[..partialLen]), bytes)
    {
      ghost var link, have := View(), partial[..partialLen];
      CompleteSound(h, link, have, bytes);
      assert partial[..2][..2] == have[..2];
      var total := Announced(partial[..2]);
      hide Announced, Parse, Finish, Sound;
      var take := Min(total - partialLen, |bytes|);
      Keep(bytes[..take]);
      if partialLen < total {
        return;
      }
      HandleWhole(total, bytes[take..]);
    }

    /** The packet is whole: handle it, then the rest of the segment. */
    method HandleWhole(total: nat, rest: seq<Byte>)
      requires partial.Length == MAX_PACKET && partialLen <= MAX_PACKET && status == Open && total <= MAX_PACKET
      modifies this, partial
      ensures Valid() && View() == Finish(h, old(View()), old(partial[..total]), rest)
    {
      partialLen := 0;
      var parsed := Parse(partial[..total]);
      if !parsed.Whole? {
        Disconnect();
        return;
      }
      var more := Handle(parsed.packet);
      if more {
        Segment(rest);
      }
    }
  }
}
