/** What a logged-in connection is sent: Login Accepted, then the session's
    packets from the sequence number it starts with, in order, with heartbeats
    only between whole packets -- cut off wherever TCP stopped taking bytes. */
module Transcript {
  import opened Wire
  import opened SoupBin
  import L = SessionLog

  type Log = seq<seq<Byte>>

  /** "SIM", right-justified in ten characters. */
  const SESSION_ID: seq<Byte> := [32, 32, 32, 32, 32, 32, 32, 83, 73, 77]

  const HEARTBEAT := Packet(SERVER_HEARTBEAT, [])

  function AcceptedPacket(start: nat): Packet {
    Packet(LOGIN_ACCEPTED, SESSION_ID + Numeric(start, NUMERIC_LEN))
  }

  function Offset(log: Log, i: nat): nat
    requires i <= |log|
  {
    L.Offset(log, i)
  }

  /** How far one connection has been served: the sequence number it starts with;
      whether Login Accepted is out; before which packets (counted from 0) a
      heartbeat went out whole; the stream offset of the next byte to send; and
      how much of the control packet in hand is out, standing before packet mark. */
  datatype Transcript = Transcript(
    clientId: nat, start: nat, accepted: bool, beats: seq<nat>, cursor: nat, control: nat, mark: nat)

  /** beats are in order, none beyond the cursor. */
  ghost predicate InStep(log: Log, start: nat, beats: seq<nat>, cursor: nat) {
    && 1 <= start <= |log| + 1 && Offset(log, start - 1) <= cursor <= |Stream(log)|
    && (forall i :: 0 <= i < |beats| ==> start - 1 <= beats[i] <= |log| && Offset(log, beats[i]) <= cursor)
    && (forall i, j :: 0 <= i < j < |beats| ==> beats[i] <= beats[j])
  }

  ghost predicate Good(t: Transcript, log: Log) {
    && InStep(log, t.start, t.beats, t.cursor)
    && t.start - 1 <= t.mark <= |log|
    && (if t.accepted then
          t.control < |Frame(HEARTBEAT)| && (t.control > 0 ==> Offset(log, t.mark) == t.cursor)
        else
          t.control < |Frame(AcceptedPacket(t.start))| && t.beats == [] && t.cursor == Offset(log, t.start - 1))
  }

  /** The session's bytes from start up to cursor, a heartbeat before each packet
      listed. */
  function Weave(log: Log, start: nat, beats: seq<nat>, cursor: nat): seq<Byte>
    requires InStep(log, start, beats, cursor)
  {
    if beats == [] then Stream(log)[Offset(log, start - 1)..cursor]
    else
      var last := Offset(log, beats[|beats| - 1]);
      L.OffsetsRise(log, start - 1, beats[|beats| - 1]);
      BeatsBefore(log, start, beats, cursor);
      Weave(log, start, beats[..|beats| - 1], last) + Frame(HEARTBEAT) + Stream(log)[last..cursor]
  }

  lemma BeatsBefore(log: Log, start: nat, beats: seq<nat>, cursor: nat)
    requires InStep(log, start, beats, cursor) && beats != []
    ensures InStep(log, start, beats[..|beats| - 1], Offset(log, beats[|beats| - 1]))
  {
    var last := beats[|beats| - 1];
    L.OffsetsRise(log, start - 1, last);
    L.StreamFrom(log, last);
    forall i | 0 <= i < |beats| - 1 ensures Offset(log, beats[i]) <= Offset(log, last) {
      assert beats[i] <= last;
      L.OffsetsRise(log, beats[i], last);
    }
  }

  /** All the bytes the connection has been handed. */
  function Render(t: Transcript, log: Log): seq<Byte>
    requires Good(t, log)
  {
    if t.accepted then
      Frame(AcceptedPacket(t.start)) + Weave(log, t.start, t.beats, t.cursor) + Frame(HEARTBEAT)[..t.control]
    else Frame(AcceptedPacket(t.start))[..t.control]
  }

  //--- what each send adds ---

  /** n more bytes of the log. */
  lemma SendData(t: Transcript, log: Log, n: nat)
    requires Good(t, log) && t.accepted && t.control == 0 && t.cursor + n <= |Stream(log)|
    ensures Good(t.(cursor := t.cursor + n), log)
    ensures Render(t.(cursor := t.cursor + n), log) == Render(t, log) + Stream(log)[t.cursor..t.cursor + n]
  {
    hide Frame, Weave, InStep;
    WeaveMore(log, t.start, t.beats, t.cursor, n);
    var a, w := Frame(AcceptedPacket(t.start)), Weave(log, t.start, t.beats, t.cursor);
    var more := Stream(log)[t.cursor..t.cursor + n];
    assert a + (w + more) + [] == a + w + [] + more;
  }

  lemma WeaveMore(log: Log, start: nat, beats: seq<nat>, cursor: nat, n: nat)
    requires InStep(log, start, beats, cursor) && cursor + n <= |Stream(log)|
    ensures InStep(log, start, beats, cursor + n)
    ensures Weave(log, start, beats, cursor + n) == Weave(log, start, beats, cursor) + Stream(log)[cursor..cursor + n]
  {
    var from := if beats == [] then Offset(log, start - 1) else Offset(log, beats[|beats| - 1]);
    assert Stream(log)[from..cursor + n] == Stream(log)[from..cursor] + Stream(log)[cursor..cursor + n];
  }

  /** The control packet in hand: Login Accepted first, heartbeats after. */
  function ControlFrame(t: Transcript): seq<Byte> {
    if t.accepted then Frame(HEARTBEAT) else Frame(AcceptedPacket(t.start))
  }

  /** What the transcript becomes when n bytes of the control packet go out. */
  function Controlled(t: Transcript, n: nat): Transcript {
    if t.control + n < |ControlFrame(t)| then t.(control := t.control + n)
    else if t.accepted then t.(control := 0, beats := t.beats + [t.mark])
    else t.(control := 0, accepted := true)
  }

  /** Sequenced Data packets are never empty. */
  ghost predicate NonEmpty(log: Log) {
    forall i :: 0 <= i < |log| ==> log[i] != []
  }

  /** n more bytes of the control packet. */
  lemma SendControl(t: Transcript, log: Log, n: nat)
    requires NonEmpty(log) && Good(t, log) && (t.accepted ==> Offset(log, t.mark) == t.cursor)
    requires t.control + n <= |ControlFrame(t)|
    ensures Good(Controlled(t, n), log)
    ensures Render(Controlled(t, n), log) == Render(t, log) + ControlFrame(t)[t.control..t.control + n]
  {
    hide Frame, Weave, InStep, Offset;
    var whole := ControlFrame(t);
    assert whole[..t.control] + whole[t.control..t.control + n] == whole[..t.control + n];
    if t.control + n < |whole| {
      if t.accepted {
        var a := Frame(AcceptedPacket(t.start)) + Weave(log, t.start, t.beats, t.cursor);
        assert a + whole[..t.control] + whole[t.control..t.control + n]
            == a + (whole[..t.control] + whole[t.control..t.control + n]);
      }
    } else {
      assert whole[..|whole|] == whole;
      FinishControl(t, log, n);
    }
  }

  lemma FinishControl(t: Transcript, log: Log, n: nat)
    requires NonEmpty(log) && Good(t, log) && (t.accepted ==> Offset(log, t.mark) == t.cursor)
    requires t.control + n == |ControlFrame(t)|
    ensures Good(Controlled(t, n), log)
    ensures Render(Controlled(t, n), log) == Render(t, log) + ControlFrame(t)[t.control..]
  {
    hide Frame, Weave, InStep, Offset, NonEmpty;
    if t.accepted {
      FinishBeat(t, log, n);
    } else {
      FinishLogin(t, log, n);
    }
  }

  lemma FinishBeat(t: Transcript, log: Log, n: nat)
    requires NonEmpty(log) && Good(t, log) && t.accepted && Offset(log, t.mark) == t.cursor
    requires t.control + n == |ControlFrame(t)|
    ensures Good(Controlled(t, n), log)
    ensures Render(Controlled(t, n), log) == Render(t, log) + ControlFrame(t)[t.control..]
  {
    hide Frame, Weave, InStep, Offset, NonEmpty, Stream, AcceptedPacket;
    FrameLength(HEARTBEAT, []);
    var whole := ControlFrame(t);
    NewBeat(log, t.start, t.beats, t.cursor, t.mark);
    var a, w := Frame(AcceptedPacket(t.start)), Weave(log, t.start, t.beats, t.cursor);
    assert whole == whole[..t.control] + whole[t.control..];
    assert a + (w + whole) + [] == a + w + whole[..t.control] + whole[t.control..];
  }

  lemma FinishLogin(t: Transcript, log: Log, n: nat)
    requires NonEmpty(log) && Good(t, log) && !t.accepted
    requires t.control + n == |ControlFrame(t)|
    ensures Good(Controlled(t, n), log)
    ensures Render(Controlled(t, n), log) == Render(t, log) + ControlFrame(t)[t.control..]
  {
    hide Frame, Offset, NonEmpty, Stream, AcceptedPacket;
    FrameLength(HEARTBEAT, []);
    var whole := ControlFrame(t);
    assert whole == whole[..t.control] + whole[t.control..];
    assert Weave(log, t.start, [], t.cursor) == [];
    assert whole + [] + [] == whole;
  }

  lemma OffsetsStrict(log: Log, i: nat, j: nat)
    requires NonEmpty(log) && i < j <= |log|
    ensures Offset(log, i) < Offset(log, j)
  {
    L.OffsetsRise(log, i, j - 1);
    assert log[..j][..j - 1] == log[..j - 1];
  }

  lemma NewBeat(log: Log, start: nat, beats: seq<nat>, cursor: nat, mark: nat)
    requires NonEmpty(log) && InStep(log, start, beats, cursor)
    requires start - 1 <= mark <= |log| && Offset(log, mark) == cursor
    ensures InStep(log, start, beats + [mark], cursor)
    ensures Weave(log, start, beats + [mark], cursor) == Weave(log, start, beats, cursor) + Frame(HEARTBEAT)
  {
    hide Offset;
    var more := beats + [mark];
    forall i | 0 <= i < |beats| ensures beats[i] <= mark {
      if mark < beats[i] { OffsetsStrict(log, mark, beats[i]); }
    }
    assert more[..|beats|] == beats;
    assert Stream(log)[cursor..cursor] == [];
    assert Weave(log, start, beats, cursor) + Frame(HEARTBEAT) + [] == Weave(log, start, beats, cursor) + Frame(HEARTBEAT);
  }

  //--- nothing already sent changes as the session goes on ---

  lemma StepStable(log: Log, packet: seq<Byte>, start: nat, beats: seq<nat>, cursor: nat)
    requires InStep(log, start, beats, cursor)
    ensures InStep(log + [packet], start, beats, cursor)
  {
    L.OffsetStable(log, packet, start - 1);
    forall i | 0 <= i < |beats| ensures Offset(log + [packet], beats[i]) == Offset(log, beats[i]) {
      L.OffsetStable(log, packet, beats[i]);
    }
  }

  lemma {:induction false} WeaveStable(log: Log, packet: seq<Byte>, start: nat, beats: seq<nat>, cursor: nat)
    requires InStep(log, start, beats, cursor)
    ensures InStep(log + [packet], start, beats, cursor)
    ensures Weave(log + [packet], start, beats, cursor) == Weave(log, start, beats, cursor)
    decreases |beats|
  {
    StepStable(log, packet, start, beats, cursor);
    L.OffsetStable(log, packet, start - 1);
    var from := if beats == [] then start - 1 else beats[|beats| - 1];
    L.OffsetStable(log, packet, from);
    assert Stream(log + [packet])[Offset(log, from)..cursor] == Stream(log)[Offset(log, from)..cursor];
    if beats != [] {
      BeatsBefore(log, start, beats, cursor);
      WeaveStable(log, packet, start, beats[..|beats| - 1], Offset(log, from));
    }
  }

  lemma RenderStable(t: Transcript, log: Log, packet: seq<Byte>)
    requires Good(t, log)
    ensures Good(t, log + [packet]) && Render(t, log + [packet]) == Render(t, log)
  {
    hide Weave, InStep;
    StepStable(log, packet, t.start, t.beats, t.cursor);
    WeaveStable(log, packet, t.start, t.beats, t.cursor);
    StartIn(log, t.start, t.beats, t.cursor);
    L.OffsetStable(log, packet, t.mark);
    L.OffsetStable(log, packet, t.start - 1);
  }

  lemma StartIn(log: Log, start: nat, beats: seq<nat>, cursor: nat)
    requires InStep(log, start, beats, cursor)
    ensures 1 <= start <= |log| + 1
  {
  }

  //--- what the other end can make of it ---

  /** The log is the session's messages, each framed as Sequenced Data. */
  ghost predicate Sequenced(log: Log, payloads: seq<seq<Byte>>) {
    && |log| == |payloads|
    && (forall i :: 0 <= i < |log| ==>
          log[i] == Frame(Packet(SEQUENCED_DATA, payloads[i])) && Frameable(Packet(SEQUENCED_DATA, payloads[i])))
  }

  function Data(payloads: seq<seq<Byte>>): seq<Packet> {
    seq(|payloads|, i requires 0 <= i < |payloads| => Packet(SEQUENCED_DATA, payloads[i]))
  }

  function Frames(packets: seq<Packet>): seq<seq<Byte>> {
    seq(|packets|, i requires 0 <= i < |packets| => Frame(packets[i]))
  }

  /** Heartbeats in order, each before some packet from start on or at the end. */
  predicate Placed(start: nat, beats: seq<nat>, upto: nat) {
    && 1 <= start && start - 1 <= upto
    && (forall i :: 0 <= i < |beats| ==> start - 1 <= beats[i] <= upto)
    && (forall i, j :: 0 <= i < j < |beats| ==> beats[i] <= beats[j])
  }

  /** The packets woven: messages from start up to (not including) number upto,
      heartbeats where they fell. */
  function Items(payloads: seq<seq<Byte>>, start: nat, beats: seq<nat>, upto: nat): seq<Packet>
    requires Placed(start, beats, upto) && upto <= |payloads|
  {
    if beats == [] then Data(payloads[start - 1..upto])
    else
      var last := beats[|beats| - 1];
      Items(payloads, start, beats[..|beats| - 1], last) + [HEARTBEAT] + Data(payloads[last..upto])
  }

  lemma FramesAppend(xs: seq<Packet>, ys: seq<Packet>)
    ensures Stream(Frames(xs + ys)) == Stream(Frames(xs)) + Stream(Frames(ys))
  {
    assert Frames(xs + ys) == Frames(xs) + Frames(ys);
    StreamAppend(Frames(xs), Frames(ys));
  }

  lemma StreamSlice(log: Log, i: nat, j: nat)
    requires i <= j <= |log|
    ensures Offset(log, i) <= Offset(log, j) <= |Stream(log)|
    ensures Stream(log)[Offset(log, i)..Offset(log, j)] == Stream(log[i..j])
  {
    L.OffsetsRise(log, i, j);
    L.StreamFrom(log, j);
    L.StreamFrom(log[..j], i);
    assert log[..j][i..] == log[i..j];
    assert log[..j][..i] == log[..i];
    assert Stream(log)[Offset(log, i)..Offset(log, j)] == Stream(log)[..Offset(log, j)][Offset(log, i)..];
  }

  lemma SequencedSlice(log: Log, payloads: seq<seq<Byte>>, i: nat, j: nat)
    requires Sequenced(log, payloads) && i <= j <= |log|
    ensures Frames(Data(payloads[i..j])) == log[i..j]
  {
  }

  /** Up to a packet boundary, the woven bytes are whole frames. */
  lemma {:induction false} WeaveItems(log: Log, payloads: seq<seq<Byte>>, start: nat, beats: seq<nat>, upto: nat)
    requires Sequenced(log, payloads) && Placed(start, beats, upto) && upto <= |log|
    ensures InStep(log, start, beats, Offset(log, upto))
    ensures Weave(log, start, beats, Offset(log, upto)) == Stream(Frames(Items(payloads, start, beats, upto)))
    decreases |beats|
  {
    StreamSlice(log, start - 1, upto);
    forall i | 0 <= i < |beats| ensures Offset(log, beats[i]) <= Offset(log, upto) {
      StreamSlice(log, beats[i], upto);
    }
    if beats == [] {
      SequencedSlice(log, payloads, start - 1, upto);
    } else {
      var last := beats[|beats| - 1];
      var front := beats[..|beats| - 1];
      WeaveItems(log, payloads, start, front, last);
      SequencedSlice(log, payloads, last, upto);
      StreamSlice(log, last, upto);
      var items := Items(payloads, start, front, last);
      FramesAppend(items + [HEARTBEAT], Data(payloads[last..upto]));
      FramesAppend(items, [HEARTBEAT]);
      assert Frames([HEARTBEAT]) == [Frame(HEARTBEAT)];
      StreamOne(Frame(HEARTBEAT));
    }
  }

  /** Where heartbeats stand, counting one partly sent. */
  function Beats(t: Transcript): seq<nat> {
    if t.accepted && t.control > 0 then t.beats + [t.mark] else t.beats
  }

  lemma BeatsInStep(t: Transcript, log: Log)
    requires NonEmpty(log) && Good(t, log)
    ensures InStep(log, t.start, Beats(t), t.cursor)
  {
    if t.accepted && t.control > 0 {
      NewBeat(log, t.start, t.beats, t.cursor, t.mark);
    }
  }

  lemma WeaveWithin(log: Log, payloads: seq<seq<Byte>>, start: nat, beats: seq<nat>, cursor: nat)
    requires Sequenced(log, payloads) && InStep(log, start, beats, cursor)
    ensures Weave(log, start, beats, cursor) <= Stream(Frames(Items(payloads, start, beats, |log|)))
  {
    hide Weave, Items, Frames, Sequenced;
    L.OffsetStable(log, [], |log|);
    WeaveItems(log, payloads, start, beats, |log|);
    WeaveMore(log, start, beats, cursor, |Stream(log)| - cursor);
  }

  /** Everything the connection was ever handed is the start of: Login Accepted,
      then the session's messages from its number on, heartbeats between. */
  lemma RenderIsPrefix(t: Transcript, log: Log, payloads: seq<seq<Byte>>)
    requires Sequenced(log, payloads) && NonEmpty(log) && Good(t, log)
    ensures InStep(log, t.start, Beats(t), t.cursor)
    ensures Render(t, log) <= Stream(Frames([AcceptedPacket(t.start)] + Items(payloads, t.start, Beats(t), |log|)))
  {
    hide Weave, NonEmpty, Items, Frame;
    BeatsInStep(t, log);
    var items := Items(payloads, t.start, Beats(t), |log|);
    var a, w := Frame(AcceptedPacket(t.start)), Weave(log, t.start, Beats(t), t.cursor);
    WeaveWithin(log, payloads, t.start, Beats(t), t.cursor);
    FramesAppend([AcceptedPacket(t.start)], items);
    assert Frames([AcceptedPacket(t.start)]) == [a];
    StreamOne(a);
    assert a + w <= a + Stream(Frames(items));
    if t.accepted {
      RenderWithin(t, log);
    }
  }

  lemma RenderWithin(t: Transcript, log: Log)
    requires NonEmpty(log) && Good(t, log) && t.accepted && InStep(log, t.start, Beats(t), t.cursor)
    ensures Render(t, log) <= Frame(AcceptedPacket(t.start)) + Weave(log, t.start, Beats(t), t.cursor)
  {
    hide Frame, Weave, InStep, NonEmpty;
    var a, w := Frame(AcceptedPacket(t.start)), Weave(log, t.start, t.beats, t.cursor);
    if t.control > 0 {
      NewBeat(log, t.start, t.beats, t.cursor, t.mark);
      var h := Frame(HEARTBEAT);
      assert h == h[..t.control] + h[t.control..];
      assert a + (w + h) == a + w + h[..t.control] + h[t.control..];
    }
  }

  /** However much of a framed list arrives, what parses is the start of the list. */
  lemma {:induction false} PacketsOfPrefix(items: seq<Packet>, x: seq<Byte>)
    requires forall i :: 0 <= i < |items| ==> Frameable(items[i])
    requires x <= Stream(Frames(items))
    ensures Packets(x) <= items
    decreases |items|
  {
    if items == [] {
      assert x == [];
    } else {
      var f := Frame(items[0]);
      assert items == [items[0]] + items[1..];
      FramesAppend([items[0]], items[1..]);
      assert Frames([items[0]]) == [f];
      StreamOne(f);
      assert Stream(Frames(items)) == f + Stream(Frames(items[1..]));
      if |x| < |f| {
        assert x == f[..|x|];
        ParsePrefix(items[0], |x|);
      } else {
        var rest := x[|f|..];
        assert x == f + rest;
        ParseFrame(items[0], rest);
        PacketsOfPrefix(items[1..], rest);
      }
    }
  }
}
