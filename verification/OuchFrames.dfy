/** The responder's answers as bytes: the OUCH message each becomes, that it always
    fits the buffer a Sequenced Data packet is built in, and that the client reads
    the same fields back. */
module OuchFrames {
  import opened Wire
  import opened OuchCodec
  import opened OuchResponder
  import SoupBin
  import Outbound

  //--- sizes ---

  lemma {:induction false} CoreCap(types: seq<FieldType>, width: nat)
    requires forall i :: 0 <= i < |types| ==> types[i].width <= width
    ensures CoreSize(types) <= width * |types|
  {
    if types != [] {
      CoreCap(types[1..], width);
      assert width * |types| == width + width * (|types| - 1);
    }
  }

  lemma {:induction false} CoreJoin(xs: seq<FieldType>, ys: seq<FieldType>)
    ensures CoreSize(xs + ys) == CoreSize(xs) + CoreSize(ys)
  {
    if xs == [] {
      assert xs + ys == ys;
    } else {
      assert (xs + ys)[1..] == xs[1..] + ys;
      CoreJoin(xs[1..], ys);
    }
  }

  /** Fields of at most eight bytes, then single letters, then a ClOrdId. */
  lemma CoreBound(types: seq<FieldType>, n: nat)
    requires n < |types| && types[|types| - 1] == CL_ORD_ID
    requires forall i :: 0 <= i < n ==> types[i].width <= 8
    requires forall i :: n <= i < |types| - 1 ==> types[i].width <= 1
    ensures CoreSize(types) <= 8 * n + (|types| - 1 - n) + 14
  {
    assert CoreSize([CL_ORD_ID]) == 14;
    hide CoreSize;
    var front, letters := types[..n], types[n..|types| - 1];
    CoreCap(front, 8);
    CoreCap(letters, 1);
    CoreJoin(front, letters);
    CoreJoin(front + letters, [CL_ORD_ID]);
    ThreeParts(types, n);
  }

  lemma ThreeParts(types: seq<FieldType>, n: nat)
    requires n < |types|
    ensures types == types[..n] + types[n..|types| - 1] + [types[|types| - 1]]
  {
  }

  /** At most four bytes to an option, but for one of eight. */
  lemma {:induction false} OptionsBound(tags: seq<TagSpec>)
    requires forall i :: 0 <= i < |tags| ==> tags[i].fieldType.width <= 4 || (tags[i].tag == 9 && tags[i].fieldType.width <= 8)
    requires forall i, j :: 0 <= i < j < |tags| ==> tags[i].tag != tags[j].tag
    ensures LongestAppendage(tags) <= 6 * |tags| + (if exists i :: 0 <= i < |tags| && tags[i].tag == 9 then 4 else 0)
  {
    if tags != [] {
      OptionsBound(tags[1..]);
      if i :| 0 <= i < |tags| - 1 && tags[1..][i].tag == 9 {
        assert tags[i + 1].tag == 9;
      }
    }
  }

  lemma AcceptedFits()
    ensures CoreSize(ORDER_ACCEPTED.core) <= 98 && LongestAppendage(ORDER_ACCEPTED.tags) <= 130
  {
    hide LongestAppendage, CoreSize;
    SchemasGood(false, 65);
    CoreBound(ORDER_ACCEPTED.core, 10);
    OptionsBound(ORDER_ACCEPTED.tags);
  }

  lemma ReplacedFits()
    ensures CoreSize(ORDER_REPLACED.core) <= 106 && LongestAppendage(ORDER_REPLACED.tags) <= 76
  {
    hide LongestAppendage, CoreSize;
    SchemasGood(false, 85);
    CoreBound(ORDER_REPLACED.core, 11);
    OptionsBound(ORDER_REPLACED.tags);
  }

  lemma ShortFits(s: Schema)
    requires s == ORDER_CANCELED || s == ORDER_EXECUTED || s == ORDER_REJECTED
    ensures CoreSize(s.core) <= 98 && LongestAppendage(s.tags) == 3
  {
    CoreCap(s.core, 14);
    assert s.tags[1..] == [];
  }

  /** Whatever optional fields it carries, an OUCH message to a client fits a
      Sequenced Data packet in the server's scratch buffer. */
  lemma OutboundFits(kind: Byte, m: Message)
    requires OutboundSchema(kind).Some? && GoodMessage(OutboundSchema(kind).value, m)
    ensures var s := OutboundSchema(kind).value;
            GoodSchema(s) && 0 < |Encoded(s, m)| && SoupBin.HEADER_LEN + |Encoded(s, m)| <= Outbound.MAX_SOUP_PACKET
  {
    hide CoreSize, LongestAppendage, GoodSchema, GoodMessage, Encoded, Appendage, CoreBytes;
    var s := OutboundSchema(kind).value;
    SchemasGood(false, kind);
    SizeExact(s, m);
    GoodOptionsOf(s, m);
    AppendageLength(s.tags, m.options, m.present);
    match kind
    case 65 => AcceptedFits();
    case 85 => ReplacedFits();
    case _ => ShortFits(s);
  }

  //--- the message of each answer ---

  /** Fields as the wire has them: unsigned numbers of their width, one letter, or
      letters padded with spaces. */
  function U16Of(n: nat): Value { Num(n % 0x1_0000) }

  function U32Of(n: nat): Value { Num(n % 0x1_0000_0000) }

  function U64Of(n: nat): Value { Num(n % 0x1_0000_0000_0000_0000) }

  function Letter(c: char): Value { Num(c as int % 256) }

  function Letters(s: string, width: nat): Value {
    Text(seq(width, i => if 0 <= i < |s| then s[i] as int % 256 else 32))
  }

  /** The type byte of each answer. */
  function Kind(frame: Frame): (kind: Byte)
    ensures OutboundSchema(kind).Some?
  {
    match frame
    case FrameAccepted(_, _, _, _, _, _, _, _, _, _, _, _, _) => 65
    case FrameReplaced(_, _, _, _, _, _, _, _, _, _, _, _, _, _) => 85
    case FrameCanceled(_, _, _) => 67
    case FrameExecuted(_, _, _, _, _) => 69
    case FrameRejected(_, _, _) => 74
  }

  function SchemaOf(frame: Frame): Schema {
    OutboundSchema(Kind(frame)).value
  }

  /** Every core field, in wire order. */
  function CoreOf(frame: Frame, stamp: nat): seq<Value> {
    [Num(Kind(frame)), U64Of(stamp)] +
    match frame
    case FrameAccepted(ref, side, quantity, symbol, price, tif, display, order, capacity, sweep, cross, state, id) =>
      [U32Of(ref), Letter(side), U32Of(quantity), Letters(symbol, 8), U64Of(price), Letter(tif), Letter(display),
       U64Of(order), Letter(capacity), Letter(sweep), Letter(cross), Letter(state), Letters(id, 14)]
    case FrameReplaced(orig, ref, side, quantity, symbol, price, tif, display, order, capacity, sweep, cross, state, id) =>
      [U32Of(orig), U32Of(ref), Letter(side), U32Of(quantity), Letters(symbol, 8), U64Of(price), Letter(tif),
       Letter(display), U64Of(order), Letter(capacity), Letter(sweep), Letter(cross), Letter(state), Letters(id, 14)]
    case FrameCanceled(ref, decrement, reason) => [U32Of(ref), U32Of(decrement), Letter(reason)]
    case FrameExecuted(ref, shares, price, flag, matchNumber) =>
      [U32Of(ref), U32Of(shares), U64Of(price), Letter(flag), U64Of(matchNumber)]
    case FrameRejected(ref, reason, id) => [U32Of(ref), U16Of(reason), Letters(id, 14)]
  }

  /** Answers carry no optional fields. */
  function MessageOf(frame: Frame, stamp: nat): Message {
    Message(CoreOf(frame, stamp), Defaults(SchemaOf(frame).tags), {})
  }

  lemma {:induction false} DefaultsAt(tags: seq<TagSpec>)
    requires DistinctTags(tags)
    ensures forall i :: 0 <= i < |tags| ==>
              tags[i].tag in Defaults(tags) && Defaults(tags)[tags[i].tag] == tags[i].default
  {
    if tags != [] {
      DefaultsAt(tags[1..]);
      forall i | 0 <= i < |tags|
        ensures tags[i].tag in Defaults(tags) && Defaults(tags)[tags[i].tag] == tags[i].default
      {
        if i > 0 { assert tags[1..][i - 1] == tags[i]; }
      }
    }
  }

  lemma CoreTyped(frame: Frame, stamp: nat)
    ensures TypedFields(SchemaOf(frame).core, CoreOf(frame, stamp))
  {
    hide Pow256;
    Powers();
  }

  lemma MessageGood(frame: Frame, stamp: nat)
    ensures GoodSchema(SchemaOf(frame)) && GoodMessage(SchemaOf(frame), MessageOf(frame, stamp))
  {
    hide Typed, CoreOf, OutboundSchema, TypedFields, LongestAppendage;
    CoreTyped(frame, stamp);
    SchemasGood(false, Kind(frame));
    DefaultsAt(SchemaOf(frame).tags);
  }

  /** What is put in the Sequenced Data packet. */
  function Payload(frame: Frame, stamp: nat): seq<Byte> {
    MessageGood(frame, stamp);
    Encoded(SchemaOf(frame), MessageOf(frame, stamp))
  }

  /** An answer is never too long to send, and the client that decodes it has the
      type and every field of the answer. */
  lemma PayloadFits(frame: Frame, stamp: nat)
    ensures 0 < |Payload(frame, stamp)| <= Outbound.MAX_SOUP_PACKET - SoupBin.HEADER_LEN
    ensures var read := DecodeFrame(false, Payload(frame, stamp));
            read.Some? && read.value.core == CoreOf(frame, stamp) && read.value.present == {}
  {
    hide Encoded, DecodeFrame, GoodSchema, GoodMessage, OutboundSchema, TypedFields;
    MessageGood(frame, stamp);
    OutboundFits(Kind(frame), MessageOf(frame, stamp));
    FrameRoundTrip(false, Kind(frame), MessageOf(frame, stamp));
  }

  //--- what the client reads, field by field ---

  predicate Is16(v: Value, n: nat) { v == Num(n % 0x1_0000) }

  predicate Is32(v: Value, n: nat) { v == Num(n % 0x1_0000_0000) }

  predicate Is64(v: Value, n: nat) { v == Num(n % 0x1_0000_0000_0000_0000) }

  predicate IsChar(v: Value, c: char) { v == Num(c as int % 256) }

  /** The string's characters, spaces behind it, cut to the field. */
  predicate IsText(v: Value, s: string, width: nat) {
    v.Text? && |v.bytes| == width && forall i :: 0 <= i < width ==> v.bytes[i] == if i < |s| then s[i] as int % 256 else 32
  }

  /** The type, the timestamp, then each field of the answer in the order OUCH 5.0
      has them. */
  ghost predicate Reads(core: seq<Value>, f: Frame, stamp: nat) {
    && |core| > 2 && Is64(core[1], stamp)
    && (match f
        case FrameAccepted(_, _, _, _, _, _, _, _, _, _, _, _, _) =>
          && |core| == 15 && core[0] == Num(65) && Is32(core[2], f.userRefNum) && IsChar(core[3], f.side)
          && Is32(core[4], f.quantity) && IsText(core[5], f.symbol, 8) && Is64(core[6], f.price)
          && IsChar(core[7], f.timeInForce) && IsChar(core[8], f.display) && Is64(core[9], f.orderRef)
          && IsChar(core[10], f.capacity) && IsChar(core[11], f.intermarketSweep) && IsChar(core[12], f.crossType)
          && IsChar(core[13], f.orderState) && IsText(core[14], f.clOrdId, 14)
        case FrameReplaced(_, _, _, _, _, _, _, _, _, _, _, _, _, _) =>
          && |core| == 16 && core[0] == Num(85) && Is32(core[2], f.origUserRefNum) && Is32(core[3], f.userRefNum)
          && IsChar(core[4], f.side) && Is32(core[5], f.quantity) && IsText(core[6], f.symbol, 8) && Is64(core[7], f.price)
          && IsChar(core[8], f.timeInForce) && IsChar(core[9], f.display) && Is64(core[10], f.orderRef)
          && IsChar(core[11], f.capacity) && IsChar(core[12], f.intermarketSweep) && IsChar(core[13], f.crossType)
          && IsChar(core[14], f.orderState) && IsText(core[15], f.clOrdId, 14)
        case FrameCanceled(_, _, _) =>
          && |core| == 5 && core[0] == Num(67) && Is32(core[2], f.userRefNum) && Is32(core[3], f.decrement)
          && IsChar(core[4], f.cancelReason)
        case FrameExecuted(_, _, _, _, _) =>
          && |core| == 7 && core[0] == Num(69) && Is32(core[2], f.userRefNum) && Is32(core[3], f.shares)
          && Is64(core[4], f.executionPrice) && IsChar(core[5], f.liquidityFlag) && Is64(core[6], f.matchNumber)
        case FrameRejected(_, _, _) =>
          && |core| == 5 && core[0] == Num(74) && Is32(core[2], f.userRefNum) && Is16(core[3], f.rejectReason)
          && IsText(core[4], f.clOrdId, 14))
  }

  /** The client that decodes an answer's bytes reads every field of it, each in its
      place. */
  lemma ClientReads(frame: Frame, stamp: nat)
    ensures var read := DecodeFrame(false, Payload(frame, stamp));
            read.Some? && Reads(read.value.core, frame, stamp)
  {
    hide DecodeFrame, Payload, CoreOf, Reads;
    PayloadFits(frame, stamp);
    CoreReads(frame, stamp);
  }

  lemma CoreReads(frame: Frame, stamp: nat)
    ensures Reads(CoreOf(frame, stamp), frame, stamp)
  {
    hide OutboundSchema;
  }
}
