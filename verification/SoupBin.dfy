/** SoupBinTCP 3.00 framing: a two-byte big-endian length counting everything
    after it, a type byte, and the payload; and its ASCII numeric fields. */
module SoupBin {
  import opened EngineTypes
  import opened Modular
  import opened Wire

  const HEADER_LEN: nat := 3
  const NUMERIC_LEN: nat := 20
  const SPACE: Byte := 32
  const ZERO: Byte := 48

  // Packet types.
  const LOGIN_ACCEPTED: Byte := 65   // 'A'
  const LOGIN_REJECTED: Byte := 74   // 'J'
  const SEQUENCED_DATA: Byte := 83   // 'S'
  const SERVER_HEARTBEAT: Byte := 72 // 'H'
  const END_OF_SESSION: Byte := 90   // 'Z'
  const DEBUG_PACKET: Byte := 43     // '+'
  const LOGIN_REQUEST: Byte := 76    // 'L'
  const UNSEQUENCED_DATA: Byte := 85 // 'U'
  const CLIENT_HEARTBEAT: Byte := 82 // 'R'
  const LOGOUT_REQUEST: Byte := 79   // 'O'

  datatype Packet = Packet(kind: Byte, payload: seq<Byte>)

  datatype Parsed = Whole(packet: Packet, consumed: nat) | Incomplete | Malformed

  /** The bytes a packet takes on the wire. */
  function Frame(p: Packet): seq<Byte> {
    Store(|p.payload| + 1, 2) + [p.kind] + p.payload
  }

  /** A payload the length field can announce. */
  predicate Frameable(p: Packet) {
    |p.payload| + 1 <= 0xFFFF
  }

  /** The total length the two bytes at the front announce. */
  function Announced(stream: seq<Byte>): nat
    requires |stream| >= 2
  {
    2 + Load(stream[..2])
  }

  /** The front of a stream: one whole packet, not enough of one, or a zero length. */
  function Parse(stream: seq<Byte>): (r: Parsed)
    ensures r.Whole? ==> 3 <= r.consumed <= |stream|
  {
    if |stream| < 2 then Incomplete
    else if Announced(stream) == 2 then Malformed
    else if |stream| < Announced(stream) then Incomplete
    else Whole(Packet(stream[2], stream[3..Announced(stream)]), Announced(stream))
  }

  lemma FrameLength(p: Packet, rest: seq<Byte>)
    requires Frameable(p)
    ensures |Frame(p)| == HEADER_LEN + |p.payload| && Announced(Frame(p) + rest) == |Frame(p)|
  {
    LoadStore(|p.payload| + 1, 2);
    assert Pow256(2) == 65536 by { assert Pow256(1) == 256 * Pow256(0); }
    assert (Frame(p) + rest)[..2] == Store(|p.payload| + 1, 2);
  }

  /** A framed packet parses back, whatever follows it. */
  lemma ParseFrame(p: Packet, rest: seq<Byte>)
    requires Frameable(p)
    ensures Parse(Frame(p) + rest) == Whole(p, |Frame(p)|)
    ensures (Frame(p) + rest)[|Frame(p)|..] == rest
  {
    FrameLength(p, rest);
    assert (Frame(p) + rest)[3..|Frame(p)|] == p.payload;
  }

  /** And what parses is exactly the frame of what it parses to. */
  lemma FrameParse(stream: seq<Byte>)
    requires Parse(stream).Whole?
    ensures var r := Parse(stream);
            Frameable(r.packet) && stream[..r.consumed] == Frame(r.packet)
  {
    var r := Parse(stream);
    StoreLoad(stream[..2]);
    assert Pow256(2) == 65536 by { assert Pow256(1) == 256 * Pow256(0); }
    assert stream[..r.consumed] == stream[..2] + [stream[2]] + stream[3..r.consumed];
  }

  /** Nothing short of a whole frame parses. */
  lemma ParsePrefix(p: Packet, n: nat)
    requires Frameable(p) && n < |Frame(p)|
    ensures Parse(Frame(p)[..n]) == Incomplete
  {
    FrameLength(p, []);
    assert Frame(p) + [] == Frame(p);
    if n >= 2 {
      assert Frame(p)[..n][..2] == Frame(p)[..2];
    }
  }

  /** A whole packet at the front is the same packet however much follows. */
  lemma ParseMore(x: seq<Byte>, y: seq<Byte>)
    ensures Parse(x).Whole? ==> Parse(x + y) == Parse(x) && (x + y)[Parse(x).consumed..] == x[Parse(x).consumed..] + y
    ensures Parse(x).Malformed? ==> Parse(x + y).Malformed?
    ensures |x| >= 2 ==> Announced(x + y) == Announced(x)
  {
    if |x| >= 2 {
      assert (x + y)[..2] == x[..2];
      if Parse(x).Whole? {
        assert (x + y)[3..Announced(x)] == x[3..Announced(x)];
      }
    }
  }

  /** The whole packets at the front of a stream. */
  function Packets(bytes: seq<Byte>): seq<Packet>
    decreases |bytes|
  {
    match Parse(bytes)
    case Whole(p, n) => [p] + Packets(bytes[n..])
    case _ => []
  }

  //--- numeric fields ---

  const TWO_64: nat := 0x1_0000_0000_0000_0000

  function Spaces(n: nat): seq<Byte> {
    seq(n, _ => SPACE)
  }

  /** value's decimal digits, none for zero. */
  function Digits(value: nat): seq<Byte> {
    if value == 0 then [] else Digits(value / 10) + [ZERO + value % 10]
  }

  /** value's digits right-justified in spaces. */
  function Justified(value: nat, width: nat): (field: seq<Byte>)
    ensures |field| == width
  {
    if width == 0 then [] else if value == 0 then Spaces(width)
    else Justified(value / 10, width - 1) + [ZERO + value % 10]
  }

  /** A numeric field: the same, but zero still shows one digit. */
  function Numeric(value: nat, width: nat): (field: seq<Byte>)
    ensures |field| == width
  {
    if width == 0 then [] else Justified(value / 10, width - 1) + [ZERO + value % 10]
  }

  predicate IsDigit(b: Byte) {
    ZERO <= b < ZERO + 10
  }

  predicate AllDigits(bytes: seq<Byte>) {
    forall k :: 0 <= k < |bytes| ==> IsDigit(bytes[k])
  }

  /** The number a run of digits spells. */
  function Decimal(digits: seq<Byte>): nat
    requires AllDigits(digits)
  {
    if digits == [] then 0 else Decimal(digits[..|digits| - 1]) * 10 + (digits[|digits| - 1] - ZERO)
  }

  /** The same, accumulated in 64-bit arithmetic. */
  function ValueOf(digits: seq<Byte>): (v: nat)
    requires AllDigits(digits)
    ensures v < TWO_64
  {
    if digits == [] then 0 else (ValueOf(digits[..|digits| - 1]) * 10 + (digits[|digits| - 1] - ZERO)) % TWO_64
  }

  /** Without an overflow check, a run of digits reads as its number modulo 2^64. */
  lemma {:induction false} ValueWraps(digits: seq<Byte>)
    requires AllDigits(digits)
    ensures ValueOf(digits) == Decimal(digits) % TWO_64
  {
    if digits != [] {
      var front := digits[..|digits| - 1];
      ValueWraps(front);
      WrapNext(Decimal(front), digits[|digits| - 1] - ZERO);
    }
  }

  lemma WrapNext(a: nat, digit: nat)
    ensures (a % TWO_64 * 10 + digit) % TWO_64 == (a * 10 + digit) % TWO_64
  {
    var q, r := a / TWO_64, a % TWO_64;
    var x := r * 10 + digit;
    assert a * 10 + digit == (10 * q + x / TWO_64) * TWO_64 + x % TWO_64;
    Remainder(10 * q + x / TWO_64, x % TWO_64, TWO_64);
  }

  lemma {:induction false} DigitsBack(value: nat)
    ensures AllDigits(Digits(value)) && Decimal(Digits(value)) == value
  {
    if value > 0 {
      DigitsBack(value / 10);
      var front, last := Digits(value / 10), ZERO + value % 10;
      assert Digits(value)[..|front|] == front && Digits(value)[|front|] == last;
    }
  }

  function Pow10(n: nat): nat {
    if n == 0 then 1 else 10 * Pow10(n - 1)
  }

  lemma {:induction false} DigitsLength(value: nat, n: nat)
    requires value < Pow10(n)
    ensures |Digits(value)| <= n
  {
    if value > 0 { DigitsLength(value / 10, n - 1); }
  }

  /** What 20 digits can spell takes in every 64-bit number, and more. */
  lemma FieldRange()
    ensures TWO_64 + 1 < Pow10(NUMERIC_LEN)
  {
    assert Pow10(10) == 10_000_000_000 by {
      assert Pow10(5) == 100_000 by { assert Pow10(2) == 100; assert Pow10(3) == 1_000; assert Pow10(4) == 10_000; }
      assert Pow10(6) == 1_000_000; assert Pow10(7) == 10_000_000; assert Pow10(8) == 100_000_000;
      assert Pow10(9) == 1_000_000_000;
    }
    assert Pow10(15) == 1_000_000_000_000_000 by {
      assert Pow10(11) == 100_000_000_000; assert Pow10(12) == 1_000_000_000_000;
      assert Pow10(13) == 10_000_000_000_000; assert Pow10(14) == 100_000_000_000_000;
    }
    assert Pow10(20) == 100_000_000_000_000_000_000 by {
      assert Pow10(16) == 10_000_000_000_000_000; assert Pow10(17) == 100_000_000_000_000_000;
      assert Pow10(18) == 1_000_000_000_000_000_000; assert Pow10(19) == 10_000_000_000_000_000_000;
    }
  }

  lemma {:induction false} JustifiedIs(value: nat, width: nat)
    requires |Digits(value)| <= width
    ensures Justified(value, width) == Spaces(width - |Digits(value)|) + Digits(value)
  {
    if value > 0 { JustifiedIs(value / 10, width - 1); }
  }

  method WriteNumeric(value: nat, field: array<Byte>)
    modifies field
    ensures field[..] == Numeric(value, field.Length)
  {
    var v, i := value, field.Length;
    while i > 0
      invariant 0 <= i <= field.Length
      invariant if i == field.Length then v == value
                else Numeric(value, field.Length) == Justified(v, i) + field[i..]
    {
      i := i - 1;
      if v == 0 && i + 1 < field.Length {
        field[i] := SPACE;
      } else {
        field[i] := ZERO + v % 10;
        v := v / 10;
      }
    }
  }

  /** The first place from which field stops being (or not being) spaces. */
  function Skip(field: seq<Byte>, from: nat, spaces: bool): (i: nat)
    requires from <= |field|
    ensures from <= i <= |field|
    ensures forall k :: from <= k < i ==> (field[k] == SPACE) == spaces
    ensures i < |field| ==> (field[i] == SPACE) != spaces
    decreases |field| - from
  {
    if from == |field| || (field[from] == SPACE) != spaces then from else Skip(field, from + 1, spaces)
  }

  /** A numeric field's value: spaces, then digits, then nothing but spaces. */
  function ReadValue(field: seq<Byte>): Option<nat> {
    var i := Skip(field, 0, true);
    var j := Skip(field, i, false);
    if i < j && AllDigits(field[i..j]) && Skip(field, j, true) == |field| then Some(ValueOf(field[i..j])) else None
  }

  method SkipSpaces(field: seq<Byte>, from: nat) returns (i: nat)
    requires from <= |field|
    ensures i == Skip(field, from, true)
  {
    i := from;
    while i < |field| && field[i] == SPACE
      invariant from <= i <= |field| && Skip(field, from, true) == Skip(field, i, true)
    {
      i := i + 1;
    }
  }

  /** Reads up to the next space; None if anything there is not a digit. */
  method ReadDigits(field: seq<Byte>, from: nat) returns (value: Option<nat>, end: nat)
    requires from <= |field|
    ensures var j := Skip(field, from, false);
            if AllDigits(field[from..j]) then value == Some(ValueOf(field[from..j])) && end == j else value == None
  {
    var v := 0;
    end := from;
    while end < |field| && field[end] != SPACE
      invariant from <= end <= |field| && Skip(field, from, false) == Skip(field, end, false)
      invariant AllDigits(field[from..end]) && v == ValueOf(field[from..end])
    {
      if !IsDigit(field[end]) {
        assert !IsDigit(field[from..Skip(field, from, false)][end - from]);
        return None, end;
      }
      assert field[from..end + 1][..end - from] == field[from..end];
      v := (v * 10 + (field[end] - ZERO)) % TWO_64;
      end := end + 1;
    }
    value := Some(v);
  }

  method ReadNumeric(field: seq<Byte>) returns (value: Option<nat>)
    ensures value == ReadValue(field)
  {
    var i := SkipSpaces(field, 0);
    if i == |field| {
      return None;
    }
    var v, j := ReadDigits(field, i);
    if v == None {
      return None;
    }
    var k := SkipSpaces(field, j);
    value := if k == |field| then v else None;
  }

  lemma SkipIs(field: seq<Byte>, from: nat, spaces: bool, i: nat)
    requires from <= i <= |field| && (forall k :: from <= k < i ==> (field[k] == SPACE) == spaces)
    requires i < |field| ==> (field[i] == SPACE) != spaces
    ensures Skip(field, from, spaces) == i
  {
  }

  /** field is digits, at least one, padded with spaces on either side. */
  ghost predicate Spells(field: seq<Byte>, digits: seq<Byte>) {
    digits != [] && AllDigits(digits) && exists a: nat, c: nat :: field == Spaces(a) + digits + Spaces(c)
  }

  lemma ReadPadded(a: nat, digits: seq<Byte>, c: nat)
    requires digits != [] && AllDigits(digits)
    ensures ReadValue(Spaces(a) + digits + Spaces(c)) == Some(ValueOf(digits))
  {
    var field := Spaces(a) + digits + Spaces(c);
    assert field[a..a + |digits|] == digits;
    assert forall k :: a <= k < a + |digits| ==> field[k] == digits[k - a];
    SkipIs(field, 0, true, a);
    SkipIs(field, a, false, a + |digits|);
    SkipIs(field, a + |digits|, true, |field|);
  }

  /** Exactly the fields that spell a number are read, and what is read is that
      number if and only if it fits 64 bits. */
  lemma ReadsExactly(field: seq<Byte>)
    ensures ReadValue(field).Some? <==> exists digits :: Spells(field, digits)
    ensures forall digits :: Spells(field, digits) ==>
              (ReadValue(field) == Some(Decimal(digits)) <==> Decimal(digits) < TWO_64)
  {
    hide ReadValue, Spells, Decimal;
    if ReadValue(field).Some? {
      var digits := ReadSpells(field);
    }
    forall digits | Spells(field, digits)
      ensures AllDigits(digits) && ReadValue(field) == Some(Decimal(digits) % TWO_64)
    {
      SpellsReads(field, digits);
    }
  }

  lemma ReadSpells(field: seq<Byte>) returns (digits: seq<Byte>)
    requires ReadValue(field).Some?
    ensures Spells(field, digits)
  {
    var i := Skip(field, 0, true);
    var j := Skip(field, i, false);
    digits := field[i..j];
    assert field == Spaces(i) + digits + Spaces(|field| - j);
  }

  lemma SpellsReads(field: seq<Byte>, digits: seq<Byte>)
    requires Spells(field, digits)
    ensures AllDigits(digits) && ReadValue(field) == Some(Decimal(digits) % TWO_64)
  {
    hide ReadValue, ValueOf, Decimal;
    var a: nat, c: nat :| field == Spaces(a) + digits + Spaces(c);
    ReadPadded(a, digits, c);
    ValueWraps(digits);
  }

  /** A number that fits 20 digits survives the 20-character field if and only if it
      fits 64 bits. */
  lemma NumericRoundTrip(value: nat)
    requires value < Pow10(NUMERIC_LEN)
    ensures ReadValue(Numeric(value, NUMERIC_LEN)) == Some(value % TWO_64)
    ensures ReadValue(Numeric(value, NUMERIC_LEN)) == Some(value) <==> value < TWO_64
  {
    hide ReadValue, ValueOf, Decimal, Pow10, Justified, Digits;
    DigitsLength(value, NUMERIC_LEN);
    if value == 0 {
      ZeroField();
    } else {
      var d := Digits(value);
      NumericIs(value);
      DigitsBack(value);
      ValueWraps(d);
      ReadPadded(NUMERIC_LEN - |d|, d, 0);
    }
  }

  lemma ZeroField()
    ensures ReadValue(Numeric(0, NUMERIC_LEN)) == Some(0)
  {
    hide ReadValue;
    assert Numeric(0, NUMERIC_LEN) == Spaces(NUMERIC_LEN - 1) + [ZERO] + Spaces(0);
    ReadPadded(NUMERIC_LEN - 1, [ZERO], 0);
    assert [ZERO][..0] == [];
  }

  lemma NumericIs(value: nat)
    requires value > 0 && |Digits(value)| <= NUMERIC_LEN
    ensures Digits(value) != []
    ensures Numeric(value, NUMERIC_LEN) == Spaces(NUMERIC_LEN - |Digits(value)|) + Digits(value) + Spaces(0)
  {
    var d := Digits(value);
    JustifiedIs(value, NUMERIC_LEN);
    assert Spaces(NUMERIC_LEN - |d|) + d == Spaces(NUMERIC_LEN - |d|) + d + Spaces(0);
  }

  /** The field spelling 2^64 reads as 0, and the one after it as 1. */
  lemma OverlongFields()
    ensures ReadValue(Numeric(TWO_64, NUMERIC_LEN)) == Some(0)
    ensures ReadValue(Numeric(TWO_64 + 1, NUMERIC_LEN)) == Some(1)
  {
    hide ReadValue, Numeric, Pow10;
    FieldRange();
    NumericRoundTrip(TWO_64);
    NumericRoundTrip(TWO_64 + 1);
  }
}
