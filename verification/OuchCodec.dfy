/** The OUCH 5.0 wire codec: each message is a list of core fields, then a
    two-byte Appendage Length and TagValue elements for the optional fields
    present. One field list per message drives size, encode and decode. */
module OuchCodec {
  import opened EngineTypes
  import opened Wire

  datatype FieldType = Uint(width: nat) | Int(width: nat) | Alpha(width: nat)

  datatype Value = Num(n: int) | Text(bytes: seq<Byte>)

  /** A value its field can hold. */
  predicate Typed(t: FieldType, v: Value) {
    match t
    case Uint(w) => v.Num? && 0 <= v.n < Pow256(w)
    case Int(w) => v.Num? && -(Pow256(w) / 2) <= v.n < Pow256(w) - Pow256(w) / 2
    case Alpha(w) => v.Text? && |v.bytes| == w
  }

  /** A field's bytes: big-endian (two's complement when signed), or as they are. */
  function FieldBytes(t: FieldType, v: Value): (bytes: seq<Byte>)
    requires Typed(t, v)
    ensures |bytes| == t.width
  {
    match t
    case Uint(w) => Store(v.n, w)
    case Int(w) => Store(if v.n >= 0 then v.n else v.n + Pow256(w), w)
    case Alpha(_) => v.bytes
  }

  function FieldValue(t: FieldType, bytes: seq<Byte>): (v: Value)
    requires |bytes| == t.width
    ensures Typed(t, v)
  {
    match t
    case Uint(_) => Num(Load(bytes))
    case Int(w) =>
      var u := Load(bytes);
      Num(if u < Pow256(w) - Pow256(w) / 2 then u else u - Pow256(w))
    case Alpha(_) => Text(bytes)
  }

  lemma FieldRoundTrip(t: FieldType, v: Value)
    requires Typed(t, v)
    ensures FieldValue(t, FieldBytes(t, v)) == v
  {
    match t
    case Uint(w) => LoadStore(v.n, w);
    case Int(w) => LoadStore(if v.n >= 0 then v.n else v.n + Pow256(w), w);
    case Alpha(_) =>
  }

  datatype TagSpec = TagSpec(tag: Byte, fieldType: FieldType, default: Value)

  datatype Schema = Schema(core: seq<FieldType>, tags: seq<TagSpec>)

  /** A host-side message: core fields, every optional field, and which of them
      are on the wire. */
  datatype Message = Message(core: seq<Value>, options: map<Byte, Value>, present: set<Byte>)

  ghost predicate TypedFields(types: seq<FieldType>, values: seq<Value>) {
    |values| == |types| && forall i :: 0 <= i < |types| ==> Typed(types[i], values[i])
  }

  /** Tags are distinct, values short enough for a TagValue's one-byte length, and
      all of them together for the two-byte Appendage Length. */
  ghost predicate GoodSchema(s: Schema) {
    && (forall i, j :: 0 <= i < j < |s.tags| ==> s.tags[i].tag != s.tags[j].tag)
    && (forall i :: 0 <= i < |s.tags| ==> s.tags[i].fieldType.width < 255 && Typed(s.tags[i].fieldType, s.tags[i].default))
    && LongestAppendage(s.tags) < 65536
  }

  function LongestAppendage(tags: seq<TagSpec>): nat {
    if tags == [] then 0 else 2 + tags[0].fieldType.width + LongestAppendage(tags[1..])
  }

  ghost predicate GoodMessage(s: Schema, m: Message) {
    && TypedFields(s.core, m.core)
    && (forall i :: 0 <= i < |s.tags| ==>
          s.tags[i].tag in m.options && Typed(s.tags[i].fieldType, m.options[s.tags[i].tag]))
  }

  //--- what the wire holds ---

  function CoreBytes(types: seq<FieldType>, values: seq<Value>): seq<Byte>
    requires TypedFields(types, values)
  {
    if types == [] then [] else FieldBytes(types[0], values[0]) + CoreBytes(types[1..], values[1..])
  }

  function TagValue(spec: TagSpec, v: Value): seq<Byte>
    requires spec.fieldType.width < 255 && Typed(spec.fieldType, v)
  {
    [1 + spec.fieldType.width, spec.tag] + FieldBytes(spec.fieldType, v)
  }

  ghost predicate GoodOptions(tags: seq<TagSpec>, options: map<Byte, Value>) {
    forall i :: 0 <= i < |tags| ==>
      tags[i].fieldType.width < 255 && tags[i].tag in options && Typed(tags[i].fieldType, options[tags[i].tag])
  }

  function Appendage(tags: seq<TagSpec>, options: map<Byte, Value>, present: set<Byte>): seq<Byte>
    requires GoodOptions(tags, options)
  {
    if tags == [] then []
    else (if tags[0].tag in present then TagValue(tags[0], options[tags[0].tag]) else [])
         + Appendage(tags[1..], options, present)
  }

  function Encoded(s: Schema, m: Message): seq<Byte>
    requires GoodSchema(s) && GoodMessage(s, m)
  {
    var appendage := Appendage(s.tags, m.options, m.present);
    CoreBytes(s.core, m.core) + Store(|appendage|, 2) + appendage
  }

  /** Exactly what encode will write, counted without writing it. */
  function CoreSize(types: seq<FieldType>): nat {
    if types == [] then 0 else types[0].width + CoreSize(types[1..])
  }

  function AppendageSize(tags: seq<TagSpec>, present: set<Byte>): nat {
    if tags == [] then 0
    else (if tags[0].tag in present then 2 + tags[0].fieldType.width else 0) + AppendageSize(tags[1..], present)
  }

  function EncodedSize(s: Schema, m: Message): nat {
    CoreSize(s.core) + 2 + AppendageSize(s.tags, m.present)
  }

  lemma {:induction false} CoreLength(types: seq<FieldType>, values: seq<Value>)
    requires TypedFields(types, values)
    ensures |CoreBytes(types, values)| == CoreSize(types)
  {
    if types != [] { CoreLength(types[1..], values[1..]); }
  }

  lemma {:induction false} AppendageLength(tags: seq<TagSpec>, options: map<Byte, Value>, present: set<Byte>)
    requires GoodOptions(tags, options)
    ensures |Appendage(tags, options, present)| == AppendageSize(tags, present) <= LongestAppendage(tags)
  {
    if tags != [] { AppendageLength(tags[1..], options, present); }
  }

  lemma GoodOptionsOf(s: Schema, m: Message)
    requires GoodSchema(s) && GoodMessage(s, m)
    ensures GoodOptions(s.tags, m.options)
  {
  }

  /** encode writes exactly encoded_size bytes. */
  lemma SizeExact(s: Schema, m: Message)
    requires GoodSchema(s) && GoodMessage(s, m)
    ensures |Encoded(s, m)| == EncodedSize(s, m)
  {
    CoreLength(s.core, m.core);
    AppendageLength(s.tags, m.options, m.present);
  }

  //--- decoding ---

  /** The core fields off the front, and what follows them; None when short. */
  function DecodeCore(types: seq<FieldType>, bytes: seq<Byte>): Option<(seq<Value>, seq<Byte>)> {
    if types == [] then Some(([], bytes))
    else if |bytes| < types[0].width then None
    else
      match DecodeCore(types[1..], bytes[types[0].width..])
      case None => None
      case Some((values, rest)) => Some(([FieldValue(types[0], bytes[..types[0].width])] + values, rest))
  }

  function Find(tags: seq<TagSpec>, tag: Byte): Option<TagSpec> {
    if tags == [] then None else if tags[0].tag == tag then Some(tags[0]) else Find(tags[1..], tag)
  }

  /** TagValues to the end: a zero or overrunning length, or a supported tag with
      the wrong width, fails; an unsupported tag is skipped. */
  function DecodeTags(tags: seq<TagSpec>, bytes: seq<Byte>, options: map<Byte, Value>, present: set<Byte>)
    : Option<(map<Byte, Value>, set<Byte>)>
    decreases |bytes|
  {
    if bytes == [] then Some((options, present))
    else
      var length := bytes[0];
      if length == 0 || length > |bytes| - 1 then None
      else
        var tag, value, rest := bytes[1], bytes[2..1 + length], bytes[1 + length..];
        match Find(tags, tag)
        case None => DecodeTags(tags, rest, options, present)
        case Some(spec) =>
          if |value| != spec.fieldType.width then None
          else DecodeTags(tags, rest, options[tag := FieldValue(spec.fieldType, value)], present + {tag})
  }

  function Defaults(tags: seq<TagSpec>): map<Byte, Value> {
    if tags == [] then map[] else Defaults(tags[1..])[tags[0].tag := tags[0].default]
  }

  function Decode(s: Schema, bytes: seq<Byte>): Option<Message> {
    match DecodeCore(s.core, bytes)
    case None => None
    case Some((core, rest)) =>
      if rest == [] then Some(Message(core, Defaults(s.tags), {}))
      else if |rest| < 2 || |rest| - 2 != Load(rest[..2]) then None
      else
        match DecodeTags(s.tags, rest[2..], Defaults(s.tags), {})
        case None => None
        case Some((options, present)) => Some(Message(core, options, present))
  }

  //--- the round trip ---

  lemma {:induction false} CoreRoundTrip(types: seq<FieldType>, values: seq<Value>, rest: seq<Byte>)
    requires TypedFields(types, values)
    ensures DecodeCore(types, CoreBytes(types, values) + rest) == Some((values, rest))
  {
    if types != [] {
      var first := FieldBytes(types[0], values[0]);
      var more := CoreBytes(types[1..], values[1..]);
      var bytes := CoreBytes(types, values) + rest;
      assert bytes[..types[0].width] == first;
      assert bytes[types[0].width..] == more + rest;
      FieldRoundTrip(types[0], values[0]);
      CoreRoundTrip(types[1..], values[1..], rest);
      assert [values[0]] + values[1..] == values;
    } else {
      assert CoreBytes(types, values) + rest == rest;
    }
  }

  function TagsOf(tags: seq<TagSpec>): set<Byte> {
    set i | 0 <= i < |tags| :: tags[i].tag
  }

  ghost predicate DistinctTags(tags: seq<TagSpec>) {
    forall i, j :: 0 <= i < j < |tags| ==> tags[i].tag != tags[j].tag
  }

  lemma {:induction false} FindAt(tags: seq<TagSpec>, i: nat)
    requires DistinctTags(tags) && i < |tags|
    ensures Find(tags, tags[i].tag) == Some(tags[i])
  {
    if i > 0 {
      assert tags[0].tag != tags[i].tag;
      FindAt(tags[1..], i - 1);
    }
  }

  /** options with the present ones from m written over them. */
  function Overlay(tags: seq<TagSpec>, m: Message, options: map<Byte, Value>): map<Byte, Value>
    requires GoodOptions(tags, m.options)
  {
    if tags == [] then options
    else Overlay(tags[1..], m, if tags[0].tag in m.present then options[tags[0].tag := m.options[tags[0].tag]] else options)
  }

  function Shown(tags: seq<TagSpec>, m: Message): set<Byte> {
    set i | 0 <= i < |tags| && tags[i].tag in m.present :: tags[i].tag
  }

  /** One TagValue at the front is taken in. */
  lemma TagStep(all: seq<TagSpec>, i: nat, v: Value, rest: seq<Byte>, options: map<Byte, Value>, present: set<Byte>)
    requires DistinctTags(all) && i < |all| && all[i].fieldType.width < 255 && Typed(all[i].fieldType, v)
    ensures DecodeTags(all, TagValue(all[i], v) + rest, options, present)
            == DecodeTags(all, rest, options[all[i].tag := v], present + {all[i].tag})
  {
    var spec := all[i];
    var bytes := TagValue(spec, v) + rest;
    var w := spec.fieldType.width;
    assert bytes[0] == 1 + w && bytes[1] == spec.tag;
    assert bytes[2..2 + w] == FieldBytes(spec.fieldType, v);
    assert bytes[2 + w..] == rest;
    FindAt(all, i);
    FieldRoundTrip(spec.fieldType, v);
  }

  lemma {:induction false} TagsRoundTrip(all: seq<TagSpec>, k: nat, m: Message, options: map<Byte, Value>, present: set<Byte>)
    requires DistinctTags(all) && k <= |all| && GoodOptions(all, m.options)
    ensures DecodeTags(all, Appendage(all[k..], m.options, m.present), options, present)
            == Some((Overlay(all[k..], m, options), present + Shown(all[k..], m)))
    decreases |all| - k
  {
    var tags := all[k..];
    if k < |all| {
      assert tags[1..] == all[k + 1..];
      var rest := Appendage(all[k + 1..], m.options, m.present);
      ShownStep(tags, m);
      if all[k].tag in m.present {
        var v := m.options[all[k].tag];
        TagStep(all, k, v, rest, options, present);
        TagsRoundTrip(all, k + 1, m, options[all[k].tag := v], present + {all[k].tag});
        assert present + {all[k].tag} + Shown(all[k + 1..], m) == present + Shown(tags, m);
      } else {
        assert [] + rest == rest;
        TagsRoundTrip(all, k + 1, m, options, present);
        assert Shown(tags, m) == Shown(all[k + 1..], m);
      }
    } else {
      assert present + Shown(tags, m) == present;
    }
  }

  lemma ShownStep(tags: seq<TagSpec>, m: Message)
    requires tags != []
    ensures Shown(tags, m) == Shown(tags[1..], m) + if tags[0].tag in m.present then {tags[0].tag} else {}
  {
    forall t | t in Shown(tags, m)
      ensures t in Shown(tags[1..], m) || (t == tags[0].tag && t in m.present)
    {
      var i :| 0 <= i < |tags| && tags[i].tag in m.present && tags[i].tag == t;
      if i > 0 { assert tags[1..][i - 1].tag == t; }
    }
    forall t | t in Shown(tags[1..], m) ensures t in Shown(tags, m) {
      var i :| 0 <= i < |tags| - 1 && tags[1..][i].tag in m.present && tags[1..][i].tag == t;
      assert tags[i + 1].tag == t;
    }
  }

  lemma {:induction false} OverlayIs(tags: seq<TagSpec>, m: Message, options: map<Byte, Value>, tag: Byte)
    requires DistinctTags(tags) && GoodOptions(tags, m.options)
    ensures tag in Overlay(tags, m, options) <==> tag in options || tag in Shown(tags, m)
    ensures tag in Shown(tags, m) ==> tag in m.options && Overlay(tags, m, options)[tag] == m.options[tag]
    ensures tag in options && tag !in Shown(tags, m) ==> Overlay(tags, m, options)[tag] == options[tag]
  {
    if tags != [] {
      ShownStep(tags, m);
      var next := if tags[0].tag in m.present then options[tags[0].tag := m.options[tags[0].tag]] else options;
      OverlayIs(tags[1..], m, next, tag);
    }
  }

  lemma {:induction false} DefaultsAre(tags: seq<TagSpec>, i: nat)
    requires DistinctTags(tags)
    ensures Defaults(tags).Keys == TagsOf(tags)
    ensures i < |tags| ==> Defaults(tags)[tags[i].tag] == tags[i].default
  {
    if tags != [] {
      DefaultsAre(tags[1..], if i > 0 then i - 1 else 0);
      assert TagsOf(tags) == TagsOf(tags[1..]) + {tags[0].tag} by {
        forall t | t in TagsOf(tags) ensures t in TagsOf(tags[1..]) + {tags[0].tag} {
          var j :| 0 <= j < |tags| && tags[j].tag == t;
          if j > 0 { assert tags[1..][j - 1].tag == t; }
        }
        forall j | 0 <= j < |tags| - 1 ensures tags[1..][j].tag in TagsOf(tags) { assert tags[1..][j] == tags[j + 1]; }
      }
      if 0 < i < |tags| { assert tags[0].tag != tags[i].tag; }
    }
  }

  /** r is m as this message can carry it: its core, each supported option at its
      value or its default, and no other tag. */
  ghost predicate Recovered(s: Schema, m: Message, r: Option<Message>)
    requires GoodMessage(s, m)
  {
    && r.Some? && r.value.core == m.core
    && r.value.present == m.present * TagsOf(s.tags)
    && r.value.options.Keys == TagsOf(s.tags)
    && (forall i :: 0 <= i < |s.tags| ==>
          var tag := s.tags[i].tag;
          tag in r.value.options
          && r.value.options[tag] == if tag in m.present then m.options[tag] else s.tags[i].default)
  }

  /** Decoding what encode wrote gives the message back: the core as it was, each
      supported option present at its value and each absent one at its default,
      and the tag set cut to the tags the message supports. */
  lemma RoundTrip(s: Schema, m: Message)
    requires GoodSchema(s) && GoodMessage(s, m)
    ensures Recovered(s, m, Decode(s, Encoded(s, m)))
  {
    hide Pow256, Store, Load, Overlay, Defaults, TagsOf, DecodeTags, DecodeCore;
    GoodOptionsOf(s, m);
    var appendage := Appendage(s.tags, m.options, m.present);
    AppendageLength(s.tags, m.options, m.present);
    var rest := Store(|appendage|, 2) + appendage;
    CoreRoundTrip(s.core, m.core, rest);
    assert Encoded(s, m) == CoreBytes(s.core, m.core) + rest;
    LengthBack(|appendage|);
    assert rest[..2] == Store(|appendage|, 2) && rest[2..] == appendage;
    assert s.tags[0..] == s.tags;
    TagsRoundTrip(s.tags, 0, m, Defaults(s.tags), {});
    DecodedOptions(s.tags, m);
  }

  lemma LengthBack(n: nat)
    requires n < 65536
    ensures Load(Store(n, 2)) == n
  {
    LoadStore(n, 2);
    assert Pow256(2) == 65536 by { assert Pow256(1) == 256 * Pow256(0); }
  }

  lemma DecodedOptions(tags: seq<TagSpec>, m: Message)
    requires DistinctTags(tags) && GoodOptions(tags, m.options)
    ensures var options := Overlay(tags, m, Defaults(tags));
            && options.Keys == TagsOf(tags)
            && forall i :: 0 <= i < |tags| ==>
                 var tag := tags[i].tag;
                 tag in options && options[tag] == if tag in m.present then m.options[tag] else tags[i].default
    ensures {} + Shown(tags, m) == m.present * TagsOf(tags)
  {
    var options := Overlay(tags, m, Defaults(tags));
    DefaultsAre(tags, 0);
    forall tag: Byte ensures tag in options <==> tag in TagsOf(tags) {
      OverlayIs(tags, m, Defaults(tags), tag);
    }
    forall i | 0 <= i < |tags|
      ensures var tag := tags[i].tag;
              tag in options && options[tag] == if tag in m.present then m.options[tag] else tags[i].default
    {
      DefaultsAre(tags, i);
      OverlayIs(tags, m, Defaults(tags), tags[i].tag);
    }
  }

  //--- the codec as built: a writer and a reader advancing over a buffer ---

  class WireWriter {
    const out: array<Byte>
    var pos: nat
    var ok: bool

    ghost predicate Valid()
      reads this
    {
      pos <= out.Length
    }

    constructor (out: array<Byte>)
      ensures Valid() && this.out == out && pos == 0 && ok
    {
      this.out := out;
      pos, ok := 0, true;
    }

    /** Claims n bytes; once a claim fails the writer stays failed. */
    method Claim(n: nat) returns (at: nat)
      requires Valid()
      modifies this
      ensures Valid() && ok == (old(ok) && old(pos) + n <= out.Length)
      ensures at == old(pos) && pos == if ok then old(pos) + n else old(pos)
    {
      at := pos;
      if !ok || out.Length - pos < n {
        ok := false;
        return;
      }
      pos := pos + n;
    }

    method Write(bytes: seq<Byte>)
      requires Valid()
      modifies this, out
      ensures Valid() && ok == (old(ok) && old(pos) + |bytes| <= out.Length)
      ensures pos == if ok then old(pos) + |bytes| else old(pos)
      ensures ok ==> out[..pos] == old(out[..pos]) + bytes
    {
      var at := Claim(|bytes|);
      if ok {
        forall i | 0 <= i < |bytes| {
          out[at + i] := bytes[i];
        }
      }
    }
  }

  lemma Advance(written: seq<Byte>, piece: seq<Byte>, rest: seq<Byte>)
    ensures written + piece + rest == written + (piece + rest)
  {
  }

  /** Writes the core fields one after another. */
  method EncodeCore(w: WireWriter, types: seq<FieldType>, values: seq<Value>)
    requires TypedFields(types, values) && w.Valid() && w.ok
    modifies w, w.out
    ensures w.Valid() && (w.ok <==> old(w.pos) + CoreSize(types) <= w.out.Length)
    ensures w.ok ==> w.out[..w.pos] == old(w.out[..w.pos]) + CoreBytes(types, values)
  {
    hide FieldBytes, Typed;
    CoreLength(types, values);
    ghost var target := w.out[..w.pos] + CoreBytes(types, values);
    var i := 0;
    assert types[0..] == types && values[0..] == values;
    while i < |types|
      invariant 0 <= i <= |types| && w.Valid()
      invariant w.ok ==> w.out[..w.pos] + CoreBytes(types[i..], values[i..]) == target
      invariant !w.ok ==> |target| > w.out.Length
    {
      CoreStep(types, values, i);
      var field := FieldBytes(types[i], values[i]);
      Advance(w.out[..w.pos], field, CoreBytes(types[i + 1..], values[i + 1..]));
      w.Write(field);
      i := i + 1;
    }
    assert w.ok ==> w.out[..w.pos] + [] == target;
  }

  lemma CoreStep(types: seq<FieldType>, values: seq<Value>, i: nat)
    requires TypedFields(types, values) && i < |types|
    ensures TypedFields(types[i..], values[i..]) && TypedFields(types[i + 1..], values[i + 1..])
    ensures CoreBytes(types[i..], values[i..]) ==
            FieldBytes(types[i], values[i]) + CoreBytes(types[i + 1..], values[i + 1..])
  {
    assert types[i..][1..] == types[i + 1..] && values[i..][1..] == values[i + 1..];
  }

  /** Writes a TagValue for each option present. */
  method EncodeTags(w: WireWriter, tags: seq<TagSpec>, options: map<Byte, Value>, present: set<Byte>)
    requires GoodOptions(tags, options) && w.Valid() && w.ok
    modifies w, w.out
    ensures w.Valid() && (w.ok <==> old(w.pos) + AppendageSize(tags, present) <= w.out.Length)
    ensures w.ok ==> w.out[..w.pos] == old(w.out[..w.pos]) + Appendage(tags, options, present)
  {
    hide TagValue, Typed, Appendage, GoodOptions;
    AppendageLength(tags, options, present);
    NoTags(options, present);
    ghost var target := w.out[..w.pos] + Appendage(tags, options, present);
    var i := 0;
    assert tags[0..] == tags;
    while i < |tags|
      invariant 0 <= i <= |tags| && w.Valid() && GoodOptions(tags[i..], options)
      invariant w.ok ==> w.out[..w.pos] + Appendage(tags[i..], options, present) == target
      invariant !w.ok ==> |target| > w.out.Length
    {
      AppendageStep(tags, options, present, i);
      if tags[i].tag in present {
        var element := TagValue(tags[i], options[tags[i].tag]);
        Advance(w.out[..w.pos], element, Appendage(tags[i + 1..], options, present));
        w.Write(element);
      }
      i := i + 1;
    }
    assert tags[|tags|..] == [];
    assert w.ok ==> w.out[..w.pos] + [] == target;
  }

  lemma NoTags(options: map<Byte, Value>, present: set<Byte>)
    ensures GoodOptions([], options) && Appendage([], options, present) == []
  {
  }

  lemma AppendageStep(tags: seq<TagSpec>, options: map<Byte, Value>, present: set<Byte>, i: nat)
    requires GoodOptions(tags, options) && i < |tags|
    ensures GoodOptions(tags[i..], options) && GoodOptions(tags[i + 1..], options)
    ensures Appendage(tags[i..], options, present) ==
            (if tags[i].tag in present then TagValue(tags[i], options[tags[i].tag]) + Appendage(tags[i + 1..], options, present)
             else Appendage(tags[i + 1..], options, present))
  {
    assert tags[i..][1..] == tags[i + 1..];
    assert [] + Appendage(tags[i + 1..], options, present) == Appendage(tags[i + 1..], options, present);
  }

  /** 0 when out is too small; otherwise the message's bytes are at its front. */
  method Encode(s: Schema, m: Message, out: array<Byte>) returns (n: nat)
    requires GoodSchema(s) && GoodMessage(s, m)
    modifies out
    ensures n == if EncodedSize(s, m) <= out.Length then EncodedSize(s, m) else 0
    ensures n > 0 ==> out[..n] == Encoded(s, m)
  {
    hide CoreBytes, Appendage, Typed, TypedFields, CoreSize, AppendageSize, Store;
    GoodOptionsOf(s, m);
    CoreLength(s.core, m.core);
    AppendageLength(s.tags, m.options, m.present);
    ghost var core, appendage := CoreBytes(s.core, m.core), Appendage(s.tags, m.options, m.present);
    var w := new WireWriter(out);
    EncodeCore(w, s.core, m.core);
    if !w.ok {
      return 0;
    }
    assert out[..w.pos] == [] + core == core;
    var lengthAt := w.Claim(2);
    if !w.ok {
      return 0;
    }
    ghost var front := out[..w.pos];
    assert front[..lengthAt] == core;
    var begin := w.pos;
    EncodeTags(w, s.tags, m.options, m.present);
    if !w.ok {
      return 0;
    }
    n := w.pos;
    Patch(out, lengthAt, n, n - begin, core, front, appendage);
  }

  /** Fills in the length that was skipped. */
  method Patch(out: array<Byte>, at: nat, n: nat, length: nat, ghost core: seq<Byte>, ghost front: seq<Byte>,
               ghost appendage: seq<Byte>)
    requires at + 2 <= n <= out.Length && out[..n] == front + appendage
    requires |front| == at + 2 && front[..at] == core
    modifies out
    ensures out[..n] == core + Store(length, 2) + appendage
  {
    var bytes := Store(length, 2);
    assert forall k :: 0 <= k < at ==> out[..n][k] == core[k];
    assert forall k :: at + 2 <= k < n ==> out[..n][k] == appendage[k - at - 2];
    out[at], out[at + 1] := bytes[0], bytes[1];
  }

  //--- reading ---

  function Prepend(values: seq<Value>, rest: Option<(seq<Value>, seq<Byte>)>): Option<(seq<Value>, seq<Byte>)> {
    match rest
    case None => None
    case Some((more, bytes)) => Some((values + more, bytes))
  }

  method ReadCore(types: seq<FieldType>, bytes: seq<Byte>) returns (r: Option<(seq<Value>, seq<Byte>)>)
    ensures r == DecodeCore(types, bytes)
  {
    var values: seq<Value>, rest, i := [], bytes, 0;
    assert types[0..] == types;
    PrependNothing(DecodeCore(types, bytes));
    while i < |types|
      invariant 0 <= i <= |types|
      invariant DecodeCore(types, bytes) == Prepend(values, DecodeCore(types[i..], rest))
    {
      var width := types[i].width;
      assert types[i..][1..] == types[i + 1..];
      if |rest| < width {
        return None;
      }
      var value := FieldValue(types[i], rest[..width]);
      PrependTwice(values, [value], DecodeCore(types[i + 1..], rest[width..]));
      values := values + [value];
      rest := rest[width..];
      i := i + 1;
    }
    assert values + [] == values;
    r := Some((values, rest));
  }

  lemma PrependNothing(rest: Option<(seq<Value>, seq<Byte>)>)
    ensures Prepend([], rest) == rest
  {
    if rest.Some? { assert [] + rest.value.0 == rest.value.0; }
  }

  lemma PrependTwice(xs: seq<Value>, ys: seq<Value>, rest: Option<(seq<Value>, seq<Byte>)>)
    ensures Prepend(xs, Prepend(ys, rest)) == Prepend(xs + ys, rest)
  {
    if rest.Some? { assert xs + (ys + rest.value.0) == xs + ys + rest.value.0; }
  }

  /** The TagValue loop; every turn consumes at least two bytes or fails. */
  method ReadTags(tags: seq<TagSpec>, bytes: seq<Byte>) returns (r: Option<(map<Byte, Value>, set<Byte>)>)
    ensures r == DecodeTags(tags, bytes, Defaults(tags), {})
  {
    var rest, options, present := bytes, Defaults(tags), {};
    while |rest| > 0
      invariant DecodeTags(tags, bytes, Defaults(tags), {}) == DecodeTags(tags, rest, options, present)
      decreases |rest|
    {
      var length := rest[0];
      if length == 0 || length > |rest| - 1 {
        return None;
      }
      var tag, value := rest[1], rest[2..1 + length];
      match Find(tags, tag) {
        case None =>
        case Some(spec) =>
          if |value| != spec.fieldType.width {
            return None;
          }
          options := options[tag := FieldValue(spec.fieldType, value)];
          present := present + {tag};
      }
      rest := rest[1 + length..];
    }
    r := Some((options, present));
  }

  method DecodeMessage(s: Schema, bytes: seq<Byte>) returns (r: Option<Message>)
    ensures r == Decode(s, bytes)
  {
    var core := ReadCore(s.core, bytes);
    if core == None {
      return None;
    }
    var (values, rest) := core.value;
    if rest == [] {
      return Some(Message(values, Defaults(s.tags), {}));
    }
    if |rest| < 2 || |rest| - 2 != Load(rest[..2]) {
      return None;
    }
    var tags := ReadTags(s.tags, rest[2..]);
    if tags == None {
      return None;
    }
    r := Some(Message(values, tags.value.0, tags.value.1));
  }

  //--- the messages ---

  const U8 := Uint(1)
  const U16 := Uint(2)
  const U32 := Uint(4)
  const U64 := Uint(8)
  const I32 := Int(4)
  const SYMBOL := Alpha(8)
  const CL_ORD_ID := Alpha(14)

  const ENTER_ORDER := Schema(
    [U8, U32, U8, U32, SYMBOL, U64, U8, U8, U8, U8, U8, CL_ORD_ID],
    [TagSpec(2, Alpha(4), Text([32, 32, 32, 32])), TagSpec(3, U32, Num(0)), TagSpec(4, U8, Num(32)),
     TagSpec(5, U32, Num(0)), TagSpec(6, U8, Num(76)), TagSpec(7, I32, Num(0)), TagSpec(9, U64, Num(0)),
     TagSpec(10, U8, Num(76)), TagSpec(11, I32, Num(0)), TagSpec(12, U8, Num(78)), TagSpec(13, U32, Num(0)),
     TagSpec(15, U32, Num(0)), TagSpec(16, U8, Num(78)), TagSpec(17, U8, Num(32)), TagSpec(24, U16, Num(0)),
     TagSpec(25, U8, Num(78)), TagSpec(26, Alpha(4), Text([0, 0, 0, 0])), TagSpec(28, U8, Num(0)),
     TagSpec(29, U8, Num(42)), TagSpec(30, Alpha(2), Text([42, 42]))])

  const REPLACE_ORDER := Schema(
    [U8, U32, U32, U32, U64, U8, U8, U8, CL_ORD_ID],
    [TagSpec(3, U32, Num(0)), TagSpec(5, U32, Num(0)), TagSpec(6, U8, Num(76)), TagSpec(7, I32, Num(0)),
     TagSpec(9, U64, Num(0)), TagSpec(10, U8, Num(76)), TagSpec(11, I32, Num(0)), TagSpec(12, U8, Num(78)),
     TagSpec(13, U32, Num(0)), TagSpec(15, U32, Num(0)), TagSpec(16, U8, Num(78)), TagSpec(17, U8, Num(32)),
     TagSpec(25, U8, Num(78)), TagSpec(26, Alpha(4), Text([0, 0, 0, 0])), TagSpec(27, U8, Num(32)),
     TagSpec(28, U8, Num(0)), TagSpec(29, U8, Num(42)), TagSpec(30, Alpha(2), Text([42, 42]))])

  const CANCEL_ORDER := Schema([U8, U32, U32], [TagSpec(28, U8, Num(0))])

  const ORDER_ACCEPTED := Schema(
    [U8, U64, U32, U8, U32, SYMBOL, U64, U8, U8, U64, U8, U8, U8, U8, CL_ORD_ID],
    [TagSpec(2, Alpha(4), Text([32, 32, 32, 32])), TagSpec(3, U32, Num(0)), TagSpec(4, U8, Num(32)),
     TagSpec(5, U32, Num(0)), TagSpec(6, U8, Num(76)), TagSpec(7, I32, Num(0)), TagSpec(9, U64, Num(0)),
     TagSpec(10, U8, Num(76)), TagSpec(11, I32, Num(0)), TagSpec(12, U8, Num(78)), TagSpec(13, U32, Num(0)),
     TagSpec(14, Alpha(4), Text([0, 0, 0, 0])), TagSpec(15, U32, Num(0)), TagSpec(16, U8, Num(78)),
     TagSpec(17, U8, Num(32)), TagSpec(18, U8, Num(32)), TagSpec(24, U16, Num(0)), TagSpec(25, U8, Num(78)),
     TagSpec(28, U8, Num(0)), TagSpec(29, U8, Num(42)), TagSpec(30, Alpha(2), Text([42, 42]))])

  const ORDER_REPLACED := Schema(
    [U8, U64, U32, U32, U8, U32, SYMBOL, U64, U8, U8, U64, U8, U8, U8, U8, CL_ORD_ID],
    [TagSpec(2, Alpha(4), Text([32, 32, 32, 32])), TagSpec(3, U32, Num(0)), TagSpec(5, U32, Num(0)),
     TagSpec(6, U8, Num(76)), TagSpec(12, U8, Num(78)), TagSpec(15, U32, Num(0)), TagSpec(16, U8, Num(78)),
     TagSpec(17, U8, Num(32)), TagSpec(18, U8, Num(32)), TagSpec(28, U8, Num(0)), TagSpec(29, U8, Num(42)),
     TagSpec(30, Alpha(2), Text([42, 42]))])

  const ORDER_CANCELED := Schema([U8, U64, U32, U32, U8], [TagSpec(28, U8, Num(0))])

  const ORDER_EXECUTED := Schema([U8, U64, U32, U32, U64, U8, U64], [TagSpec(28, U8, Num(0))])

  const ORDER_REJECTED := Schema([U8, U64, U32, U16, CL_ORD_ID], [TagSpec(28, U8, Num(0))])

  /** Which message a client's type byte announces. */
  function InboundSchema(kind: Byte): Option<Schema> {
    match kind
    case 79 => Some(ENTER_ORDER)   // 'O'
    case 85 => Some(REPLACE_ORDER) // 'U'
    case 88 => Some(CANCEL_ORDER)  // 'X'
    case _ => None
  }

  /** Which message the exchange's type byte announces. */
  function OutboundSchema(kind: Byte): Option<Schema> {
    match kind
    case 65 => Some(ORDER_ACCEPTED) // 'A'
    case 85 => Some(ORDER_REPLACED) // 'U'
    case 67 => Some(ORDER_CANCELED) // 'C'
    case 69 => Some(ORDER_EXECUTED) // 'E'
    case 74 => Some(ORDER_REJECTED) // 'J'
    case _ => None
  }

  /** A frame: nothing, an unknown type and a malformed message all decode to none. */
  function DecodeFrame(inbound: bool, bytes: seq<Byte>): Option<Message> {
    if bytes == [] then None
    else
      match if inbound then InboundSchema(bytes[0]) else OutboundSchema(bytes[0])
      case None => None
      case Some(s) => Decode(s, bytes)
  }

  /** Tags listed in ascending order, each option's width small and its default
      one it can hold. */
  ghost predicate Listed(tags: seq<TagSpec>) {
    |tags| <= 30 && Ascending(tags) && Defaulted(tags)
  }

  ghost predicate Ascending(tags: seq<TagSpec>) {
    forall i :: 0 <= i < |tags| - 1 ==> tags[i].tag < tags[i + 1].tag
  }

  ghost predicate Defaulted(tags: seq<TagSpec>) {
    forall i :: 0 <= i < |tags| ==> tags[i].fieldType.width <= 8 && Typed(tags[i].fieldType, tags[i].default)
  }

  lemma {:induction false} Ascends(tags: seq<TagSpec>, i: nat, j: nat)
    requires Listed(tags) && i < j < |tags|
    ensures tags[i].tag < tags[j].tag
    decreases j
  {
    assert tags[j - 1].tag < tags[j].tag;
    if i < j - 1 { Ascends(tags, i, j - 1); }
  }

  lemma {:induction false} AppendageBound(tags: seq<TagSpec>)
    requires forall i :: 0 <= i < |tags| ==> tags[i].fieldType.width <= 8
    ensures LongestAppendage(tags) <= 10 * |tags|
  {
    if tags != [] { AppendageBound(tags[1..]); }
  }

  lemma ListedIsGood(s: Schema)
    requires Listed(s.tags)
    ensures GoodSchema(s)
  {
    forall i, j | 0 <= i < j < |s.tags| ensures s.tags[i].tag != s.tags[j].tag {
      Ascends(s.tags, i, j);
    }
    AppendageBound(s.tags);
  }

  lemma Powers()
    ensures Pow256(1) == 256 && Pow256(2) == 65536 && Pow256(4) == 0x1_0000_0000 && Pow256(8) == 0x1_0000_0000_0000_0000
  {
    assert Pow256(3) == 256 * Pow256(2);
    assert Pow256(5) == 256 * Pow256(4);
    assert Pow256(6) == 256 * Pow256(5);
    assert Pow256(7) == 256 * Pow256(6);
  }

  lemma EnterDefaulted()
    ensures Defaulted(ENTER_ORDER.tags)
  {
    hide Pow256;
    Powers();
  }

  lemma EnterListed()
    ensures Listed(ENTER_ORDER.tags)
  {
    hide Defaulted;
    EnterDefaulted();
  }

  lemma ReplaceListed()
    ensures Listed(REPLACE_ORDER.tags)
  {
    hide Pow256;
    Powers();
  }

  lemma AcceptedDefaulted()
    ensures Defaulted(ORDER_ACCEPTED.tags)
  {
    hide Pow256;
    Powers();
  }

  lemma AcceptedListed()
    ensures Listed(ORDER_ACCEPTED.tags)
  {
    hide Defaulted;
    AcceptedDefaulted();
  }

  lemma ReplacedListed()
    ensures Listed(ORDER_REPLACED.tags)
  {
    hide Pow256;
    Powers();
  }

  lemma OneTagListed()
    ensures Listed([TagSpec(28, U8, Num(0))])
  {
    Powers();
  }

  /** The layout in full, on the shortest message: type, fields most significant byte
      first, the appendage's length in two bytes, then each option as the length of
      what follows, its tag and its value. */
  lemma CancelOnTheWire(userRefNum: nat, quantity: nat, idx: Byte, tagged: bool)
    requires userRefNum < 0x1_0000_0000 && quantity < 0x1_0000_0000
    ensures var m := Message([Num(88), Num(userRefNum), Num(quantity)], map[28 := Num(idx)], if tagged then {28} else {});
            GoodSchema(CANCEL_ORDER) && GoodMessage(CANCEL_ORDER, m) &&
            Encoded(CANCEL_ORDER, m) ==
              [88, userRefNum / 0x100_0000, userRefNum / 0x1_0000 % 256, userRefNum / 0x100 % 256, userRefNum % 256,
               quantity / 0x100_0000, quantity / 0x1_0000 % 256, quantity / 0x100 % 256, quantity % 256]
              + if tagged then [0, 3, 2, 28, idx] else [0, 0]
  {
    hide Pow256, Store, CoreBytes, Appendage;
    Powers();
    OneTagListed();
    ListedIsGood(CANCEL_ORDER);
    CancelCore(userRefNum, quantity);
    CancelOption(idx, tagged);
    TwoBytes(3);
    TwoBytes(0);
  }

  lemma CancelCore(userRefNum: nat, quantity: nat)
    requires userRefNum < 0x1_0000_0000 && quantity < 0x1_0000_0000
    ensures var fields := [Num(88), Num(userRefNum), Num(quantity)];
            TypedFields(CANCEL_ORDER.core, fields) &&
            CoreBytes(CANCEL_ORDER.core, fields) ==
              [88, userRefNum / 0x100_0000, userRefNum / 0x1_0000 % 256, userRefNum / 0x100 % 256, userRefNum % 256,
               quantity / 0x100_0000, quantity / 0x1_0000 % 256, quantity / 0x100 % 256, quantity % 256]
  {
    hide Pow256, Store;
    Powers();
    var types, fields := CANCEL_ORDER.core, [Num(88), Num(userRefNum), Num(quantity)];
    FourBytes(userRefNum);
    FourBytes(quantity);
    OneByte(88);
    assert types[1..] == [U32, U32] && [U32, U32][1..] == [U32] && [U32][1..] == [];
    assert fields[1..] == [Num(userRefNum), Num(quantity)] && [Num(userRefNum), Num(quantity)][1..] == [Num(quantity)];
    assert [Num(quantity)][1..] == [];
    assert CoreBytes([U32], [Num(quantity)]) == FieldBytes(U32, Num(quantity)) + CoreBytes([], []);
    assert CoreBytes([U32, U32], [Num(userRefNum), Num(quantity)])
           == FieldBytes(U32, Num(userRefNum)) + CoreBytes([U32], [Num(quantity)]);
  }

  lemma CancelOption(idx: Byte, tagged: bool)
    ensures var options := map[28 := Num(idx)];
            GoodOptions(CANCEL_ORDER.tags, options) &&
            Appendage(CANCEL_ORDER.tags, options, if tagged then {28} else {}) == if tagged then [2, 28, idx] else []
  {
    hide Pow256, Store;
    Powers();
    OneByte(idx);
    assert CANCEL_ORDER.tags[1..] == [];
  }

  lemma OneByte(n: Byte)
    ensures Store(n, 1) == [n]
  {
    assert Store(n / 256, 0) == [];
  }

  lemma TwoBytes(n: nat)
    requires n < 256
    ensures Store(n, 2) == [0, n]
  {
    OneByte(0);
    assert Store(n, 2) == Store(n / 256, 1) + [n % 256];
  }

  lemma FourBytes(n: nat)
    requires n < 0x1_0000_0000
    ensures Store(n, 4) == [n / 0x100_0000, n / 0x1_0000 % 256, n / 0x100 % 256, n % 256]
  {
    assert Store(n, 4) == Store(n / 256, 3) + [n % 256];
    assert Store(n / 256, 3) == Store(n / 256 / 256, 2) + [n / 256 % 256];
    assert Store(n / 256 / 256, 2) == Store(n / 256 / 256 / 256, 1) + [n / 256 / 256 % 256];
    OneByte(n / 256 / 256 / 256);
  }

  /** Every OUCH message is one the codec is built for. */
  lemma SchemasGood(inbound: bool, kind: Byte)
    ensures var s := if inbound then InboundSchema(kind) else OutboundSchema(kind);
            s.Some? ==> GoodSchema(s.value) && |s.value.core| > 0 && s.value.core[0] == U8
  {
    hide GoodSchema, Listed;
    EnterListed();
    ReplaceListed();
    AcceptedListed();
    ReplacedListed();
    OneTagListed();
    var s := if inbound then InboundSchema(kind) else OutboundSchema(kind);
    if s.Some? { ListedIsGood(s.value); }
  }

  /** A whole frame survives the wire, type byte and all. */
  lemma FrameRoundTrip(inbound: bool, kind: Byte, m: Message)
    requires (if inbound then InboundSchema(kind) else OutboundSchema(kind)).Some?
    requires var s := (if inbound then InboundSchema(kind) else OutboundSchema(kind)).value;
             GoodMessage(s, m) && |m.core| > 0 && m.core[0] == Num(kind)
    ensures var s := (if inbound then InboundSchema(kind) else OutboundSchema(kind)).value;
            GoodSchema(s) && Recovered(s, m, DecodeFrame(inbound, Encoded(s, m)))
  {
    hide Recovered, Decode, GoodSchema, Appendage, Typed, InboundSchema, OutboundSchema;
    SchemasGood(inbound, kind);
    var s := (if inbound then InboundSchema(kind) else OutboundSchema(kind)).value;
    GoodOptionsOf(s, m);
    FirstByte(s, m, kind);
    RoundTrip(s, m);
  }

  lemma FirstByte(s: Schema, m: Message, kind: Byte)
    requires GoodSchema(s) && GoodMessage(s, m) && |s.core| > 0 && s.core[0] == U8 && m.core[0] == Num(kind)
    ensures Encoded(s, m) != [] && Encoded(s, m)[0] == kind
  {
    hide GoodSchema, Appendage;
    GoodOptionsOf(s, m);
    assert FieldBytes(U8, Num(kind)) == [kind] by { assert Store(kind, 1) == Store(kind / 256, 0) + [kind % 256]; }
    assert CoreBytes(s.core, m.core)[0] == kind;
  }
}
