/** Big-endian fields, as every OUCH, ITCH and SoupBinTCP message lays them out. */
module Wire {
  import opened Modular

  type Byte = b: nat | b < 256 witness 0

  function Pow256(n: nat): (p: nat)
    ensures p > 0
  {
    if n == 0 then 1 else 256 * Pow256(n - 1)
  }

  /** value's low width bytes, most significant first. */
  function Store(value: nat, width: nat): (bytes: seq<Byte>)
    ensures |bytes| == width
  {
    if width == 0 then [] else Store(value / 256, width - 1) + [value % 256]
  }

  function Load(bytes: seq<Byte>): (value: nat)
    ensures value < Pow256(|bytes|)
  {
    if bytes == [] then 0 else 256 * Load(bytes[..|bytes| - 1]) + bytes[|bytes| - 1]
  }

  /** Stored and loaded back, a field keeps as much of its value as fits. */
  lemma {:induction false} LoadStore(value: nat, width: nat)
    ensures Load(Store(value, width)) == value % Pow256(width)
    ensures value < Pow256(width) ==> Load(Store(value, width)) == value
  {
    if width > 0 {
      LoadStore(value / 256, width - 1);
      var rest := Store(value / 256, width - 1);
      assert (rest + [value % 256])[..width - 1] == rest;
      Carry(value, Pow256(width - 1));
    }
  }

  lemma Carry(value: nat, p: nat)
    requires p > 0
    ensures 256 * ((value / 256) % p) + value % 256 == value % (256 * p)
  {
    var q, r := value / 256, value % 256;
    var a, b := q / p, q % p;
    assert value == 256 * q + r && q == a * p + b;
    assert value == a * (256 * p) + (256 * b + r);
    assert 256 * b + r < 256 * p;
    Remainder(a, 256 * b + r, 256 * p);
  }

  /** Any bytes are the big-endian form of the value they load to. */
  lemma {:induction false} StoreLoad(bytes: seq<Byte>)
    ensures Store(Load(bytes), |bytes|) == bytes
  {
    if bytes != [] {
      var front, last := bytes[..|bytes| - 1], bytes[|bytes| - 1];
      StoreLoad(front);
      assert (256 * Load(front) + last) / 256 == Load(front);
    }
  }

  /** All the bytes of a list of pieces, back to back. */
  function Stream(pieces: seq<seq<Byte>>): seq<Byte> {
    if pieces == [] then [] else Stream(pieces[..|pieces| - 1]) + pieces[|pieces| - 1]
  }

  lemma StreamOne(piece: seq<Byte>)
    ensures Stream([piece]) == piece
  {
    var pieces := [piece];
    assert pieces[..0] == [];
  }

  lemma {:induction false} StreamAppend(xs: seq<seq<Byte>>, ys: seq<seq<Byte>>)
    ensures Stream(xs + ys) == Stream(xs) + Stream(ys)
    decreases |ys|
  {
    if ys == [] {
      assert xs + ys == xs;
    } else {
      var front := ys[..|ys| - 1];
      assert (xs + ys)[..|xs + ys| - 1] == xs + front;
      StreamAppend(xs, front);
    }
  }
}
