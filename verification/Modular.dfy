/** Positions that never wrap, and the places in a ring they fall on. */
module Modular {
  /** Counts less than a lap apart have the same index only if equal; a whole lap
      apart they do. */
  lemma SameIndex(a: nat, b: nat, n: nat)
    requires n > 0 && a <= b <= a + n
    ensures a % n == b % n <==> b == a || b == a + n
  {
    var k := b - a;
    if k == n {
      assert (a + n) % n == a % n by { Lap(a, n); }
    } else if k > 0 {
      ShiftedIndex(a, k, n);
    }
  }

  lemma Remainder(q: nat, m: nat, n: nat)
    requires m < n
    ensures (q * n + m) % n == m
  {
    var x := q * n + m;
    var q', m' := x / n, x % n;
    assert x == q' * n + m';
    if q < q' {
      AtLeast(q' - q, n);
    } else if q > q' {
      AtLeast(q - q', n);
    }
  }

  lemma AtLeast(k: nat, n: nat)
    requires k > 0
    ensures k * n >= n
  {
  }

  lemma Lap(a: nat, n: nat)
    requires n > 0
    ensures (a + n) % n == a % n
  {
    var q, m := a / n, a % n;
    assert a == q * n + m;
    assert a + n == (q + 1) * n + m;
    Remainder(q + 1, m, n);
  }

  lemma ShiftedIndex(a: nat, k: nat, n: nat)
    requires 0 < k < n
    ensures (a + k) % n == if a % n + k < n then a % n + k else a % n + k - n
  {
    var q, m := a / n, a % n;
    assert a == q * n + m;
    if m + k < n {
      Remainder(q, m + k, n);
    } else {
      assert a + k == (q + 1) * n + (m + k - n);
      Remainder(q + 1, m + k - n, n);
    }
  }

  lemma NextIs(a: nat, n: nat)
    requires n > 0
    ensures (a % n + 1) % n == (a + 1) % n
  {
    if n > 1 {
      ShiftedIndex(a, 1, n);
      if a % n + 1 == n { Lap(0, n); }
    }
  }
}
