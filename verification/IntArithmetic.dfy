/** Quotients, remainders and wrapping counters. */
module IntArithmetic {
  /** The number of values of an unsigned 64-bit counter. */
  const WRAP: nat := 0x1_0000_0000_0000_0000

  lemma OnlyZero(d: int, k: int)
    requires k >= 1 && -k < d * k < k
    ensures d == 0
  {
    assert d >= 1 ==> (d - 1) * k >= 0;
    assert d <= -1 ==> (-d - 1) * k >= 0;
  }

  /** A quotient and a remainder are the only ones. */
  lemma Quotients(c: int, k: int, q: int, r: int)
    requires k >= 1 && 0 <= r < k && c == q * k + r
    ensures c / k == q && c % k == r
  {
    var d := q - c / k;
    assert d * k == c % k - r;
    OnlyZero(d, k);
  }

  /** A slot index computed from a wrapped counter is the one the counter would
      have without wrapping, when the number of slots divides the range. */
  lemma WrapSlot(x: int, m: int, c: int)
    requires m >= 1 && c >= 1 && m % c == 0
    ensures (x % m) % c == x % c
  {
    var q, k := x / m, m / c;
    var r := x % m;
    assert m == k * c;
    assert x == q * m + r;
    assert q * m == (q * k) * c;
    assert r == (r / c) * c + r % c;
    assert x == (q * k + r / c) * c + r % c;
    Quotients(x, c, q * k + r / c, r % c);
  }

  /** The wrapped difference of two wrapped counters is their distance. */
  lemma WrapDistance(a: int, b: int, m: int)
    requires m >= 1 && 0 <= a - b < m
    ensures (a % m - b % m) % m == a - b
  {
    var q, q' := a / m, b / m;
    assert a % m - b % m == (q' - q) * m + (a - b);
    Quotients(a % m - b % m, m, q' - q, a - b);
  }

  lemma WrapNext(a: int, m: int)
    requires m >= 1
    ensures (a % m + 1) % m == (a + 1) % m
  {
    var q, q1, r1 := a / m, (a + 1) / m, (a + 1) % m;
    assert a % m + 1 == (q1 - q) * m + r1;
    Quotients(a % m + 1, m, q1 - q, r1);
  }

  /** Counters closer than c to each other use different slots. */
  lemma DistinctSlots(a: int, b: int, c: int)
    requires c >= 1 && b < a < b + c
    ensures a % c != b % c
  {
    var d := a / c - b / c;
    assert a % c == b % c ==> d * c == a - b;
    assert d <= 0 ==> d * c <= 0;
    assert d >= 1 ==> (d - 1) * c >= 0;
  }

  lemma WrapAdd(a: int, i: int, m: int)
    requires m >= 1
    ensures (a % m + i) % m == (a + i) % m
  {
    var q, q1, r1 := a / m, (a + i) / m, (a + i) % m;
    assert a % m + i == (q1 - q) * m + r1;
    Quotients(a % m + i, m, q1 - q, r1);
  }
}
