/** Products and quotients of integers. */
module Arithmetic {

  function Times(a: int, b: int): (r: int)
    ensures r == a * b
  {
    a * b
  }

  function Quotient(x: nat, d: nat): nat
    requires d > 0
  {
    x / d
  }

  function Abs(a: int): nat {
    if a < 0 then -a else a
  }

  /** Signed division as C defines it, rounding toward zero. */
  function TruncDiv(a: int, b: int): int
    requires b != 0
  {
    var q := Abs(a) / Abs(b);
    if (a < 0) == (b < 0) then q else -q
  }

  lemma TimesMonotone(a: int, b: int, d: int)
    requires a <= b && d >= 0
    ensures a * d <= b * d
  {
  }

  lemma TimesAdds(a: int, b: int, d: int)
    ensures (a + b) * d == a * d + b * d
    ensures d * (a + b) == d * a + d * b
  {
  }

  lemma TimesAssoc(a: int, b: int, c: int)
    ensures (a * b) * c == a * (b * c) == (a * c) * b
  {
  }

  lemma TimesCancels(a: int, b: int, d: int)
    requires d > 0
    ensures a * d <= b * d ==> a <= b
    ensures a * d < b * d ==> a < b
  {
  }

  lemma QuotientIff(x: int, d: int, q: int)
    requires d > 0
    ensures x / d == q <==> q * d <= x < (q + 1) * d
  {
    var r := x / d;
    assert r * d <= x < (r + 1) * d by { assert x == d * r + x % d; }
    if r < q { TimesMonotone(r + 1, q, d); } else if r > q { TimesMonotone(q + 1, r, d); }
  }

  lemma RemainderIs(x: int, d: int, q: int, r: int)
    requires d > 0 && x == q * d + r && 0 <= r < d
    ensures x / d == q && x % d == r
  {
    assert (q + 1) * d == q * d + d;
    QuotientIff(x, d, q);
  }
}
