/** How a number is shown to be prime: trial division and Pocklington's criterion. */
module Primality {
  import opened Arithmetic
  import opened FiniteSets
  import opened Probing

  // ------------------------------------------------------------------
  // Divisors
  // ------------------------------------------------------------------

  /** A prime divisor. */
  lemma {:induction false} PrimeDivisor(m: nat) returns (d: nat)
    requires m >= 2
    ensures Prime(d) && d <= m && m % d == 0
  {
    d := m;
    if !Prime(m) {
      var e: nat :| 2 <= e < m && m % e == 0;
      d := PrimeDivisor(e);
      DividesAlso(d, e, m);
    }
  }

  lemma DividesAlso(d: nat, e: nat, m: nat)
    requires d > 0 && e > 0 && e % d == 0 && m % e == 0
    ensures m % d == 0
  {
    assert m == (m / e) * e && e == (e / d) * d;
    TimesAssoc(m / e, e / d, d);
    MultipleMod((m / e) * (e / d), d);
  }

  /** A number that is not prime has a prime divisor no larger than its root. */
  lemma SmallDivisor(p: nat) returns (r: nat)
    requires p >= 2 && !Prime(p)
    ensures Prime(r) && p % r == 0 && r * r <= p
  {
    var e: nat :| 2 <= e < p && p % e == 0;
    var m := SmallerFactor(p, e);
    r := PrimeDivisor(m);
    DividesAlso(r, m, p);
    TimesMonotone(r, m, r);
    TimesMonotone(r, m, m);
  }

  lemma SmallerFactor(p: nat, e: nat) returns (m: nat)
    requires 2 <= e < p && p % e == 0
    ensures m >= 2 && p % m == 0 && m * m <= p
  {
    var f := p / e;
    FactorPair(p, e, f);
    if e <= f {
      m := e;
      TimesMonotone(e, f, e);
    } else {
      m := f;
      TimesMonotone(f, e, f);
    }
  }

  lemma FactorPair(p: nat, e: nat, f: nat)
    requires 2 <= e < p && p % e == 0 && f == p / e
    ensures p == f * e == e * f && f >= 2 && p % f == 0
  {
    assert f * e == p;
    if f < 2 { TimesMonotone(f, 1, e); }
    MultipleMod(e, f);
  }

  /** A prime that divides a product divides a factor. */
  lemma PrimeDividesFactor(d: nat, x: nat, y: nat)
    requires Prime(d) && (x * y) % d == 0
    ensures x % d == 0 || y % d == 0
  {
    var a, b := x % d, y % d;
    if a != 0 && b != 0 {
      NoZeroDivisors(d, a, b);
      ModFactor(x, y, d);
      ModFactor(y, a, d);
    }
  }

  lemma ModFactor(x: nat, y: nat, d: nat)
    requires d > 0
    ensures (x % d) * y % d == x * y % d && y * (x % d) % d == x * y % d
  {
    var k := (x / d) * y;
    assert x * y == k * d + (x % d) * y by {
      assert x == (x / d) * d + x % d;
      TimesAdds((x / d) * d, x % d, y);
      TimesAssoc(x / d, d, y);
    }
    ModShift((x % d) * y, k, d);
  }

  lemma ModShift(x: int, k: int, d: nat)
    requires d > 0
    ensures (k * d + x) % d == x % d
  {
    TimesAdds(k, x / d, d);
    ModIs(k * d + x, d, k + x / d, x % d);
  }

  /** A prime that divides a product with another prime is that one or divides the rest. */
  lemma PrimeDividesPrime(d: nat, m: nat, q: nat)
    requires Prime(d) && Prime(q) && (m * q) % d == 0
    ensures m % d == 0 || d == q
  {
    PrimeDividesFactor(d, m, q);
    if q % d == 0 {
      assert d <= q by { if d > q { ModIs(q, d, 0, q); } }
    }
  }

  /** A proper divisor still divides when some prime factor is left out. */
  lemma ProperDivisor(f: nat, k: nat) returns (q: nat, n: nat)
    requires 0 < k < f && f % k == 0
    ensures Prime(q) && f % q == 0 && f / q == k * n
  {
    var m := f / k;
    assert m * k == f;
    assert m >= 2 by { if m < 2 { TimesMonotone(m, 1, k); } }
    q := PrimeDivisor(m);
    n := m / q;
    LeaveOut(f, k, m, q, n);
  }

  lemma LeaveOut(f: nat, k: nat, m: nat, q: nat, n: nat)
    requires q > 0 && m * k == f && n * q == m
    ensures f % q == 0 && f / q == k * n
  {
    TimesAssoc(n, q, k);
    assert f == (k * n) * q;
    ModIs(f, q, k * n, 0);
  }

  // ------------------------------------------------------------------
  // Powers
  // ------------------------------------------------------------------

  /** Residues of the powers of b modulo p, kept as a sequence. */
  datatype Residues = Residues(p: nat, b: nat, ps: seq<nat>) {
    ghost predicate Follows(i: nat)
      requires p > 0
    {
      i + 1 < |ps| && ps[i + 1] == ps[i] * b % p
    }

    ghost predicate Valid() {
      && 1 < p && |ps| > 0 && ps[0] == 1
      && forall i :: 0 <= i < |ps| - 1 ==> Follows(i)
    }

    /** The e-th power of b is y modulo p. */
    ghost predicate Is(e: nat, y: nat) {
      e < |ps| && ps[e] == y
    }

    /** The e-th power of b is not 1 modulo any divisor of p. */
    ghost predicate Apart(e: nat) {
      e < |ps| && forall r {:trigger p % r} :: 1 < r && p % r == 0 ==> ps[e] % r != 1
    }
  }

  /** Consecutive powers, from the 0-th. */
  type Powers = g: Residues | g.Valid() witness Residues(2, 0, [1])

  lemma {:induction false} MakePowers(p: nat, b: nat, n: nat) returns (g: Powers)
    requires 1 < p
    ensures g.p == p && g.b == b && |g.ps| == n + 1
  {
    if n == 0 {
      g := Residues(p, b, [1]);
    } else {
      var h := MakePowers(p, b, n - 1);
      var v := Residues(p, b, h.ps + [h.ps[n - 1] * b % p]);
      forall i | 0 <= i < n ensures v.Follows(i) { assert i < n - 1 ==> h.Follows(i); }
      g := v;
    }
  }

  /** The same powers modulo a divisor. */
  lemma Reduce(g: Powers, r: nat) returns (h: Powers)
    requires 1 < r && g.p % r == 0
    ensures h.p == r && |h.ps| == |g.ps|
    ensures forall i :: 0 <= i < |g.ps| ==> h.ps[i] == g.ps[i] % r
  {
    var v := Residues(r, g.b, seq(|g.ps|, i requires 0 <= i < |g.ps| => g.ps[i] % r));
    ModIs(1, r, 0, 1);
    forall i | 0 <= i < |g.ps| - 1 ensures v.Follows(i) {
      assert g.Follows(i);
      ModThrough(g.ps[i] * g.b, g.p, r);
      ModFactor(g.ps[i], g.b, r);
    }
    h := v;
  }

  lemma {:induction false} PowerSum(g: Powers, i: nat, j: nat)
    requires i + j < |g.ps|
    ensures g.ps[i + j] == g.ps[i] * g.ps[j] % g.p && g.ps[i] < g.p
    decreases i + j, j
  {
    if j == 0 {
      Residue(g, i);
      ModIs(g.ps[i], g.p, 0, g.ps[i]);
    } else {
      PowerSum(g, i, j - 1);
      assert g.Follows(i + (j - 1)) && g.Follows(j - 1);
      ModAssoc(g.ps[i], g.ps[j - 1], g.b, g.p);
    }
  }

  lemma ModAssoc(x: nat, y: nat, b: nat, d: nat)
    requires d > 0
    ensures (x * y % d) * b % d == x * (y * b % d) % d
  {
    var u := y * b;
    ModFactor(x * y, b, d);
    TimesAssoc(x, y, b);
    assert (x * y) * b == x * u;
    ModFactor(u, x, d);
  }

  lemma Residue(g: Powers, i: nat)
    requires i < |g.ps|
    ensures g.ps[i] < g.p
  {
    if i > 0 { assert g.Follows(i - 1); }
  }

  lemma {:induction false} PowerOfOne(g: Powers, k: nat, n: nat)
    requires k * n < |g.ps| && k < |g.ps| && g.ps[k] == 1
    ensures g.ps[k * n] == 1
    decreases n
  {
    if n > 0 {
      assert k * n == k * (n - 1) + k by { TimesAdds(n - 1, 1, k); }
      assert k * (n - 1) >= 0 by { TimesMonotone(0, n - 1, k); }
      PowerOfOne(g, k, n - 1);
      PowerSum(g, k * (n - 1), k);
      ModIs(1, g.p, 0, 1);
    }
  }

  /** The exponents of two powers that are 1 have a common divisor whose power is 1. */
  lemma {:induction false} CommonExponent(g: Powers, x: nat, y: nat) returns (k: nat)
    requires 0 < x < |g.ps| && 0 < y < |g.ps| && g.ps[x] == 1 == g.ps[y]
    ensures 0 < k <= x && k <= y && x % k == 0 && y % k == 0 && g.ps[k] == 1
    decreases x + y, x
  {
    if x == y {
      k := x;
      ModIs(x, x, 1, 0);
    } else if x < y {
      PowerSum(g, y - x, x);
      Residue(g, y - x);
      ModIs(g.ps[y - x], g.p, 0, g.ps[y - x]);
      k := CommonExponent(g, x, y - x);
      SumOfMultiples(x, y - x, k);
    } else {
      k := CommonExponent(g, y, x);
    }
  }

  lemma SumOfMultiples(x: nat, y: nat, k: nat)
    requires k > 0 && x % k == 0 && y % k == 0
    ensures (x + y) % k == 0
  {
    ModShift(y, x / k, k);
  }

  // ------------------------------------------------------------------
  // The criterion
  // ------------------------------------------------------------------

  /** The power is not 1 when the prime q is left out of the exponent f. */
  ghost predicate NotOneWithout(g: Powers, f: nat, q: nat) {
    q > 0 && f / q < |g.ps| && g.ps[f / q] != 1
  }

  /** The f-th power is 1, and none is in which a prime factor of f is left out. */
  ghost predicate HasOrder(g: Powers, f: nat) {
    && |g.ps| == 2 * f && g.ps[f] == 1
    && forall q {:trigger NotOneWithout(g, f, q)} :: Prime(q) && f % q == 0 ==> NotOneWithout(g, f, q)
  }

  /** A lower power that is 1 would make one of those powers 1. */
  lemma NoneSooner(g: Powers, f: nat, k: nat)
    requires HasOrder(g, f) && 0 < k < f
    ensures g.ps[k] != 1
  {
    if g.ps[k] == 1 {
      var c := CommonExponent(g, k, f);
      var q, n := ProperDivisor(f, c);
      assert NotOneWithout(g, f, q);
      PowerOfOne(g, c, n);
    }
  }

  lemma AllDiffer(g: Powers, f: nat, i: nat, j: nat)
    requires HasOrder(g, f) && i < j < f
    ensures g.ps[i] != g.ps[j]
  {
    PowerSum(g, i, f - i);
    PowerSum(g, j, f - i);
    PowerSum(g, j - i, f);
    Residue(g, j - i);
    ModIs(g.ps[j - i], g.p, 0, g.ps[j - i]);
    NoneSooner(g, f, j - i);
  }

  ghost function Seen(ps: seq<nat>, n: nat): set<nat>
    requires n <= |ps|
  {
    set i: nat | i < n :: ps[i]
  }

  lemma {:induction false} SeenCount(ps: seq<nat>, n: nat)
    requires n <= |ps| && forall i, j :: 0 <= i < j < n ==> ps[i] != ps[j]
    ensures |Seen(ps, n)| == n
  {
    if n == 0 {
      assert Seen(ps, 0) == {};
    } else {
      SeenCount(ps, n - 1);
      assert Seen(ps, n) == Seen(ps, n - 1) + {ps[n - 1]};
    }
  }

  /** As many powers differ, so the modulus is no smaller. */
  lemma ModulusAtLeast(g: Powers, f: nat)
    requires HasOrder(g, f)
    ensures g.p >= f
  {
    forall i, j | 0 <= i < j < f ensures g.ps[i] != g.ps[j] { AllDiffer(g, f, i, j); }
    SeenCount(g.ps, f);
    forall x | x in Seen(g.ps, f) ensures x in Below(g.p) {
      var i: nat :| i < f && g.ps[i] == x;
      Residue(g, i);
    }
    SubsetSmaller(Seen(g.ps, f), Below(g.p));
  }

  /** The first two powers. */
  lemma Start(p: nat, b: nat, f: nat) returns (g: Powers)
    requires b < p && f > 0 && p > 1
    ensures g.p == p && g.b == b && |g.ps| == 2 * f && g.Is(1, b) && Tested(g, f, 1)
  {
    g := MakePowers(p, b, 2 * f - 1);
    assert g.Follows(0);
    ModIs(b, p, 0, b);
    forall q: nat | Prime(q) ensures 1 % q != 0 { ModIs(1, q, 0, 1); }
  }

  /** Squaring, or squaring and multiplying by b; k is the quotient by p. */
  lemma Next(g: Powers, e: nat, y: nat, f: nat, k: nat, z: nat)
    requires g.Is(e, y) && f < |g.ps| && z < g.p
    requires (f == 2 * e && y * y == k * g.p + z) || (f == 2 * e + 1 && y * y * g.b == k * g.p + z)
    ensures g.Is(f, z)
  {
    PowerSum(g, e, e);
    if f == 2 * e {
      ModIs(y * y, g.p, k, z);
    } else {
      assert g.Follows(2 * e);
      ModFactor(y * y, g.b, g.p);
      ModIs(y * y * g.b, g.p, k, z);
    }
  }

  lemma ModThrough(x: nat, p: nat, r: nat)
    requires p > 0 && r > 0 && p % r == 0
    ensures (x % p) % r == x % r
  {
    var k := (x / p) * (p / r);
    assert x == k * r + x % p by {
      assert x == (x / p) * p + x % p && p == (p / r) * r;
      TimesAssoc(x / p, p / r, r);
    }
    ModShift(x % p, k, r);
  }

  ghost predicate ApartWithout(g: Powers, f: nat, q: nat) {
    q > 0 && g.Apart(f / q)
  }

  /** The prime factors of m, left out of the exponent f, give powers apart from 1. */
  ghost predicate Tested(g: Powers, f: nat, m: nat) {
    forall q {:trigger ApartWithout(g, f, q)} :: Prime(q) && m % q == 0 ==> ApartWithout(g, f, q)
  }

  /** A power is not 1 when its distance from 1 has an inverse; here the power in
      which the prime q is left out of the exponent. */
  lemma Factor(g: Powers, f: nat, m: nat, q: nat, e: nat, y: nat, u: nat, k: nat)
    requires Tested(g, f, m) && Prime(q) && f == e * q
    requires g.Is(e, y) && y > 0 && u * (y - 1) == k * g.p + 1
    ensures Tested(g, f, m * q)
  {
    ModIs(u * (y - 1), g.p, k, 1);
    forall r | 1 < r && g.p % r == 0 ensures y % r != 1 { Invertible(g.p, y, u, r); }
    ModIs(f, q, e, 0);
    OneMore(g, f, m, q);
  }

  lemma OneMore(g: Powers, f: nat, m: nat, q: nat)
    requires Tested(g, f, m) && Prime(q) && ApartWithout(g, f, q)
    ensures Tested(g, f, m * q)
  {
    forall d: nat | Prime(d) && (m * q) % d == 0 ensures ApartWithout(g, f, d) { PrimeDividesPrime(d, m, q); }
  }

  /** A prime factor that occurs again. */
  lemma Again(g: Powers, f: nat, m: nat, q: nat)
    requires Tested(g, f, m) && Prime(q) && m % q == 0
    ensures Tested(g, f, m * q)
  {
    assert ApartWithout(g, f, q);
    OneMore(g, f, m, q);
  }

  lemma Invertible(p: nat, y: nat, u: nat, r: nat)
    requires y > 0 && p > 0 && u * (y - 1) % p == 1 && 1 < r && p % r == 0
    ensures y % r != 1
  {
    if y % r == 1 {
      var n := y / r;
      assert y - 1 == n * r;
      TimesAssoc(u, n, r);
      MultipleMod(u * n, r);
      ModThrough(u * (y - 1), p, r);
      ModIs(1, r, 0, 1);
    }
  }

  lemma ApartReduced(g: Powers, h: Powers, e: nat)
    requires g.Apart(e) && 1 < h.p && g.p % h.p == 0 && e < |h.ps| && h.ps[e] == g.ps[e] % h.p
    ensures h.ps[e] != 1
  {
  }

  lemma OrderReduced(g: Powers, f: nat, r: nat) returns (h: Powers)
    requires Tested(g, f, f) && g.Is(f, 1) && |g.ps| == 2 * f && 1 < r && g.p % r == 0
    ensures h.p == r && HasOrder(h, f)
  {
    h := Reduce(g, r);
    ModIs(1, r, 0, 1);
    forall q | Prime(q) && f % q == 0 ensures NotOneWithout(h, f, q) {
      assert ApartWithout(g, f, q);
      ApartReduced(g, h, f / q);
    }
  }

  /** Pocklington's criterion: f powers differ modulo every divisor, so none is below f. */
  lemma Pocklington(g: Powers, f: nat)
    requires Tested(g, f, f) && g.Is(f, 1) && |g.ps| == 2 * f && f * f > g.p
    ensures Prime(g.p)
  {
    if !Prime(g.p) {
      var r := SmallDivisor(g.p);
      var h := OrderReduced(g, f, r);
      ModulusAtLeast(h, f);
      TimesMonotone(f, r, f);
      TimesMonotone(f, r, r);
    }
  }

  // ------------------------------------------------------------------
  // Trial division
  // ------------------------------------------------------------------

  const SMALL_PRIMES: set<nat> := {2, 3, 5, 7, 11, 13, 17, 19, 23, 29, 31, 37, 41, 43, 47, 53, 59, 61, 67}

  predicate Misses(q: nat, p: nat)
    requires q > 0
  {
    q * q <= p ==> p % q != 0
  }

  /** No prime below 71 divides p, unless its square is beyond p. */
  predicate NoSmallFactor(p: nat) {
    && Misses(2, p) && Misses(3, p) && Misses(5, p) && Misses(7, p) && Misses(11, p) && Misses(13, p) && Misses(17, p)
    && Misses(19, p) && Misses(23, p) && Misses(29, p) && Misses(31, p) && Misses(37, p) && Misses(41, p)
    && Misses(43, p) && Misses(47, p) && Misses(53, p) && Misses(59, p) && Misses(61, p) && Misses(67, p)
  }

  /** Trial division. */
  lemma Trial(p: nat)
    requires 2 <= p < 71 * 71 && NoSmallFactor(p)
    ensures Prime(p)
  {
    if !Prime(p) {
      var r := SmallDivisor(p);
      assert r < 71 by { if r >= 71 { TimesMonotone(71, r, 71); TimesMonotone(71, r, r); } }
      SmallPrimes(r);
      NotDivided(p, r);
    }
  }

  lemma NotDivided(p: nat, r: nat)
    requires NoSmallFactor(p) && r in SMALL_PRIMES
    ensures r > 0 && Misses(r, p)
  {
  }

  lemma SmallPrimes(r: nat)
    requires Prime(r) && r < 71
    ensures r in SMALL_PRIMES
  {
    if r < 36 { LowPrimes(r); } else { HighPrimes(r); }
  }

  lemma LowPrimes(r: nat)
    requires Prime(r) && r < 36
    ensures r in SMALL_PRIMES
  {
    assert r > 2 ==> r % 2 != 0;
    assert r > 3 ==> r % 3 != 0;
    assert r > 5 ==> r % 5 != 0;
  }

  lemma HighPrimes(r: nat)
    requires Prime(r) && 36 <= r < 71
    ensures r in SMALL_PRIMES
  {
    assert r % 2 != 0 && r % 3 != 0 && r % 5 != 0 && r % 7 != 0;
  }
}
