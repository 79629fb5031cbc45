/** The prime table of lib/libopenpop/hashtab.h and its division by multiplication. */
module PrimeTable {
  import opened Arithmetic
  import opened Bits

  datatype PrimeEnt = PrimeEnt(prime: nat, inv: nat, invM2: nat, shift: nat)

  const TWO32: nat := 0x1_0000_0000

  const PRIME_TAB: seq<PrimeEnt> := [
    PrimeEnt(7, 0x24924925, 0x9999999b, 2),
    PrimeEnt(13, 0x3b13b13c, 0x745d1747, 3),
    PrimeEnt(31, 0x08421085, 0x1a7b9612, 4),
    PrimeEnt(61, 0x0c9714fc, 0x15b1e5f8, 5),
    PrimeEnt(127, 0x02040811, 0x0624dd30, 6),
    PrimeEnt(251, 0x05197f7e, 0x073260a5, 7),
    PrimeEnt(509, 0x01824366, 0x02864fc8, 8),
    PrimeEnt(1021, 0x00c0906d, 0x014191f7, 9),
    PrimeEnt(2039, 0x0121456f, 0x0161e69e, 10),
    PrimeEnt(4093, 0x00300902, 0x00501908, 11),
    PrimeEnt(8191, 0x00080041, 0x00180241, 12),
    PrimeEnt(16381, 0x000c0091, 0x00140191, 13),
    PrimeEnt(32749, 0x002605a5, 0x002a06e6, 14),
    PrimeEnt(65521, 0x000f00e2, 0x00110122, 15),
    PrimeEnt(131071, 0x00008001, 0x00018003, 16),
    PrimeEnt(262139, 0x00014002, 0x0001c004, 17),
    PrimeEnt(524287, 0x00002001, 0x00006001, 18),
    PrimeEnt(1048573, 0x00003001, 0x00005001, 19),
    PrimeEnt(2097143, 0x00004801, 0x00005801, 20),
    PrimeEnt(4194301, 0x00000c01, 0x00001401, 21),
    PrimeEnt(8388593, 0x00001e01, 0x00002201, 22),
    PrimeEnt(16777213, 0x00000301, 0x00000501, 23),
    PrimeEnt(33554393, 0x00001381, 0x00001481, 24),
    PrimeEnt(67108859, 0x00000141, 0x000001c1, 25),
    PrimeEnt(134217689, 0x000004e1, 0x00000521, 26),
    PrimeEnt(268435399, 0x00000391, 0x000003b1, 27),
    PrimeEnt(536870909, 0x00000019, 0x00000029, 28),
    PrimeEnt(1073741789, 0x0000008d, 0x00000095, 29),
    PrimeEnt(2147483647, 0x00000003, 0x00000007, 30),
    PrimeEnt(0xfffffffb, 0x00000006, 0x00000008, 31)
  ]

  /** The steps t2 to t4 of htab_mod_1. */
  function Mean32(x: nat, t1: nat): nat {
    var t2 := (x - t1) % TWO32;
    var t3 := t2 / 2;
    (t1 + t3) % TWO32
  }

  /** The quotient computed by htab_mod_1 on 32-bit words: every operation wraps
      as the C code does. */
  function Quotient32(x: nat, inv: nat, shift: nat): nat {
    var t1 := (x * inv) / TWO32;
    Mean32(x, t1) / Pow2(shift)
  }

  /** htab_mod_1. */
  function Mod1(x: nat, y: nat, inv: nat, shift: nat): nat {
    (x - (Quotient32(x, inv, shift) * y) % TWO32) % TWO32
  }

  /** inv and shift describe the reciprocal of y closely enough for 32-bit words. */
  predicate GoodInverse(y: nat, inv: nat, shift: nat) {
    && 0 < y < TWO32 && inv < TWO32
    && 0 <= (TWO32 + inv) * y - 2 * TWO32 * Pow2(shift) <= 2 * Pow2(shift)
  }

  lemma BracketBelow(x: nat, y: nat, m: nat, n: nat, e: nat)
    requires y > 0 && m * y == n + e
    ensures (x / y) * n <= x * m
  {
    var a := x / y;
    assert a * y <= x;
    TimesMonotone(a * y, x, n);
    TimesAssoc(a, y, n);
    TimesAssoc(x, m, y);
    TimesAdds(n, e, x);
    TimesMonotone(0, x, e);
    assert (a * n) * y <= (x * m) * y;
    TimesCancels(a * n, x * m, y);
  }

  lemma BracketAbove(x: nat, y: nat, m: nat, n: nat, e: nat)
    requires y > 0 && m * y == n + e && x * e < n
    ensures x * m < (x / y + 1) * n
  {
    var b := x / y + 1;
    assert x + 1 <= b * y by {
      assert x == (x / y) * y + x % y;
      TimesAdds(x / y, 1, y);
    }
    TimesMonotone(x + 1, b * y, n);
    TimesAssoc(b, y, n);
    TimesAssoc(x, m, y);
    TimesAdds(n, e, x);
    TimesAdds(x, 1, n);
    assert (x * m) * y < (b * n) * y;
    TimesCancels(x * m, b * n, y);
  }

  /** The multiplier brackets x between consecutive multiples of the divisor. */
  lemma Bracketed(x: nat, y: nat, inv: nat, p: nat)
    requires x < TWO32 && 0 < y && p > 0
    requires 0 <= (TWO32 + inv) * y - 2 * TWO32 * p <= 2 * p
    ensures (x / y) * (2 * TWO32 * p) <= x * (TWO32 + inv) < (x / y + 1) * (2 * TWO32 * p)
  {
    var n, m := 2 * TWO32 * p, TWO32 + inv;
    var e := m * y - n;
    assert x * e < n by {
      TimesMonotone(e, 2 * p, x);
      TimesMonotone(x, TWO32 - 1, 2 * p);
    }
    BracketBelow(x, y, m, n, e);
    BracketAbove(x, y, m, n, e);
  }

  /** Halving twice is dividing once: the quotient of the code is that of u = x + t1. */
  lemma ShiftedQuotient(u: nat, a: nat, p: nat)
    requires p > 0 && a * (2 * TWO32 * p) < (u + 1) * TWO32 && u * TWO32 < (a + 1) * (2 * TWO32 * p)
    ensures (u / 2) / p == a
  {
    TimesAssoc(a, 2 * p, TWO32);
    TimesAssoc(a + 1, 2 * p, TWO32);
    assert 2 * TWO32 * p == (2 * p) * TWO32;
    TimesCancels(a * (2 * p), u + 1, TWO32);
    TimesCancels(u, (a + 1) * (2 * p), TWO32);
    TimesAssoc(a, 2, p);
    TimesAssoc(a + 1, 2, p);
    assert a * (2 * p) == 2 * (a * p) && (a + 1) * (2 * p) == 2 * ((a + 1) * p);
    QuotientIff(u / 2, p, a);
  }

  lemma HighPart(x: nat, inv: nat)
    requires inv < TWO32
    ensures var t1 := (x * inv) / TWO32;
      t1 <= x && (x + t1) * TWO32 <= x * (TWO32 + inv) < (x + t1 + 1) * TWO32
  {
    var t1 := (x * inv) / TWO32;
    TimesMonotone(inv, TWO32, x);
    TimesCancels(t1, x, TWO32);
    TimesAdds(TWO32, inv, x);
  }

  lemma NoWrap(v: int)
    requires 0 <= v < TWO32
    ensures v % TWO32 == v
  {
  }

  lemma MeanIs(x: nat, t1: nat)
    requires t1 <= x < TWO32
    ensures Mean32(x, t1) == (x + t1) / 2
  {
    NoWrap(x - t1);
    NoWrap((x + t1) / 2);
  }

  lemma HalvedQuotient(x: nat, y: nat, inv: nat, p: nat)
    requires x < TWO32 && inv < TWO32 && 0 < y && p > 0
    requires 0 <= (TWO32 + inv) * y - 2 * TWO32 * p <= 2 * p
    ensures ((x + (x * inv) / TWO32) / 2) / p == x / y
  {
    Bracketed(x, y, inv, p);
    HighPart(x, inv);
    ShiftedQuotient(x + (x * inv) / TWO32, x / y, p);
  }

  lemma QuotientExact(x: nat, y: nat, inv: nat, shift: nat)
    requires x < TWO32 && GoodInverse(y, inv, shift)
    ensures Quotient32(x, inv, shift) == x / y
  {
    HalvedQuotient(x, y, inv, Pow2(shift));
    HighPart(x, inv);
    MeanIs(x, (x * inv) / TWO32);
  }

  lemma Remainder(x: nat, y: nat)
    requires y > 0
    ensures x - (x / y) * y == x % y && 0 <= (x / y) * y <= x
  {
    TimesMonotone(0, x / y, y);
  }

  /** The multiplication replaces the division exactly, and no step wraps. */
  lemma Mod1Exact(x: nat, y: nat, inv: nat, shift: nat)
    requires x < TWO32 && GoodInverse(y, inv, shift)
    ensures Mod1(x, y, inv, shift) == x % y
  {
    QuotientExact(x, y, inv, shift);
    Remainder(x, y);
    NoWrap((x / y) * y);
    NoWrap(x - (x / y) * y);
  }

  // ------------------------------------------------------------------
  // The rows of the table
  // ------------------------------------------------------------------

  predicate GoodRow(e: PrimeEnt) {
    GoodInverse(e.prime, e.inv, e.shift) && GoodInverse(e.prime - 2, e.invM2, e.shift)
  }

  /** Every row serves both the prime and the prime less two. */
  lemma GoodRows(i: nat)
    requires i < |PRIME_TAB|
    ensures PRIME_TAB[i].prime >= 7 && GoodRow(PRIME_TAB[i])
    ensures i > 0 ==> PRIME_TAB[i - 1].prime < PRIME_TAB[i].prime - 1
  {
    if i < 15 { SmallRows(i); } else { LargeRows(i); }
  }

  lemma SmallRows(i: nat)
    requires i < 15
    ensures i < |PRIME_TAB| && PRIME_TAB[i].prime >= 7 && GoodRow(PRIME_TAB[i])
    ensures i > 0 ==> PRIME_TAB[i - 1].prime < PRIME_TAB[i].prime - 1
  {
    Powers();
  }

  lemma LargeRows(i: nat)
    requires 15 <= i < |PRIME_TAB|
    ensures PRIME_TAB[i].prime >= 7 && GoodRow(PRIME_TAB[i])
    ensures PRIME_TAB[i - 1].prime < PRIME_TAB[i].prime - 1
  {
    Powers();
  }

  /** What htab_mod and htab_mod_m2 compute with a row. */
  lemma RowMods(i: nat, x: nat)
    requires i < |PRIME_TAB| && x < TWO32
    ensures var e := PRIME_TAB[i];
      && e.prime > 2 && Mod1(x, e.prime, e.inv, e.shift) == x % e.prime
      && Mod1(x, e.prime - 2, e.invM2, e.shift) == x % (e.prime - 2)
  {
    GoodRows(i);
    RowMod(PRIME_TAB[i], x);
  }

  lemma RowMod(e: PrimeEnt, x: nat)
    requires GoodRow(e) && e.prime > 2 && x < TWO32
    ensures Mod1(x, e.prime, e.inv, e.shift) == x % e.prime
    ensures Mod1(x, e.prime - 2, e.invM2, e.shift) == x % (e.prime - 2)
  {
    Mod1Exact(x, e.prime, e.inv, e.shift);
    Mod1Exact(x, e.prime - 2, e.invM2, e.shift);
  }

  lemma {:induction false} RowsIncrease(i: nat, j: nat)
    requires i < j < |PRIME_TAB|
    ensures PRIME_TAB[i].prime < PRIME_TAB[j].prime
    decreases j - i
  {
    GoodRows(j);
    if i < j - 1 {
      RowsIncrease(i, j - 1);
    }
  }

  lemma RowsOrdered()
    ensures forall j, k :: 0 <= j < k < |PRIME_TAB| ==> PRIME_TAB[j].prime < PRIME_TAB[k].prime
  {
    forall j, k | 0 <= j < k < |PRIME_TAB|
      ensures PRIME_TAB[j].prime < PRIME_TAB[k].prime
    {
      RowsIncrease(j, k);
    }
  }

  lemma LastRow()
    ensures |PRIME_TAB| == 30 && PRIME_TAB[29].prime == 0xfffffffb
  {
  }

  /** The size is the smallest prime of the table from n on. */
  ghost predicate LeastSize(size: nat, n: int) {
    && n <= size && (exists i :: 0 <= i < |PRIME_TAB| && PRIME_TAB[i].prime == size)
    && forall k :: 0 <= k < |PRIME_TAB| && PRIME_TAB[k].prime >= n ==> PRIME_TAB[k].prime >= size
  }

  lemma LeastAt(i: nat, n: int)
    requires i < |PRIME_TAB| && n <= PRIME_TAB[i].prime && forall k :: 0 <= k < i ==> PRIME_TAB[k].prime < n
    ensures LeastSize(PRIME_TAB[i].prime, n)
  {
    RowsOrdered();
  }

  lemma RowApart(i: nat)
    requires 0 < i < |PRIME_TAB|
    ensures PRIME_TAB[i - 1].prime < PRIME_TAB[i].prime - 1
  {
    GoodRows(i);
  }

  /** The size before a prime of the table asks for this prime again. */
  lemma SameSize(i: nat, size: nat)
    requires i < |PRIME_TAB| && LeastSize(size, PRIME_TAB[i].prime - 1)
    ensures size == PRIME_TAB[i].prime
  {
    if i > 0 { RowApart(i); }
    var j :| 0 <= j < |PRIME_TAB| && PRIME_TAB[j].prime == size;
    if j < i - 1 { RowsIncrease(j, i - 1); } else if j > i { RowsIncrease(i, j); }
  }

  /** The index of the smallest table prime that is at least n, or the size of the
      table if n exceeds them all: the source then looks at the prime behind the last. */
  method HigherPrimeIndex(n: nat) returns (low: nat)
    ensures low <= |PRIME_TAB| && (low < |PRIME_TAB| <==> n <= 0xfffffffb)
    ensures low < |PRIME_TAB| ==> n <= PRIME_TAB[low].prime
    ensures forall k :: 0 <= k < low ==> PRIME_TAB[k].prime < n
  {
    RowsOrdered();
    LastRow();
    low := LowestRow(PRIME_TAB, n);
  }

  method LowestRow(tab: seq<PrimeEnt>, n: nat) returns (low: nat)
    requires forall j, k :: 0 <= j < k < |tab| ==> tab[j].prime < tab[k].prime
    ensures low <= |tab| && (low < |tab| ==> n <= tab[low].prime)
    ensures forall k :: 0 <= k < low ==> tab[k].prime < n
  {
    var high := |tab|;
    low := 0;
    while low != high
      invariant 0 <= low <= high <= |tab|
      invariant forall k :: 0 <= k < low ==> tab[k].prime < n
      invariant high < |tab| ==> n <= tab[high].prime
      decreases high - low
    {
      var mid := low + (high - low) / 2;
      if n > tab[mid].prime {
        low := mid + 1;
      } else {
        high := mid;
      }
    }
  }
}
