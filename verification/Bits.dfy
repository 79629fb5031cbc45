/** Bitwise operations on natural numbers. */
module Bits {

  function Pow2(n: nat): (p: nat)
    ensures p > 0
  {
    if n == 0 then 1 else 2 * Pow2(n - 1)
  }

  /** The exclusive or of the low n bits. */
  function BitXor(a: nat, b: nat, n: nat): (r: nat)
    ensures r < Pow2(n)
  {
    if n == 0 then 0 else (if a % 2 != b % 2 then 1 else 0) + 2 * BitXor(a / 2, b / 2, n - 1)
  }

  function BitOr(a: nat, b: nat): nat {
    if a == 0 && b == 0 then 0
    else (if a % 2 == 1 || b % 2 == 1 then 1 else 0) + 2 * BitOr(a / 2, b / 2)
  }

  lemma {:induction false} OrZero(a: nat)
    ensures BitOr(a, 0) == a && BitOr(0, a) == a
    decreases a
  {
    if a != 0 {
      OrZero(a / 2);
    }
  }

  /** Or adds numbers whose bits do not overlap. */
  lemma {:induction false} OrAdds(a: nat, b: nat, k: nat)
    requires b < Pow2(k)
    ensures BitOr(a * Pow2(k), b) == a * Pow2(k) + b
    decreases k
  {
    if k == 0 {
      OrZero(a);
    } else {
      var x := a * Pow2(k);
      assert x == 2 * (a * Pow2(k - 1));
      OrAdds(a, b / 2, k - 1);
      if x == 0 && b == 0 { OrZero(0); }
    }
  }

  /** Or stays below a power of two exactly when both arguments do. */
  lemma {:induction false} OrBelow(a: nat, b: nat, k: nat)
    ensures BitOr(a, b) < Pow2(k) <==> a < Pow2(k) && b < Pow2(k)
    decreases k
  {
    if k == 0 {
      if BitOr(a, b) == 0 { OrZeroOnly(a, b); }
    } else {
      OrBelow(a / 2, b / 2, k - 1);
    }
  }

  lemma {:induction false} OrZeroOnly(a: nat, b: nat)
    requires BitOr(a, b) == 0
    ensures a == 0 && b == 0
    decreases a + b
  {
    if a != 0 || b != 0 {
      OrZeroOnly(a / 2, b / 2);
    }
  }

  lemma {:induction false} Pow2Adds(m: nat, n: nat)
    ensures Pow2(m + n) == Pow2(m) * Pow2(n)
    decreases m
  {
    if m > 0 {
      Pow2Adds(m - 1, n);
      assert Pow2(m + n) == 2 * Pow2(m - 1 + n);
      assert 2 * (Pow2(m - 1) * Pow2(n)) == (2 * Pow2(m - 1)) * Pow2(n);
    }
  }

  lemma Powers()
    ensures
      && Pow2(2) == 0x4 && Pow2(3) == 0x8
      && Pow2(4) == 0x10 && Pow2(5) == 0x20
      && Pow2(6) == 0x40 && Pow2(7) == 0x80
      && Pow2(8) == 0x100 && Pow2(9) == 0x200
      && Pow2(10) == 0x400 && Pow2(11) == 0x800
      && Pow2(12) == 0x1000 && Pow2(13) == 0x2000
      && Pow2(14) == 0x4000 && Pow2(15) == 0x8000
      && Pow2(16) == 0x10000 && Pow2(17) == 0x20000
      && Pow2(18) == 0x40000 && Pow2(19) == 0x80000
      && Pow2(20) == 0x100000 && Pow2(21) == 0x200000
      && Pow2(22) == 0x400000 && Pow2(23) == 0x800000
      && Pow2(24) == 0x1000000 && Pow2(25) == 0x2000000
      && Pow2(26) == 0x4000000 && Pow2(27) == 0x8000000
      && Pow2(28) == 0x10000000 && Pow2(29) == 0x20000000
      && Pow2(30) == 0x40000000 && Pow2(31) == 0x80000000
      && Pow2(32) == 0x1_0000_0000
  {
  }

  const TWO64: nat := 0x1_0000_0000_0000_0000

  lemma Powers64()
    ensures Pow2(63) == 0x8000_0000_0000_0000 && Pow2(64) == TWO64
  {
    Powers();
    Pow2Adds(32, 32);
    Pow2Adds(31, 32);
  }
}
