/** Double hashing visits every slot of a table of prime size. */
module Probing {
  import opened FiniteSets

  ghost predicate Prime(p: nat) {
    p >= 2 && forall d {:trigger p % d} :: 2 <= d < p ==> p % d != 0
  }

  /** The distance between tries: one more than the hash modulo the size less two. */
  function StepOf(hash: nat, size: nat): (s: nat)
    requires size > 2
    ensures 0 < s < size
  {
    1 + hash % (size - 2)
  }

  /** The slot tried at turn j for a hash value, in a table of the given size. */
  function Probe(hash: nat, size: nat, j: nat): (slot: nat)
    requires size > 2
    ensures slot < size
  {
    if j == 0 then hash % size
    else
      var next := Probe(hash, size, j - 1) + StepOf(hash, size);
      if next >= size then next - size else next
  }

  lemma MultipleMod(k: int, p: int)
    requires p > 0
    ensures (k * p) % p == 0
  {
    ModIs(k * p, p, k, 0);
  }

  lemma ModIs(x: int, p: int, q: int, r: int)
    requires p > 0 && x == q * p + r && 0 <= r < p
    ensures x % p == r && x / p == q
  {
    var q', r' := x / p, x % p;
    assert x == q' * p + r' && 0 <= r' < p;
    assert (q' - q) * p == r - r';
    if q' > q {
      MulAtLeast(q' - q, p);
    } else if q' < q {
      MulAtLeast(q - q', p);
    }
  }

  lemma MulAtLeast(a: int, p: int)
    requires a >= 1 && p > 0
    ensures a * p >= p
  {
  }

  /** A prime divides no product of two smaller positive numbers. */
  lemma {:induction false} NoZeroDivisors(p: nat, s: nat, d: nat)
    requires Prime(p) && 0 < s < p && 0 < d < p
    ensures (d * s) % p != 0
    decreases d
  {
    if d == 1 {
      ModIs(s, p, 0, s);
    } else {
      var q, r := p / d, p % d;
      assert 0 < r < d;
      NoZeroDivisors(p, s, r);
      if (d * s) % p == 0 {
        var k := (d * s) / p;
        assert d * s == k * p;
        assert r * s == (s - q * k) * p by {
          assert p == q * d + r;
          assert r * s == p * s - (q * d) * s;
          assert (q * d) * s == q * (d * s) == q * (k * p) == (q * k) * p;
        }
        MultipleMod(s - q * k, p);
      }
    }
  }

  /** Equal residues differ by a multiple. */
  lemma SameResidue(x: int, y: int, p: int)
    requires p > 0 && x % p == y % p
    ensures (y - x) % p == 0
  {
    assert y - x == (y / p - x / p) * p;
    MultipleMod(y / p - x / p, p);
  }

  lemma StepsDiffer(p: nat, a: nat, s: nat, i: nat, j: nat)
    requires Prime(p) && 0 < s < p && i < j < p
    ensures (a + i * s) % p != (a + j * s) % p
  {
    NoZeroDivisors(p, s, j - i);
    assert (j - i) * s == j * s - i * s;
    if (a + i * s) % p == (a + j * s) % p {
      SameResidue(a + i * s, a + j * s, p);
    }
  }

  lemma WrapIsMod(x: int, s: int, size: int)
    requires size > 0 && 0 <= s < size
    ensures (x + s) % size == if x % size + s >= size then x % size + s - size else x % size + s
  {
    if x % size + s >= size {
      ModIs(x + s, size, x / size + 1, x % size + s - size);
    } else {
      ModIs(x + s, size, x / size, x % size + s);
    }
  }

  /** The additions with a conditional subtraction advance modulo the size. */
  lemma {:induction false} ProbeClosed(hash: nat, size: nat, j: nat)
    requires size > 2
    ensures Probe(hash, size, j) == (hash % size + j * (1 + hash % (size - 2))) % size
    decreases j
  {
    var a, s := hash % size, StepOf(hash, size);
    if j == 0 {
      ModIs(a, size, 0, a);
    } else {
      ProbeClosed(hash, size, j - 1);
      assert a + (j - 1) * s + s == a + j * s;
      WrapIsMod(a + (j - 1) * s, s, size);
    }
  }

  lemma ProbeInjective(hash: nat, size: nat, i: nat, j: nat)
    requires Prime(size) && size > 2 && i < j < size
    ensures Probe(hash, size, i) != Probe(hash, size, j)
  {
    ProbeClosed(hash, size, i);
    ProbeClosed(hash, size, j);
    StepsDiffer(size, hash % size, StepOf(hash, size), i, j);
  }

  ghost function Visited(hash: nat, size: nat, n: nat): set<nat>
    requires size > 2
  {
    set j: nat | j < n :: Probe(hash, size, j)
  }

  lemma {:induction false} VisitedCount(hash: nat, size: nat, n: nat)
    requires Prime(size) && size > 2 && n <= size
    ensures |Visited(hash, size, n)| == n
  {
    if n == 0 {
      assert Visited(hash, size, 0) == {};
    } else {
      VisitedCount(hash, size, n - 1);
      var before := Visited(hash, size, n - 1);
      var x := Probe(hash, size, n - 1);
      assert Visited(hash, size, n) == before + {x};
      if x in before {
        var i: nat :| i < n - 1 && Probe(hash, size, i) == x;
        ProbeInjective(hash, size, i, n - 1);
      }
    }
  }

  /** Every slot is tried within `size` turns. */
  lemma ProbeReaches(hash: nat, size: nat, slot: nat) returns (j: nat)
    requires Prime(size) && size > 2 && slot < size
    ensures j < size && Probe(hash, size, j) == slot
  {
    var all := Visited(hash, size, size);
    VisitedCount(hash, size, size);
    SubsetFull(all, Below(size));
    assert slot in all;
    j :| j < size && Probe(hash, size, j) == slot;
  }

  function Add32(a: nat, b: nat): nat {
    (a + b) % 0x1_0000_0000
  }

  ghost predicate StepsFit(size: nat) {
    forall index: nat, step: nat :: index < size && 1 <= step <= size - 2 ==> Add32(index, step) == index + step
  }

  /** The 32-bit addition `index += hash2` of the source agrees with the exact one
      for every slot and step of a table exactly when twice the size fits: not
      for the last row of the prime table. */
  lemma StepFits(size: nat)
    requires 2 < size < 0x1_0000_0000
    ensures StepsFit(size) <==> 2 * size - 3 < 0x1_0000_0000
  {
    if 2 * size - 3 >= 0x1_0000_0000 {
      assert Add32(size - 1, size - 2) != size - 1 + (size - 2);
    }
  }
}
