/** The one-word doacross protocol of lib/libopenpop/ordered.c: an iteration
    vector is packed into the bits of one 64-bit word. */
module DoacrossFlat {
  import opened Arithmetic
  import opened Bits
  import opened Lexicographic

  const MAX_COLLAPSED_BITS := 64

  // ------------------------------------------------------------------
  // Bits per dimension
  // ------------------------------------------------------------------

  /** The number of significant bits, 64 - clzl(x) for a positive word. */
  function BitLength(x: nat): (n: nat)
    ensures x < Pow2(n) && (n > 0 ==> Pow2(n - 1) <= x)
  {
    if x == 0 then 0 else 1 + BitLength(x / 2)
  }

  /** The bits for a dimension of `count` iterations: just enough for each index. */
  function ThisBits(count: nat): (n: nat)
    requires count > 0
    ensures n > 0 && count <= Pow2(n) && (count > 1 ==> Pow2(n - 1) < count)
  {
    assert Pow2(1) == 2 * Pow2(0);
    if count == 1 then 1 else BitLength(count - 1)
  }

  /** The number of iterations of one dimension. */
  type Count = c: nat | c > 0 witness 1

  ghost predicate Positive(counts: seq<nat>) {
    forall i :: 0 <= i < |counts| ==> counts[i] > 0
  }

  ghost function TotalBits(counts: seq<Count>): nat {
    if counts == [] then 0 else ThisBits(counts[0]) + TotalBits(counts[1..])
  }

  /** The field of dimension i lies above those of the dimensions after it. */
  ghost predicate ShiftOk(counts: seq<Count>, shifts: seq<nat>, i: int) {
    0 <= i < |counts| == |shifts| ==> shifts[i] == TotalBits(counts[i + 1..])
  }

  ghost predicate ShiftsOk(counts: seq<Count>, shifts: seq<nat>) {
    |shifts| == |counts| && forall i :: ShiftOk(counts, shifts, i)
  }

  /** What gomp_doacross_init chooses: no array at all, one word per entry with
      the given shifts, or one word per dimension. */
  datatype Layout = Unused | Flattened(shifts: seq<nat>) | Words

  method ChooseLayout(counts: seq<nat>) returns (layout: Layout)
    ensures layout == Unused <==> !Positive(counts)
    ensures layout.Flattened? <==> Positive(counts) && TotalBits(counts) <= MAX_COLLAPSED_BITS
    ensures layout.Flattened? ==> ShiftsOk(counts, layout.shifts)
  {
    var numBits, bits, i := 0, [], 0;
    assert counts[..0] == [];
    while i < |counts|
      invariant 0 <= i <= |counts| && Positive(counts[..i])
      invariant var n := TotalBits(counts[..i]);
        numBits == if n <= MAX_COLLAPSED_BITS then n else MAX_COLLAPSED_BITS + 1
      invariant numBits <= MAX_COLLAPSED_BITS ==> BitsOf(counts[..i], bits)
    {
      if counts[i] == 0 {
        return Unused;
      }
      TotalBitsSnoc(counts[..i], counts[i]);
      assert counts[..i] + [counts[i]] == counts[..i + 1];
      if numBits <= MAX_COLLAPSED_BITS {
        var thisBits := ThisBits(counts[i]);
        if numBits + thisBits <= MAX_COLLAPSED_BITS {
          bits := bits + [thisBits];
          numBits := numBits + thisBits;
        } else {
          numBits := MAX_COLLAPSED_BITS + 1;
        }
      }
      i := i + 1;
    }
    assert counts[..i] == counts;
    if numBits > MAX_COLLAPSED_BITS {
      return Words;
    }
    var shifts := ShiftCounts(bits, counts);
    layout := Flattened(shifts);
  }

  ghost predicate BitsOf(counts: seq<Count>, bits: seq<nat>) {
    |bits| == |counts| && forall j :: 0 <= j < |bits| ==> bits[j] == ThisBits(counts[j])
  }

  method ShiftCounts(bits: seq<nat>, ghost counts: seq<Count>) returns (shifts: seq<nat>)
    requires BitsOf(counts, bits)
    ensures ShiftsOk(counts, shifts)
  {
    var shiftCount, i := 0, |bits|;
    shifts := seq(|bits|, _ => 0);
    while i > 0
      invariant 0 <= i <= |bits| == |shifts| && shiftCount == TotalBits(counts[i..])
      invariant forall j :: j >= i ==> ShiftOk(counts, shifts, j)
    {
      assert counts[i - 1..][1..] == counts[i..];
      ghost var before := shifts;
      i := i - 1;
      shifts := shifts[i := shiftCount];
      shiftCount := shiftCount + bits[i];
      forall j | j >= i ensures ShiftOk(counts, shifts, j) { assert j > i ==> ShiftOk(counts, before, j); }
    }
  }

  lemma {:induction false} TotalBitsSnoc(counts: seq<Count>, c: Count)
    ensures TotalBits(counts + [c]) == TotalBits(counts) + ThisBits(c)
  {
    if counts == [] {
      assert (counts + [c])[1..] == [];
    } else {
      TotalBitsSnoc(counts[1..], c);
      assert (counts + [c])[1..] == counts[1..] + [c];
    }
  }

  // ------------------------------------------------------------------
  // Packing
  // ------------------------------------------------------------------

  ghost predicate InRange(counts: seq<Count>, v: Vector) {
    |v| == |counts| && forall i :: 0 <= i < |v| ==> v[i] < counts[i]
  }

  ghost function Field(x: nat, shift: nat): (r: nat)
    ensures r == x * Pow2(shift)
  {
    TimesMonotone(0, x, Pow2(shift));
    x * Pow2(shift)
  }

  /** The packed vector as a number: one field per dimension, the first on top. */
  ghost function Packed(counts: seq<Count>, v: Vector): nat
    requires |v| == |counts|
  {
    if v == [] then 0 else Field(v[0], TotalBits(counts[1..])) + Packed(counts[1..], v[1..])
  }

  /** A 64-bit left shift. */
  function Shl(x: nat, k: nat): nat {
    x * Pow2(k) % TWO64
  }

  lemma FieldFits(counts: seq<Count>, x: nat)
    requires counts != [] && x < counts[0]
    ensures Pow2(TotalBits(counts)) == Pow2(ThisBits(counts[0])) * Pow2(TotalBits(counts[1..]))
    ensures (x + 1) * Pow2(TotalBits(counts[1..])) <= Pow2(TotalBits(counts))
  {
    var p := Pow2(TotalBits(counts[1..]));
    Pow2Adds(ThisBits(counts[0]), TotalBits(counts[1..]));
    TimesMonotone(x + 1, Pow2(ThisBits(counts[0])), p);
  }

  lemma TimesStrict(a: int, b: int, p: int)
    requires p > 0
    ensures a < b <==> (a + 1) * p <= b * p
  {
    if a < b { TimesMonotone(a + 1, b, p); } else { TimesMonotone(b, a, p); }
  }

  lemma {:induction false} Pow2Monotone(m: nat, n: nat)
    requires m <= n
    ensures Pow2(m) <= Pow2(n)
  {
    if m < n { Pow2Monotone(m, n - 1); }
  }

  lemma {:induction false} PackedFits(counts: seq<Count>, v: Vector)
    requires InRange(counts, v)
    ensures Packed(counts, v) < Pow2(TotalBits(counts))
  {
    if v != [] {
      PackedFits(counts[1..], v[1..]);
      FieldFits(counts, v[0]);
      TimesAdds(v[0], 1, Pow2(TotalBits(counts[1..])));
    }
  }

  /** Packed vectors compare as numbers exactly as the vectors do lexicographically. */
  lemma {:induction false} PackedOrder(counts: seq<Count>, v: Vector, w: Vector)
    requires InRange(counts, v) && InRange(counts, w)
    ensures Packed(counts, v) <= Packed(counts, w) <==> LexLe(v, w)
  {
    if v != [] {
      var rest, p := counts[1..], Pow2(TotalBits(counts[1..]));
      PackedOrder(rest, v[1..], w[1..]);
      PackedFits(rest, v[1..]);
      PackedFits(rest, w[1..]);
      if v[0] < w[0] {
        TimesStrict(v[0], w[0], p);
        TimesAdds(v[0], 1, p);
      } else if v[0] > w[0] {
        TimesStrict(w[0], v[0], p);
        TimesAdds(w[0], 1, p);
      }
    }
  }

  /** Every dimension uses all of its bits. */
  ghost predicate Full(counts: seq<Count>)
  {
    forall i :: 0 <= i < |counts| ==> counts[i] == Pow2(ThisBits(counts[i]))
  }

  function LastOf(count: Count): nat {
    count - 1
  }

  ghost function LastVector(counts: seq<Count>): (v: Vector)
    ensures InRange(counts, v)
  {
    seq(|counts|, i requires 0 <= i < |counts| => LastOf(counts[i]))
  }

  /** A number is one short of q fields of size p when both digits are at their top. */
  lemma TopDigits(x: nat, rest: nat, q: nat, p: nat)
    requires x < q && rest < p
    ensures x * p + rest + 1 == q * p <==> x + 1 == q && rest + 1 == p
  {
    if x + 1 < q {
      TimesMonotone(x + 2, q, p);
      TimesAdds(x, 2, p);
    } else {
      TimesAdds(x, 1, p);
    }
  }

  /** All bits are ones only for the last vector of full dimensions. */
  lemma {:induction false} AllOnes(counts: seq<Count>, v: Vector)
    requires InRange(counts, v)
    ensures Packed(counts, v) + 1 == Pow2(TotalBits(counts)) <==> Full(counts) && v == LastVector(counts)
  {
    if v == [] {
      assert LastVector(counts) == [];
    } else {
      var rest := counts[1..];
      AllOnes(rest, v[1..]);
      PackedFits(rest, v[1..]);
      FieldFits(counts, v[0]);
      TopDigits(v[0], Packed(rest, v[1..]), Pow2(ThisBits(counts[0])), Pow2(TotalBits(rest)));
      FullParts(counts);
      LastParts(counts, v);
    }
  }

  lemma LastParts(counts: seq<Count>, v: Vector)
    requires |v| == |counts| > 0
    ensures v == LastVector(counts) <==> v[0] == LastOf(counts[0]) && v[1..] == LastVector(counts[1..])
  {
    var last := LastVector(counts);
    assert last[1..] == LastVector(counts[1..]);
    assert v == [v[0]] + v[1..] && last == [last[0]] + last[1..];
  }

  lemma FullParts(counts: seq<Count>)
    requires counts != []
    ensures Full(counts) <==> counts[0] == Pow2(ThisBits(counts[0])) && Full(counts[1..])
  {
    if Full(counts[1..]) && counts[0] == Pow2(ThisBits(counts[0])) {
      forall i | 0 <= i < |counts|
        ensures counts[i] == Pow2(ThisBits(counts[i]))
      {
        if i > 0 { assert counts[i] == counts[1..][i - 1]; }
      }
    }
  }

  // ------------------------------------------------------------------
  // Posting and waiting
  // ------------------------------------------------------------------

  /** The word of an entry whose poster has posted v. */
  ghost function PostedWord(counts: seq<Count>, v: Vector): nat
    requires |v| == |counts|
  {
    (Packed(counts, v) + 1) % TWO64
  }

  /** After a post of v a wait for w passes exactly when w is not after v, except
      that a word of all ones wraps and then lets nobody pass. */
  lemma PassesIff(counts: seq<Count>, v: Vector, w: Vector)
    requires TotalBits(counts) <= 64 && InRange(counts, v) && InRange(counts, w)
    ensures Packed(counts, w) < PostedWord(counts, v) <==>
      LexLe(w, v) && !(TotalBits(counts) == 64 && Full(counts) && v == LastVector(counts))
  {
    PackedOrder(counts, w, v);
    PackedTop(counts, v);
    WordPasses(Packed(counts, v), Packed(counts, w));
  }

  /** The only packed vector of 64 ones is the last one of 64 full bits. */
  lemma PackedTop(counts: seq<Count>, v: Vector)
    requires TotalBits(counts) <= 64 && InRange(counts, v)
    ensures Packed(counts, v) < TWO64
    ensures Packed(counts, v) + 1 == TWO64 <==> TotalBits(counts) == 64 && Full(counts) && v == LastVector(counts)
  {
    PackedFits(counts, v);
    AllOnes(counts, v);
    TopPower(TotalBits(counts));
  }

  lemma TopPower(n: nat)
    requires n <= 64
    ensures Pow2(n) <= TWO64 && (Pow2(n) == TWO64 <==> n == 64)
  {
    Powers64();
    if n < 64 { Pow2Monotone(n, 63); }
  }

  lemma WordPasses(posted: nat, waiting: nat)
    requires posted < TWO64
    ensures waiting < (posted + 1) % TWO64 <==> waiting <= posted && posted + 1 != TWO64
  {
  }

  ghost predicate Decides(counts: seq<Count>)
  {
    forall v: Vector, w: Vector :: InRange(counts, v) && InRange(counts, w) ==>
      (Packed(counts, w) < PostedWord(counts, v) <==> LexLe(w, v))
  }

  /** Flattening decides every wait correctly unless all 64 bits are in use and
      every count is the power of two its bits allow. */
  lemma DecidesIff(counts: seq<Count>)
    requires TotalBits(counts) <= 64
    ensures Decides(counts) <==> !(TotalBits(counts) == 64 && Full(counts))
  {
    forall v: Vector, w: Vector | InRange(counts, v) && InRange(counts, w)
      ensures Packed(counts, w) < PostedWord(counts, v) <==>
        LexLe(w, v) && !(TotalBits(counts) == 64 && Full(counts) && v == LastVector(counts))
    {
      PassesIff(counts, v, w);
    }
    if TotalBits(counts) == 64 && Full(counts) {
      var last := LastVector(counts);
      LexLeRefl(last);
    }
  }

  /** Two dimensions of 2^32 iterations each: the post of the last one stores 0. */
  lemma LastPostWraps()
    ensures var c := [0x1_0000_0000, 0x1_0000_0000];
      TotalBits(c) == 64 && PostedWord(c, [0xffff_ffff, 0xffff_ffff]) == 0
  {
    var c: seq<Count> := [0x1_0000_0000, 0x1_0000_0000];
    var v: Vector := [0xffff_ffff, 0xffff_ffff];
    Bits32();
    assert c[1..] == [0x1_0000_0000] && c[1..][1..] == [];
    assert TotalBits(c[1..]) == ThisBits(0x1_0000_0000);
    assert v == LastVector(c);
    PackedTop(c, v);
  }

  lemma Bits32()
    ensures ThisBits(0x1_0000_0000) == 32 && Pow2(32) == 0x1_0000_0000
  {
    Powers();
    BitLengthIs(0xffff_ffff, 32);
  }

  lemma BitLengthIs(x: nat, n: nat)
    requires n > 0 && Pow2(n - 1) <= x < Pow2(n)
    ensures BitLength(x) == n
  {
    var k := BitLength(x);
    if k < n { Pow2Monotone(k, n - 1); }
    if k > n { Pow2Monotone(n, k - 1); }
  }

  lemma PackedRest(counts: seq<Count>, v: Vector, i: nat)
    requires |v| == |counts| && i < |v|
    ensures Packed(counts[i..], v[i..]) == v[i] * Pow2(TotalBits(counts[i + 1..])) + Packed(counts[i + 1..], v[i + 1..])
  {
    assert counts[i..][1..] == counts[i + 1..] && v[i..][1..] == v[i + 1..];
  }

  lemma RestTotal(counts: seq<Count>, i: nat)
    requires i <= |counts|
    ensures TotalBits(counts[i..]) <= TotalBits(counts)
    decreases i
  {
    if i > 0 {
      RestTotal(counts, i - 1);
      assert counts[i - 1..][1..] == counts[i..];
    } else {
      assert counts[0..] == counts;
    }
  }

  lemma FieldBelow(x: nat, lo: nat, bits: nat)
    requires bits + lo <= 64 && x < Pow2(bits)
    ensures Shl(x, lo) == Field(x, lo) < Pow2(bits + lo)
  {
    Pow2Adds(bits, lo);
    TimesStrict(x, Pow2(bits), Pow2(lo));
    TimesAdds(x, 1, Pow2(lo));
    Pow2Monotone(bits + lo, 64);
    Powers64();
    Wraps64(Field(x, lo));
  }

  lemma FieldOnTop(a: nat, x: nat, lo: nat, bits: nat)
    ensures Field(a, bits + lo) + Field(x, lo) == Field(Field(a, bits) + x, lo)
  {
    Pow2Adds(bits, lo);
    TimesAdds(Field(a, bits), x, Pow2(lo));
    TimesAssoc(a, Pow2(bits), Pow2(lo));
  }

  /** One field moved into place: no bit is lost, and none is shared with the
      fields above it. */
  lemma FieldJoins(a: nat, x: nat, lo: nat, bits: nat)
    requires bits + lo <= 64 && x < Pow2(bits)
    ensures Shl(x, lo) == Field(x, lo)
    ensures BitOr(Field(a, bits + lo), Shl(x, lo)) == Field(a, bits + lo) + Field(x, lo)
      == Field(Field(a, bits) + x, lo)
  {
    FieldBelow(x, lo, bits);
    OrAdds(a, Field(x, lo), bits + lo);
    FieldOnTop(a, x, lo, bits);
  }

  lemma Wraps64(x: nat)
    requires x < TWO64
    ensures x % TWO64 == x
  {
  }

  /** The word holds the first i fields, in place. */
  ghost predicate Joined(counts: seq<Count>, v: Vector, i: nat, word: nat, a: nat)
    requires |v| == |counts| && i <= |v|
  {
    word == Field(a, TotalBits(counts[i..])) && word + Packed(counts[i..], v[i..]) == Packed(counts, v)
  }

  lemma JoinStep(counts: seq<Count>, v: Vector, i: nat, word: nat, a: nat, shift: nat) returns (b: nat)
    requires InRange(counts, v) && TotalBits(counts) <= 64 && i < |v| && shift == TotalBits(counts[i + 1..])
    requires Joined(counts, v, i, word, a)
    ensures Joined(counts, v, i + 1, BitOr(word, Shl(v[i], shift)), b)
  {
    PackedRest(counts, v, i);
    RestTotal(counts, i);
    assert counts[i..][1..] == counts[i + 1..];
    var bits := ThisBits(counts[i]);
    FieldJoins(a, v[i], shift, bits);
    b := Field(a, bits) + v[i];
  }

  lemma JoinFirst(counts: seq<Count>, v: Vector, shift: nat) returns (b: nat)
    requires InRange(counts, v) && TotalBits(counts) <= 64 && v != [] && shift == TotalBits(counts[1..])
    ensures Joined(counts, v, 1, Shl(v[0], shift), b)
  {
    assert counts[0..] == counts && v[0..] == v;
    b := JoinStep(counts, v, 0, 0, 0, shift);
    OrZero(Shl(v[0], shift));
  }

  /** The packing loop of GOMP_doacross_post and GOMP_doacross_wait. */
  method Flatten(v: Vector, shifts: seq<nat>, ghost counts: seq<Count>) returns (flattened: nat)
    requires InRange(counts, v) && counts != [] && TotalBits(counts) <= 64 && ShiftsOk(counts, shifts)
    ensures flattened == Packed(counts, v)
  {
    assert ShiftOk(counts, shifts, 0);
    flattened := Shl(v[0], shifts[0]);
    ghost var a := JoinFirst(counts, v, shifts[0]);
    var i := 1;
    while i < |v|
      invariant 1 <= i <= |v| && Joined(counts, v, i, flattened, a)
    {
      assert ShiftOk(counts, shifts, i);
      a := JoinStep(counts, v, i, flattened, a, shifts[i]);
      flattened := BitOr(flattened, Shl(v[i], shifts[i]));
      i := i + 1;
    }
    assert v[i..] == [];
  }

  /** One entry of a flattened doacross array; a new entry holds 0. */
  class FlatEntry {
    var word: nat

    method Post(v: Vector, shifts: seq<nat>, ghost counts: seq<Count>)
      requires InRange(counts, v) && counts != [] && TotalBits(counts) <= 64
      requires ShiftsOk(counts, shifts)
      modifies this
      ensures word == PostedWord(counts, v)
    {
      var flattened := Flatten(v, shifts, counts);
      flattened := (flattened + 1) % TWO64;
      if flattened != word {
        word := flattened;
      }
    }

    /** The test a waiter repeats until it holds. */
    method MayPass(w: Vector, shifts: seq<nat>, ghost counts: seq<Count>) returns (ok: bool)
      requires InRange(counts, w) && counts != [] && TotalBits(counts) <= 64
      requires ShiftsOk(counts, shifts)
      ensures word == 0 ==> !ok
      ensures forall v: Vector :: InRange(counts, v) && word == PostedWord(counts, v) ==>
        (ok <==> LexLe(w, v) && !(TotalBits(counts) == 64 && Full(counts) && v == LastVector(counts)))
    {
      var flattened := Flatten(w, shifts, counts);
      ok := flattened < word;
      forall v: Vector | InRange(counts, v) && word == PostedWord(counts, v)
        ensures ok <==> LexLe(w, v) && !(TotalBits(counts) == 64 && Full(counts) && v == LastVector(counts))
      {
        PassesIff(counts, v, w);
      }
    }
  }
}
