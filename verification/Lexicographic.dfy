/** The lexicographic order on vectors of iteration numbers. */
module Lexicographic {

  type Vector = seq<nat>

  ghost predicate LexLe(a: Vector, b: Vector)
    requires |a| == |b|
  {
    a == [] || a[0] < b[0] || (a[0] == b[0] && LexLe(a[1..], b[1..]))
  }

  lemma {:induction false} LexLeRefl(a: Vector)
    ensures LexLe(a, a)
  {
    if a != [] { LexLeRefl(a[1..]); }
  }

  lemma {:induction false} LexLeTrans(a: Vector, b: Vector, c: Vector)
    requires |a| == |b| == |c| && LexLe(a, b) && LexLe(b, c)
    ensures LexLe(a, c)
  {
    if a != [] && a[0] == b[0] == c[0] { LexLeTrans(a[1..], b[1..], c[1..]); }
  }

  lemma {:induction false} LexPrefix(a: Vector, b: Vector, k: nat)
    requires |a| == |b| && LexLe(a, b) && k <= |a|
    ensures LexLe(a[..k], b[..k])
  {
    if k > 0 && a[0] == b[0] {
      LexPrefix(a[1..], b[1..], k - 1);
      assert a[..k][1..] == a[1..][..k - 1] && b[..k][1..] == b[1..][..k - 1];
    }
  }

  /** A prefix in order stays in order when the next words are. */
  lemma {:induction false} LexExtends(a: Vector, b: Vector, k: nat)
    requires |a| == |b| && k < |a| && LexLe(a[..k], b[..k]) && a[k] <= b[k]
    ensures LexLe(a[..k + 1], b[..k + 1])
    ensures a[k] < b[k] ==> LexLe(a, b)
  {
    if k > 0 && a[0] == b[0] {
      assert a[..k][1..] == a[1..][..k - 1] && b[..k][1..] == b[1..][..k - 1];
      LexExtends(a[1..], b[1..], k - 1);
      assert a[..k + 1][1..] == a[1..][..k] && b[..k + 1][1..] == b[1..][..k];
    }
  }

  /** The order is decided by the first word that differs. */
  lemma {:induction false} LexAtFirst(a: Vector, b: Vector, k: nat)
    requires |a| == |b| && k < |a| && a[..k] == b[..k] && a[k] != b[k]
    ensures LexLe(a, b) <==> a[k] < b[k]
  {
    if k > 0 {
      assert a[0] == a[..k][0] == b[..k][0] == b[0];
      assert a[1..][..k - 1] == a[..k][1..] == b[..k][1..] == b[1..][..k - 1];
      LexAtFirst(a[1..], b[1..], k - 1);
    }
  }
}
