/** Sizes of finite sets. */
module FiniteSets {

  ghost function Below(n: nat): (r: set<nat>)
    ensures |r| == n
    ensures forall x: nat :: x in r <==> x < n
  {
    if n == 0 then {} else Below(n - 1) + {n - 1}
  }

  lemma {:induction false} SubsetSmaller<T>(x: set<T>, y: set<T>)
    requires x <= y
    ensures |x| <= |y|
    decreases |x|
  {
    if x != {} {
      var e :| e in x;
      SubsetSmaller(x - {e}, y - {e});
    }
  }

  lemma SubsetFull<T>(x: set<T>, y: set<T>)
    requires x <= y && |x| >= |y|
    ensures x == y
  {
    if y <= x {
    } else {
      var e :| e in y && e !in x;
      SubsetSmaller(x, y - {e});
    }
  }
}
