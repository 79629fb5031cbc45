/** The splay algorithm of lib/libopenpop/splay-tree.c on tree values. The key
    enters only through `cmp`, which compares it with an item of the tree. */
module SplaySpec {

  datatype Tree<T> = Leaf | Branch(left: Tree<T>, item: T, right: Tree<T>)

  function InOrder<T>(t: Tree<T>): seq<T> {
    match t
    case Leaf => []
    case Branch(l, x, r) => InOrder(l) + [x] + InOrder(r)
  }

  /** One turn of the loop: either the loop stops with the tree, or it goes on with it. */
  datatype Turn<T> = Stop(tree: Tree<T>) | Again(tree: Tree<T>)

  function Rotated<T>(t: Tree<T>, leftChild: bool): Tree<T>
    requires t.Branch? && (if leftChild then t.left else t.right).Branch?
  {
    if leftChild then
      var c := t.left;
      Branch(c.left, c.item, Branch(c.right, t.item, t.right))
    else
      var c := t.right;
      Branch(Branch(t.left, t.item, c.left), c.item, c.right)
  }

  /** The two rotations of one turn: first the edge below the child on side s1
      (its child on side s2), then the edge at the root. */
  function RotatedTwice<T>(t: Tree<T>, s1: bool, s2: bool): Tree<T>
    requires t.Branch?
    requires var c := if s1 then t.left else t.right; c.Branch? && (if s2 then c.left else c.right).Branch?
  {
    var c := if s1 then t.left else t.right;
    var d := Rotated(c, s2);
    Rotated(if s1 then Branch(d, t.item, t.right) else Branch(t.left, t.item, d), s1)
  }

  function SplayTurn<T>(t: Tree<T>, cmp: T -> int): Turn<T>
    requires t.Branch?
  {
    var cmp1 := cmp(t.item);
    if cmp1 == 0 then Stop(t)
    else
      var c := if cmp1 < 0 then t.left else t.right;
      if c.Leaf? then Stop(t)
      else
        var cmp2 := cmp(c.item);
        if cmp2 == 0 || (cmp2 < 0 && c.left.Leaf?) || (cmp2 > 0 && c.right.Leaf?) then Stop(Rotated(t, cmp1 < 0))
        else Again(RotatedTwice(t, cmp1 < 0, cmp2 < 0))
  }

  /** One turn in pictures, with the subtrees a, b, c, d and the items x, y, z in order:
      the node two levels down the search path comes to the root, or the node one level
      down if that one matches the key or has no child on the path. */
  lemma TurnShapes<T>(a: Tree<T>, x: T, b: Tree<T>, y: T, c: Tree<T>, z: T, d: Tree<T>, cmp: T -> int)
    ensures cmp(z) < 0 && cmp(y) < 0 ==>
      SplayTurn(Branch(Branch(Branch(a, x, b), y, c), z, d), cmp) == Again(Branch(a, x, Branch(Branch(b, y, c), z, d)))
    ensures cmp(x) > 0 && cmp(y) > 0 ==>
      SplayTurn(Branch(a, x, Branch(b, y, Branch(c, z, d))), cmp) == Again(Branch(Branch(a, x, Branch(b, y, c)), z, d))
    ensures cmp(z) < 0 && cmp(x) > 0 ==>
      SplayTurn(Branch(Branch(a, x, Branch(b, y, c)), z, d), cmp) == Again(Branch(Branch(a, x, b), y, Branch(c, z, d)))
    ensures cmp(x) > 0 && cmp(z) < 0 ==>
      SplayTurn(Branch(a, x, Branch(Branch(b, y, c), z, d)), cmp) == Again(Branch(Branch(a, x, b), y, Branch(c, z, d)))
    ensures cmp(y) < 0 && (cmp(x) == 0 || (cmp(x) < 0 && a.Leaf?) || (cmp(x) > 0 && b.Leaf?)) ==>
      SplayTurn(Branch(Branch(a, x, b), y, c), cmp) == Stop(Branch(a, x, Branch(b, y, c)))
    ensures cmp(x) > 0 && (cmp(y) == 0 || (cmp(y) < 0 && b.Leaf?) || (cmp(y) > 0 && c.Leaf?)) ==>
      SplayTurn(Branch(a, x, Branch(b, y, c)), cmp) == Stop(Branch(Branch(a, x, b), y, c))
  {
  }

  // ------------------------------------------------------------------
  // Termination
  // ------------------------------------------------------------------

  /** The number of items a search compares with the key. */
  function PathLength<T>(t: Tree<T>, cmp: T -> int): nat {
    match t
    case Leaf => 0
    case Branch(l, x, r) =>
      if cmp(x) == 0 then 1 else if cmp(x) < 0 then 1 + PathLength(l, cmp) else 1 + PathLength(r, cmp)
  }

  predicate StraightStart<T>(t: Tree<T>, cmp: T -> int) {
    t.Branch? &&
    ((cmp(t.item) < 0 && t.left.Branch? && cmp(t.left.item) < 0) ||
     (cmp(t.item) > 0 && t.right.Branch? && cmp(t.right.item) > 0))
  }

  /** Twice the search path, plus one when its first two turns go the same way:
      a straight double rotation can leave the path as long as it was. */
  function Measure<T>(t: Tree<T>, cmp: T -> int): nat {
    2 * PathLength(t, cmp) + if StraightStart(t, cmp) then 1 else 0
  }

  /** Every turn that goes on makes progress, whatever the tree and the key. */
  lemma TurnDecreases<T>(t: Tree<T>, cmp: T -> int)
    requires t.Branch? && SplayTurn(t, cmp).Again?
    ensures SplayTurn(t, cmp).tree.Branch?
    ensures Measure(SplayTurn(t, cmp).tree, cmp) < Measure(t, cmp)
  {
    var s1 := cmp(t.item) < 0;
    var c := if s1 then t.left else t.right;
    var s2 := cmp(c.item) < 0;
    var g := if s2 then c.left else c.right;
    assert PathLength(t, cmp) == 2 + PathLength(g, cmp);
    var r := SplayTurn(t, cmp).tree;
    if s1 && s2 {
      var m := Branch(g.right, c.item, c.right);
      assert r == Branch(g.left, g.item, Branch(m, t.item, t.right));
      assert PathLength(m, cmp) == 1 + PathLength(g.right, cmp);
      assert PathLength(r.right, cmp) == 1 + PathLength(m, cmp);
    } else if !s1 && !s2 {
      var m := Branch(c.left, c.item, g.left);
      assert r == Branch(Branch(t.left, t.item, m), g.item, g.right);
      assert PathLength(m, cmp) == 1 + PathLength(g.left, cmp);
      assert PathLength(r.left, cmp) == 1 + PathLength(m, cmp);
    } else if s1 {
      assert r == Branch(Branch(c.left, c.item, g.left), g.item, Branch(g.right, t.item, t.right));
      assert PathLength(r.left, cmp) == 1 + PathLength(g.left, cmp);
      assert PathLength(r.right, cmp) == 1 + PathLength(g.right, cmp);
    } else {
      assert r == Branch(Branch(t.left, t.item, g.left), g.item, Branch(g.right, c.item, c.right));
      assert PathLength(r.left, cmp) == 1 + PathLength(g.left, cmp);
      assert PathLength(r.right, cmp) == 1 + PathLength(g.right, cmp);
    }
  }

  function Splay<T>(t: Tree<T>, cmp: T -> int): Tree<T>
    decreases Measure(t, cmp)
  {
    if t.Leaf? then t
    else match SplayTurn(t, cmp)
      case Stop(r) => r
      case Again(r) => TurnDecreases(t, cmp); Splay(r, cmp)
  }

  // ------------------------------------------------------------------
  // What splaying keeps and establishes
  // ------------------------------------------------------------------

  lemma RotatedInOrder<T>(t: Tree<T>, leftChild: bool)
    requires t.Branch? && (if leftChild then t.left else t.right).Branch?
    ensures InOrder(Rotated(t, leftChild)) == InOrder(t)
  {
  }

  lemma TurnInOrder<T>(t: Tree<T>, cmp: T -> int)
    requires t.Branch?
    ensures InOrder(SplayTurn(t, cmp).tree) == InOrder(t)
  {
    var s1 := cmp(t.item) < 0;
    var c := if s1 then t.left else t.right;
    if SplayTurn(t, cmp).Again? {
      var s2 := cmp(c.item) < 0;
      RotatedInOrder(c, s2);
      var d := Rotated(c, s2);
      RotatedInOrder(if s1 then Branch(d, t.item, t.right) else Branch(t.left, t.item, d), s1);
    } else if SplayTurn(t, cmp).tree != t {
      RotatedInOrder(t, s1);
    }
  }

  /** Splaying keeps the in-order sequence of every tree, for every key. */
  lemma {:induction false} SplayInOrder<T>(t: Tree<T>, cmp: T -> int)
    ensures InOrder(Splay(t, cmp)) == InOrder(t)
    ensures Splay(t, cmp).Leaf? <==> t.Leaf?
    decreases Measure(t, cmp)
  {
    if t.Branch? {
      TurnInOrder(t, cmp);
      if SplayTurn(t, cmp).Again? {
        TurnDecreases(t, cmp);
        SplayInOrder(SplayTurn(t, cmp).tree, cmp);
      }
    }
  }

  /** The key is at or after the items it compares greater with. */
  ghost predicate Monotone<T>(s: seq<T>, cmp: T -> int) {
    forall i, j :: 0 <= i < j < |s| ==> cmp(s[i]) >= cmp(s[j])
  }

  /** The root matches the key, or nothing lies between the root and the key. */
  ghost predicate SplitByKey<T>(t: Tree<T>, cmp: T -> int) {
    t.Branch? ==>
      cmp(t.item) == 0 ||
      ((forall i :: 0 <= i < |InOrder(t.left)| ==> cmp(InOrder(t.left)[i]) > 0) &&
       (forall i :: 0 <= i < |InOrder(t.right)| ==> cmp(InOrder(t.right)[i]) < 0))
  }

  lemma MonotoneAround<T>(l: seq<T>, x: T, r: seq<T>, cmp: T -> int)
    requires Monotone(l + [x] + r, cmp)
    ensures Monotone(l, cmp) && Monotone(r, cmp)
    ensures forall i :: 0 <= i < |l| ==> cmp(l[i]) >= cmp(x)
    ensures forall i :: 0 <= i < |r| ==> cmp(x) >= cmp(r[i])
  {
    var s := l + [x] + r;
    assert s[|l|] == x;
    forall i, j | 0 <= i < j < |r|
      ensures cmp(r[i]) >= cmp(r[j])
    {
      assert s[|l| + 1 + i] == r[i] && s[|l| + 1 + j] == r[j];
    }
    forall i | 0 <= i < |r|
      ensures cmp(x) >= cmp(r[i])
    {
      assert s[|l| + 1 + i] == r[i];
    }
    forall i, j | 0 <= i < j < |l|
      ensures cmp(l[i]) >= cmp(l[j])
    {
      assert s[i] == l[i] && s[j] == l[j];
    }
    forall i | 0 <= i < |l|
      ensures cmp(l[i]) >= cmp(x)
    {
      assert s[i] == l[i];
    }
  }

  lemma MonotoneParts<T>(t: Tree<T>, cmp: T -> int)
    requires t.Branch? && Monotone(InOrder(t), cmp)
    ensures Monotone(InOrder(t.left), cmp) && Monotone(InOrder(t.right), cmp)
    ensures forall i :: 0 <= i < |InOrder(t.left)| ==> cmp(InOrder(t.left)[i]) >= cmp(t.item)
    ensures forall i :: 0 <= i < |InOrder(t.right)| ==> cmp(t.item) >= cmp(InOrder(t.right)[i])
  {
    MonotoneAround(InOrder(t.left), t.item, InOrder(t.right), cmp);
  }

  /** Splitting follows from the two neighbours of the key. */
  lemma SplitFromSides<T>(t: Tree<T>, cmp: T -> int)
    requires t.Branch? && Monotone(InOrder(t), cmp) && cmp(t.item) != 0
    requires cmp(t.item) < 0 ==> t.left.Leaf? || (t.left.right.Leaf? && cmp(t.left.item) > 0)
    requires cmp(t.item) > 0 ==> t.right.Leaf? || (t.right.left.Leaf? && cmp(t.right.item) < 0)
    ensures SplitByKey(t, cmp)
  {
    MonotoneParts(t, cmp);
    if cmp(t.item) < 0 && t.left.Branch? { MonotoneParts(t.left, cmp); }
    if cmp(t.item) > 0 && t.right.Branch? { MonotoneParts(t.right, cmp); }
  }

  lemma StopSplits<T>(t: Tree<T>, cmp: T -> int)
    requires t.Branch? && Monotone(InOrder(t), cmp) && SplayTurn(t, cmp).Stop?
    ensures SplitByKey(SplayTurn(t, cmp).tree, cmp)
  {
    TurnInOrder(t, cmp);
    var r := SplayTurn(t, cmp).tree;
    if cmp(r.item) != 0 { SplitFromSides(r, cmp); }
  }

  /** Splaying ends with the key at the root, or with the root next to the key. */
  lemma {:induction false} SplaySplits<T>(t: Tree<T>, cmp: T -> int)
    requires Monotone(InOrder(t), cmp)
    ensures SplitByKey(Splay(t, cmp), cmp)
    decreases Measure(t, cmp)
  {
    if t.Branch? {
      if SplayTurn(t, cmp).Again? {
        TurnDecreases(t, cmp);
        TurnInOrder(t, cmp);
        SplaySplits(SplayTurn(t, cmp).tree, cmp);
      } else {
        StopSplits(t, cmp);
      }
    }
  }

  /** A search succeeds at the root exactly when some item matches the key. */
  lemma SplayFinds<T>(t: Tree<T>, cmp: T -> int)
    requires Monotone(InOrder(t), cmp) && t.Branch?
    ensures var r := Splay(t, cmp);
      r.Branch? && (cmp(r.item) == 0 <==> exists i :: 0 <= i < |InOrder(t)| && cmp(InOrder(t)[i]) == 0)
  {
    SplayInOrder(t, cmp);
    SplaySplits(t, cmp);
    var r := Splay(t, cmp);
    var s, l := InOrder(t), InOrder(r.left);
    assert s == l + [r.item] + InOrder(r.right);
    assert s[|l|] == r.item;
    if i :| 0 <= i < |s| && cmp(s[i]) == 0 {
      if i < |l| { assert s[i] == l[i]; } else if i > |l| { assert s[i] == InOrder(r.right)[i - |l| - 1]; }
    }
  }

  // ------------------------------------------------------------------
  // When every tree of the same items is searched rightly
  // ------------------------------------------------------------------

  ghost predicate Hits<T>(t: Tree<T>, cmp: T -> int) {
    var r := Splay(t, cmp);
    r.Branch? && cmp(r.item) == 0
  }

  /** Place i looks like the place of a missing key: the item before it precedes
      the key and the item after it follows it. */
  ghost predicate Cut<T>(s: seq<T>, cmp: T -> int, i: int) {
    0 <= i <= |s| && (i > 0 ==> cmp(s[i - 1]) > 0) && (i < |s| ==> cmp(s[i]) < 0)
  }

  ghost predicate HasCut<T>(s: seq<T>, cmp: T -> int) {
    exists i :: Cut(s, cmp, i)
  }

  lemma LastItem<T>(t: Tree<T>)
    requires t.Branch? && t.right.Leaf?
    ensures InOrder(t) == InOrder(t.left) + [t.item]
  {
  }

  lemma FirstItem<T>(t: Tree<T>)
    requires t.Branch? && t.left.Leaf?
    ensures InOrder(t) == [t.item] + InOrder(t.right)
  {
  }

  lemma CutAt<T>(t: Tree<T>, cmp: T -> int)
    requires t.Branch?
    requires cmp(t.item) < 0 ==> t.left.Leaf? || (t.left.right.Leaf? && cmp(t.left.item) > 0)
    requires cmp(t.item) > 0 ==> t.right.Leaf? || (t.right.left.Leaf? && cmp(t.right.item) < 0)
    requires cmp(t.item) != 0
    ensures HasCut(InOrder(t), cmp)
  {
    var s, k := InOrder(t), |InOrder(t.left)|;
    assert s[k] == t.item;
    if cmp(t.item) < 0 {
      if t.left.Branch? { LastItem(t.left); }
      assert Cut(s, cmp, k);
    } else {
      if t.right.Branch? {
        FirstItem(t.right);
        assert s[k + 1] == InOrder(t.right)[0];
      }
      assert Cut(s, cmp, k + 1);
    }
  }

  /** A search that misses has stopped at a cut, whatever the comparison. */
  lemma {:induction false} MissCuts<T>(t: Tree<T>, cmp: T -> int)
    requires !Hits(t, cmp)
    ensures HasCut(InOrder(t), cmp)
    decreases Measure(t, cmp)
  {
    if t.Leaf? {
      assert Cut(InOrder(t), cmp, 0);
    } else {
      TurnInOrder(t, cmp);
      var r := SplayTurn(t, cmp).tree;
      if SplayTurn(t, cmp).Again? {
        TurnDecreases(t, cmp);
        MissCuts(r, cmp);
      } else {
        CutAt(r, cmp);
      }
    }
  }

  /** A tree of the items s. */
  ghost function Chain<T>(s: seq<T>): (t: Tree<T>)
    ensures InOrder(t) == s
  {
    if s == [] then Leaf else Branch(Leaf, s[0], Chain(s[1..]))
  }

  /** At a cut, some tree of the items makes the search miss. */
  lemma CutMisses<T>(s: seq<T>, cmp: T -> int, i: int) returns (t: Tree<T>)
    requires Cut(s, cmp, i)
    ensures InOrder(t) == s && !Hits(t, cmp)
  {
    if s == [] {
      t := Leaf;
    } else if i == 0 {
      t := Chain(s);
      assert SplayTurn(t, cmp) == Stop(t);
    } else {
      var below := Chain(s[i..]);
      t := Branch(Chain(s[..i - 1]), s[i - 1], below);
      if i < |s| { assert below == Branch(Leaf, s[i], Chain(s[i..][1..])); }
      assert SplayTurn(t, cmp) == Stop(if i == |s| then t else Rotated(t, false));
      assert s == s[..i - 1] + [s[i - 1]] + s[i..];
    }
  }

  // ------------------------------------------------------------------
  // Insertion at the root and removal of the root
  // ------------------------------------------------------------------

  /** The new root takes the splayed tree apart; `rootFirst` says that the old root precedes it. */
  function InsertedAtRoot<T>(t: Tree<T>, x: T, rootFirst: bool): Tree<T> {
    if t.Leaf? then Branch(Leaf, x, Leaf)
    else if rootFirst then Branch(Branch(t.left, t.item, Leaf), x, t.right)
    else Branch(t.left, x, Branch(Leaf, t.item, t.right))
  }

  /** Hang r off the right-most branch of l. */
  function HungRight<T>(l: Tree<T>, r: Tree<T>): Tree<T> {
    if l.Leaf? then r else Branch(l.left, l.item, HungRight(l.right, r))
  }

  /** The new root has the items before it on its left and the others on its right. */
  lemma InsertedSides<T>(t: Tree<T>, x: T, rootFirst: bool)
    requires t.Branch?
    ensures var r, k := InsertedAtRoot(t, x, rootFirst), |InOrder(t.left)| + if rootFirst then 1 else 0;
      && k <= |InOrder(t)|
      && InOrder(r.left) == InOrder(t)[..k] && InOrder(r.right) == InOrder(t)[k..]
  {
    InsertedOrders(t, x, rootFirst);
    Around(InOrder(t.left), t.item, InOrder(t.right));
  }

  lemma InsertedOrders<T>(t: Tree<T>, x: T, rootFirst: bool)
    requires t.Branch?
    ensures var r, a, b := InsertedAtRoot(t, x, rootFirst), InOrder(t.left), InOrder(t.right);
      && InOrder(r.left) == (if rootFirst then a + [t.item] else a)
      && InOrder(r.right) == if rootFirst then b else [t.item] + b
  {
    var none: Tree<T> := Leaf;
    assert InOrder(none) == [];
    if rootFirst {
      assert InOrder(Branch(t.left, t.item, none)) == InOrder(t.left) + [t.item] + [];
    } else {
      assert InOrder(Branch(none, t.item, t.right)) == [] + [t.item] + InOrder(t.right);
    }
  }

  lemma Around<T>(a: seq<T>, x: T, b: seq<T>)
    ensures var s := a + [x] + b;
      && s[..|a|] == a && s[|a|..] == [x] + b
      && s[..|a| + 1] == a + [x] && s[|a| + 1..] == b
  {
  }

  lemma InsertedInOrder<T>(t: Tree<T>, x: T, rootFirst: bool)
    ensures var k := if t.Leaf? then 0 else |InOrder(t.left)| + if rootFirst then 1 else 0;
      k <= |InOrder(t)| && InOrder(InsertedAtRoot(t, x, rootFirst)) == InOrder(t)[..k] + [x] + InOrder(t)[k..]
  {
    if t.Branch? { InsertedSides(t, x, rootFirst); }
  }

  lemma {:induction false} HungRightInOrder<T>(l: Tree<T>, r: Tree<T>)
    ensures InOrder(HungRight(l, r)) == InOrder(l) + InOrder(r)
  {
    if l.Branch? {
      HungRightInOrder(l.right, r);
    }
  }
}
