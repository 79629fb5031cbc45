/** The pointer splay tree of lib/libopenpop/splay-tree.c over address
    intervals, where two intervals compare equal when they overlap. */
module IntervalTree {
  import opened SplaySpec

  /** The interval [hostStart, hostEnd) of a splay key. */
  datatype Key = Key(hostStart: int, hostEnd: int) {
    predicate Empty() { hostStart == hostEnd }
    predicate Ok() { hostStart <= hostEnd }
    ghost predicate Has(p: int) { hostStart <= p < hostEnd }
  }

  function Compare(x: Key, y: Key): int {
    if x.Empty() && y.Empty() then 0
    else if x.hostEnd <= y.hostStart then -1
    else if x.hostStart >= y.hostEnd then 1
    else 0
  }

  // ------------------------------------------------------------------
  // The comparison
  // ------------------------------------------------------------------

  /** For non-empty intervals, comparing equal means sharing an address. */
  lemma EqualIsOverlap(x: Key, y: Key)
    requires x.hostStart < x.hostEnd && y.hostStart < y.hostEnd
    ensures Compare(x, y) == 0 <==> exists p :: x.Has(p) && y.Has(p)
  {
    if Compare(x, y) == 0 {
      var p := if x.hostStart < y.hostStart then y.hostStart else x.hostStart;
      assert x.Has(p) && y.Has(p);
    }
  }

  /** Otherwise the one that compares as less lies before the other. */
  lemma LessIsBefore(x: Key, y: Key)
    requires x.hostStart < x.hostEnd && y.hostStart < y.hostEnd
    ensures Compare(x, y) < 0 <==> forall p, q :: x.Has(p) && y.Has(q) ==> p < q
    ensures Compare(x, y) > 0 <==> forall p, q :: x.Has(p) && y.Has(q) ==> p > q
  {
    assert x.Has(x.hostStart) && x.Has(x.hostEnd - 1) && y.Has(y.hostStart) && y.Has(y.hostEnd - 1);
  }

  lemma CompareFlips(x: Key, y: Key)
    requires x.Ok() && y.Ok()
    ensures Compare(x, y) == -Compare(y, x)
  {
  }

  class Node {
    const key: Key
    var left: Node?
    var right: Node?

    constructor (key: Key)
      ensures this.key == key
    {
      this.key := key;
    }
  }

  ghost predicate KeysOk(s: seq<Node>) {
    forall i :: 0 <= i < |s| ==> s[i].key.Ok()
  }

  /** Nodes in increasing order of pairwise disjoint intervals. */
  ghost predicate Sorted(s: seq<Node>) {
    KeysOk(s) && forall i, j :: 0 <= i < j < |s| ==> Compare(s[i].key, s[j].key) < 0
  }

  function Against(key: Key): Node -> int {
    (n: Node) => Compare(key, n.key)
  }

  ghost predicate NoneEqual(key: Key, s: seq<Node>) {
    forall i :: 0 <= i < |s| ==> Compare(key, s[i].key) != 0
  }

  /** The key falls inside a non-empty interval. */
  ghost predicate InsideOne(key: Key, s: seq<Node>) {
    exists i :: 0 <= i < |s| && !s[i].key.Empty() && Compare(key, s[i].key) == 0
  }

  /** What the nodes in order must be like for the search to be right in all their trees. */
  ghost predicate Findable(key: Key, s: seq<Node>) {
    key.Ok() && (Monotone(s, Against(key)) || InsideOne(key, s))
  }

  // ------------------------------------------------------------------
  // When a search answers rightly
  // ------------------------------------------------------------------

  /** The order breaks down only for an empty key among nodes of which one is empty. */
  lemma SortedMonotone(key: Key, s: seq<Node>)
    requires Sorted(s) && key.Ok()
    requires key.Empty() ==> forall i :: 0 <= i < |s| ==> !s[i].key.Empty()
    ensures Monotone(s, Against(key))
  {
    forall i, j | 0 <= i < j < |s|
      ensures Against(key)(s[i]) >= Against(key)(s[j])
    {
      assert Compare(s[i].key, s[j].key) < 0;
      assert s[i].key.Ok() && s[j].key.Ok();
    }
  }

  /** Every stored node can be found, inserted again or removed by its own key. */
  lemma OwnKeyFindable(s: seq<Node>, m: nat)
    requires Sorted(s) && m < |s|
    ensures Findable(s[m].key, s)
  {
    var key := s[m].key;
    forall i, j | 0 <= i < j < |s|
      ensures Against(key)(s[i]) >= Against(key)(s[j])
    {
      OwnKeyOrder(s, m, i);
      OwnKeyOrder(s, m, j);
    }
  }

  lemma OwnKeyOrder(s: seq<Node>, m: nat, i: nat)
    requires Sorted(s) && m < |s| && i < |s|
    ensures Compare(s[m].key, s[i].key) == if i < m then 1 else if i > m then -1 else 0
  {
    if i != m { CompareFlips(s[m].key, s[i].key); }
  }

  /** An empty key equals an empty interval wherever it is: the one case in which an
      equal node may be away from the place of the key. */
  lemma EqualElsewhere(key: Key, s: seq<Node>)
    requires Sorted(s) && key.Ok() && !Findable(key, s)
    ensures key.Empty() && exists m :: 0 <= m < |s| && s[m].key.Empty()
  {
    if !(key.Empty() && exists m :: 0 <= m < |s| && s[m].key.Empty()) { SortedMonotone(key, s); }
  }

  /** A node equal to the key leaves no place for the key outside it. */
  lemma NoCut(key: Key, s: seq<Node>, i: int, j: int)
    requires Sorted(s) && key.Ok() && 0 <= i <= |s| && 0 <= j < |s| && Compare(key, s[j].key) == 0
    requires Monotone(s, Against(key)) || !s[j].key.Empty()
    ensures !Cut(s, Against(key), i)
  {
    assert Against(key)(s[j]) == 0;
    if j < i {
      assert j == i - 1 || Compare(s[j].key, s[i - 1].key) < 0;
      assert Against(key)(s[i - 1]) <= 0;
    } else {
      assert j == i || Compare(s[i].key, s[j].key) < 0;
      assert Against(key)(s[i]) >= 0;
    }
  }

  /** Among the nodes other than m, which alone equals the key, the order holds;
      so a node out of order with m borders on a cut. */
  lemma CutBeside(key: Key, s: seq<Node>, m: int, i: int)
    requires Sorted(s) && key.Ok() && 0 <= m < |s| && 0 <= i < |s|
    requires forall j :: 0 <= j < |s| && j != m ==> Compare(key, s[j].key) != 0
    requires (i < m && Compare(key, s[i].key) < 0) || (i > m && Compare(key, s[i].key) > 0)
    ensures HasCut(s, Against(key))
    decreases if i < m then i else |s| - i
  {
    if i < m {
      if i > 0 && Compare(key, s[i - 1].key) < 0 {
        CutBeside(key, s, m, i - 1);
      } else {
        assert Cut(s, Against(key), i);
      }
    } else {
      if i < |s| - 1 && Compare(key, s[i + 1].key) > 0 {
        CutBeside(key, s, m, i + 1);
      } else {
        assert Cut(s, Against(key), i + 1);
      }
    }
  }

  /** An equal node and a cut occur together exactly where the key is not findable. */
  lemma CutIff(key: Key, s: seq<Node>)
    requires Sorted(s) && key.Ok()
    ensures !NoneEqual(key, s) && HasCut(s, Against(key)) <==> !Findable(key, s)
  {
    if Findable(key, s) {
      if !NoneEqual(key, s) && HasCut(s, Against(key)) {
        var i :| Cut(s, Against(key), i);
        var j :| 0 <= j < |s| && Compare(key, s[j].key) == 0 && (Monotone(s, Against(key)) || !s[j].key.Empty());
        NoCut(key, s, i, j);
      }
    } else {
      UnfindableCut(key, s);
    }
  }

  lemma UnfindableCut(key: Key, s: seq<Node>)
    requires Sorted(s) && key.Ok() && !Findable(key, s)
    ensures !NoneEqual(key, s) && HasCut(s, Against(key))
  {
    EqualElsewhere(key, s);
    var m :| 0 <= m < |s| && s[m].key.Empty();
    assert Compare(key, s[m].key) == 0;
    EqualAlone(key, s, m);
    var i := OutOfOrder(key, s, m);
    CutBeside(key, s, m, i);
  }

  /** Where the order breaks down, a node is on the wrong side of the empty interval. */
  lemma OutOfOrder(key: Key, s: seq<Node>, m: int) returns (i: int)
    requires Sorted(s) && key.Ok() && key.Empty() && 0 <= m < |s| && s[m].key.Empty()
    requires !Monotone(s, Against(key))
    ensures 0 <= i < |s| && ((i < m && Compare(key, s[i].key) < 0) || (i > m && Compare(key, s[i].key) > 0))
  {
    var a, b :| 0 <= a < b < |s| && !(Against(key)(s[a]) >= Against(key)(s[b]));
    assert Compare(key, s[a].key) < Compare(key, s[b].key) && Compare(s[a].key, s[b].key) < 0;
    i := if b == m then a else b;
  }

  /** Where the key falls inside no interval, no second node equals it. */
  lemma EqualAlone(key: Key, s: seq<Node>, m: int)
    requires Sorted(s) && key.Ok() && key.Empty() && !InsideOne(key, s) && 0 <= m < |s| && s[m].key.Empty()
    ensures forall k :: 0 <= k < |s| && k != m ==> Compare(key, s[k].key) != 0
  {
    forall k | 0 <= k < |s| && k != m
      ensures Compare(key, s[k].key) != 0
    {
      assert Compare(s[if k < m then k else m].key, s[if k < m then m else k].key) < 0;
    }
  }

  /** The search for the key in t ends at an equal node exactly if there is one. */
  ghost predicate AnswersRightly(t: Tree<Node>, key: Key) {
    Hits(t, Against(key)) <==> !NoneEqual(key, InOrder(t))
  }

  lemma HitIsEqual(t: Tree<Node>, key: Key)
    requires Hits(t, Against(key))
    ensures !NoneEqual(key, InOrder(t))
  {
    SplayInOrder(t, Against(key));
    var r := Splay(t, Against(key));
    assert InOrder(t)[|InOrder(r.left)|] == r.item;
  }

  lemma FindableAnswers(t: Tree<Node>, key: Key)
    requires Sorted(InOrder(t)) && Findable(key, InOrder(t))
    ensures AnswersRightly(t, key)
  {
    CutIff(key, InOrder(t));
    if Hits(t, Against(key)) { HitIsEqual(t, key); } else { MissCuts(t, Against(key)); }
  }

  /** The search is right in every tree of the nodes s if and only if the key keeps
      their order or falls inside a non-empty interval. */
  lemma AllAnswersIff(key: Key, s: seq<Node>)
    requires Sorted(s) && key.Ok()
    ensures (forall t: Tree<Node> :: InOrder(t) == s ==> AnswersRightly(t, key)) <==> Findable(key, s)
  {
    if Findable(key, s) {
      forall t: Tree<Node> | InOrder(t) == s
        ensures AnswersRightly(t, key)
      {
        FindableAnswers(t, key);
      }
    } else {
      CutIff(key, s);
      var i :| Cut(s, Against(key), i);
      var t := CutMisses(s, Against(key), i);
      assert !AnswersRightly(t, key);
    }
  }

  /** An empty key and an empty interval elsewhere: here the search misses it. */
  lemma EmptyKeyMisses(a: Node, b: Node)
    requires a.key == Key(5, 8) && b.key == Key(10, 10)
    ensures Sorted([a, b]) && !Findable(Key(3, 3), [a, b])
    ensures Compare(Key(3, 3), b.key) == 0
    ensures !Hits(Branch(Leaf, a, Branch(Leaf, b, Leaf)), Against(Key(3, 3)))
  {
    var t := Branch(Leaf, a, Branch(Leaf, b, Leaf));
    assert SplayTurn(t, Against(Key(3, 3))) == Stop(t);
    assert [a, b][0] == a && [a, b][1] == b;
    assert Against(Key(3, 3))(a) < Against(Key(3, 3))(b);
  }

  // ------------------------------------------------------------------
  // Linked nodes and the tree they form
  // ------------------------------------------------------------------

  ghost function Nodes(t: Tree<Node>): set<Node> {
    match t
    case Leaf => {}
    case Branch(l, n, r) => Nodes(l) + {n} + Nodes(r)
  }

  /** No node occurs twice. */
  ghost predicate Separate(t: Tree<Node>) {
    match t
    case Leaf => true
    case Branch(l, n, r) =>
      Separate(l) && Separate(r) && n !in Nodes(l) && n !in Nodes(r) && Nodes(l) !! Nodes(r)
  }

  ghost predicate Linked(p: Node?, t: Tree<Node>)
    reads Nodes(t)`left, Nodes(t)`right
  {
    match t
    case Leaf => p == null
    case Branch(l, n, r) => p == n && Linked(n.left, l) && Linked(n.right, r)
  }

  lemma RotatedNodes(t: Tree<Node>, leftChild: bool)
    requires t.Branch? && (if leftChild then t.left else t.right).Branch?
    ensures Nodes(Rotated(t, leftChild)) == Nodes(t)
    ensures Separate(t) ==> Separate(Rotated(t, leftChild))
  {
    var c := if leftChild then t.left else t.right;
    var below := if leftChild then Branch(c.right, t.item, t.right) else Branch(t.left, t.item, c.left);
    assert Separate(t) ==> Separate(c) && Separate(below);
  }

  /** Rotate the edge joining the left child n with its parent p; the caller
      stores the new top in the place that pointed to p. A tree apart from the
      rotated one, linked at q, is left alone. */
  method RotateLeft(p: Node, n: Node, ghost t: Tree<Node>, ghost q: Node?, ghost rest: Tree<Node>)
    returns (top: Node)
    requires Separate(t) && Linked(p, t)
    requires t.Branch? && t.left.Branch? && t.left.item == n
    requires Linked(q, rest) && Nodes(rest) !! Nodes(t)
    modifies p`left, n`right
    ensures Linked(q, rest)
    ensures Linked(top, Rotated(t, true)) && Separate(Rotated(t, true)) && Nodes(Rotated(t, true)) == Nodes(t)
  {
    RotatedNodes(t, true);
    var tmp := n.right;
    n.right := p;
    p.left := tmp;
    top := n;
  }

  method RotateRight(p: Node, n: Node, ghost t: Tree<Node>, ghost q: Node?, ghost rest: Tree<Node>)
    returns (top: Node)
    requires Separate(t) && Linked(p, t)
    requires t.Branch? && t.right.Branch? && t.right.item == n
    requires Linked(q, rest) && Nodes(rest) !! Nodes(t)
    modifies p`right, n`left
    ensures Linked(q, rest)
    ensures Linked(top, Rotated(t, false)) && Separate(Rotated(t, false)) && Nodes(Rotated(t, false)) == Nodes(t)
  {
    RotatedNodes(t, false);
    var tmp := n.left;
    n.left := p;
    p.right := tmp;
    top := n;
  }

  /** The four cases of double rotation. */
  method RotateTwice(n: Node, c: Node, cmp1: int, cmp2: int, ghost t: Tree<Node>) returns (top: Node)
    requires Separate(t) && Linked(n, t) && cmp1 != 0 && cmp2 != 0
    requires t.Branch? && (if cmp1 < 0 then t.left else t.right).Branch?
    requires var ct := if cmp1 < 0 then t.left else t.right;
      ct.item == c && Linked(c, ct) && (if cmp2 < 0 then ct.left else ct.right).Branch?
    modifies Nodes(t)
    ensures var r := RotatedTwice(t, cmp1 < 0, cmp2 < 0);
      Linked(top, r) && Separate(r) && Nodes(r) == Nodes(t)
  {
    ghost var ct := if cmp1 < 0 then t.left else t.right;
    assert Linked(c.left, ct.left) && Linked(c.right, ct.right);
    ghost var gt := if cmp2 < 0 then ct.left else ct.right;
    assert gt.item in Nodes(gt) && Nodes(gt) <= Nodes(ct) <= Nodes(t);
    if cmp1 < 0 && cmp2 < 0 {
      n.left := RotateLeft(c, c.left, t.left, n.right, t.right);
      top := RotateLeft(n, n.left, Branch(Rotated(t.left, true), n, t.right), null, Leaf);
    } else if cmp1 > 0 && cmp2 > 0 {
      n.right := RotateRight(c, c.right, t.right, n.left, t.left);
      top := RotateRight(n, n.right, Branch(t.left, n, Rotated(t.right, false)), null, Leaf);
    } else if cmp1 < 0 && cmp2 > 0 {
      n.left := RotateRight(c, c.right, t.left, n.right, t.right);
      top := RotateLeft(n, n.left, Branch(Rotated(t.left, false), n, t.right), null, Leaf);
    } else if cmp1 > 0 && cmp2 < 0 {
      n.right := RotateLeft(c, c.left, t.right, n.left, t.left);
      top := RotateRight(n, n.right, Branch(t.left, n, Rotated(t.right, true)), null, Leaf);
    }
  }

  // ------------------------------------------------------------------
  // The right-most branch of a linked tree
  // ------------------------------------------------------------------

  ghost function Rightmost(t: Tree<Node>): (n: Node)
    requires t.Branch?
    ensures n in Nodes(t)
  {
    if t.right.Leaf? then t.item else Rightmost(t.right)
  }

  /** Everything Linked says except where the right-most node points on its right. */
  ghost predicate Spine(p: Node?, t: Tree<Node>, last: Node)
    requires t.Branch? && Separate(t) && last == Rightmost(t)
    reads Nodes(t)`left, (Nodes(t) - {last})`right
  {
    && p == t.item && Linked(t.item.left, t.left)
    && (t.right.Branch? ==> Spine(t.item.right, t.right, last))
  }

  lemma {:induction false} LinkedSpine(p: Node?, t: Tree<Node>)
    requires t.Branch? && Separate(t) && Linked(p, t)
    ensures Spine(p, t, Rightmost(t))
  {
    if t.right.Branch? {
      LinkedSpine(t.item.right, t.right);
    }
  }

  lemma {:induction false} SpineHung(p: Node?, t: Tree<Node>, r: Tree<Node>)
    requires t.Branch? && Separate(t) && Spine(p, t, Rightmost(t)) && Linked(Rightmost(t).right, r)
    ensures Linked(p, HungRight(t, r))
  {
    if t.right.Branch? {
      SpineHung(t.item.right, t.right, r);
    }
  }

  lemma {:induction false} HungNodes(t: Tree<Node>, r: Tree<Node>)
    requires Separate(t) && Separate(r) && Nodes(t) !! Nodes(r)
    ensures Nodes(HungRight(t, r)) == Nodes(t) + Nodes(r) && Separate(HungRight(t, r))
  {
    if t.Branch? {
      HungNodes(t.right, r);
    }
  }

  /** Hang the tree of `right` off the right-most node of the tree of `left`. */
  method HangRight(left: Node, right: Node, ghost l: Tree<Node>, ghost r: Tree<Node>)
    requires Separate(l) && Separate(r) && Nodes(l) !! Nodes(r)
    requires Linked(left, l) && Linked(right, r)
    modifies Nodes(l)
    ensures Linked(left, HungRight(l, r)) && Separate(HungRight(l, r))
    ensures Nodes(HungRight(l, r)) == Nodes(l) + Nodes(r)
  {
    HungNodes(l, r);
    LinkedSpine(left, l);
    var last := left;
    ghost var at := l;
    while last.right != null
      invariant at.Branch? && Linked(last, at) && Rightmost(at) == Rightmost(l) && Nodes(at) <= Nodes(l)
      decreases at
    {
      last := last.right;
      at := at.right;
    }
    assert last == Rightmost(l);
    last.right := right;
    SpineHung(left, l, r);
  }

  class SplayTree {
    var root: Node?
    ghost var shape: Tree<Node>

    /** The pointers from root form the tree `shape`. */
    ghost predicate Valid()
      reads this, Nodes(shape)
    {
      Separate(shape) && Linked(root, shape)
    }

    /** One turn of splay_tree_splay; `done` is the source's return. */
    method Turn(key: Key) returns (done: bool)
      requires Valid() && root != null
      modifies this, Nodes(shape)
      ensures Valid() && Nodes(shape) == old(Nodes(shape))
      ensures var turn := SplayTurn(old(shape), Against(key));
        shape == turn.tree && (done <==> turn.Stop?)
    {
      ghost var t := shape;
      var n := root;
      assert Linked(n.left, t.left) && Linked(n.right, t.right);
      var cmp1 := Compare(key, n.key);
      if cmp1 == 0 {
        return true;
      }
      var c := if cmp1 < 0 then n.left else n.right;
      if c == null {
        return true;
      }
      ghost var ct := if cmp1 < 0 then t.left else t.right;
      assert Linked(c.left, ct.left) && Linked(c.right, ct.right);
      var cmp2 := Compare(key, c.key);
      if cmp2 == 0 || (cmp2 < 0 && c.left == null) || (cmp2 > 0 && c.right == null) {
        if cmp1 < 0 {
          root := RotateLeft(n, c, t, null, Leaf);
        } else {
          root := RotateRight(n, c, t, null, Leaf);
        }
        shape := Rotated(t, cmp1 < 0);
        return true;
      }
      root := RotateTwice(n, c, cmp1, cmp2, t);
      shape := RotatedTwice(t, cmp1 < 0, cmp2 < 0);
      return false;
    }

    /** splay_tree_splay: the loop ends for every tree and every key. */
    method Splay(key: Key)
      requires Valid()
      modifies this, Nodes(shape)
      ensures Valid() && Nodes(shape) == old(Nodes(shape))
      ensures shape == SplaySpec.Splay(old(shape), Against(key))
    {
      if root == null {
        return;
      }
      var done := false;
      while !done
        invariant Valid() && Nodes(shape) == old(Nodes(shape))
        invariant done ==> shape == SplaySpec.Splay(old(shape), Against(key))
        invariant !done ==>
          root != null && SplaySpec.Splay(shape, Against(key)) == SplaySpec.Splay(old(shape), Against(key))
        decreases if done then 0 else 1 + Measure(shape, Against(key))
      {
        ghost var t := shape;
        if SplayTurn(t, Against(key)).Again? { TurnDecreases(t, Against(key)); }
        done := Turn(key);
      }
    }

    /** splay_tree_lookup. The tree keeps its nodes and their order, and the
        result is a stored interval equal to the key if there is one. */
    method Lookup(key: Key) returns (found: Node?)
      requires Valid() && Sorted(InOrder(shape)) && Findable(key, InOrder(shape))
      modifies this, Nodes(shape)
      ensures Valid() && InOrder(shape) == old(InOrder(shape))
      ensures found == null <==> NoneEqual(key, InOrder(shape))
      ensures found != null ==> found in InOrder(shape) && Compare(key, found.key) == 0
    {
      SplayedRoot(shape, key);
      Splay(key);
      if root != null { CompareFlips(root.key, key); }
      return if root != null && Compare(root.key, key) == 0 then root else null;
    }

    /** The end of splay_tree_insert: the new node takes the root apart. */
    method PutAtRoot(node: Node, comparison: int)
      requires Valid() && node !in Nodes(shape)
      modifies this, Nodes(shape), node
      ensures Valid() && shape == InsertedAtRoot(old(shape), node, comparison < 0)
    {
      if root == null {
        node.left, node.right := null, null;
      } else if comparison < 0 {
        node.left := root;
        node.right := node.left.right;
        node.left.right := null;
      } else {
        node.right := root;
        node.left := node.right.left;
        node.right.left := null;
      }
      root := node;
      shape := InsertedAtRoot(shape, node, comparison < 0);
    }

    /** splay_tree_insert; ok is false where the source reports a duplicate node
        and exits. A new interval is added at the one place its order allows. */
    method Insert(node: Node) returns (ok: bool)
      requires Valid() && node !in Nodes(shape)
      requires Sorted(InOrder(shape)) && Findable(node.key, InOrder(shape))
      modifies this, Nodes(shape), node
      ensures Valid() && Sorted(InOrder(shape))
      ensures ok <==> NoneEqual(node.key, old(InOrder(shape)))
      ensures ok ==> InsertedOnce(old(InOrder(shape)), node, InOrder(shape))
      ensures !ok ==> InOrder(shape) == old(InOrder(shape))
    {
      SplayedRoot(shape, node.key);
      Splay(node.key);
      var comparison := 0;
      if root != null {
        comparison := Compare(root.key, node.key);
        CompareFlips(root.key, node.key);
      }
      if root != null && comparison == 0 {
        return false;
      }
      InsertSorted(shape, node, comparison < 0);
      PutAtRoot(node, comparison);
      return true;
    }

    /** The end of splay_tree_remove: the root goes and its subtrees are joined. */
    method DropRoot()
      requires Valid() && root != null
      modifies this, Nodes(shape)
      ensures Valid()
      ensures InOrder(shape) == InOrder(old(shape).left) + InOrder(old(shape).right)
    {
      ghost var t := shape;
      var left, right := root.left, root.right;
      assert Linked(left, t.left) && Linked(right, t.right);
      if left != null {
        root := left;
        if right != null {
          HangRight(left, right, t.left, t.right);
        } else {
          HungLeaf(t.left);
        }
        shape := HungRight(t.left, t.right);
        HungRightInOrder(t.left, t.right);
      } else {
        root := right;
        shape := t.right;
      }
    }

    /** splay_tree_remove: exactly one interval equal to the key goes, if there is one. */
    method Remove(key: Key)
      requires Valid() && Sorted(InOrder(shape)) && Findable(key, InOrder(shape))
      modifies this, Nodes(shape)
      ensures Valid() && Sorted(InOrder(shape))
      ensures NoneEqual(key, old(InOrder(shape))) ==> InOrder(shape) == old(InOrder(shape))
      ensures !NoneEqual(key, old(InOrder(shape))) ==> RemovedOnce(old(InOrder(shape)), key, InOrder(shape))
    {
      SplayedRoot(shape, key);
      Splay(key);
      if root != null {
        CompareFlips(root.key, key);
        if Compare(root.key, key) == 0 {
          RootRemoved(shape, key);
          DropRoot();
        }
      }
    }
  }

  /** What a splay for the key tells about its new root. */
  lemma SplayedRoot(t: Tree<Node>, key: Key)
    requires Sorted(InOrder(t)) && Findable(key, InOrder(t))
    ensures var r := Splay(t, Against(key));
      && InOrder(r) == InOrder(t) && SplitByKey(r, Against(key)) && (r.Leaf? <==> t.Leaf?)
      && (r.Branch? ==>
            r.item in InOrder(t) && r.item.key.Ok() && (Compare(key, r.item.key) != 0 <==> NoneEqual(key, InOrder(t))))
  {
    var r, s := Splay(t, Against(key)), InOrder(t);
    SplayInOrder(t, Against(key));
    FindableAnswers(t, key);
    if Monotone(s, Against(key)) { SplaySplits(t, Against(key)); }
    if r.Branch? { assert InOrder(r)[|InOrder(r.left)|] == r.item; }
  }

  lemma RootRemoved(t: Tree<Node>, key: Key)
    requires t.Branch? && Sorted(InOrder(t)) && Compare(key, t.item.key) == 0
    ensures RemovedOnce(InOrder(t), key, InOrder(t.left) + InOrder(t.right))
    ensures Sorted(InOrder(t.left) + InOrder(t.right))
  {
    var l, r, s := InOrder(t.left), InOrder(t.right), InOrder(t);
    assert s[|l|] == t.item && s[..|l|] == l && s[|l| + 1..] == r;
    assert RemovedAt(s, key, |l|, l + r);
    SortedWithout(s, |l|);
  }

  lemma SortedWithout(s: seq<Node>, k: nat)
    requires Sorted(s) && k < |s|
    ensures Sorted(s[..k] + s[k + 1..])
  {
    var w := s[..k] + s[k + 1..];
    forall i | 0 <= i < |w|
      ensures w[i].key.Ok()
    {
      assert w[i] == s[if i < k then i else i + 1];
    }
    forall i, j | 0 <= i < j < |w|
      ensures Compare(w[i].key, w[j].key) < 0
    {
      assert w[i] == s[if i < k then i else i + 1] && w[j] == s[if j < k then j else j + 1];
    }
  }

  /** s' is s with node put in at one place. */
  ghost predicate InsertedOnce(s: seq<Node>, node: Node, s': seq<Node>) {
    exists k :: 0 <= k <= |s| && s' == s[..k] + [node] + s[k..]
  }

  ghost predicate RemovedAt(s: seq<Node>, key: Key, k: int, s': seq<Node>) {
    0 <= k < |s| && Compare(key, s[k].key) == 0 && s' == s[..k] + s[k + 1..]
  }

  /** s' is s without one node equal to the key. */
  ghost predicate RemovedOnce(s: seq<Node>, key: Key, s': seq<Node>) {
    exists k :: RemovedAt(s, key, k, s')
  }

  lemma {:induction false} HungLeaf(t: Tree<Node>)
    ensures HungRight(t, Leaf) == t
  {
    if t.Branch? { HungLeaf(t.right); }
  }

  lemma SortedBetween(a: seq<Node>, node: Node, b: seq<Node>)
    requires Sorted(a + b) && node.key.Ok()
    requires forall i :: 0 <= i < |a| ==> Compare(a[i].key, node.key) < 0
    requires forall i :: 0 <= i < |b| ==> Compare(node.key, b[i].key) < 0
    ensures Sorted(a + [node] + b)
  {
    var s, w := a + b, a + [node] + b;
    forall i | 0 <= i < |w|
      ensures w[i].key.Ok()
    {
      if i != |a| { assert w[i] == s[if i < |a| then i else i - 1]; }
    }
    forall i, j | 0 <= i < j < |w|
      ensures Compare(w[i].key, w[j].key) < 0
    {
      if i != |a| { assert w[i] == s[if i < |a| then i else i - 1]; }
      if j != |a| { assert w[j] == s[if j < |a| then j else j - 1]; }
    }
  }

  lemma AllBefore(s: seq<Node>, key: Key)
    requires key.Ok() && KeysOk(s) && forall i :: 0 <= i < |s| ==> Compare(key, s[i].key) > 0
    ensures forall i :: 0 <= i < |s| ==> Compare(s[i].key, key) < 0
  {
    forall i | 0 <= i < |s| ensures Compare(s[i].key, key) < 0 {
      CompareFlips(s[i].key, key);
    }
  }

  /** On which side of the key the nodes l, x, r stand. */
  lemma Sides(l: seq<Node>, x: Node, r: seq<Node>, key: Key)
    requires key.Ok() && Sorted(l + [x] + r) && Compare(key, x.key) != 0
    requires forall i :: 0 <= i < |l| ==> Compare(key, l[i].key) > 0
    requires forall i :: 0 <= i < |r| ==> Compare(key, r[i].key) < 0
    ensures var a := if Compare(key, x.key) > 0 then l + [x] else l;
      var b := if Compare(key, x.key) > 0 then r else [x] + r;
      && a + b == l + [x] + r
      && (forall i :: 0 <= i < |a| ==> Compare(a[i].key, key) < 0)
      && (forall i :: 0 <= i < |b| ==> Compare(key, b[i].key) < 0)
  {
    var s := l + [x] + r;
    assert s[|l|] == x && s[..|l|] == l;
    assert forall i :: 0 <= i < |l| ==> l[i] == s[i];
    AllBefore(l, key);
    CompareFlips(x.key, key);
    if Compare(key, x.key) < 0 {
      assert l + ([x] + r) == s;
    }
  }

  lemma InsertSorted(t: Tree<Node>, node: Node, rootFirst: bool)
    requires Sorted(InOrder(t)) && SplitByKey(t, Against(node.key)) && node.key.Ok()
    requires t.Branch? ==> Compare(node.key, t.item.key) != 0 && (rootFirst <==> Compare(node.key, t.item.key) > 0)
    ensures var r := InOrder(InsertedAtRoot(t, node, rootFirst));
      Sorted(r) && InsertedOnce(InOrder(t), node, r)
  {
    if t.Leaf? {
      InsertedInOrder(t, node, rootFirst);
    } else {
      var l, r := InOrder(t.left), InOrder(t.right);
      InsertedItems(t, node, rootFirst);
      assert Against(node.key)(t.item) == Compare(node.key, t.item.key);
      forall i | 0 <= i < |l| ensures Compare(node.key, l[i].key) > 0 {
        assert Against(node.key)(l[i]) > 0;
      }
      forall i | 0 <= i < |r| ensures Compare(node.key, r[i].key) < 0 {
        assert Against(node.key)(r[i]) < 0;
      }
      InsertBeside(l, t.item, r, node, InOrder(InsertedAtRoot(t, node, rootFirst)));
    }
  }

  lemma InsertedItems(t: Tree<Node>, node: Node, rootFirst: bool)
    requires t.Branch?
    ensures var l, r := InOrder(t.left), InOrder(t.right);
      InOrder(InsertedAtRoot(t, node, rootFirst)) ==
        if rootFirst then l + [t.item] + [node] + r else l + [node] + [t.item] + r
  {
    InsertedOrders(t, node, rootFirst);
    if !rootFirst { InsertedBetween(InOrder(t.left), t.item, InOrder(t.right), node); }
  }

  lemma InsertBeside(l: seq<Node>, x: Node, r: seq<Node>, node: Node, s': seq<Node>)
    requires node.key.Ok() && Sorted(l + [x] + r) && Compare(node.key, x.key) != 0
    requires forall i :: 0 <= i < |l| ==> Compare(node.key, l[i].key) > 0
    requires forall i :: 0 <= i < |r| ==> Compare(node.key, r[i].key) < 0
    requires s' == if Compare(node.key, x.key) > 0 then l + [x] + [node] + r else l + [node] + [x] + r
    ensures Sorted(s') && InsertedOnce(l + [x] + r, node, s')
  {
    var a := if Compare(node.key, x.key) > 0 then l + [x] else l;
    var b := if Compare(node.key, x.key) > 0 then r else [x] + r;
    Sides(l, x, r, node.key);
    InsertedBetween(l, x, r, node);
    SortedBetween(a, node, b);
    OnceBetween(a, node, b);
  }

  lemma InsertedBetween(l: seq<Node>, x: Node, r: seq<Node>, node: Node)
    ensures l + [node] + [x] + r == l + [node] + ([x] + r)
  {
  }

  lemma OnceBetween(a: seq<Node>, node: Node, b: seq<Node>)
    ensures InsertedOnce(a + b, node, a + [node] + b)
  {
    var s := a + b;
    assert s[..|a|] == a && s[|a|..] == b;
  }
}
