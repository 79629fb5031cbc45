/** The circular doubly linked list of one priority, lib/libopenpop/priority_queue.h
    and task.c, with its links updated in place. */
module PriorityList {

  datatype NodeKind = Waiting | Tied

  datatype Position = Begin | End

  class Node {
    var next: Node?
    var prev: Node?
    var kind: NodeKind

    constructor (kind: NodeKind)
      ensures this.kind == kind && next == null && prev == null
    {
      next, prev, this.kind := null, null, kind;
    }
  }

  // ------------------------------------------------------------------
  // The ring as a sequence
  // ------------------------------------------------------------------

  function After(i: nat, n: nat): nat {
    if i + 1 == n then 0 else i + 1
  }

  function Before(i: nat, n: nat): nat
    requires i < n
  {
    if i == 0 then n - 1 else i - 1
  }

  ghost predicate Distinct(ring: seq<Node>) {
    forall i, j :: 0 <= i < j < |ring| ==> ring[i] != ring[j]
  }

  ghost predicate LinkedAt(ring: seq<Node>, i: nat)
    requires i < |ring|
    reads ring`next, ring`prev
  {
    ring[i].next == ring[After(i, |ring|)] && ring[i].prev == ring[Before(i, |ring|)]
  }

  ghost predicate Linked(ring: seq<Node>)
    reads ring`next, ring`prev
  {
    Distinct(ring) && forall i: nat :: i < |ring| ==> LinkedAt(ring, i)
  }

  /** WAITING tasks come before TIED ones. */
  ghost predicate Ordered(kinds: seq<NodeKind>) {
    forall i, j :: 0 <= i < j < |kinds| && kinds[i].Tied? ==> kinds[j].Tied?
  }

  ghost function Kinds(ring: seq<Node>): (r: seq<NodeKind>)
    reads ring
    ensures |r| == |ring| && forall i :: 0 <= i < |r| ==> r[i] == ring[i].kind
  {
    seq(|ring|, i requires 0 <= i < |ring| reads ring => ring[i].kind)
  }

  function Without<T>(s: seq<T>, i: nat): seq<T>
    requires i < |s|
  {
    s[..i] + s[i + 1..]
  }

  /** What priority_list_downgrade_task makes of a list when the task at i starts:
      it goes to the end unless no waiting task follows it. */
  function Downgraded<T>(s: seq<T>, i: nat, nextWaits: bool): seq<T>
    requires i < |s|
  {
    if i == 0 || (i + 1 < |s| && nextWaits) then Without(s, i) + [s[i]] else s
  }

  // ------------------------------------------------------------------
  // Waiting tasks stay in front
  // ------------------------------------------------------------------

  ghost predicate AllWaiting(kinds: seq<NodeKind>) {
    forall i :: 0 <= i < |kinds| ==> kinds[i].Waiting?
  }

  ghost predicate AllTied(kinds: seq<NodeKind>) {
    forall i :: 0 <= i < |kinds| ==> kinds[i].Tied?
  }

  /** Exactly when an insertion keeps the order: a waiting task may always go to the
      front, and to the end only if no task has started. */
  lemma InsertOrderedIff(kinds: seq<NodeKind>, k: NodeKind)
    requires Ordered(kinds)
    ensures Ordered([k] + kinds) <==> k.Waiting? || AllTied(kinds)
    ensures Ordered(kinds + [k]) <==> k.Tied? || AllWaiting(kinds)
  {
    var b, e := [k] + kinds, kinds + [k];
    forall i | 0 <= i < |kinds| ensures b[i + 1] == kinds[i] && e[i] == kinds[i] { }
    if Ordered(b) && k.Tied? {
      assert b[0] == k;
    }
    if Ordered(e) && k.Waiting? {
      assert e[|kinds|] == k;
    }
  }

  lemma RemoveOrdered(kinds: seq<NodeKind>, i: nat)
    requires Ordered(kinds) && i < |kinds|
    ensures Ordered(Without(kinds, i))
  {
    var r := Without(kinds, i);
    assert forall j :: 0 <= j < |r| ==> r[j] == kinds[if j < i then j else j + 1];
  }

  /** The task that starts goes out of the way of every waiting task. */
  lemma StartOrdered(kinds: seq<NodeKind>, i: nat)
    requires Ordered(kinds) && i < |kinds|
    ensures Ordered(Downgraded(kinds[i := Tied], i, i + 1 < |kinds| && kinds[i + 1] == Waiting))
  {
    var s := kinds[i := Tied];
    if i == 0 || (i + 1 < |s| && kinds[i + 1] == Waiting) {
      var r := Without(s, i);
      assert r == Without(kinds, i);
      RemoveOrdered(kinds, i);
      InsertOrderedIff(r, Tied);
    }
  }

  /** The head of a list is waiting exactly when some task of the list is. */
  lemma HeadWaitsIff(kinds: seq<NodeKind>)
    requires Ordered(kinds) && kinds != []
    ensures kinds[0].Waiting? <==> exists i :: 0 <= i < |kinds| && kinds[i].Waiting?
  {
  }

  lemma KindsWithout(ring: seq<Node>, kinds: seq<NodeKind>, i: nat)
    requires i < |ring| == |kinds| && forall j :: 0 <= j < |ring| ==> ring[j].kind == kinds[j]
    ensures Kinds(Without(ring, i)) == Without(kinds, i)
  {
    var a, b := Kinds(Without(ring, i)), Without(kinds, i);
    assert |a| == |b|;
    forall j | 0 <= j < |a| ensures a[j] == b[j] {
      assert Without(ring, i)[j] == ring[if j < i then j else j + 1];
    }
  }

  lemma KindsDowngraded(ring: seq<Node>, i: nat, nextWaits: bool)
    requires i < |ring|
    ensures Kinds(Downgraded(ring, i, nextWaits)) == Downgraded(Kinds(ring), i, nextWaits)
  {
    if i == 0 || nextWaits {
      KindsWithout(ring, Kinds(ring), i);
      assert Kinds(Without(ring, i) + [ring[i]]) == Without(Kinds(ring), i) + [ring[i].kind];
    }
  }

  lemma StartedOrdered(ring: seq<Node>, kinds: seq<NodeKind>, i: nat, after: seq<Node>)
    requires Ordered(kinds) && i < |ring| == |kinds|
    requires forall j :: 0 <= j < |ring| ==> ring[j].kind == if j == i then Tied else kinds[j]
    requires after == if i == 0 || (i + 1 < |ring| && kinds[i + 1] == Waiting)
      then ring[..i] + ring[i + 1..] + [ring[i]] else ring
    ensures Ordered(Kinds(after))
  {
    KindsDowngraded(ring, i, i + 1 < |ring| && kinds[i + 1] == Waiting);
    assert Kinds(ring) == kinds[i := Tied];
    StartOrdered(kinds, i);
  }

  lemma WithoutDistinct(ring: seq<Node>, i: nat)
    requires Distinct(ring) && i < |ring|
    ensures Distinct(Without(ring, i)) && ring[i] !in Without(ring, i)
  {
  }

  lemma BesideDistinct(ring: seq<Node>, i: nat, k: nat)
    requires Distinct(ring) && i < |ring| && k < |ring|
    ensures ring[k] == ring[Before(i, |ring|)] <==> k == Before(i, |ring|)
    ensures ring[k] == ring[After(i, |ring|)] <==> k == After(i, |ring|)
  {
  }

  /** Around the node at i the pointers pass over it, as the ring without it wants them. */
  lemma StillLinked(ring: seq<Node>, i: nat, j: nat, k: nat)
    requires i < |ring| && j + 1 < |ring| && k == if j < i then j else j + 1
    requires ring[k].next == ring[After(if k == Before(i, |ring|) then i else k, |ring|)]
    requires ring[k].prev == ring[Before(if k == After(i, |ring|) then i else k, |ring|)]
    ensures LinkedAt(Without(ring, i), j)
  {
  }

  class PriorityList {
    var tasks: Node?
    ghost var ring: seq<Node>

    ghost predicate Valid()
      reads this, ring`next, ring`prev
    {
      && Linked(ring)
      && (tasks == null <==> ring == [])
      && (ring != [] ==> tasks == ring[0])
    }

    constructor ()
      ensures Valid() && ring == []
    {
      tasks, ring := null, [];
    }

    /** priority_list_insert for a list that is not a children queue; the order of
        waiting and started tasks is kept exactly in the cases that callers use. */
    method Insert(node: Node, pos: Position)
      requires Valid() && node !in ring
      modifies this, node`next, node`prev, ring`next, ring`prev
      ensures Valid() && ring == if pos == Begin then [node] + old(ring) else old(ring) + [node]
      ensures old(Ordered(Kinds(ring))) ==>
        (Ordered(Kinds(ring)) <==> if pos == Begin then node.kind.Waiting? || AllTied(old(Kinds(ring)))
                                   else node.kind.Tied? || AllWaiting(old(Kinds(ring))))
    {
      ghost var kinds := Kinds(ring);
      InsertLinks(node, pos);
      assert Kinds(ring) == if pos == Begin then [node.kind] + kinds else kinds + [node.kind];
      if Ordered(kinds) { InsertOrderedIff(kinds, node.kind); }
    }

    method InsertLinks(node: Node, pos: Position)
      requires Valid() && node !in ring
      modifies this, node`next, node`prev, ring`next, ring`prev
      ensures Valid() && ring == if pos == Begin then [node] + old(ring) else old(ring) + [node]
    {
      ghost var was, n := ring, |ring|;
      if tasks != null {
        assert LinkedAt(was, 0) && LinkedAt(was, n - 1);
        node.next := tasks;
        node.prev := tasks.prev;
        if pos == Begin {
          tasks := node;
        }
        node.next.prev := node;
        node.prev.next := node;
      } else {
        node.next := node;
        node.prev := node;
        tasks := node;
      }
      ring := if pos == Begin then [node] + was else was + [node];
      forall j: nat | j < |ring|
        ensures LinkedAt(ring, j)
      {
        var k := if pos == Begin then j - 1 else j;
        if 0 <= k < n { assert old(LinkedAt(was, k)); }
      }
    }

    /** Take a node out of the ring; the pointer to the head stays. */
    method Unlink(node: Node, ghost i: nat)
      requires Linked(ring) && i < |ring| && node == ring[i]
      modifies `ring, ring`next, ring`prev
      ensures Linked(ring) && ring == Without(old(ring), i) && node.next == old(node.next)
    {
      ghost var was, n := ring, |ring|;
      assert LinkedAt(was, i) && LinkedAt(was, Before(i, n)) && LinkedAt(was, After(i, n));
      node.prev.next := node.next;
      node.next.prev := node.prev;
      ring := Without(was, i);
      WithoutDistinct(was, i);
      forall j: nat | j < |ring|
        ensures LinkedAt(ring, j)
      {
        var k := if j < i then j else j + 1;
        assert old(LinkedAt(was, k));
        BesideDistinct(was, i, k);
        StillLinked(was, i, j, k);
      }
    }

    /** priority_list_remove; the result says whether the list is now empty. */
    method Remove(node: Node, ghost i: nat) returns (empty: bool)
      requires Valid() && i < |ring| && node == ring[i]
      modifies this, ring`next, ring`prev
      ensures Valid() && ring == old(ring)[..i] + old(ring)[i + 1..] && (empty <==> ring == [])
      ensures old(Ordered(Kinds(ring))) ==> Ordered(Kinds(ring))
    {
      ghost var kinds := Kinds(ring);
      assert LinkedAt(ring, i);
      Unlink(node, i);
      empty := false;
      if tasks == node {
        if node.next != node {
          tasks := node.next;
        } else {
          tasks := null;
          empty := true;
        }
      }
      KindsWithout(old(ring), kinds, i);
      if Ordered(kinds) { RemoveOrdered(kinds, i); }
    }

    /** Put a node at the end of the ring. */
    method LinkLast(node: Node)
      requires Valid() && ring != [] && node !in ring
      modifies `ring, node`next, node`prev, ring`next, ring`prev
      ensures Valid() && ring == old(ring) + [node]
    {
      ghost var was, n := ring, |ring|;
      assert LinkedAt(was, 0) && LinkedAt(was, n - 1);
      node.next := tasks;
      node.prev := tasks.prev;
      tasks.prev.next := node;
      tasks.prev := node;
      ring := was + [node];
      forall j: nat | j < |ring|
        ensures LinkedAt(ring, j)
      {
        if j < n { assert old(LinkedAt(was, j)); }
      }
    }

    /** priority_list_downgrade_task for a task that no one depends on as a parent. */
    method Downgrade(node: Node, ghost i: nat)
      requires Valid() && i < |ring| && node == ring[i]
      modifies `tasks, `ring, ring`next, ring`prev
      ensures Valid()
      ensures var before := old(ring);
        ring == if i == 0 || (i + 1 < |before| && old(ring[i + 1].kind) == Waiting)
          then before[..i] + before[i + 1..] + [node] else before
    {
      ghost var was, n := ring, |ring|;
      assert LinkedAt(was, i) && LinkedAt(was, n - 1);
      if tasks == node {
        tasks := node.next;
        ring := Without(was, i) + [node];
        WithoutDistinct(was, i);
        forall j: nat | j < n ensures LinkedAt(ring, j) { assert LinkedAt(was, After(j, n)); }
      } else if node.next != tasks {
        if node.next.kind == Waiting {
          WithoutDistinct(was, i);
          Unlink(node, i);
          LinkLast(node);
        }
      }
    }

    /** The part of gomp_task_run_pre that concerns one list. */
    method Start(node: Node, ghost i: nat)
      requires Valid() && i < |ring| && node == ring[i]
      modifies this, ring
      ensures Valid()
      ensures var before := old(ring);
        ring == if i == 0 || (i + 1 < |before| && old(ring[i + 1].kind) == Waiting)
          then before[..i] + before[i + 1..] + [node] else before
      ensures forall n :: n in old(ring) ==> n.kind == if n == node then Tied else old(n.kind)
      ensures old(Ordered(Kinds(ring))) ==> Ordered(Kinds(ring))
    {
      ghost var was, kinds := ring, Kinds(ring);
      Downgrade(node, i);
      node.kind := Tied;
      if Ordered(kinds) { StartedOrdered(was, kinds, i, ring); }
    }
  }
}
