/** The queue of tasks of lib/libopenpop/priority_queue.h and priority_queue.c: one
    list while only priority 0 is in use, a splay tree of lists afterwards. */
module PriorityQueue {
  import opened SplaySpec
  import opened PriorityList

  datatype Task = Task(id: nat, priority: nat, kind: NodeKind)

  /** The tasks of one priority, as the ring of PriorityList lists them. */
  datatype TaskList = TaskList(priority: nat, tasks: seq<Task>)

  datatype Option<T> = None | Some(value: T)

  // ------------------------------------------------------------------
  // The contents of a queue
  // ------------------------------------------------------------------

  ghost function KindsOf(tasks: seq<Task>): (r: seq<NodeKind>)
    ensures |r| == |tasks| && forall i :: 0 <= i < |r| ==> r[i] == tasks[i].kind
  {
    seq(|tasks|, i requires 0 <= i < |tasks| => tasks[i].kind)
  }

  /** Different tasks of one priority. */
  ghost predicate IdsOk(priority: nat, tasks: seq<Task>) {
    && (forall i :: 0 <= i < |tasks| ==> tasks[i].priority == priority)
    && (forall i, j :: 0 <= i < j < |tasks| ==> tasks[i].id != tasks[j].id)
  }

  ghost predicate TasksOk(priority: nat, tasks: seq<Task>) {
    IdsOk(priority, tasks) && Ordered(KindsOf(tasks))
  }

  ghost predicate ListOk(l: TaskList) {
    l.tasks != [] && TasksOk(l.priority, l.tasks)
  }

  /** Lists of increasing priority. */
  ghost predicate Sorted(s: seq<TaskList>) {
    forall i, j :: 0 <= i < j < |s| ==> s[i].priority < s[j].priority
  }

  ghost predicate AllOk(s: seq<TaskList>) {
    forall i :: 0 <= i < |s| ==> ListOk(s[i])
  }

  /** The tasks of priority p. */
  ghost function At(s: seq<TaskList>, p: nat): seq<Task> {
    if s == [] then [] else if s[0].priority == p then s[0].tasks else At(s[1..], p)
  }

  ghost predicate Lacks(s: seq<TaskList>, p: nat) {
    forall i :: 0 <= i < |s| ==> s[i].priority != p
  }

  lemma {:induction false} AtLacking(s: seq<TaskList>, p: nat)
    requires Lacks(s, p)
    ensures At(s, p) == []
  {
    if s != [] { AtLacking(s[1..], p); }
  }

  lemma {:induction false} AtAround(l: seq<TaskList>, x: TaskList, r: seq<TaskList>, p: nat)
    ensures p != x.priority ==> At(l + [x] + r, p) == At(l + r, p)
    ensures p == x.priority && Lacks(l, p) ==> At(l + [x] + r, p) == x.tasks
  {
    var s := l + [x] + r;
    if l == [] {
      assert s[1..] == r && l + r == r;
    } else {
      AtAround(l[1..], x, r, p);
      assert s[1..] == l[1..] + [x] + r && (l + r)[1..] == l[1..] + r;
    }
  }

  // ------------------------------------------------------------------
  // Finding a priority in the tree
  // ------------------------------------------------------------------

  /** prio_splay_compare. */
  function Compare(x: nat, y: nat): int {
    if x == y then 0 else if x < y then -1 else 1
  }

  function Against(p: nat): TaskList -> int {
    (l: TaskList) => Compare(p, l.priority)
  }

  lemma SortedMonotone(s: seq<TaskList>, p: nat)
    requires Sorted(s)
    ensures Monotone(s, Against(p))
  {
    forall i, j | 0 <= i < j < |s|
      ensures Against(p)(s[i]) >= Against(p)(s[j])
    {
      assert s[i].priority < s[j].priority;
    }
  }

  /** What a splay for p brings to the root. */
  lemma Splayed(t: Tree<TaskList>, p: nat)
    requires Sorted(InOrder(t))
    ensures var r := Splay(t, Against(p));
      && InOrder(r) == InOrder(t) && (r.Leaf? <==> t.Leaf?)
      && (r.Branch? && r.item.priority != p ==> Lacks(InOrder(t), p) && SplitByKey(r, Against(p)))
  {
    SplayInOrder(t, Against(p));
    SortedMonotone(InOrder(t), p);
    SplaySplits(t, Against(p));
    if t.Branch? {
      SplayFinds(t, Against(p));
      var s, r := InOrder(t), Splay(t, Against(p));
      assert Against(p)(r.item) == Compare(p, r.item.priority);
      if r.item.priority != p {
        forall i | 0 <= i < |s| ensures s[i].priority != p {
          assert Against(p)(s[i]) == Compare(p, s[i].priority);
        }
      }
    }
  }

  lemma RootLacks(l: seq<TaskList>, x: TaskList, r: seq<TaskList>)
    requires Sorted(l + [x] + r)
    ensures Lacks(l, x.priority) && Lacks(r, x.priority) && Sorted(l + r)
  {
    var s := l + [x] + r;
    assert forall i :: 0 <= i < |l| ==> l[i] == s[i];
    assert forall i :: 0 <= i < |r| ==> r[i] == s[|l| + 1 + i];
    assert s[|l|] == x;
    var w := l + r;
    assert forall i :: 0 <= i < |w| ==> w[i] == s[if i < |l| then i else i + 1];
  }

  lemma RootReplaced(l: seq<TaskList>, x: TaskList, y: TaskList, r: seq<TaskList>)
    requires Sorted(l + [x] + r) && y.priority == x.priority
    ensures Sorted(l + [y] + r)
    ensures AllOk(l + [x] + r) && ListOk(y) ==> AllOk(l + [y] + r)
  {
    var s, w := l + [x] + r, l + [y] + r;
    assert forall i :: 0 <= i < |s| && i != |l| ==> w[i] == s[i];
    assert s[|l|] == x && w[|l|] == y;
  }

  // ------------------------------------------------------------------
  // What the operations do to one list
  // ------------------------------------------------------------------

  function InsertedAt(tasks: seq<Task>, task: Task, pos: Position): seq<Task> {
    if pos == Begin then [task] + tasks else tasks + [task]
  }

  function Started(tasks: seq<Task>, i: nat): seq<Task>
    requires i < |tasks|
  {
    Downgraded(tasks[i := tasks[i].(kind := Tied)], i, i + 1 < |tasks| && tasks[i + 1].kind.Waiting?)
  }

  /** The task at i has become tied and the others keep their order; it goes behind all of
      them when it was first or a waiting task came next, and else stays where it was. */
  ghost predicate OutOfTheWay(before: seq<Task>, i: nat, after: seq<Task>)
    requires i < |before|
  {
    var moves := i == 0 || (i + 1 < |before| && before[i + 1].kind == Waiting);
    var j := if moves then |before| - 1 else i;
    && |after| == |before| && after[j] == before[i].(kind := Tied)
    && after[..j] + after[j + 1..] == before[..i] + before[i + 1..]
  }

  /** Waiting tasks go to the front, or to the end of a list none of whose tasks has
      started; callers never insert a task twice. */
  ghost predicate MayInsert(tasks: seq<Task>, task: Task, pos: Position) {
    && (forall i :: 0 <= i < |tasks| ==> tasks[i].id != task.id)
    && (if pos == Begin then task.kind.Waiting? || AllTied(KindsOf(tasks))
      else task.kind.Tied? || AllWaiting(KindsOf(tasks)))
  }

  lemma InsertedOk(p: nat, tasks: seq<Task>, task: Task, pos: Position)
    requires TasksOk(p, tasks) && task.priority == p && MayInsert(tasks, task, pos)
    ensures TasksOk(p, InsertedAt(tasks, task, pos))
  {
    var r := InsertedAt(tasks, task, pos);
    InsertOrderedIff(KindsOf(tasks), task.kind);
    assert KindsOf(r) == if pos == Begin then [task.kind] + KindsOf(tasks) else KindsOf(tasks) + [task.kind];
  }

  lemma RemovedOk(p: nat, tasks: seq<Task>, i: nat)
    requires TasksOk(p, tasks) && i < |tasks|
    ensures TasksOk(p, Without(tasks, i))
  {
    var r := Without(tasks, i);
    RemoveOrdered(KindsOf(tasks), i);
    assert forall j :: 0 <= j < |r| ==> r[j] == tasks[if j < i then j else j + 1];
    assert KindsOf(r) == Without(KindsOf(tasks), i);
  }

  lemma MovedIds(p: nat, tasks: seq<Task>, i: nat)
    requires IdsOk(p, tasks) && i < |tasks|
    ensures IdsOk(p, Without(tasks, i) + [tasks[i]])
  {
    var r := Without(tasks, i) + [tasks[i]];
    forall j | 0 <= j < |r|
      ensures r[j] == tasks[if j < i then j else if j + 1 < |tasks| then j + 1 else i]
    {
    }
  }

  lemma KindsMoved(tasks: seq<Task>, i: nat)
    requires i < |tasks|
    ensures KindsOf(Without(tasks, i) + [tasks[i]]) == Without(KindsOf(tasks), i) + [KindsOf(tasks)[i]]
  {
  }

  lemma StartedMoves(tasks: seq<Task>, i: nat)
    requires i < |tasks|
    ensures OutOfTheWay(tasks, i, Started(tasks, i))
  {
    var x := tasks[i].(kind := Tied);
    var ts, rest := tasks[i := x], tasks[..i] + tasks[i + 1..];
    assert ts[..i] + ts[i + 1..] == rest;
    assert (rest + [x])[..|tasks| - 1] + (rest + [x])[|tasks|..] == rest;
  }

  lemma StartedOk(p: nat, tasks: seq<Task>, i: nat)
    requires TasksOk(p, tasks) && i < |tasks|
    ensures TasksOk(p, Started(tasks, i)) && OutOfTheWay(tasks, i, Started(tasks, i))
  {
    StartedMoves(tasks, i);
    var ts := tasks[i := tasks[i].(kind := Tied)];
    StartOrdered(KindsOf(tasks), i);
    assert KindsOf(ts) == KindsOf(tasks)[i := Tied];
    KindsMoved(ts, i);
    MovedIds(p, ts, i);
  }

  // ------------------------------------------------------------------
  // The queue
  // ------------------------------------------------------------------

  class Queue {
    var tree: Tree<TaskList>
    /** The tasks while only priority 0 is in use. */
    var l: seq<Task>

    ghost function Lists(): seq<TaskList>
      reads this
    {
      if tree.Branch? then InOrder(tree) else if l == [] then [] else [TaskList(0, l)]
    }

    ghost predicate Valid()
      reads this
    {
      && Sorted(InOrder(tree)) && AllOk(InOrder(tree))
      && TasksOk(0, l) && (tree.Branch? ==> l == [])
    }

    /** The tasks of priority p, in the order in which they will be considered. */
    ghost function Tasks(p: nat): seq<Task>
      reads this
    {
      At(Lists(), p)
    }

    constructor ()
      ensures Valid() && Lists() == []
    {
      tree, l := Leaf, [];
    }

    /** prio_splay_tree_lookup: a found list is left at the root. */
    method Lookup(p: nat) returns (found: bool)
      requires Sorted(InOrder(tree))
      modifies `tree
      ensures InOrder(tree) == old(InOrder(tree))
      ensures if found then tree.Branch? && tree.item.priority == p else Lacks(InOrder(tree), p)
    {
      Splayed(tree, p);
      tree := Splay(tree, Against(p));
      found := tree.Branch? && Compare(tree.item.priority, p) == 0;
    }

    /** prio_splay_tree_insert of a list whose priority the tree lacks. */
    method InsertList(x: TaskList)
      requires Sorted(InOrder(tree)) && Lacks(InOrder(tree), x.priority)
      modifies `tree
      ensures tree.Branch? && tree.item == x && Sorted(InOrder(tree))
      ensures InOrder(tree.left) + InOrder(tree.right) == old(InOrder(tree))
    {
      Splayed(tree, x.priority);
      tree := Splay(tree, Against(x.priority));
      if tree.Leaf? {
        tree := Branch(Leaf, x, Leaf);
      } else {
        var rootFirst := Compare(tree.item.priority, x.priority) < 0;
        InsertSorted(tree, x, rootFirst);
        tree := InsertedAtRoot(tree, x, rootFirst);
      }
    }

    method SetRoot(tasks: seq<Task>)
      requires tree.Branch?
      modifies `tree
      ensures tree == Branch(old(tree).left, TaskList(old(tree).item.priority, tasks), old(tree).right)
    {
      tree := Branch(tree.left, TaskList(tree.item.priority, tasks), tree.right);
    }

    /** The list of a priority, brought to the root of the tree or added there. */
    method FindOrAdd(p: nat)
      requires Sorted(InOrder(tree))
      modifies `tree
      ensures tree.Branch? && tree.item.priority == p && RootOf(tree, old(InOrder(tree)))
    {
      var found := Lookup(p);
      if !found {
        InsertList(TaskList(p, []));
      }
    }

    /** The first task of another priority moves the list of priority 0 into the tree. */
    method Migrate()
      requires Valid()
      modifies this
      ensures InOrder(tree) == old(Lists()) && l == []
    {
      if tree.Leaf? {
        if l != [] {
          AtLacking(InOrder(tree), 0);
          InsertList(TaskList(0, l));
          l := [];
        }
      }
    }

    /** priority_tree_insert. */
    method TreeInsert(task: Task, pos: Position)
      requires Valid() && MayInsert(Tasks(task.priority), task, pos)
      modifies this
      ensures Valid() && tree.Branch?
      ensures forall p :: p != task.priority ==> Tasks(p) == old(Tasks(p))
      ensures var before := old(Tasks(task.priority));
        Tasks(task.priority) == if pos == Begin then [task] + before else before + [task]
    {
      ghost var was := Lists();
      ListsOk(this);
      Migrate();
      FindOrAdd(task.priority);
      RootAt(tree, was);
      InsertedOk(task.priority, tree.item.tasks, task, pos);
      RootSet(tree, was, InsertedAt(tree.item.tasks, task, pos));
      SetRoot(InsertedAt(tree.item.tasks, task, pos));
    }

    /** priority_queue_insert. */
    method Insert(task: Task, pos: Position)
      requires Valid() && MayInsert(Tasks(task.priority), task, pos)
      modifies this
      ensures Valid() && (tree.Branch? <==> old(tree).Branch? || task.priority > 0)
      ensures forall p :: p != task.priority ==> Tasks(p) == old(Tasks(p))
      ensures var before := old(Tasks(task.priority));
        Tasks(task.priority) == if pos == Begin then [task] + before else before + [task]
    {
      if tree.Branch? || task.priority > 0 {
        TreeInsert(task, pos);
      } else {
        SingleList(this);
        InsertedOk(0, l, task, pos);
        l := InsertedAt(l, task, pos);
        SingleList(this);
      }
    }

    /** prio_splay_tree_remove of the list at the root. */
    method RemoveList()
      requires Sorted(InOrder(tree)) && tree.Branch?
      modifies `tree
      ensures InOrder(tree) == old(InOrder(tree.left) + InOrder(tree.right))
    {
      ghost var was := tree;
      var p := tree.item.priority;
      var found := Lookup(p);
      SameRoot(was, tree, found);
      HungRightInOrder(tree.left, tree.right);
      tree := if tree.left.Branch? then HungRight(tree.left, tree.right) else tree.right;
    }

    /** priority_tree_remove of the task at place i of its list. */
    method TreeRemove(p: nat, i: nat)
      requires Valid() && tree.Branch? && i < |Tasks(p)|
      modifies `tree
      ensures Valid() && l == []
      ensures forall k :: k != p ==> Tasks(k) == old(Tasks(k))
      ensures Tasks(p) == old(Tasks(p))[..i] + old(Tasks(p))[i + 1..]
    {
      ghost var was := Lists();
      var found := Lookup(p);
      if !found { AtLacking(was, p); }
      RootAt(tree, was);
      var rest := Without(tree.item.tasks, i);
      RemovedOk(p, tree.item.tasks, i);
      RootSet(tree, was, rest);
      SetRoot(rest);
      if rest == [] {
        RootDropped(tree);
        RemoveList();
      }
    }

    /** priority_queue_remove; the result says whether the queue is now empty. */
    method Remove(p: nat, i: nat) returns (empty: bool)
      requires Valid() && i < |Tasks(p)|
      modifies this
      ensures Valid() && (empty <==> Lists() == [])
      ensures forall k :: k != p ==> Tasks(k) == old(Tasks(k))
      ensures Tasks(p) == old(Tasks(p))[..i] + old(Tasks(p))[i + 1..]
    {
      if tree.Branch? {
        TreeRemove(p, i);
        empty := tree.Leaf?;
      } else {
        SingleList(this);
        RemovedOk(0, l, i);
        l := Without(l, i);
        SingleList(this);
        empty := l == [];
      }
    }

    /** priority_queue_downgrade_task, followed by the change of the kind of the task. */
    method Start(p: nat, i: nat)
      requires Valid() && i < |Tasks(p)|
      modifies this
      ensures Valid()
      ensures forall k :: k != p ==> Tasks(k) == old(Tasks(k))
      ensures OutOfTheWay(old(Tasks(p)), i, Tasks(p))
    {
      if tree.Branch? {
        ghost var was := Lists();
        var found := Lookup(p);
        if !found { AtLacking(was, p); }
        RootAt(tree, was);
        StartedOk(p, tree.item.tasks, i);
        RootSet(tree, was, Started(tree.item.tasks, i));
        SetRoot(Started(tree.item.tasks, i));
      } else {
        SingleList(this);
        StartedOk(0, l, i);
        l := Started(l, i);
        SingleList(this);
      }
    }

    /** priority_queue_next_task on one queue: a waiting task of the highest priority
        that has one, or else some task that is not waiting. */
    method NextTask() returns (task: Task)
      requires Valid() && Lists() != []
      ensures Tasks(task.priority) != [] && task == Tasks(task.priority)[0]
      ensures forall p: nat, x :: x in Tasks(p) && x.kind.Waiting? ==> task.kind.Waiting? && p <= task.priority
    {
      ListsOk(this);
      if tree.Branch? {
        var t := NextTask1(tree);
        match t {
          case Some(x) =>
            task := x;
            BestByPriority(Lists(), x);
          case None =>
            assert Lists()[|InOrder(tree.left)|] == tree.item;
            task := tree.item.tasks[0];
            NoneByPriority(Lists(), |InOrder(tree.left)|);
        }
      } else {
        task := l[0];
        HeadWaits(Lists()[0]);
        assert Lists()[0].tasks == l;
        if task.kind.Waiting? {
          assert BestAt(Lists(), task, 0);
          BestByPriority(Lists(), task);
        } else {
          NoneByPriority(Lists(), 0);
        }
      }
    }
  }

  /** The tasks of a priority are those of one list. */
  lemma {:induction false} AtIs(s: seq<TaskList>, i: nat)
    requires Sorted(s) && i < |s|
    ensures At(s, s[i].priority) == s[i].tasks
  {
    if i > 0 { AtIs(s[1..], i - 1); }
  }

  lemma {:induction false} AtFrom(s: seq<TaskList>, p: nat, x: Task) returns (i: nat)
    requires x in At(s, p)
    ensures i < |s| && s[i].priority == p && x in s[i].tasks
  {
    if s[0].priority == p {
      i := 0;
    } else {
      i := AtFrom(s[1..], p, x);
      i := i + 1;
    }
  }

  lemma BestByPriority(s: seq<TaskList>, task: Task)
    requires Sorted(s) && AllOk(s) && IsBest(s, task)
    ensures task.kind.Waiting? && At(s, task.priority) != [] && task == At(s, task.priority)[0]
    ensures forall p: nat, x :: x in At(s, p) && x.kind.Waiting? ==> p <= task.priority
  {
    var i :| BestAt(s, task, i);
    AtIs(s, i);
    assert ListOk(s[i]);
    forall p: nat, x | x in At(s, p) && x.kind.Waiting?
      ensures p <= task.priority
    {
      var j := AtFrom(s, p, x);
      assert HasWaiting(s[j]);
    }
  }

  lemma NoneByPriority(s: seq<TaskList>, i: nat)
    requires Sorted(s) && AllOk(s) && NoneWaiting(s) && i < |s|
    ensures s[i].tasks != [] && At(s, s[i].tasks[0].priority) == s[i].tasks
    ensures forall p: nat, x :: x in At(s, p) ==> !x.kind.Waiting?
  {
    AtIs(s, i);
    assert ListOk(s[i]);
    forall p: nat, x | x in At(s, p)
      ensures !x.kind.Waiting?
    {
      var j := AtFrom(s, p, x);
      assert !HasWaiting(s[j]);
    }
  }

  // ------------------------------------------------------------------
  // The root and the rest
  // ------------------------------------------------------------------

  lemma ListsOk(q: Queue)
    requires q.Valid()
    ensures AllOk(q.Lists()) && Sorted(q.Lists())
  {
  }

  lemma SingleList(q: Queue)
    requires q.tree.Leaf?
    ensures forall p :: q.Tasks(p) == if p == 0 then q.l else []
  {
    forall p ensures q.Tasks(p) == if p == 0 then q.l else [] {
      if q.l != [] { OneList(q.l, p); }
    }
  }

  lemma OneList(tasks: seq<Task>, p: nat)
    ensures At([TaskList(0, tasks)], p) == if p == 0 then tasks else []
  {
    AtAround([], TaskList(0, tasks), [], p);
    assert [] + [TaskList(0, tasks)] + [] == [TaskList(0, tasks)];
  }

  /** The lists of the tree are `was`, with perhaps a new empty list at the root. */
  ghost predicate RootOf(t: Tree<TaskList>, was: seq<TaskList>) {
    && t.Branch? && Sorted(InOrder(t))
    && (was == InOrder(t) || (t.item.tasks == [] && was == InOrder(t.left) + InOrder(t.right)))
  }

  lemma RootAt(t: Tree<TaskList>, was: seq<TaskList>)
    requires RootOf(t, was) && AllOk(was)
    ensures t.item.tasks == At(was, t.item.priority) && TasksOk(t.item.priority, t.item.tasks)
  {
    var a, x, b := InOrder(t.left), t.item, InOrder(t.right);
    RootLacks(a, x, b);
    AtAround(a, x, b, x.priority);
    if was == a + [x] + b {
      assert was[|a|] == x;
    } else {
      var w := a + b;
      forall i | 0 <= i < |w| ensures w[i].priority != x.priority {
        assert w[i] == if i < |a| then a[i] else b[i - |a|];
      }
      AtLacking(was, x.priority);
    }
  }

  /** Giving the root other tasks changes the tasks of its priority only. */
  lemma RootSet(t: Tree<TaskList>, was: seq<TaskList>, tasks: seq<Task>)
    requires RootOf(t, was) && AllOk(was) && TasksOk(t.item.priority, tasks)
    ensures var r := Branch(t.left, TaskList(t.item.priority, tasks), t.right);
      && Sorted(InOrder(r)) && (tasks != [] ==> AllOk(InOrder(r)))
      && AllOk(InOrder(t.left) + InOrder(t.right))
      && forall p :: At(InOrder(r), p) == if p == t.item.priority then tasks else At(was, p)
  {
    var a, x, b := InOrder(t.left), t.item, InOrder(t.right);
    var y := TaskList(x.priority, tasks);
    RootLacks(a, x, b);
    RootReplaced(a, x, y, b);
    forall p
      ensures At(a + [y] + b, p) == if p == x.priority then tasks else At(was, p)
    {
      AtAround(a, x, b, p);
      AtAround(a, y, b, p);
    }
    OkAround(a, x, b, was);
    if tasks != [] { OkWith(a, y, b); }
  }

  lemma OkAround(a: seq<TaskList>, x: TaskList, b: seq<TaskList>, was: seq<TaskList>)
    requires AllOk(was) && (was == a + b || was == a + [x] + b)
    ensures AllOk(a + b)
  {
    var w := a + b;
    if was != w {
      assert forall i :: 0 <= i < |w| ==> w[i] == was[if i < |a| then i else i + 1];
    }
  }

  lemma OkWith(a: seq<TaskList>, y: TaskList, b: seq<TaskList>)
    requires AllOk(a + b) && ListOk(y)
    ensures AllOk(a + [y] + b)
  {
    var v, w := a + b, a + [y] + b;
    assert forall i :: 0 <= i < |w| && i != |a| ==> w[i] == v[if i < |a| then i else i - 1];
  }

  lemma RootDropped(t: Tree<TaskList>)
    requires t.Branch? && Sorted(InOrder(t)) && t.item.tasks == []
    ensures Sorted(InOrder(t.left) + InOrder(t.right))
    ensures forall p :: At(InOrder(t.left) + InOrder(t.right), p) == At(InOrder(t), p)
  {
    var a, x, b := InOrder(t.left), t.item, InOrder(t.right);
    RootLacks(a, x, b);
    forall p ensures At(a + b, p) == At(a + [x] + b, p) {
      AtAround(a, x, b, p);
      if p == x.priority {
        var w := a + b;
        forall i | 0 <= i < |w| ensures w[i].priority != p {
          assert w[i] == if i < |a| then a[i] else b[i - |a|];
        }
        AtLacking(w, p);
      }
    }
  }

  /** A splay for the priority of the root keeps the root's list at the root. */
  lemma SameRoot(t: Tree<TaskList>, r: Tree<TaskList>, found: bool)
    requires t.Branch? && Sorted(InOrder(t)) && InOrder(r) == InOrder(t)
    requires if found then r.Branch? && r.item.priority == t.item.priority else Lacks(InOrder(r), t.item.priority)
    ensures found && InOrder(r.left) == InOrder(t.left) && InOrder(r.right) == InOrder(t.right)
  {
    var s, i := InOrder(t), |InOrder(t.left)|;
    assert s[i] == t.item;
    if found {
      var j := |InOrder(r.left)|;
      assert s[j] == r.item;
      assert i == j;
      assert InOrder(t.left) == s[..i] && InOrder(t.right) == s[i + 1..];
      assert InOrder(r.left) == s[..j] && InOrder(r.right) == s[j + 1..];
    }
  }

  // ------------------------------------------------------------------
  // The next task
  // ------------------------------------------------------------------

  ghost predicate HasWaiting(l: TaskList) {
    exists i :: 0 <= i < |l.tasks| && l.tasks[i].kind.Waiting?
  }

  ghost predicate NoneWaiting(s: seq<TaskList>) {
    forall i :: 0 <= i < |s| ==> !HasWaiting(s[i])
  }

  ghost predicate BestAt(s: seq<TaskList>, task: Task, i: int) {
    && 0 <= i < |s| && s[i].tasks != [] && task == s[i].tasks[0] && task.kind.Waiting?
    && forall j :: i < j < |s| ==> !HasWaiting(s[j])
  }

  /** The first task of a list waits, and no list of a higher priority has a waiting one. */
  ghost predicate IsBest(s: seq<TaskList>, task: Task) {
    exists i :: BestAt(s, task, i)
  }

  lemma HeadWaits(l: TaskList)
    requires ListOk(l)
    ensures l.tasks[0].kind.Waiting? <==> HasWaiting(l)
  {
    HeadWaitsIff(KindsOf(l.tasks));
  }

  /** priority_tree_next_task_1. */
  method NextTask1(t: Tree<TaskList>) returns (ret: Option<Task>)
    requires AllOk(InOrder(t))
    ensures match ret
      case Some(task) => task.kind.Waiting? && IsBest(InOrder(t), task)
      case None => NoneWaiting(InOrder(t))
    decreases t
  {
    var node := t;
    ghost var done: seq<TaskList> := [];
    while node.Branch?
      invariant InOrder(t) == InOrder(node) + done && NoneWaiting(done) && AllOk(InOrder(node))
      invariant node == t || node < t
      decreases node
    {
      ghost var a, x, b := InOrder(node.left), node.item, InOrder(node.right);
      PartsOk(a, x, b);
      ret := NextTask1(node.right);
      if ret.Some? {
        BestLater(a, x, b, done, ret.value);
        return;
      }
      var head := node.item.tasks[0];
      HeadWaits(x);
      NoneLater(a, x, b, done);
      if head.kind == Waiting {
        return Some(head);
      }
      done := [x] + b + done;
      node := node.left;
    }
    assert InOrder(t) == done;
    ret := None;
  }

  lemma PartsOk(a: seq<TaskList>, x: TaskList, b: seq<TaskList>)
    requires AllOk(a + [x] + b)
    ensures AllOk(a) && ListOk(x) && AllOk(b)
  {
    var s := a + [x] + b;
    assert s[|a|] == x;
    assert forall i :: 0 <= i < |a| ==> a[i] == s[i];
    assert forall i :: 0 <= i < |b| ==> b[i] == s[|a| + 1 + i];
  }

  lemma BestLater(a: seq<TaskList>, x: TaskList, b: seq<TaskList>, done: seq<TaskList>, task: Task)
    requires IsBest(b, task) && NoneWaiting(done)
    ensures IsBest(a + [x] + b + done, task)
  {
    var i :| BestAt(b, task, i);
    var s, k := a + [x] + b + done, |a| + 1 + i;
    assert forall j :: k <= j < |s| ==> s[j] == if j - |a| - 1 < |b| then b[j - |a| - 1] else done[j - |a| - 1 - |b|];
    assert BestAt(s, task, k);
  }

  lemma NoneLater(a: seq<TaskList>, x: TaskList, b: seq<TaskList>, done: seq<TaskList>)
    requires NoneWaiting(b) && NoneWaiting(done) && ListOk(x)
    ensures a + [x] + b + done == a + ([x] + b + done)
    ensures !HasWaiting(x) ==> NoneWaiting([x] + b + done)
    ensures x.tasks[0].kind.Waiting? ==> IsBest(a + [x] + b + done, x.tasks[0])
  {
    var s, w := a + [x] + b + done, [x] + b + done;
    assert forall j :: 0 < j < |w| ==> w[j] == if j - 1 < |b| then b[j - 1] else done[j - 1 - |b|];
    assert forall j :: |a| <= j < |s| ==> s[j] == w[j - |a|];
    if x.tasks[0].kind.Waiting? {
      assert BestAt(s, x.tasks[0], |a|);
    }
  }

  lemma InsertSorted(t: Tree<TaskList>, x: TaskList, rootFirst: bool)
    requires t.Branch? && Sorted(InOrder(t)) && Lacks(InOrder(t), x.priority)
    requires SplitByKey(t, Against(x.priority)) && (rootFirst <==> t.item.priority < x.priority)
    ensures var r := InsertedAtRoot(t, x, rootFirst);
      Sorted(InOrder(r)) && InOrder(r.left) + InOrder(r.right) == InOrder(t)
  {
    InsertedInOrder(t, x, rootFirst);
    InsertedSides(t, x, rootFirst);
    SortedAtRoot(t, x, rootFirst);
    TakeDrop(InOrder(t), |InOrder(t.left)| + if rootFirst then 1 else 0);
  }

  lemma TakeDrop(s: seq<TaskList>, k: nat)
    requires k <= |s|
    ensures s[..k] + s[k..] == s
  {
  }

  lemma SortedAtRoot(t: Tree<TaskList>, x: TaskList, rootFirst: bool)
    requires t.Branch? && Sorted(InOrder(t)) && Lacks(InOrder(t), x.priority)
    requires SplitByKey(t, Against(x.priority)) && (rootFirst <==> t.item.priority < x.priority)
    ensures var k := |InOrder(t.left)| + if rootFirst then 1 else 0;
      k <= |InOrder(t)| && Sorted(InOrder(t)[..k] + [x] + InOrder(t)[k..])
  {
    var s, k := InOrder(t), |InOrder(t.left)| + if rootFirst then 1 else 0;
    assert s[|InOrder(t.left)|] == t.item;
    forall i | 0 <= i < |s|
      ensures s[i].priority < x.priority <==> i < k
    {
      SideOfRoot(t, x.priority, i);
    }
    SortedWith(s, x, k);
  }

  lemma SortedWith(s: seq<TaskList>, x: TaskList, k: nat)
    requires Sorted(s) && Lacks(s, x.priority) && k <= |s|
    requires forall i :: 0 <= i < |s| ==> (s[i].priority < x.priority <==> i < k)
    ensures Sorted(s[..k] + [x] + s[k..])
  {
    var a, b := s[..k], s[k..];
    assert a + b == s;
    forall i | 0 <= i < |a| ensures a[i].priority < x.priority { assert a[i] == s[i]; }
    forall i | 0 <= i < |b| ensures b[i].priority > x.priority { assert b[i] == s[k + i]; }
    SortedBetween(a, x, b);
  }

  lemma SideOfRoot(t: Tree<TaskList>, p: nat, i: nat)
    requires t.Branch? && SplitByKey(t, Against(p)) && t.item.priority != p && i < |InOrder(t)|
    ensures var k := |InOrder(t.left)| + if t.item.priority < p then 1 else 0;
      InOrder(t)[i].priority < p <==> i < k
  {
    var l, r := InOrder(t.left), InOrder(t.right);
    assert Against(p)(t.item) == Compare(p, t.item.priority);
    if i < |l| {
      assert InOrder(t)[i] == l[i] && Against(p)(l[i]) == Compare(p, l[i].priority);
    } else if i > |l| {
      var j := i - |l| - 1;
      assert InOrder(t)[i] == r[j] && Against(p)(r[j]) == Compare(p, r[j].priority);
    }
  }

  lemma SortedBetween(a: seq<TaskList>, x: TaskList, b: seq<TaskList>)
    requires Sorted(a + b)
    requires forall i :: 0 <= i < |a| ==> a[i].priority < x.priority
    requires forall i :: 0 <= i < |b| ==> b[i].priority > x.priority
    ensures Sorted(a + [x] + b)
  {
    var s, w := a + b, a + [x] + b;
    assert forall i :: 0 <= i < |w| && i != |a| ==> w[i] == s[if i < |a| then i else i - 1];
    assert forall i :: 0 <= i < |a| ==> w[i] == a[i];
    assert forall i :: |a| < i < |w| ==> w[i] == b[i - |a| - 1];
  }
}
