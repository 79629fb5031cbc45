/** What every step of the task dependency engine keeps. */
module TaskInvariant {
  import opened TaskDepend

  // ------------------------------------------------------------------
  // The invariant
  // ------------------------------------------------------------------

  /** The unfinished tasks that hold t in their dependers. */
  ghost function Deps(tasks: seq<Task>, t: nat): set<nat> {
    set s: nat | s < |tasks| && t in tasks[s].dependers
  }

  /** t waits for s, directly or through other tasks. */
  ghost predicate Reach(tasks: seq<Task>, t: nat, s: nat)
    decreases t
  {
    s in Deps(tasks, t) || exists u: nat :: u < t && u in Deps(tasks, t) && Reach(tasks, u, s)
  }

  ghost predicate Increasing(d: seq<nat>) {
    forall i, j :: 0 <= i < j < |d| ==> d[i] < d[j]
  }

  ghost predicate EdgeOk(tasks: seq<Task>, s: nat)
    requires s < |tasks|
  {
    && Increasing(tasks[s].dependers)
    && (forall x :: x in tasks[s].dependers ==> s < x < |tasks|)
    && (tasks[s].kind == Done ==> tasks[s].dependers == [])
  }

  /** Edges lead from an unfinished task to later ones, each recorded once. */
  ghost predicate EdgesOk(tasks: seq<Task>) {
    forall s: nat :: s < |tasks| ==> EdgeOk(tasks, s)
  }

  ghost predicate CountOk(tasks: seq<Task>, x: nat)
    requires x < |tasks|
  {
    && tasks[x].numDependees == |Deps(tasks, x)|
    && (tasks[x].kind != Waiting ==> tasks[x].numDependees == 0)
  }

  /** num_dependees counts the unfinished tasks a task waits for. */
  ghost predicate CountsOk(tasks: seq<Task>) {
    forall x: nat :: x < |tasks| ==> CountOk(tasks, x)
  }

  /** Only the first clause naming an address is not redundant, and outs come first. */
  ghost predicate DependOk(task: Task) {
    && (forall i :: 0 <= i < |task.depend| ==>
          (task.depend[i].redundant <==> exists j :: 0 <= j < i && task.depend[j].addr == task.depend[i].addr))
    && (forall i, j :: 0 <= i < j < |task.depend| && task.depend[i].isIn ==> task.depend[j].isIn)
  }

  ghost predicate DependsOk(tasks: seq<Task>) {
    forall x {:trigger tasks[x]} :: 0 <= x < |tasks| ==> DependOk(tasks[x])
  }

  ghost predicate EntryOk(tasks: seq<Task>, a: Addr, e: Entry) {
    && e.task < |tasks|
    && tasks[e.task].kind != Done
    && Names(tasks[e.task], a)
    && (e.isIn <==> !NamesOut(tasks[e.task], a))
  }

  /** Every entry belongs to an unfinished task naming the address, once per task. */
  ghost predicate EntriesOk(tasks: seq<Task>, a: Addr, chain: seq<Entry>) {
    && (forall k :: 0 <= k < |chain| ==> EntryOk(tasks, a, chain[k]))
    && (forall j, k :: 0 <= j < k < |chain| ==> chain[j].task != chain[k].task)
  }

  /** Redundant entries are outs, form a suffix, and follow at most one other out. */
  ghost predicate ShapeOk(chain: seq<Entry>) {
    && (forall k :: 0 <= k < |chain| && chain[k].redundantOut ==> !chain[k].isIn)
    && (forall j, k :: 0 <= j < k < |chain| && chain[j].redundantOut ==> chain[k].redundantOut)
    && (forall j, k :: 0 <= j < k < |chain| && !chain[j].isIn && !chain[k].isIn ==> chain[k].redundantOut)
  }

  /** Out entry j waits for the task of entry k. */
  ghost predicate Covers(tasks: seq<Task>, chain: seq<Entry>, j: int, k: int)
    requires 0 <= k < |chain|
  {
    0 <= j < |chain| && !chain[j].isIn && chain[k].task in Deps(tasks, chain[j].task)
  }

  /** An unfinished redundant out is waited for by another out of the chain. */
  ghost predicate CoveredOk(tasks: seq<Task>, chain: seq<Entry>) {
    forall k {:trigger chain[k]} :: 0 <= k < |chain| && chain[k].redundantOut ==> exists j :: Covers(tasks, chain, j, k)
  }

  ghost predicate ChainOk(tasks: seq<Task>, a: Addr, chain: seq<Entry>) {
    EntriesOk(tasks, a, chain) && ShapeOk(chain) && CoveredOk(tasks, chain)
  }

  ghost predicate ChainsOk(tasks: seq<Task>, chains: Chains) {
    forall a :: a in chains ==> chains[a] != [] && ChainOk(tasks, a, chains[a])
  }

  ghost predicate HasEntry(chain: seq<Entry>, t: nat) {
    exists k :: 0 <= k < |chain| && chain[k].task == t
  }

  /** Every address an unfinished task names has an entry for it. */
  ghost predicate Registered(tasks: seq<Task>, chains: Chains) {
    forall x: nat, a :: x < |tasks| && tasks[x].kind != Done && Names(tasks[x], a) ==> HasEntry(ChainAt(chains, a), x)
  }

  /** A task reaches every unfinished earlier sibling it conflicts with. */
  ghost predicate ConflictsReached(tasks: seq<Task>) {
    forall s: nat, x: nat {:trigger Reach(tasks, x, s)} :: s < x < |tasks| && tasks[s].kind != Done
      && Conflict(tasks[s], tasks[x])
      ==> Reach(tasks, x, s)
  }

  /** Every recorded edge joins two conflicting tasks. */
  ghost predicate EdgesConflict(tasks: seq<Task>) {
    forall s: nat, x: nat {:trigger s in Deps(tasks, x)} :: s in Deps(tasks, x) ==>
      x < |tasks| && Conflict(tasks[s], tasks[x])
  }

  ghost predicate Core(tasks: seq<Task>, chains: Chains) {
    && EdgesOk(tasks) && CountsOk(tasks) && DependsOk(tasks)
    && ChainsOk(tasks, chains) && Registered(tasks, chains)
    && ConflictsReached(tasks) && EdgesConflict(tasks)
  }

  ghost function Ready(tasks: seq<Task>): set<nat> {
    set x: nat | x < |tasks| && tasks[x].kind == Waiting && tasks[x].numDependees == 0
  }

  ghost function Running(tasks: seq<Task>): set<nat> {
    set x: nat | x < |tasks| && tasks[x].kind == Tied
  }

  /** The queue holds exactly the unblocked tasks, and blocked tasks are not counted. */
  ghost predicate CountersOk(s: Team) {
    && s.queue == Ready(s.tasks)
    && s.queuedCount == |s.queue|
    && s.runningCount == |Running(s.tasks)|
    && s.taskCount == |s.queue| + |Running(s.tasks)|
  }

  ghost predicate Inv(s: Team) {
    Core(s.tasks, s.chains) && CountersOk(s)
  }

  // ------------------------------------------------------------------
  // Reachability
  // ------------------------------------------------------------------

  lemma {:induction false} ReachExtends(tasks: seq<Task>, x: nat, y: nat, s: nat)
    requires EdgesOk(tasks) && Reach(tasks, x, y) && s in Deps(tasks, y)
    ensures Reach(tasks, x, s)
    decreases x
  {
    if y in Deps(tasks, x) {
      assert EdgeOk(tasks, y);
    } else {
      var u: nat :| u < x && u in Deps(tasks, x) && Reach(tasks, u, y);
      ReachExtends(tasks, u, y, s);
    }
  }

  /** Edges may be added, and a task that waits for nothing removed, without
      losing a path between other tasks. */
  lemma {:induction false} ReachKept(old_: seq<Task>, new_: seq<Task>, gone: set<nat>, x: nat, s: nat)
    requires Reach(old_, x, s) && s !in gone
    requires forall y: nat {:trigger Deps(new_, y)} {:trigger Deps(old_, y)} :: Deps(old_, y) - gone <= Deps(new_, y)
    requires forall g: nat :: g in gone ==> Deps(old_, g) == {}
    ensures Reach(new_, x, s)
    decreases x
  {
    if s in Deps(old_, x) {
      assert s in Deps(old_, x) - gone;
    } else {
      var u: nat :| u < x && u in Deps(old_, x) && Reach(old_, u, s);
      assert u !in gone;
      assert u in Deps(old_, x) - gone;
      ReachKept(old_, new_, gone, u, s);
    }
  }

  /** Every entry of a chain behind the first redundant out is reached from an active out. */
  lemma {:induction false} CoverReached(tasks: seq<Task>, a: Addr, chain: seq<Entry>, k: nat) returns (w: nat)
    requires EdgesOk(tasks) && ChainOk(tasks, a, chain)
    requires k < |chain| && chain[k].redundantOut
    ensures w < |chain| && !chain[w].isIn && !chain[w].redundantOut
    ensures Reach(tasks, chain[w].task, chain[k].task)
    decreases |tasks| - chain[k].task
  {
    var j :| Covers(tasks, chain, j, k);
    assert chain[k].task < chain[j].task < |tasks| by {
      assert EdgeOk(tasks, chain[k].task);
      assert chain[j].task in tasks[chain[k].task].dependers;
    }
    if chain[j].redundantOut {
      w := CoverReached(tasks, a, chain, j);
      ReachExtends(tasks, chain[w].task, chain[j].task, chain[k].task);
    } else {
      w := j;
    }
  }

  // ------------------------------------------------------------------
  // Creation keeps the invariant
  // ------------------------------------------------------------------

  ghost predicate SameTasks(x: seq<Task>, y: seq<Task>) {
    && |x| == |y|
    && forall i {:trigger x[i]} {:trigger y[i]} :: 0 <= i < |x| ==> x[i].depend == y[i].depend && x[i].kind == y[i].kind
  }

  ghost function Targets(chain: seq<Entry>, isIn: bool): set<nat> {
    set k: nat | k < ActiveLen(chain) && !(isIn && chain[k].isIn) :: chain[k].task
  }

  /** r is tasks with one more edge, from u to t. */
  ghost predicate OneMoreEdge(tasks: seq<Task>, r: seq<Task>, u: nat, t: nat) {
    && u < t < |tasks| && SameTasks(tasks, r)
    && r[u].dependers == tasks[u].dependers + [t]
    && r[t].numDependees == tasks[t].numDependees + 1
    && (forall s {:trigger r[s]} :: 0 <= s < |r| && s != u ==> r[s].dependers == tasks[s].dependers)
    && (forall s {:trigger r[s]} :: 0 <= s < |r| && s != t ==> r[s].numDependees == tasks[s].numDependees)
  }

  lemma OneMoreEdgeDeps(tasks: seq<Task>, r: seq<Task>, u: nat, t: nat)
    requires OneMoreEdge(tasks, r, u, t)
    ensures Deps(r, t) == Deps(tasks, t) + {u}
    ensures forall x: nat {:trigger Deps(r, x)} :: x != t ==> Deps(r, x) == Deps(tasks, x)
  {
    forall x: nat
      ensures Deps(r, x) == Deps(tasks, x) + (if x == t then {u} else {})
    {
      forall s: nat | s < |tasks|
        ensures x in r[s].dependers <==> x in tasks[s].dependers || (x == t && s == u)
      {
        assert r[s].dependers == tasks[s].dependers + (if s == u then [t] else []);
      }
    }
  }

  lemma LastIsMax(d: seq<nat>, t: nat)
    requires Increasing(d) && (forall x :: x in d ==> x <= t)
    ensures t in d <==> d != [] && d[|d| - 1] == t
  {
    if t in d {
      var i :| 0 <= i < |d| && d[i] == t;
      assert d[|d| - 1] in d;
    }
  }

  lemma OneMoreEdgeOk(tasks: seq<Task>, r: seq<Task>, u: nat, t: nat)
    requires EdgesOk(tasks) && CountsOk(tasks) && OneMoreEdge(tasks, r, u, t)
    requires t == |tasks| - 1 && t !in tasks[u].dependers
    requires tasks[u].kind != Done && tasks[t].kind == Waiting
    ensures EdgesOk(r) && CountsOk(r)
  {
    OneMoreEdgeDeps(tasks, r, u, t);
    forall s: nat | s < |r|
      ensures EdgeOk(r, s)
    {
      assert EdgeOk(tasks, s);
      var d := tasks[s].dependers;
      assert r[s].dependers == d + (if s == u then [t] else []);
      forall i | s == u && 0 <= i < |d| ensures d[i] < t { assert d[i] in d; }
    }
    forall x: nat | x < |r|
      ensures CountOk(r, x)
    {
      assert CountOk(tasks, x);
    }
  }

  lemma AddEdgeFacts(tasks: seq<Task>, t: nat, e: Entry, isIn: bool)
    requires EdgesOk(tasks) && CountsOk(tasks)
    requires t == |tasks| - 1 && tasks[t].kind == Waiting
    requires e.task < t && tasks[e.task].kind != Done
    ensures var r := AddEdge(tasks, t, e, isIn);
      && EdgesOk(r) && CountsOk(r) && SameTasks(tasks, r)
      && Deps(r, t) == Deps(tasks, t) + (if isIn && e.isIn then {} else {e.task})
      && forall x: nat {:trigger Deps(r, x)} :: x != t ==> Deps(r, x) == Deps(tasks, x)
  {
    var d := tasks[e.task].dependers;
    var r := AddEdge(tasks, t, e, isIn);
    assert EdgeOk(tasks, e.task);
    LastIsMax(d, t);
    if !(isIn && e.isIn) && t !in d {
      assert OneMoreEdge(tasks, r, e.task, t);
      OneMoreEdgeDeps(tasks, r, e.task, t);
      OneMoreEdgeOk(tasks, r, e.task, t);
    }
  }

  lemma TargetsCons(chain: seq<Entry>, isIn: bool)
    requires chain != [] && !chain[0].redundantOut
    ensures Targets(chain, isIn) == (if isIn && chain[0].isIn then {} else {chain[0].task}) + Targets(chain[1..], isIn)
  {
    forall x | x in Targets(chain, isIn) && !(x == chain[0].task && !(isIn && chain[0].isIn))
      ensures x in Targets(chain[1..], isIn)
    {
      var k: nat :| k < ActiveLen(chain) && !(isIn && chain[k].isIn) && chain[k].task == x;
      assert chain[1..][k - 1] == chain[k];
    }
    forall x | x in Targets(chain[1..], isIn)
      ensures x in Targets(chain, isIn)
    {
      var k: nat :| k < ActiveLen(chain[1..]) && !(isIn && chain[1..][k].isIn) && chain[1..][k].task == x;
      assert chain[k + 1].task == x;
    }
  }

  lemma {:induction false} AddEdgesFacts(tasks: seq<Task>, t: nat, chain: seq<Entry>, isIn: bool)
    requires EdgesOk(tasks) && CountsOk(tasks)
    requires t == |tasks| - 1 && tasks[t].kind == Waiting
    requires InRange(chain, t)
    requires forall k {:trigger chain[k]} :: 0 <= k < |chain| ==> tasks[chain[k].task].kind != Done
    ensures var r := AddEdges(tasks, t, chain, isIn);
      && EdgesOk(r) && CountsOk(r) && SameTasks(tasks, r)
      && Deps(r, t) == Deps(tasks, t) + Targets(chain, isIn)
      && forall x: nat {:trigger Deps(r, x)} :: x != t ==> Deps(r, x) == Deps(tasks, x)
    decreases |chain|
  {
    if chain == [] || chain[0].redundantOut {
      assert Targets(chain, isIn) == {};
    } else {
      var m := AddEdge(tasks, t, chain[0], isIn);
      AddEdgeFacts(tasks, t, chain[0], isIn);
      assert forall k {:trigger chain[1..][k]} :: 0 <= k < |chain[1..]| ==> chain[1..][k] == chain[k + 1];
      AddEdgesFacts(m, t, chain[1..], isIn);
      TargetsCons(chain, isIn);
    }
  }

  /** Where position i > 0 of the pushed chain comes from. */
  ghost function Source(chain: seq<Entry>, e: Entry, i: nat): int {
    var n := ActiveLen(chain);
    var o := LastOut(chain, n);
    if e.isIn || o < 0 || i <= o || i > n then i - 1 else if i < n then i else o
  }

  /** Where position j of the old chain goes. */
  ghost function Place(chain: seq<Entry>, e: Entry, j: nat): nat {
    var n := ActiveLen(chain);
    var o := LastOut(chain, n);
    if e.isIn || o < 0 || j < o || j >= n then j + 1 else if j == o then n else j
  }

  ghost predicate Moved(chain: seq<Entry>, e: Entry, j: int) {
    !e.isIn && j >= 0 && j == LastOut(chain, ActiveLen(chain))
  }

  lemma PushedHead(chain: seq<Entry>, e: Entry)
    ensures |Pushed(chain, e)| == |chain| + 1 && Pushed(chain, e)[0] == e
  {
  }

  lemma JoinedAt(x: Entry, a: seq<Entry>, b: seq<Entry>, y: Entry, c: seq<Entry>, i: nat)
    requires i < 2 + |a| + |b| + |c|
    ensures ([x] + a + b + [y] + c)[i] ==
      if i == 0 then x else if i <= |a| then a[i - 1] else if i <= |a| + |b| then b[i - 1 - |a|]
      else if i == 1 + |a| + |b| then y else c[i - 2 - |a| - |b|]
  {
  }

  /** Behind its head the pushed chain holds each old entry once, of which only the
      moved out changes. */
  lemma PushedItem(chain: seq<Entry>, e: Entry, i: nat)
    requires 0 < i <= |chain|
    ensures |Pushed(chain, e)| == |chain| + 1
    ensures var j := Source(chain, e, i);
      && 0 <= j < |chain| && Place(chain, e, j) == i
      && Pushed(chain, e)[i] == if Moved(chain, e, j) then chain[j].(redundantOut := true) else chain[j]
  {
    var n := ActiveLen(chain);
    var k := LastOut(chain, n);
    if !e.isIn && k >= 0 {
      JoinedAt(e, chain[..k], chain[k + 1..n], chain[k].(redundantOut := true), chain[n..], i);
    }
  }

  lemma PushedPlace(chain: seq<Entry>, e: Entry, j: nat)
    requires j < |chain|
    ensures var i := Place(chain, e, j); 0 < i <= |chain| && Source(chain, e, i) == j
  {
  }

  lemma PushedShape(chain: seq<Entry>, e: Entry)
    requires ShapeOk(chain) && !e.redundantOut
    ensures ShapeOk(Pushed(chain, e))
  {
    PushedHead(chain, e);
    var p := Pushed(chain, e);
    var n := ActiveLen(chain);
    forall i | 0 < i < |p|
      ensures p[i].redundantOut <==> (i > n || (i == n && Moved(chain, e, Source(chain, e, i))))
      ensures p[i].redundantOut ==> !p[i].isIn
      ensures !e.isIn && !p[i].isIn ==> p[i].redundantOut
    {
      PushedItem(chain, e, i);
    }
    forall h, i | 0 <= h < i < |p|
      ensures p[h].redundantOut ==> p[i].redundantOut
      ensures !p[h].isIn && !p[i].isIn ==> p[i].redundantOut
    {
      PushedItem(chain, e, i);
      if h > 0 { PushedItem(chain, e, h); }
    }
  }

  // ------------------------------------------------------------------
  // One more clause of the task being created
  // ------------------------------------------------------------------

  /** r is tasks with a clause added to the newest task t and edges to it from `gain`. */
  ghost predicate Extended(tasks: seq<Task>, r: seq<Task>, t: nat, d: Depend, gain: set<nat>) {
    && t == |tasks| - 1 && |r| == |tasks|
    && EdgesOk(r) && CountsOk(r)
    && (forall x {:trigger r[x]} {:trigger tasks[x]} :: 0 <= x < |r| ==> r[x].kind == tasks[x].kind)
    && (forall x {:trigger r[x]} {:trigger tasks[x]} :: 0 <= x < t ==> r[x].depend == tasks[x].depend)
    && r[t].depend == tasks[t].depend + [d]
    && Deps(r, t) == Deps(tasks, t) + gain
    && (forall x: nat {:trigger Deps(r, x)} {:trigger Deps(tasks, x)} :: x != t ==> Deps(r, x) == Deps(tasks, x))
  }

  lemma AddDependFacts(tasks: seq<Task>, t: nat, d: Depend)
    requires t < |tasks| && EdgesOk(tasks) && CountsOk(tasks)
    ensures var r := AddDepend(tasks, t, d);
      && EdgesOk(r) && CountsOk(r)
      && forall x: nat {:trigger Deps(r, x)} :: Deps(r, x) == Deps(tasks, x)
  {
    var r := AddDepend(tasks, t, d);
    forall x: nat
      ensures Deps(r, x) == Deps(tasks, x)
    {
      assert forall s: nat :: s < |tasks| ==> r[s].dependers == tasks[s].dependers;
    }
    forall s: nat | s < |r|
      ensures EdgeOk(r, s) && CountOk(r, s)
    {
      assert EdgeOk(tasks, s) && CountOk(tasks, s);
    }
  }

  lemma NamesAdded(task: Task, d: Depend, b: Addr)
    ensures var r := task.(depend := task.depend + [d]);
      && (Names(r, b) <==> Names(task, b) || d.addr == b)
      && (NamesOut(r, b) <==> NamesOut(task, b) || (d.addr == b && !d.isIn))
  {
    var r := task.(depend := task.depend + [d]);
    assert r.depend[|task.depend|] == d;
    if Names(task, b) {
      var i :| 0 <= i < |task.depend| && task.depend[i].addr == b;
      assert r.depend[i].addr == b;
    }
    if NamesOut(task, b) {
      var i :| 0 <= i < |task.depend| && task.depend[i].addr == b && !task.depend[i].isIn;
      assert r.depend[i].addr == b;
    }
  }

  lemma SameDependNames(x: Task, y: Task, a: Addr)
    requires x.depend == y.depend
    ensures (Names(x, a) <==> Names(y, a)) && (NamesOut(x, a) <==> NamesOut(y, a))
  {
  }

  lemma NamesExtended(tasks: seq<Task>, r: seq<Task>, t: nat, d: Depend, gain: set<nat>, x: nat, b: Addr)
    requires Extended(tasks, r, t, d, gain) && x < |tasks|
    ensures Names(r[x], b) <==> Names(tasks[x], b) || (x == t && d.addr == b)
    ensures NamesOut(r[x], b) <==> NamesOut(tasks[x], b) || (x == t && d.addr == b && !d.isIn)
  {
    if x == t {
      NamesAdded(tasks[t], d, b);
      SameDependNames(r[t], tasks[t].(depend := tasks[t].depend + [d]), b);
    } else {
      SameDependNames(r[x], tasks[x], b);
    }
  }

  lemma ConflictExtended(tasks: seq<Task>, r: seq<Task>, t: nat, d: Depend, gain: set<nat>, s: nat, x: nat)
    requires Extended(tasks, r, t, d, gain) && s < x < |tasks|
    ensures Conflict(r[s], r[x]) <==>
      Conflict(tasks[s], tasks[x]) || (x == t && Names(tasks[s], d.addr)
        && (NamesOut(tasks[s], d.addr) || !d.isIn || NamesOut(tasks[t], d.addr)))
  {
    if Conflict(r[s], r[x]) {
      var a :| Names(r[s], a) && Names(r[x], a) && (NamesOut(r[s], a) || NamesOut(r[x], a));
      NamesExtended(tasks, r, t, d, gain, s, a);
      NamesExtended(tasks, r, t, d, gain, x, a);
    }
    if Conflict(tasks[s], tasks[x]) {
      var a :| Names(tasks[s], a) && Names(tasks[x], a) && (NamesOut(tasks[s], a) || NamesOut(tasks[x], a));
      NamesExtended(tasks, r, t, d, gain, s, a);
      NamesExtended(tasks, r, t, d, gain, x, a);
    }
    NamesExtended(tasks, r, t, d, gain, s, d.addr);
    NamesExtended(tasks, r, t, d, gain, x, d.addr);
  }

  lemma ReachExtended(tasks: seq<Task>, r: seq<Task>, t: nat, d: Depend, gain: set<nat>, x: nat, s: nat)
    requires Extended(tasks, r, t, d, gain) && Reach(tasks, x, s)
    ensures Reach(r, x, s)
  {
    ReachKept(tasks, r, {}, x, s);
  }

  lemma OutNames(task: Task, a: Addr)
    requires NamesOut(task, a)
    ensures Names(task, a)
  {
  }

  /** The edges gained are exactly the ones the new clause calls for. */
  lemma ConflictsExtended(tasks: seq<Task>, r: seq<Task>, t: nat, d: Depend, gain: set<nat>)
    requires Extended(tasks, r, t, d, gain) && EdgesOk(tasks)
    requires ConflictsReached(tasks) && EdgesConflict(tasks)
    requires forall s: nat :: s in gain ==> s < t && Names(tasks[s], d.addr) && (NamesOut(tasks[s], d.addr) || !d.isIn)
    requires forall s: nat ::
               s < t && tasks[s].kind != Done && Names(tasks[s], d.addr) && (NamesOut(tasks[s], d.addr) || !d.isIn) ==>
               Reach(r, t, s) || Names(tasks[t], d.addr)
    requires Names(tasks[t], d.addr) && !d.isIn ==> NamesOut(tasks[t], d.addr)
    ensures ConflictsReached(r) && EdgesConflict(r)
  {
    forall s: nat, x: nat | s < x < |r| && r[s].kind != Done && Conflict(r[s], r[x])
      ensures Reach(r, x, s)
    {
      ConflictExtended(tasks, r, t, d, gain, s, x);
      if Conflict(tasks[s], tasks[x]) {
        assert Reach(tasks, x, s);
        ReachExtended(tasks, r, t, d, gain, x, s);
      } else if NamesOut(tasks[t], d.addr) {
        OutNames(tasks[t], d.addr);
      }
    }
    forall s: nat, x: nat | s in Deps(r, x)
      ensures x < |r| && Conflict(r[s], r[x])
    {
      assert EdgeOk(r, s);
      ConflictExtended(tasks, r, t, d, gain, s, x);
      if s !in Deps(tasks, x) {
        assert x == t && s in gain;
      }
    }
  }

  lemma DependsExtended(tasks: seq<Task>, r: seq<Task>, t: nat, d: Depend, gain: set<nat>)
    requires Extended(tasks, r, t, d, gain) && DependsOk(tasks)
    requires d.redundant <==> Names(tasks[t], d.addr)
    requires !d.isIn ==> forall i :: 0 <= i < |tasks[t].depend| ==> !tasks[t].depend[i].isIn
    ensures DependsOk(r)
  {
    forall x | 0 <= x < |r|
      ensures DependOk(r[x])
    {
      assert DependOk(tasks[x]);
      if x == t {
        var old_, new_ := tasks[t].depend, r[t].depend;
        forall i | 0 <= i < |new_|
          ensures new_[i].redundant <==> exists j :: 0 <= j < i && new_[j].addr == new_[i].addr
        {
          if i < |old_| {
            assert new_[i] == old_[i];
            assert forall j :: 0 <= j < i ==> new_[j] == old_[j];
          } else {
            assert forall j :: 0 <= j < i ==> new_[j] == old_[j];
          }
        }
      }
    }
  }

  lemma EntryCarried(tasks: seq<Task>, r: seq<Task>, t: nat, d: Depend, gain: set<nat>, b: Addr, e: Entry)
    requires Extended(tasks, r, t, d, gain) && EntryOk(tasks, b, e)
    requires e.task == t && d.addr == b && !d.isIn ==> NamesOut(tasks[t], b)
    ensures EntryOk(r, b, e)
  {
    NamesExtended(tasks, r, t, d, gain, e.task, b);
  }

  lemma ChainCarried(tasks: seq<Task>, r: seq<Task>, t: nat, d: Depend, gain: set<nat>, b: Addr, chain: seq<Entry>)
    requires Extended(tasks, r, t, d, gain) && ChainOk(tasks, b, chain)
    requires d.addr == b && !d.isIn ==> NamesOut(tasks[t], b) || InRange(chain, t)
    ensures ChainOk(r, b, chain)
  {
    forall k | 0 <= k < |chain|
      ensures EntryOk(r, b, chain[k])
    {
      assert EntryOk(tasks, b, chain[k]);
      EntryCarried(tasks, r, t, d, gain, b, chain[k]);
    }
    forall k | 0 <= k < |chain| && chain[k].redundantOut
      ensures exists j :: Covers(r, chain, j, k)
    {
      var j :| Covers(tasks, chain, j, k);
      assert Covers(r, chain, j, k);
    }
  }

  lemma PushedEntries(tasks: seq<Task>, a: Addr, chain: seq<Entry>, e: Entry)
    requires EntriesOk(tasks, a, chain) && EntryOk(tasks, a, e) && InRange(chain, e.task)
    ensures EntriesOk(tasks, a, Pushed(chain, e))
  {
    var p := Pushed(chain, e);
    PushedHead(chain, e);
    forall i | 0 <= i < |p|
      ensures EntryOk(tasks, a, p[i])
    {
      if i > 0 {
        PushedItem(chain, e, i);
        assert EntryOk(tasks, a, chain[Source(chain, e, i)]);
      }
    }
    forall h, i | 0 <= h < i < |p|
      ensures p[h].task != p[i].task
    {
      PushedApart(chain, e, h, i);
    }
  }

  lemma PushedApart(chain: seq<Entry>, e: Entry, h: nat, i: nat)
    requires InRange(chain, e.task) && h < i <= |chain|
    requires forall j, k :: 0 <= j < k < |chain| ==> chain[j].task != chain[k].task
    ensures |Pushed(chain, e)| == |chain| + 1 && Pushed(chain, e)[h].task != Pushed(chain, e)[i].task
  {
    PushedHead(chain, e);
    PushedItem(chain, e, i);
    if h > 0 {
      PushedItem(chain, e, h);
      var j, k := Source(chain, e, h), Source(chain, e, i);
      assert j != k;
    }
  }

  lemma PushedCovered(tasks: seq<Task>, chain: seq<Entry>, e: Entry)
    requires CoveredOk(tasks, chain)
    requires forall k {:trigger chain[k]} :: 0 <= k < |chain| && Moved(chain, e, k) ==>
      chain[k].task in Deps(tasks, e.task)
    requires !e.redundantOut
    ensures CoveredOk(tasks, Pushed(chain, e))
  {
    var p := Pushed(chain, e);
    PushedHead(chain, e);
    forall i | 0 <= i < |p| && p[i].redundantOut
      ensures exists h :: Covers(tasks, p, h, i)
    {
      PushedItem(chain, e, i);
      var k := Source(chain, e, i);
      if Moved(chain, e, k) {
        assert Covers(tasks, p, 0, i);
      } else {
        var j :| Covers(tasks, chain, j, k);
        PushedCovers(tasks, chain, e, j, k, i);
      }
    }
  }

  lemma PushedCovers(tasks: seq<Task>, chain: seq<Entry>, e: Entry, j: nat, k: nat, i: nat)
    requires k < |chain| && Covers(tasks, chain, j, k)
    requires i < |Pushed(chain, e)| && Pushed(chain, e)[i].task == chain[k].task
    ensures Covers(tasks, Pushed(chain, e), Place(chain, e, j), i)
  {
    PushedPlace(chain, e, j);
    PushedItem(chain, e, Place(chain, e, j));
  }

  lemma ChainPushed(tasks: seq<Task>, r: seq<Task>, t: nat, d: Depend, gain: set<nat>, chain: seq<Entry>)
    requires Extended(tasks, r, t, d, gain) && ChainOk(tasks, d.addr, chain) && InRange(chain, t)
    requires !Names(tasks[t], d.addr) && tasks[t].kind != Done
    requires gain == Targets(chain, d.isIn)
    ensures ChainOk(r, d.addr, Pushed(chain, Entry(t, d.isIn, false)))
  {
    var e := Entry(t, d.isIn, false);
    ChainCarried(tasks, r, t, d, gain, d.addr, chain);
    NamesExtended(tasks, r, t, d, gain, t, d.addr);
    if NamesOut(tasks[t], d.addr) { OutNames(tasks[t], d.addr); }
    PushedEntries(r, d.addr, chain, e);
    PushedShape(chain, e);
    forall k | 0 <= k < |chain| && Moved(chain, e, k)
      ensures chain[k].task in Deps(r, t)
    {
      assert chain[k].task in Targets(chain, d.isIn);
    }
    PushedCovered(r, chain, e);
  }

  // ------------------------------------------------------------------
  // Every clause keeps the core invariant
  // ------------------------------------------------------------------

  ghost predicate HeadOnly(chains: Chains, t: nat) {
    forall a, k :: a in chains && 0 < k < |chains[a]| ==> chains[a][k].task != t
  }

  /** t is the newest task, with only some of its clauses entered so far. */
  ghost predicate Creating(tasks: seq<Task>, chains: Chains, t: nat) {
    && Core(tasks, chains) && t == |tasks| - 1
    && tasks[t].kind == Waiting && tasks[t].dependers == []
    && HeadOnly(chains, t)
  }

  lemma CoreInRange(tasks: seq<Task>, chains: Chains)
    requires ChainsOk(tasks, chains)
    ensures AllInRange(chains, |tasks|)
  {
    forall a | a in chains
      ensures InRange(chains[a], |tasks|)
    {
      forall k | 0 <= k < |chains[a]| ensures chains[a][k].task < |tasks| {
        assert EntryOk(tasks, a, chains[a][k]);
      }
    }
  }

  lemma HeadNames(tasks: seq<Task>, chains: Chains, t: nat, a: Addr)
    requires Creating(tasks, chains, t)
    ensures var chain := ChainAt(chains, a);
      && ChainOk(tasks, a, chain)
      && (chain != [] && chain[0].task == t <==> Names(tasks[t], a))
      && (!Names(tasks[t], a) ==> InRange(chain, t))
  {
    var chain := ChainAt(chains, a);
    CoreInRange(tasks, chains);
    if chain != [] && chain[0].task == t {
      assert EntryOk(tasks, a, chain[0]);
    }
    if Names(tasks[t], a) {
      assert HasEntry(chain, t);
    }
  }

  lemma FirstIn(d: seq<nat>)
    requires d != []
    ensures d[0] in d
  {
  }

  lemma NoDependers(tasks: seq<Task>, r: seq<Task>, t: nat)
    requires EdgesOk(r) && t == |r| - 1
    ensures r[t].dependers == []
  {
    var d := r[t].dependers;
    assert EdgeOk(r, t);
    if d != [] {
      FirstIn(d);
    }
  }

  lemma RepeatedClauseKeeps(tasks: seq<Task>, chains: Chains, t: nat, a: Addr, isIn: bool)
    requires Creating(tasks, chains, t) && Names(tasks[t], a)
    requires !isIn ==> forall i :: 0 <= i < |tasks[t].depend| ==> !tasks[t].depend[i].isIn
    ensures Creating(AddDepend(tasks, t, Depend(a, isIn, true)), chains, t)
  {
    var d := Depend(a, isIn, true);
    var r := AddDepend(tasks, t, d);
    AddDependFacts(tasks, t, d);
    assert Extended(tasks, r, t, d, {});
    assert !isIn ==> NamesOut(tasks[t], a) by {
      var i :| 0 <= i < |tasks[t].depend| && tasks[t].depend[i].addr == a;
    }
    ConflictsExtended(tasks, r, t, d, {});
    DependsExtended(tasks, r, t, d, {});
    forall b | b in chains
      ensures ChainOk(r, b, chains[b])
    {
      ChainCarried(tasks, r, t, d, {}, b, chains[b]);
    }
    forall x: nat, b | x < |r| && r[x].kind != Done && Names(r[x], b)
      ensures HasEntry(ChainAt(chains, b), x)
    {
      NamesExtended(tasks, r, t, d, {}, x, b);
    }
  }

  lemma FreshExtended(tasks: seq<Task>, chains: Chains, t: nat, d: Depend)
    requires Creating(tasks, chains, t) && !Names(tasks[t], d.addr)
    requires InRange(ChainAt(chains, d.addr), |tasks|)
    ensures var chain := ChainAt(chains, d.addr);
      && ChainOk(tasks, d.addr, chain) && InRange(chain, t)
      && Extended(tasks, AddDepend(AddEdges(tasks, t, chain, d.isIn), t, d), t, d, Targets(chain, d.isIn))
  {
    var chain := ChainAt(chains, d.addr);
    HeadNames(tasks, chains, t, d.addr);
    forall k | 0 <= k < |chain|
      ensures tasks[chain[k].task].kind != Done
    {
      assert EntryOk(tasks, d.addr, chain[k]);
    }
    AddEdgesFacts(tasks, t, chain, d.isIn);
    AddDependFacts(AddEdges(tasks, t, chain, d.isIn), t, d);
  }

  lemma PushedHeadOnly(chains: Chains, t: nat, d: Depend)
    requires HeadOnly(chains, t) && InRange(ChainAt(chains, d.addr), t)
    ensures HeadOnly(chains[d.addr := Pushed(ChainAt(chains, d.addr), Entry(t, d.isIn, false))], t)
  {
    var chain, e := ChainAt(chains, d.addr), Entry(t, d.isIn, false);
    var cs: Chains := chains[d.addr := Pushed(chain, e)];
    PushedHead(chain, e);
    forall b, k | b in cs && 0 < k < |cs[b]|
      ensures cs[b][k].task != t
    {
      if b == d.addr { PushedItem(chain, e, k); } else { assert cs[b] == chains[b]; }
    }
  }

  lemma OtherChainOk(tasks: seq<Task>, r: seq<Task>, chains: Chains, t: nat, d: Depend, gain: set<nat>, b: Addr)
    requires ChainsOk(tasks, chains) && Extended(tasks, r, t, d, gain) && b in chains && b != d.addr
    ensures chains[b] != [] && ChainOk(r, b, chains[b])
  {
    ChainCarried(tasks, r, t, d, gain, b, chains[b]);
  }

  lemma PushedChainsOk(tasks: seq<Task>, r: seq<Task>, chains: Chains, t: nat, d: Depend)
    requires Creating(tasks, chains, t) && !Names(tasks[t], d.addr)
    requires ChainOk(tasks, d.addr, ChainAt(chains, d.addr)) && InRange(ChainAt(chains, d.addr), t)
    requires Extended(tasks, r, t, d, Targets(ChainAt(chains, d.addr), d.isIn))
    ensures ChainsOk(r, chains[d.addr := Pushed(ChainAt(chains, d.addr), Entry(t, d.isIn, false))])
  {
    var chain, e := ChainAt(chains, d.addr), Entry(t, d.isIn, false);
    var p := Pushed(chain, e);
    var cs: Chains := chains[d.addr := p];
    PushedHead(chain, e);
    ChainPushed(tasks, r, t, d, Targets(chain, d.isIn), chain);
    forall b | b in cs
      ensures cs[b] != [] && ChainOk(r, b, cs[b])
    {
      if b != d.addr {
        assert cs[b] == chains[b];
        OtherChainOk(tasks, r, chains, t, d, Targets(chain, d.isIn), b);
      }
    }
  }

  lemma FreshClauseKeeps(tasks: seq<Task>, chains: Chains, t: nat, a: Addr, isIn: bool)
    requires Creating(tasks, chains, t) && !Names(tasks[t], a)
    requires InRange(ChainAt(chains, a), |tasks|)
    requires !isIn ==> forall i :: 0 <= i < |tasks[t].depend| ==> !tasks[t].depend[i].isIn
    ensures var chain := ChainAt(chains, a);
      Creating(AddDepend(AddEdges(tasks, t, chain, isIn), t, Depend(a, isIn, false)),
               chains[a := Pushed(chain, Entry(t, isIn, false))], t)
  {
    var chain, d := ChainAt(chains, a), Depend(a, isIn, false);
    var r := AddDepend(AddEdges(tasks, t, chain, isIn), t, d);
    FreshExtended(tasks, chains, t, d);
    FreshConflicts(tasks, r, chains, t, d, chain);
    DependsExtended(tasks, r, t, d, Targets(chain, isIn));
    NoDependers(tasks, r, t);
    PushedChainsOk(tasks, r, chains, t, d);
    PushedHeadOnly(chains, t, d);
    PushedRegistered(tasks, r, chains, t, d, Targets(chain, isIn));
  }

  lemma PushedHasEntry(chain: seq<Entry>, e: Entry, x: nat)
    requires HasEntry(chain, x)
    ensures HasEntry(Pushed(chain, e), x)
  {
    var j :| 0 <= j < |chain| && chain[j].task == x;
    PushedPlace(chain, e, j);
    PushedItem(chain, e, Place(chain, e, j));
    assert Pushed(chain, e)[Place(chain, e, j)].task == x;
  }

  lemma PushedRegistered(tasks: seq<Task>, r: seq<Task>, chains: Chains, t: nat, d: Depend, gain: set<nat>)
    requires Extended(tasks, r, t, d, gain) && Registered(tasks, chains)
    ensures Registered(r, chains[d.addr := Pushed(ChainAt(chains, d.addr), Entry(t, d.isIn, false))])
  {
    var chain, e := ChainAt(chains, d.addr), Entry(t, d.isIn, false);
    var p := Pushed(chain, e);
    PushedHead(chain, e);
    var cs: Chains := chains[d.addr := p];
    forall x: nat, b | x < |r| && r[x].kind != Done && Names(r[x], b)
      ensures HasEntry(ChainAt(cs, b), x)
    {
      NamesExtended(tasks, r, t, d, gain, x, b);
      if b == d.addr && x == t {
        assert p[0].task == x;
      } else {
        assert HasEntry(ChainAt(chains, b), x);
        if b == d.addr { PushedHasEntry(chain, e, x); }
      }
    }
  }

  lemma BehindActive(chain: seq<Entry>, k: nat)
    requires ShapeOk(chain) && k < |chain|
    ensures chain[k].redundantOut <==> k >= ActiveLen(chain)
  {
    if k >= ActiveLen(chain) {
      assert chain[ActiveLen(chain)].redundantOut;
    }
  }

  /** The new task reaches every unfinished task it conflicts with at the new
      address, through an active entry of the chain. */
  lemma FreshReaches(tasks: seq<Task>, r: seq<Task>, t: nat, d: Depend, chain: seq<Entry>, k: nat)
    requires Extended(tasks, r, t, d, Targets(chain, d.isIn)) && EdgesOk(tasks)
    requires InRange(chain, t) && ChainOk(tasks, d.addr, chain)
    requires k < |chain| && (d.isIn ==> !chain[k].isIn)
    ensures Reach(r, t, chain[k].task)
  {
    BehindActive(chain, k);
    if k < ActiveLen(chain) {
      assert chain[k].task in Targets(chain, d.isIn);
    } else {
      var w := CoverReached(tasks, d.addr, chain, k);
      BehindActive(chain, w);
      ReachExtended(tasks, r, t, d, Targets(chain, d.isIn), chain[w].task, chain[k].task);
      assert chain[w].task in Targets(chain, d.isIn);
    }
  }

  lemma FreshConflicts(tasks: seq<Task>, r: seq<Task>, chains: Chains, t: nat, d: Depend, chain: seq<Entry>)
    requires Creating(tasks, chains, t) && chain == ChainAt(chains, d.addr)
    requires Extended(tasks, r, t, d, Targets(chain, d.isIn))
    requires !Names(tasks[t], d.addr) && InRange(chain, t) && ChainOk(tasks, d.addr, chain)
    ensures ConflictsReached(r) && EdgesConflict(r)
  {
    var gain := Targets(chain, d.isIn);
    forall s: nat | s in gain
      ensures s < t && Names(tasks[s], d.addr) && (NamesOut(tasks[s], d.addr) || !d.isIn)
    {
      var k: nat :| k < ActiveLen(chain) && !(d.isIn && chain[k].isIn) && chain[k].task == s;
      assert EntryOk(tasks, d.addr, chain[k]);
    }
    forall s: nat | s < t && tasks[s].kind != Done && Names(tasks[s], d.addr) && (NamesOut(tasks[s], d.addr) || !d.isIn)
      ensures Reach(r, t, s)
    {
      assert HasEntry(chain, s);
      var k :| 0 <= k < |chain| && chain[k].task == s;
      assert EntryOk(tasks, d.addr, chain[k]);
      FreshReaches(tasks, r, t, d, chain, k);
    }
    ConflictsExtended(tasks, r, t, d, gain);
  }
}
