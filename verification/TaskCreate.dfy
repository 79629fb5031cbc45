/** Creating a task keeps the invariant of the dependency engine. */
module TaskCreate {
  import opened TaskDepend
  import opened TaskInvariant

  /** Only the newest task t may have gained clauses and dependees. */
  ghost predicate Grown(tasks: seq<Task>, r: seq<Task>, t: nat) {
    && t == |tasks| - 1 && |r| == |tasks|
    && (forall x {:trigger r[x]} :: 0 <= x < |r| ==> r[x].kind == tasks[x].kind)
    && (forall x {:trigger r[x]} :: 0 <= x < t ==> r[x].depend == tasks[x].depend)
    && (forall x: nat {:trigger Deps(r, x)} :: x != t ==> Deps(r, x) == Deps(tasks, x))
  }

  /** The first i clauses of the task are those of the call. */
  ghost predicate ClausesAre(task: Task, addrs: seq<Addr>, nout: nat, i: nat) {
    && i <= |addrs| && |task.depend| == i
    && forall j {:trigger task.depend[j]} :: 0 <= j < i ==>
         task.depend[j].addr == addrs[j] && (task.depend[j].isIn <==> j >= nout)
  }

  /** The task has one more clause, redundant or not. */
  ghost predicate Appended(task: Task, more: Task, a: Addr, isIn: bool) {
    var n := |task.depend|;
    && |more.depend| == n + 1 && more.depend[..n] == task.depend
    && more.depend[n].addr == a && more.depend[n].isIn == isIn
  }

  lemma ClauseKeeps(tasks: seq<Task>, chains: Chains, t: nat, addrs: seq<Addr>, nout: nat, i: nat)
    requires Creating(tasks, chains, t) && AllInRange(chains, |tasks|)
    requires i < |addrs| && ClausesAre(tasks[t], addrs, nout, i)
    ensures var (ts, cs) := AddClause(tasks, chains, t, addrs[i], i >= nout);
      Creating(ts, cs, t) && Grown(tasks, ts, t) && ClausesAre(ts[t], addrs, nout, i + 1)
  {
    if i < nout { OutsFirst(tasks[t], addrs, nout, i); }
    OneClauseKeeps(tasks, chains, t, addrs[i], i >= nout);
    ClausesAppended(tasks[t], AddClause(tasks, chains, t, addrs[i], i >= nout).0[t], addrs, nout, i);
  }

  lemma OutsFirst(task: Task, addrs: seq<Addr>, nout: nat, i: nat)
    requires ClausesAre(task, addrs, nout, i) && i < nout
    ensures forall j :: 0 <= j < |task.depend| ==> !task.depend[j].isIn
  {
  }

  lemma ClausesAppended(task: Task, more: Task, addrs: seq<Addr>, nout: nat, i: nat)
    requires ClausesAre(task, addrs, nout, i) && i < |addrs|
    requires Appended(task, more, addrs[i], i >= nout)
    ensures ClausesAre(more, addrs, nout, i + 1)
  {
    forall j | 0 <= j < i ensures more.depend[j] == task.depend[j] {
      assert more.depend[..|task.depend|][j] == more.depend[j];
    }
  }

  lemma OneClauseKeeps(tasks: seq<Task>, chains: Chains, t: nat, a: Addr, isIn: bool)
    requires Creating(tasks, chains, t) && AllInRange(chains, |tasks|)
    requires !isIn ==> forall i :: 0 <= i < |tasks[t].depend| ==> !tasks[t].depend[i].isIn
    ensures var (ts, cs) := AddClause(tasks, chains, t, a, isIn);
      && Creating(ts, cs, t) && Grown(tasks, ts, t)
      && Appended(tasks[t], ts[t], a, isIn)
  {
    var chain := ChainAt(chains, a);
    assert InRange(chain, |tasks|);
    HeadNames(tasks, chains, t, a);
    if chain != [] && chain[0].task == t {
      RepeatedClauseKeeps(tasks, chains, t, a, isIn);
      RepeatedGrown(tasks, t, Depend(a, isIn, true));
    } else {
      FreshClauseKeeps(tasks, chains, t, a, isIn);
      FreshGrown(tasks, chains, t, Depend(a, isIn, false));
    }
  }

  lemma RepeatedGrown(tasks: seq<Task>, t: nat, d: Depend)
    requires t == |tasks| - 1 && EdgesOk(tasks) && CountsOk(tasks)
    ensures var r := AddDepend(tasks, t, d);
      Grown(tasks, r, t) && r[t].depend == tasks[t].depend + [d]
  {
    AddDependFacts(tasks, t, d);
  }

  lemma FreshGrown(tasks: seq<Task>, chains: Chains, t: nat, d: Depend)
    requires Creating(tasks, chains, t) && !Names(tasks[t], d.addr)
    requires InRange(ChainAt(chains, d.addr), |tasks|)
    ensures var r := AddDepend(AddEdges(tasks, t, ChainAt(chains, d.addr), d.isIn), t, d);
      Grown(tasks, r, t) && r[t].depend == tasks[t].depend + [d]
  {
    FreshExtended(tasks, chains, t, d);
  }

  lemma {:induction false} ClausesKeep(tasks: seq<Task>, chains: Chains, t: nat, addrs: seq<Addr>, nout: nat, i: nat)
    requires Creating(tasks, chains, t) && AllInRange(chains, |tasks|)
    requires i <= |addrs| && ClausesAre(tasks[t], addrs, nout, i)
    ensures var (ts, cs) := AddClauses(tasks, chains, t, addrs, nout, i);
      Creating(ts, cs, t) && Grown(tasks, ts, t) && ClausesAre(ts[t], addrs, nout, |addrs|)
    decreases |addrs| - i
  {
    if i < |addrs| {
      var (ts, cs) := AddClause(tasks, chains, t, addrs[i], i >= nout);
      ClauseKeeps(tasks, chains, t, addrs, nout, i);
      ClausesKeep(ts, cs, t, addrs, nout, i + 1);
    }
  }

  lemma FreshDeps(tasks: seq<Task>)
    requires EdgesOk(tasks)
    ensures var r := tasks + [FRESH];
      && (forall x: nat {:trigger Deps(r, x)} :: Deps(r, x) == Deps(tasks, x))
      && Deps(r, |tasks|) == {}
  {
    var r := tasks + [FRESH];
    forall x: nat
      ensures Deps(r, x) == Deps(tasks, x)
    {
      assert forall s: nat :: s < |tasks| ==> r[s] == tasks[s];
    }
    forall s: nat | s < |tasks|
      ensures |tasks| !in tasks[s].dependers
    {
      assert EdgeOk(tasks, s);
    }
  }

  lemma FreshTaskCreating(tasks: seq<Task>, chains: Chains)
    requires Core(tasks, chains)
    ensures Creating(tasks + [FRESH], chains, |tasks|)
  {
    var r := tasks + [FRESH];
    FreshDeps(tasks);
    forall s: nat | s < |r|
      ensures EdgeOk(r, s) && CountOk(r, s) && DependOk(r[s])
    {
      if s < |tasks| { assert EdgeOk(tasks, s) && CountOk(tasks, s) && DependOk(tasks[s]); }
    }
    CoreInRange(tasks, chains);
    forall a | a in chains
      ensures ChainOk(r, a, chains[a])
    {
      var chain := chains[a];
      forall k | 0 <= k < |chain|
        ensures EntryOk(r, a, chain[k])
      {
        assert EntryOk(tasks, a, chain[k]);
      }
      forall k | 0 <= k < |chain| && chain[k].redundantOut
        ensures exists j :: Covers(r, chain, j, k)
      {
        var j :| Covers(tasks, chain, j, k);
        assert Covers(r, chain, j, k);
      }
    }
    FreshConflicts(tasks);
    forall a, k | a in chains && 0 < k < |chains[a]|
      ensures chains[a][k].task != |tasks|
    {
      assert InRange(chains[a], |tasks|);
    }
  }

  lemma FreshConflicts(tasks: seq<Task>)
    requires EdgesOk(tasks) && ConflictsReached(tasks) && EdgesConflict(tasks)
    ensures ConflictsReached(tasks + [FRESH]) && EdgesConflict(tasks + [FRESH])
  {
    var r := tasks + [FRESH];
    FreshDeps(tasks);
    forall s: nat, x: nat | s < x < |r| && r[s].kind != Done && Conflict(r[s], r[x])
      ensures Reach(r, x, s)
    {
      assert !Names(FRESH, 0);
      assert Reach(tasks, x, s);
      ReachKept(tasks, r, {}, x, s);
    }
  }

  lemma AllInRangeMore(chains: Chains, n: nat)
    requires AllInRange(chains, n)
    ensures AllInRange(chains, n + 1)
  {
    forall a | a in chains
      ensures InRange(chains[a], n + 1)
    {
      assert InRange(chains[a], n);
    }
  }

  lemma GrownReady(tasks: seq<Task>, r: seq<Task>, t: nat)
    requires Grown(tasks + [FRESH], r, t) && CountsOk(tasks) && CountsOk(r) && EdgesOk(tasks)
    ensures Ready(r) == Ready(tasks) + (if r[t].numDependees == 0 then {t} else {})
    ensures Running(r) == Running(tasks)
  {
    FreshDeps(tasks);
    forall x: nat | x < t
      ensures r[x].numDependees == tasks[x].numDependees && r[x].kind == tasks[x].kind
    {
      assert CountOk(r, x) && CountOk(tasks, x);
      assert (tasks + [FRESH])[x] == tasks[x];
    }
  }

  /** Creating a task keeps the invariant, and enters exactly the clauses of the call. */
  lemma CreateKeeps(s: Team, addrs: seq<Addr>, nout: nat)
    requires Inv(s)
    ensures AllInRange(s.chains, |s.tasks|)
    ensures var r := CreateTask(s, addrs, nout);
      && Inv(r) && |r.tasks| == |s.tasks| + 1
      && ClausesAre(r.tasks[|s.tasks|], addrs, nout, |addrs|)
      && r.tasks[|s.tasks|].kind == Waiting
      && forall x {:trigger r.tasks[x]} :: 0 <= x < |s.tasks| ==>
           r.tasks[x].kind == s.tasks[x].kind && r.tasks[x].depend == s.tasks[x].depend
  {
    var t := |s.tasks|;
    CoreInRange(s.tasks, s.chains);
    AllInRangeMore(s.chains, t);
    FreshTaskCreating(s.tasks, s.chains);
    ClausesKeep(s.tasks + [FRESH], s.chains, t, addrs, nout, 0);
    var (ts, cs) := AddClauses(s.tasks + [FRESH], s.chains, t, addrs, nout, 0);
    GrownReady(s.tasks, ts, t);
    assert t !in s.queue;
  }
}
