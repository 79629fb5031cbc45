/** Starting and finishing a task keeps the invariant of the dependency engine. */
module TaskFinish {
  import opened TaskDepend
  import opened TaskInvariant

  /** Task t alone has started. */
  ghost predicate Started(tasks: seq<Task>, r: seq<Task>, t: nat) {
    && t < |tasks| == |r|
    && tasks[t].kind == Waiting && tasks[t].numDependees == 0
    && r == tasks[t := tasks[t].(kind := Tied)]
  }

  lemma StartedDeps(tasks: seq<Task>, r: seq<Task>, t: nat, x: nat)
    requires Started(tasks, r, t)
    ensures Deps(r, x) == Deps(tasks, x)
  {
    assert forall y: nat :: y < |tasks| ==> r[y].dependers == tasks[y].dependers;
  }

  lemma StartedTasks(tasks: seq<Task>, r: seq<Task>, t: nat)
    requires Started(tasks, r, t) && EdgesOk(tasks) && CountsOk(tasks) && DependsOk(tasks)
    ensures EdgesOk(r) && CountsOk(r) && DependsOk(r)
  {
    forall x: nat | x < |r|
      ensures EdgeOk(r, x) && CountOk(r, x) && DependOk(r[x])
    {
      StartedDeps(tasks, r, t, x);
      assert EdgeOk(tasks, x) && CountOk(tasks, x) && DependOk(tasks[x]);
    }
  }

  lemma SameConflict(x: Task, y: Task, x': Task, y': Task)
    requires x.depend == x'.depend && y.depend == y'.depend
    ensures Conflict(x, y) <==> Conflict(x', y')
  {
    if Conflict(x, y) {
      var a :| Names(x, a) && Names(y, a) && (NamesOut(x, a) || NamesOut(y, a));
      SameDependNames(x, x', a);
      SameDependNames(y, y', a);
    }
    if Conflict(x', y') {
      var a :| Names(x', a) && Names(y', a) && (NamesOut(x', a) || NamesOut(y', a));
      SameDependNames(x, x', a);
      SameDependNames(y, y', a);
    }
  }

  lemma StartedConflicts(tasks: seq<Task>, r: seq<Task>, t: nat)
    requires Started(tasks, r, t) && ConflictsReached(tasks) && EdgesConflict(tasks)
    ensures ConflictsReached(r) && EdgesConflict(r)
  {
    forall x: nat ensures Deps(r, x) == Deps(tasks, x) { StartedDeps(tasks, r, t, x); }
    forall y: nat, x: nat | y < x < |r| && r[y].kind != Done && Conflict(r[y], r[x])
      ensures Reach(r, x, y)
    {
      SameConflict(tasks[y], tasks[x], r[y], r[x]);
      assert Reach(tasks, x, y);
      ReachKept(tasks, r, {}, x, y);
    }
    forall y: nat, x: nat | y in Deps(r, x)
      ensures x < |r| && Conflict(r[y], r[x])
    {
      assert y in Deps(tasks, x);
      SameConflict(tasks[y], tasks[x], r[y], r[x]);
    }
  }

  lemma StartedChain(tasks: seq<Task>, r: seq<Task>, t: nat, a: Addr, chain: seq<Entry>)
    requires Started(tasks, r, t) && ChainOk(tasks, a, chain)
    ensures ChainOk(r, a, chain)
  {
    forall k | 0 <= k < |chain|
      ensures EntryOk(r, a, chain[k])
    {
      assert EntryOk(tasks, a, chain[k]);
      SameDependNames(tasks[chain[k].task], r[chain[k].task], a);
    }
    forall k | 0 <= k < |chain| && chain[k].redundantOut
      ensures exists j :: Covers(r, chain, j, k)
    {
      var j :| Covers(tasks, chain, j, k);
      StartedDeps(tasks, r, t, chain[j].task);
      assert Covers(r, chain, j, k);
    }
  }

  lemma StartedChains(tasks: seq<Task>, r: seq<Task>, t: nat, chains: Chains)
    requires Started(tasks, r, t) && ChainsOk(tasks, chains) && Registered(tasks, chains)
    ensures ChainsOk(r, chains) && Registered(r, chains)
  {
    forall a | a in chains
      ensures ChainOk(r, a, chains[a])
    {
      StartedChain(tasks, r, t, a, chains[a]);
    }
    forall x: nat, a | x < |r| && r[x].kind != Done && Names(r[x], a)
      ensures HasEntry(ChainAt(chains, a), x)
    {
      SameDependNames(tasks[x], r[x], a);
    }
  }

  lemma StartCounters(s: Team, t: nat)
    requires CountersOk(s) && t in s.queue
    ensures CountersOk(StartTask(s, t))
  {
    var r := StartTask(s, t);
    assert Ready(r.tasks) == Ready(s.tasks) - {t};
    assert Running(r.tasks) == Running(s.tasks) + {t};
  }

  /** Starting a task keeps the invariant; it changes the kind of the task, takes it off
      the queue and counts it as running, and leaves all chains and clauses alone. */
  lemma StartKeeps(s: Team, t: nat)
    requires Inv(s) && t in s.queue
    ensures var r := StartTask(s, t);
      && Inv(r) && Started(s.tasks, r.tasks, t) && r.chains == s.chains
      && r.queue == s.queue - {t} && r.taskCount == s.taskCount
      && r.queuedCount == s.queuedCount - 1 && r.runningCount == s.runningCount + 1
  {
    var r := StartTask(s, t).tasks;
    StartCounters(s, t);
    StartedTasks(s.tasks, r, t);
    StartedConflicts(s.tasks, r, t);
    StartedChains(s.tasks, r, t, s.chains);
  }

  // ------------------------------------------------------------------
  // Finishing
  // ------------------------------------------------------------------

  /** Task f is over: it holds nothing, and every depender waits for one task less. */
  ghost predicate Dropped(tasks: seq<Task>, r: seq<Task>, f: nat) {
    && f < |tasks| == |r|
    && r[f].kind == Done && r[f].dependers == [] && r[f].depend == tasks[f].depend
    && r[f].numDependees == tasks[f].numDependees
    && forall x {:trigger r[x]} {:trigger tasks[x]} :: 0 <= x < |r| && x != f ==>
         && r[x] == tasks[x].(numDependees := r[x].numDependees)
         && r[x].numDependees == tasks[x].numDependees - (if x in tasks[f].dependers then 1 else 0)
  }

  lemma DroppedDeps(tasks: seq<Task>, r: seq<Task>, f: nat)
    requires Dropped(tasks, r, f)
    ensures forall x: nat {:trigger Deps(r, x)} {:trigger Deps(tasks, x)} :: Deps(r, x) == Deps(tasks, x) - {f}
  {
    forall x: nat
      ensures Deps(r, x) == Deps(tasks, x) - {f}
    {
      assert forall s: nat :: s < |tasks| && s != f ==> r[s].dependers == tasks[s].dependers;
    }
  }

  lemma DroppedCounts(tasks: seq<Task>, r: seq<Task>, f: nat)
    requires Dropped(tasks, r, f) && EdgesOk(tasks) && CountsOk(tasks) && DependsOk(tasks)
    requires tasks[f].kind == Tied
    ensures EdgesOk(r) && CountsOk(r) && DependsOk(r)
  {
    DroppedDeps(tasks, r, f);
    assert EdgeOk(tasks, f) && CountOk(tasks, f);
    forall x: nat | x < |r|
      ensures EdgeOk(r, x) && CountOk(r, x) && DependOk(r[x])
    {
      assert EdgeOk(tasks, x) && CountOk(tasks, x) && DependOk(tasks[x]);
      assert f in Deps(tasks, x) <==> x in tasks[f].dependers;
    }
  }

  lemma DroppedConflicts(tasks: seq<Task>, r: seq<Task>, f: nat)
    requires Dropped(tasks, r, f) && CountsOk(tasks) && tasks[f].kind == Tied
    requires ConflictsReached(tasks) && EdgesConflict(tasks)
    ensures ConflictsReached(r) && EdgesConflict(r)
  {
    DroppedDeps(tasks, r, f);
    assert Deps(tasks, f) == {} by { assert CountOk(tasks, f); }
    forall s: nat, x: nat | s < x < |r| && r[s].kind != Done && Conflict(r[s], r[x])
      ensures Reach(r, x, s)
    {
      SameConflict(tasks[s], tasks[x], r[s], r[x]);
      assert Reach(tasks, x, s);
      ReachKept(tasks, r, {f}, x, s);
    }
    forall s: nat, x: nat | s in Deps(r, x)
      ensures x < |r| && Conflict(r[s], r[x])
    {
      assert s in Deps(tasks, x);
      SameConflict(tasks[s], tasks[x], r[s], r[x]);
    }
  }

  /** Every chain loses the entry of t, and no empty chain stays. */
  ghost predicate Unlinked(chains: Chains, r: Chains, t: nat) {
    && (forall a {:trigger ChainAt(r, a)} :: ChainAt(r, a) == Without(ChainAt(chains, a), t))
    && (forall a :: a in r ==> r[a] != [])
  }

  ghost predicate ClauseAt(depend: seq<Depend>, a: Addr, i: nat) {
    exists j :: i <= j < |depend| && depend[j].addr == a && !depend[j].redundant
  }

  lemma ClauseAtStep(depend: seq<Depend>, a: Addr, i: nat)
    requires i < |depend|
    ensures ClauseAt(depend, a, i) <==> (depend[i].addr == a && !depend[i].redundant) || ClauseAt(depend, a, i + 1)
  {
    if ClauseAt(depend, a, i) {
      var j :| i <= j < |depend| && depend[j].addr == a && !depend[j].redundant;
      if j > i { assert ClauseAt(depend, a, i + 1); }
    }
  }

  lemma {:induction false} UnlinkAllAt(chains: Chains, depend: seq<Depend>, t: nat, i: nat, a: Addr)
    requires i <= |depend| && (a in chains ==> chains[a] != [])
    requires forall j, k :: 0 <= j < k < |depend| && !depend[k].redundant ==> depend[j].addr != depend[k].addr
    ensures var r := UnlinkAll(chains, depend, t, i);
      && ChainAt(r, a) == (if ClauseAt(depend, a, i) then Without(ChainAt(chains, a), t) else ChainAt(chains, a))
      && (a in r ==> r[a] != [])
    decreases |depend| - i
  {
    if i < |depend| {
      var next := UnlinkClause(chains, depend[i], t);
      UnlinkAt(chains, depend[i].addr, t, a);
      UnlinkAllAt(next, depend, t, i + 1, a);
      ClauseAtStep(depend, a, i);
      if depend[i].addr == a && !depend[i].redundant { OnlyClause(depend, a, i); }
    }
  }

  lemma UnlinkAt(chains: Chains, b: Addr, t: nat, a: Addr)
    requires a in chains ==> chains[a] != []
    ensures var r := Unlink(chains, b, t);
      && ChainAt(r, a) == (if a == b then Without(ChainAt(chains, a), t) else ChainAt(chains, a))
      && (a in r ==> r[a] != [])
  {
  }

  lemma OnlyClause(depend: seq<Depend>, a: Addr, i: nat)
    requires i < |depend| && depend[i].addr == a
    requires forall j, k :: 0 <= j < k < |depend| && !depend[k].redundant ==> depend[j].addr != depend[k].addr
    ensures !ClauseAt(depend, a, i + 1)
  {
  }

  /** Some clause of every named address is not redundant. */
  lemma {:induction false} FirstClause(depend: seq<Depend>, a: Addr, i: nat) returns (j: nat)
    requires DependOk(Task(depend, 0, [], Waiting))
    requires i < |depend| && depend[i].addr == a
    ensures j <= i && depend[j].addr == a && !depend[j].redundant
    decreases i
  {
    if depend[i].redundant {
      var k :| 0 <= k < i && depend[k].addr == a;
      j := FirstClause(depend, a, k);
    } else {
      j := i;
    }
  }

  lemma ClauseOfName(task: Task, a: Addr)
    requires DependOk(task) && Names(task, a)
    ensures ClauseAt(task.depend, a, 0)
  {
    var i :| 0 <= i < |task.depend| && task.depend[i].addr == a;
    var j := FirstClause(task.depend, a, i);
    assert task.depend[j].addr == a;
  }

  /** Unlinking the clauses of t removes every entry of t and nothing else. */
  lemma UnlinkAllFacts(tasks: seq<Task>, chains: Chains, t: nat)
    requires ChainsOk(tasks, chains) && DependsOk(tasks) && t < |tasks|
    ensures Unlinked(chains, UnlinkAll(chains, tasks[t].depend, t, 0), t)
  {
    var depend := tasks[t].depend;
    assert DependOk(tasks[t]);
    var r := UnlinkAll(chains, depend, t, 0);
    forall a
      ensures ChainAt(r, a) == Without(ChainAt(chains, a), t)
      ensures a in r ==> r[a] != []
    {
      var chain := ChainAt(chains, a);
      UnlinkAllAt(chains, depend, t, 0, a);
      var k := IndexOf(chain, t);
      if k < |chain| {
        assert ChainOk(tasks, a, chains[a]);
        assert EntryOk(tasks, a, chain[k]);
        ClauseOfName(tasks[t], a);
      }
    }
  }

  lemma WithoutAt(chain: seq<Entry>, t: nat, i: nat)
    requires forall j, k :: 0 <= j < k < |chain| ==> chain[j].task != chain[k].task
    requires i < |Without(chain, t)|
    ensures var j := if i < IndexOf(chain, t) then i else i + 1;
      j < |chain| && Without(chain, t)[i] == chain[j] && chain[j].task != t
  {
    var k := IndexOf(chain, t);
    if k < |chain| { DroppedAt(chain, k, i); }
  }

  lemma DroppedAt(chain: seq<Entry>, k: nat, i: nat)
    requires k < |chain| && i < |chain| - 1
    ensures (chain[..k] + chain[k + 1..])[i] == chain[if i < k then i else i + 1]
  {
  }

  lemma WithoutPlace(chain: seq<Entry>, t: nat, j: nat)
    requires j < |chain| && chain[j].task != t
    ensures var i := if j < IndexOf(chain, t) then j else j - 1;
      0 <= i < |Without(chain, t)| && Without(chain, t)[i] == chain[j]
  {
    var k := IndexOf(chain, t);
    if k < |chain| { DroppedAt(chain, k, if j < k then j else j - 1); }
  }

  lemma ChainWithout(tasks: seq<Task>, r: seq<Task>, f: nat, a: Addr, chain: seq<Entry>)
    requires Dropped(tasks, r, f) && CountsOk(tasks) && tasks[f].kind == Tied && ChainOk(tasks, a, chain)
    ensures ChainOk(r, a, Without(chain, f))
  {
    var w := Without(chain, f);
    DroppedDeps(tasks, r, f);
    assert Deps(tasks, f) == {} by { assert CountOk(tasks, f); }
    forall i | 0 <= i < |w|
      ensures EntryOk(r, a, w[i])
    {
      WithoutAt(chain, f, i);
      assert EntryOk(tasks, a, w[i]);
      SameDependNames(tasks[w[i].task], r[w[i].task], a);
    }
    forall h, i | 0 <= h < i < |w|
      ensures w[h].task != w[i].task && (w[h].redundantOut ==> w[i].redundantOut)
      ensures !w[h].isIn && !w[i].isIn ==> w[i].redundantOut
      ensures w[h].redundantOut ==> !w[h].isIn
    {
      WithoutAt(chain, f, h);
      WithoutAt(chain, f, i);
    }
    forall i | 0 <= i < |w| && w[i].redundantOut
      ensures !w[i].isIn && exists h :: Covers(r, w, h, i)
    {
      WithoutAt(chain, f, i);
      var k := if i < IndexOf(chain, f) then i else i + 1;
      var j :| Covers(tasks, chain, j, k);
      WithoutPlace(chain, f, j);
      var h := if j < IndexOf(chain, f) then j else j - 1;
      assert Covers(r, w, h, i);
    }
  }

  lemma DroppedChains(tasks: seq<Task>, r: seq<Task>, chains: Chains, cs: Chains, f: nat)
    requires Dropped(tasks, r, f) && CountsOk(tasks) && tasks[f].kind == Tied
    requires ChainsOk(tasks, chains) && Registered(tasks, chains) && Unlinked(chains, cs, f)
    ensures ChainsOk(r, cs) && Registered(r, cs)
  {
    forall a | a in cs
      ensures cs[a] != [] && ChainOk(r, a, cs[a])
    {
      assert cs[a] == ChainAt(cs, a);
      assert ChainOk(tasks, a, ChainAt(chains, a));
      ChainWithout(tasks, r, f, a, ChainAt(chains, a));
    }
    forall x: nat, a | x < |r| && r[x].kind != Done && Names(r[x], a)
      ensures HasEntry(ChainAt(cs, a), x)
    {
      SameDependNames(tasks[x], r[x], a);
      var chain := ChainAt(chains, a);
      assert HasEntry(chain, x);
      var k :| 0 <= k < |chain| && chain[k].task == x;
      WithoutPlace(chain, f, k);
      var i := if k < IndexOf(chain, f) then k else k - 1;
      assert ChainAt(cs, a)[i].task == x;
    }
  }

  /** The dependers xs still to be told, in a team whose queue is exact. */
  ghost predicate Releasing(s: Team, xs: seq<nat>) {
    && Increasing(xs)
    && (forall x :: x in xs ==> x < |s.tasks| && s.tasks[x].kind == Waiting && s.tasks[x].numDependees > 0)
    && CountersOk(s)
  }

  lemma ReleaseCounters(s: Team, x: nat)
    requires CountersOk(s) && x < |s.tasks| && s.tasks[x].kind == Waiting && s.tasks[x].numDependees > 0
    ensures CountersOk(Release(s, x))
  {
    var r := Release(s, x);
    ReleaseReady(s.tasks, r.tasks, x);
    assert x !in Ready(s.tasks);
  }

  lemma ReleaseReady(tasks: seq<Task>, r: seq<Task>, x: nat)
    requires x < |tasks| && r == tasks[x := tasks[x].(numDependees := tasks[x].numDependees - 1)]
    requires tasks[x].kind == Waiting && tasks[x].numDependees > 0
    ensures Running(r) == Running(tasks)
    ensures Ready(r) == Ready(tasks) + (if r[x].numDependees == 0 then {x} else {})
  {
    forall y: nat
      ensures y in Running(r) <==> y in Running(tasks)
      ensures y in Ready(r) <==> y in Ready(tasks) || (y == x && r[x].numDependees == 0)
    {
    }
  }

  lemma RestIncreases(xs: seq<nat>, y: nat)
    requires Increasing(xs) && xs != [] && y in xs[1..]
    ensures y in xs && y > xs[0]
  {
    var i :| 0 <= i < |xs[1..]| && xs[1..][i] == y;
    assert xs[i + 1] == y;
  }

  lemma ReleaseStep(s: Team, xs: seq<nat>)
    requires Releasing(s, xs) && xs != []
    ensures xs[0] < |s.tasks| && Releasing(Release(s, xs[0]), xs[1..])
  {
    assert xs[0] in xs;
    ReleaseCounters(s, xs[0]);
    forall y | y in xs[1..]
      ensures y in xs && y != xs[0]
    {
      RestIncreases(xs, y);
    }
    var rest := xs[1..];
    assert forall i :: 0 <= i < |rest| ==> rest[i] == xs[i + 1];
  }

  /** Every depender loses one dependee, and those left without any are queued. */
  lemma {:induction false} ReleaseAllFacts(s: Team, xs: seq<nat>)
    requires Releasing(s, xs)
    requires forall k :: 0 <= k < |xs| ==> xs[k] < |s.tasks|
    ensures var r := ReleaseAll(s, xs);
      && CountersOk(r) && r.chains == s.chains
      && forall y {:trigger r.tasks[y]} {:trigger s.tasks[y]} :: 0 <= y < |s.tasks| ==>
           r.tasks[y] == s.tasks[y].(numDependees := s.tasks[y].numDependees - (if y in xs then 1 else 0))
    decreases |xs|
  {
    if xs != [] {
      var m, rest := Release(s, xs[0]), xs[1..];
      ReleaseStep(s, xs);
      assert forall k :: 0 <= k < |rest| ==> rest[k] == xs[k + 1];
      ReleaseAllFacts(m, rest);
      forall y: nat | y < |s.tasks|
        ensures ReleaseAll(s, xs).tasks[y]
          == s.tasks[y].(numDependees := s.tasks[y].numDependees - (if y in xs then 1 else 0))
      {
        FirstOrRest(xs, y);
        assert ReleaseAll(m, rest).tasks[y]
          == m.tasks[y].(numDependees := m.tasks[y].numDependees - (if y in rest then 1 else 0));
      }
    }
  }

  lemma FirstOrRest(xs: seq<nat>, y: nat)
    requires Increasing(xs) && xs != []
    ensures y in xs <==> y == xs[0] || y in xs[1..]
    ensures !(y == xs[0] && y in xs[1..])
  {
    if y in xs[1..] { RestIncreases(xs, y); }
    assert xs == [xs[0]] + xs[1..];
  }

  lemma FinishTeam(s: Team, f: nat)
    requires Inv(s) && f < |s.tasks| && s.tasks[f].kind == Tied
    ensures forall k :: 0 <= k < |s.tasks[f].dependers| ==> s.tasks[f].dependers[k] < |s.tasks|
    ensures var r := FinishTask(s, f);
      && Dropped(s.tasks, r.tasks, f) && CountersOk(r)
      && r.chains == UnlinkAll(s.chains, s.tasks[f].depend, f, 0)
  {
    var xs := s.tasks[f].dependers;
    assert EdgeOk(s.tasks, f);
    forall k | 0 <= k < |xs| ensures xs[k] < |s.tasks| { assert xs[k] in xs; }
    var u := s.(chains := UnlinkAll(s.chains, s.tasks[f].depend, f, 0));
    forall x | x in xs
      ensures x < |s.tasks| && s.tasks[x].kind == Waiting && s.tasks[x].numDependees > 0
    {
      assert CountOk(s.tasks, x);
      assert f in Deps(s.tasks, x);
    }
    ReleaseAllFacts(u, xs);
    assert f !in xs;
    DropCounters(ReleaseAll(u, xs), f);
  }

  lemma DropCounters(m: Team, f: nat)
    requires CountersOk(m) && f < |m.tasks| && m.tasks[f].kind == Tied
    ensures CountersOk(m.(tasks := m.tasks[f := m.tasks[f].(dependers := [], kind := Done)],
                          runningCount := m.runningCount - 1, taskCount := m.taskCount - 1))
  {
    var ts := m.tasks[f := m.tasks[f].(dependers := [], kind := Done)];
    assert Ready(ts) == Ready(m.tasks);
    assert Running(ts) == Running(m.tasks) - {f};
    assert f in Running(m.tasks);
  }

  /** Finishing a task keeps the invariant and changes no other task's clauses or kind. */
  lemma FinishKeeps(s: Team, f: nat)
    requires Inv(s) && f < |s.tasks| && s.tasks[f].kind == Tied
    ensures forall k :: 0 <= k < |s.tasks[f].dependers| ==> s.tasks[f].dependers[k] < |s.tasks|
    ensures var r := FinishTask(s, f);
      Inv(r) && Dropped(s.tasks, r.tasks, f) && Unlinked(s.chains, r.chains, f)
  {
    FinishTeam(s, f);
    var r := FinishTask(s, f);
    UnlinkAllFacts(s.tasks, s.chains, f);
    DroppedCounts(s.tasks, r.tasks, f);
    DroppedConflicts(s.tasks, r.tasks, f);
    DroppedChains(s.tasks, r.tasks, s.chains, r.chains, f);
  }
}
