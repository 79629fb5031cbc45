/** The state of a team's tasks and the code that updates it in place. */
module TaskTeam {
  import opened TaskDepend
  import opened TaskInvariant
  import opened TaskCreate
  import opened TaskFinish
  import opened TaskRuns

  class TaskTeam {
    var tasks: seq<Task>
    var chains: Chains        // parent->depend_hash
    var queue: set<nat>       // team->task_queue
    var taskCount: int
    var queuedCount: int
    var runningCount: int

    ghost function State(): Team
      reads this
    {
      Team(tasks, chains, queue, taskCount, queuedCount, runningCount)
    }

    ghost predicate Valid()
      reads this
    {
      Inv(State())
    }

    constructor ()
      ensures Valid() && State() == INIT
    {
      tasks, chains, queue := [], map[], {};
      taskCount, queuedCount, runningCount := 0, 0, 0;
      new;
      InitInv();
    }

    /** Make task t wait for the task of ent, unless it does already. */
    method RecordEdge(t: nat, ent: Entry, isIn: bool)
      requires t < |tasks| && ent.task < |tasks| && !(isIn && ent.isIn)
      modifies this`tasks
      ensures tasks == AddEdge(old(tasks), t, ent, isIn)
    {
      var d := tasks[ent.task].dependers;
      if !(d != [] && d[|d| - 1] == t) {
        tasks := tasks[ent.task := tasks[ent.task].(dependers := d + [t])];
        tasks := tasks[t := tasks[t].(numDependees := tasks[t].numDependees + 1)];
      }
    }

    /** Walk one chain: record the edges from its active entries to task t and
        report the last active entry and the last active out. */
    method WalkChain(t: nat, chain: seq<Entry>, isIn: bool) returns (out: int, last: int)
      requires t < |tasks| && InRange(chain, |tasks|)
      modifies this`tasks
      ensures tasks == AddEdges(old(tasks), t, chain, isIn)
      ensures last == ActiveLen(chain) - 1
      ensures out == LastOut(chain, ActiveLen(chain))
    {
      out, last := -1, -1;
      var j := 0;
      while j < |chain| && !chain[j].redundantOut
        invariant 0 <= j <= |chain| && |tasks| == |old(tasks)|
        invariant last == j - 1
        invariant forall k :: 0 <= k < j ==> !chain[k].redundantOut
        invariant AddEdges(old(tasks), t, chain, isIn) == AddEdges(tasks, t, chain[j..], isIn)
        invariant out == LastOut(chain, j)
      {
        var ent := chain[j];
        AddEdgesStep(tasks, t, chain, isIn, j);
        last := j;
        if !(isIn && ent.isIn) {
          if !ent.isIn {
            out := j;
          }
          RecordEdge(t, ent, isIn);
        }
        j := j + 1;
      }
      ActiveLenIs(chain, j);
    }

    /** One clause of the newest task t. */
    method HandleClause(t: nat, a: Addr, isIn: bool)
      requires t < |tasks| && AllInRange(chains, |tasks|)
      modifies this`tasks, this`chains
      ensures (tasks, chains) == AddClause(old(tasks), old(chains), t, a, isIn)
    {
      var chain := ChainAt(chains, a);
      if chain != [] && chain[0].task == t {
        tasks := AddDepend(tasks, t, Depend(a, isIn, true));
        return;
      }
      assert InRange(chain, |tasks|);
      var out, last := WalkChain(t, chain, isIn);
      var head := [Entry(t, isIn, false)] + chain;
      if !isIn && out >= 0 {
        var moved := chain[out].(redundantOut := true);
        if out != last {
          head := [Entry(t, isIn, false)] + chain[..out] + chain[out + 1..last + 1] + [moved] + chain[last + 1..];
        } else {
          head := [Entry(t, isIn, false)] + chain[out := moved];
        }
      }
      assert head == Pushed(chain, Entry(t, isIn, false));
      chains := chains[a := head];
      tasks := AddDepend(tasks, t, Depend(a, isIn, false));
    }

    /** gomp_task_handle_depend: enter the clauses of the newest task t. */
    method HandleDepend(t: nat, addrs: seq<Addr>, nout: nat)
      requires t < |tasks| && AllInRange(chains, |tasks|)
      modifies this`tasks, this`chains
      ensures (tasks, chains) == AddClauses(old(tasks), old(chains), t, addrs, nout, 0)
    {
      var i := 0;
      while i < |addrs|
        invariant 0 <= i <= |addrs| && |tasks| == |old(tasks)| && AllInRange(chains, |tasks|)
        invariant AddClauses(old(tasks), old(chains), t, addrs, nout, 0) == AddClauses(tasks, chains, t, addrs, nout, i)
      {
        ClauseInRange(tasks, chains, t, addrs[i], i >= nout);
        HandleClause(t, addrs[i], i >= nout);
        i := i + 1;
      }
    }

    /** The deferred branch of GOMP_task. */
    method CreateTask(addrs: seq<Addr>, nout: nat) returns (t: nat)
      requires Valid()
      modifies this
      ensures Valid() && t == |old(tasks)|
      ensures AllInRange(old(chains), |old(tasks)|) && State() == TaskDepend.CreateTask(old(State()), addrs, nout)
    {
      CreateKeeps(State(), addrs, nout);
      t := EnterTask(addrs, nout);
    }

    method EnterTask(addrs: seq<Addr>, nout: nat) returns (t: nat)
      requires AllInRange(chains, |tasks|)
      modifies this
      ensures t == |old(tasks)| && State() == TaskDepend.CreateTask(old(State()), addrs, nout)
    {
      t := |tasks|;
      AllInRangeMore(chains, |tasks|);
      tasks := tasks + [FRESH];
      HandleDepend(t, addrs, nout);
      if tasks[t].numDependees != 0 {
        return;
      }
      queue := queue + {t};
      taskCount := taskCount + 1;
      queuedCount := queuedCount + 1;
    }

    /** gomp_task_run_pre, with the increment of task_running_count of its caller. */
    method RunPre(t: nat)
      requires Valid() && t in queue
      modifies this
      ensures t < |old(tasks)| && State() == StartTask(old(State()), t)
      ensures Valid()
      ensures Started(old(tasks), tasks, t) && chains == old(chains)
      ensures queue == old(queue) - {t} && taskCount == old(taskCount)
      ensures queuedCount == old(queuedCount) - 1 && runningCount == old(runningCount) + 1
    {
      StartKeeps(State(), t);
      queue := queue - {t};
      tasks := tasks[t := tasks[t].(kind := Tied)];
      queuedCount := queuedCount - 1;
      runningCount := runningCount + 1;
    }

    /** Unlink the entry of task t at one address; it is found there, so the
        source's abort is not reached. */
    method UnlinkEntry(a: Addr, t: nat)
      requires IndexOf(ChainAt(chains, a), t) < |ChainAt(chains, a)|
      modifies this`chains
      ensures EntryTaken(old(chains), chains, a, t)
      ensures chains == Unlink(old(chains), a, t)
    {
      var chain := ChainAt(chains, a);
      var k := IndexOf(chain, t);
      var rest := chain[..k] + chain[k + 1..];
      EntryTakenAt(chains, a, t, k);
      chains := if rest == [] then chains - {a} else chains[a := rest];
    }

    method UnlinkClause(d: Depend, t: nat)
      requires !d.redundant ==> IndexOf(ChainAt(chains, d.addr), t) < |ChainAt(chains, d.addr)|
      modifies this`chains
      ensures chains == TaskDepend.UnlinkClause(old(chains), d, t)
    {
      if !d.redundant {
        UnlinkEntry(d.addr, t);
      }
    }

    /** gomp_task_run_post_handle_depend_hash. */
    method HandleDependHash(t: nat)
      requires t < |tasks| && DependOk(tasks[t]) && Present(chains, tasks[t].depend, t, 0)
      modifies this`chains
      ensures chains == UnlinkAll(old(chains), tasks[t].depend, t, 0)
    {
      var depend := tasks[t].depend;
      var i := 0;
      ghost var before := chains;
      while i < |depend|
        invariant 0 <= i <= |depend| && Present(chains, depend, t, i)
        invariant UnlinkAll(before, depend, t, 0) == UnlinkAll(chains, depend, t, i)
      {
        ghost var next := TaskDepend.UnlinkClause(chains, depend[i], t);
        assert PresentAt(chains, depend, t, i);
        PresentStep(chains, tasks[t], t, i);
        UnlinkAllStep(chains, depend, t, i);
        UnlinkClause(depend[i], t);
        assert chains == next;
        i := i + 1;
      }
    }

    /** gomp_task_run_post_handle_dependers, up to the freeing of the vector. */
    method HandleDependers(f: nat)
      requires f < |tasks|
      requires forall k :: 0 <= k < |tasks[f].dependers| ==> tasks[f].dependers[k] < |tasks|
      modifies this
      ensures State() == ReleaseAll(old(State()), old(tasks[f].dependers))
    {
      var xs := tasks[f].dependers;
      var i := 0;
      while i < |xs|
        invariant 0 <= i <= |xs| && |tasks| == |old(tasks)|
        invariant ReleaseAll(old(State()), xs) == ReleaseAll(State(), xs[i..])
      {
        var t := xs[i];
        assert xs[i..][0] == t && xs[i..][1..] == xs[i + 1..];
        ghost var before := State();
        tasks := tasks[t := tasks[t].(numDependees := tasks[t].numDependees - 1)];
        if tasks[t].numDependees == 0 {
          queue := queue + {t};
          taskCount := taskCount + 1;
          queuedCount := queuedCount + 1;
        }
        assert State() == Release(before, t);
        i := i + 1;
      }
    }

    /** gomp_task_run_post_handle_depend and the counters of its caller. */
    method CompleteTask(f: nat)
      requires f < |tasks| && DependOk(tasks[f]) && Present(chains, tasks[f].depend, f, 0)
      requires forall k :: 0 <= k < |tasks[f].dependers| ==> tasks[f].dependers[k] < |tasks|
      modifies this
      ensures State() == FinishTask(old(State()), f)
    {
      HandleDependHash(f);
      HandleDependers(f);
      tasks := tasks[f := tasks[f].(dependers := [], kind := Done)];
      runningCount := runningCount - 1;
      taskCount := taskCount - 1;
    }

    /** The part of gomp_barrier_handle_tasks after a task body returns. */
    method RunPost(f: nat)
      requires Valid() && f < |tasks| && tasks[f].kind == Tied
      modifies this
      ensures forall k :: 0 <= k < |old(tasks)[f].dependers| ==> old(tasks)[f].dependers[k] < |old(tasks)|
      ensures State() == FinishTask(old(State()), f)
      ensures Valid()
    {
      ghost var before := State();
      assert Inv(before);
      AllPresent(tasks, chains, f);
      FinishKeeps(before, f);
      assert Inv(FinishTask(before, f));
      CompleteTask(f);
    }

    /** A single thread in the loop of gomp_barrier_handle_tasks, running task
        bodies that create nothing: the barrier is released with every task done. */
    method BarrierHandleTasks()
      requires Valid() && runningCount == 0
      modifies this
      ensures Valid() && taskCount == 0
      ensures |tasks| == |old(tasks)| && forall t :: 0 <= t < |tasks| ==> tasks[t].kind == Done
    {
      while queue != {}
        invariant Valid() && runningCount == 0 && |tasks| == |old(tasks)|
        decreases Unfinished(tasks)
      {
        var child :| child in queue;
        ghost var before := State();
        RunOne(before, child);
        RunPre(child);
        RunPost(child);
      }
      TaskCountZero(State());
    }
  }

  lemma ActiveLenIs(chain: seq<Entry>, j: nat)
    requires j <= |chain| && (j < |chain| ==> chain[j].redundantOut)
    requires forall k :: 0 <= k < j ==> !chain[k].redundantOut
    ensures ActiveLen(chain) == j
  {
  }

  lemma AddEdgesStep(tasks: seq<Task>, t: nat, chain: seq<Entry>, isIn: bool, j: nat)
    requires t < |tasks| && InRange(chain, |tasks|) && j < |chain| && !chain[j].redundantOut
    ensures AddEdges(tasks, t, chain[j..], isIn)
      == AddEdges(AddEdge(tasks, t, chain[j], isIn), t, chain[j + 1..], isIn)
  {
    assert chain[j..][0] == chain[j] && chain[j..][1..] == chain[j + 1..];
  }

  lemma RunOne(s: Team, t: nat)
    requires Inv(s) && t in s.queue
    ensures t < |s.tasks| && StartTask(s, t).tasks[t].kind == Tied
    ensures var m := StartTask(s, t);
      && (forall k :: 0 <= k < |m.tasks[t].dependers| ==> m.tasks[t].dependers[k] < |m.tasks|)
      && var r := FinishTask(m, t);
         r.runningCount == s.runningCount && |r.tasks| == |s.tasks| && Unfinished(r.tasks) < Unfinished(s.tasks)
  {
    var m := StartTask(s, t);
    StartedOne(s, t);
    FinishTeam(m, t);
    FinishRunning(m, t);
    var r := FinishTask(m, t);
    assert Unfinished(r.tasks) == Unfinished(s.tasks) - {t};
    assert t in Unfinished(s.tasks);
  }

  lemma StartedOne(s: Team, t: nat)
    requires Inv(s) && t in s.queue
    ensures t < |s.tasks| && s.tasks[t].kind == Waiting
    ensures var m := StartTask(s, t);
      && Inv(m) && |m.tasks| == |s.tasks| && m.tasks[t].kind == Tied && m.runningCount == s.runningCount + 1
      && Unfinished(m.tasks) == Unfinished(s.tasks)
  {
    StartKeeps(s, t);
  }

  lemma FinishRunning(s: Team, f: nat)
    requires Inv(s) && f < |s.tasks| && s.tasks[f].kind == Tied
    ensures forall k :: 0 <= k < |s.tasks[f].dependers| ==> s.tasks[f].dependers[k] < |s.tasks|
    ensures FinishTask(s, f).runningCount == s.runningCount - 1
  {
    FinishTeam(s, f);
    assert Running(FinishTask(s, f).tasks) == Running(s.tasks) - {f};
    assert f in Running(s.tasks);
  }

  /** rest is the chain without its entry k, the first of task t. */
  ghost predicate TakenOut(chain: seq<Entry>, t: nat, k: int, rest: seq<Entry>) {
    && 0 <= k < |chain| && chain[k].task == t && (forall j :: 0 <= j < k ==> chain[j].task != t)
    && rest == chain[..k] + chain[k + 1..]
  }

  /** The chain at a has lost one entry of task t, the other chains are as they were,
      and no empty chain stays. */
  ghost predicate EntryTaken(before: Chains, after: Chains, a: Addr, t: nat) {
    && (exists k :: TakenOut(ChainAt(before, a), t, k, ChainAt(after, a)))
    && (a in after ==> after[a] != [])
    && (forall b :: b != a ==> (b in after <==> b in before) && ChainAt(after, b) == ChainAt(before, b))
  }

  lemma EntryTakenAt(chains: Chains, a: Addr, t: nat, k: nat)
    requires k == IndexOf(ChainAt(chains, a), t) && k < |ChainAt(chains, a)|
    ensures EntryTaken(chains, Unlink(chains, a, t), a, t)
  {
    assert TakenOut(ChainAt(chains, a), t, k, ChainAt(Unlink(chains, a, t), a));
  }

  /** The entries of the clauses from i on are still in their chains. */
  ghost predicate Present(chains: Chains, depend: seq<Depend>, t: nat, i: nat) {
    forall j :: i <= j ==> PresentAt(chains, depend, t, j)
  }

  ghost predicate PresentAt(chains: Chains, depend: seq<Depend>, t: nat, j: int) {
    0 <= j < |depend| && !depend[j].redundant ==>
      IndexOf(ChainAt(chains, depend[j].addr), t) < |ChainAt(chains, depend[j].addr)|
  }

  lemma PresentStep(chains: Chains, task: Task, t: nat, i: nat)
    requires DependOk(task) && i < |task.depend| && Present(chains, task.depend, t, i)
    ensures Present(UnlinkClause(chains, task.depend[i], t), task.depend, t, i + 1)
  {
    var next, k := UnlinkClause(chains, task.depend[i], t), i + 1;
    forall j | k <= j ensures PresentAt(next, task.depend, t, j) {
      assert PresentAt(chains, task.depend, t, j);
    }
  }

  lemma UnlinkAllStep(chains: Chains, depend: seq<Depend>, t: nat, i: nat)
    requires i < |depend|
    ensures UnlinkAll(chains, depend, t, i) == UnlinkAll(UnlinkClause(chains, depend[i], t), depend, t, i + 1)
  {
  }

  lemma AllPresent(tasks: seq<Task>, chains: Chains, t: nat)
    requires Core(tasks, chains) && t < |tasks| && tasks[t].kind != Done
    ensures DependOk(tasks[t]) && Present(chains, tasks[t].depend, t, 0)
  {
    assert DependOk(tasks[t]);
    forall i | 0 <= i
      ensures PresentAt(chains, tasks[t].depend, t, i)
    {
      if i < |tasks[t].depend| {
        var a := tasks[t].depend[i].addr;
        assert Names(tasks[t], a);
        assert HasEntry(ChainAt(chains, a), t);
      }
    }
  }
}
