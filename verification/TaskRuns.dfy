/** Safety of the dependency engine over every run. */
module TaskRuns {
  import opened TaskDepend
  import opened TaskInvariant
  import opened TaskCreate
  import opened TaskFinish

  datatype Event = Create(addrs: seq<Addr>, nout: nat) | Start(t: nat) | Finish(t: nat)

  /** One critical section: a sibling is created, a queued task is picked by any
      thread, or a running task completes. */
  ghost predicate Next(s: Team, e: Event, r: Team) {
    match e
    case Create(addrs, nout) => nout <= |addrs| && AllInRange(s.chains, |s.tasks|) && r == CreateTask(s, addrs, nout)
    case Start(t) => t < |s.tasks| && t in s.queue && r == StartTask(s, t)
    case Finish(t) =>
      && t < |s.tasks| && s.tasks[t].kind == Tied
      && (forall k :: 0 <= k < |s.tasks[t].dependers| ==> s.tasks[t].dependers[k] < |s.tasks|)
      && r == FinishTask(s, t)
  }

  ghost predicate NextAt(ss: seq<Team>, es: seq<Event>, i: nat)
    requires i < |es| < |ss|
  {
    Next(ss[i], es[i], ss[i + 1])
  }

  ghost predicate Run(ss: seq<Team>, es: seq<Event>) {
    && |ss| == |es| + 1 && ss[0] == INIT
    && forall i: nat :: i < |es| ==> NextAt(ss, es, i)
  }

  lemma InitInv()
    ensures Inv(INIT)
  {
    assert Ready(INIT.tasks) == {} && Running(INIT.tasks) == {};
    assert forall x: nat :: Deps(INIT.tasks, x) == {};
  }

  lemma NextInv(s: Team, e: Event, r: Team)
    requires Inv(s) && Next(s, e, r)
    ensures Inv(r)
  {
    match e {
      case Create(addrs, nout) => CreateKeeps(s, addrs, nout);
      case Start(t) => StartKeeps(s, t);
      case Finish(t) => FinishKeeps(s, t);
    }
  }

  /** Only Finish(x) makes task x done. */
  lemma NextDone(s: Team, e: Event, r: Team, x: nat)
    requires Inv(s) && Next(s, e, r)
    requires x < |r.tasks| && r.tasks[x].kind == Done
    ensures e == Finish(x) || (x < |s.tasks| && s.tasks[x].kind == Done)
  {
    match e {
      case Create(addrs, nout) => CreateKinds(s, addrs, nout);
      case Start(t) =>
      case Finish(t) => FinishKinds(s, t);
    }
  }

  lemma CreateKinds(s: Team, addrs: seq<Addr>, nout: nat)
    requires Inv(s)
    ensures AllInRange(s.chains, |s.tasks|)
    ensures var ts := CreateTask(s, addrs, nout).tasks;
      && |ts| == |s.tasks| + 1 && ts[|s.tasks|].kind == Waiting
      && forall x {:trigger ts[x]} :: 0 <= x < |s.tasks| ==> ts[x].kind == s.tasks[x].kind
  {
    CreateKeeps(s, addrs, nout);
  }

  lemma FinishKinds(s: Team, t: nat)
    requires Inv(s) && t < |s.tasks| && s.tasks[t].kind == Tied
    requires forall k :: 0 <= k < |s.tasks[t].dependers| ==> s.tasks[t].dependers[k] < |s.tasks|
    ensures var ts := FinishTask(s, t).tasks;
      |ts| == |s.tasks| && ts[t].kind == Done
      && forall x {:trigger ts[x]} :: 0 <= x < |ts| && x != t ==> ts[x].kind == s.tasks[x].kind
  {
    FinishTeam(s, t);
  }

  lemma StepInv(ss: seq<Team>, es: seq<Event>, i: nat)
    requires Run(ss, es) && i < |es| && Inv(ss[i])
    ensures Inv(ss[i + 1])
  {
    assert NextAt(ss, es, i);
    NextInv(ss[i], es[i], ss[i + 1]);
  }

  lemma {:induction false} RunInv(ss: seq<Team>, es: seq<Event>, i: nat)
    requires Run(ss, es) && i <= |es|
    ensures Inv(ss[i])
  {
    if i == 0 {
      InitInv();
    } else {
      RunInv(ss, es, i - 1);
      StepInv(ss, es, i - 1);
    }
  }

  lemma StepDone(ss: seq<Team>, es: seq<Event>, i: nat, x: nat)
    requires Run(ss, es) && i < |es|
    requires x < |ss[i + 1].tasks| && ss[i + 1].tasks[x].kind == Done
    ensures es[i] == Finish(x) || (x < |ss[i].tasks| && ss[i].tasks[x].kind == Done)
  {
    RunInv(ss, es, i);
    assert NextAt(ss, es, i);
    NextDone(ss[i], es[i], ss[i + 1], x);
  }

  lemma {:induction false} DoneWasFinished(ss: seq<Team>, es: seq<Event>, i: nat, x: nat) returns (j: nat)
    requires Run(ss, es) && i <= |es|
    requires x < |ss[i].tasks| && ss[i].tasks[x].kind == Done
    ensures j < i && es[j] == Finish(x)
  {
    StepDone(ss, es, i - 1, x);
    if es[i - 1] == Finish(x) {
      j := i - 1;
    } else {
      j := DoneWasFinished(ss, es, i - 1, x);
    }
  }

  // ------------------------------------------------------------------
  // Blocked exactly while a conflicting earlier sibling is unfinished
  // ------------------------------------------------------------------

  /** A task that has not started is queued if and only if every earlier sibling
      it conflicts with has finished, although only the entries before the first
      redundant out gave it edges. */
  lemma QueuedIff(s: Team, t: nat)
    requires Inv(s) && t < |s.tasks| && s.tasks[t].kind == Waiting
    ensures t in s.queue <==> forall x: nat :: x < t && Conflict(s.tasks[x], s.tasks[t]) ==> s.tasks[x].kind == Done
  {
    assert CountOk(s.tasks, t);
    if t in s.queue {
      assert Deps(s.tasks, t) == {};
      forall x: nat | x < t && Conflict(s.tasks[x], s.tasks[t])
        ensures s.tasks[x].kind == Done
      {
        assert s.tasks[x].kind != Done ==> Reach(s.tasks, t, x);
      }
    } else {
      assert Deps(s.tasks, t) != {};
      var x :| x in Deps(s.tasks, t);
      assert EdgeOk(s.tasks, x);
      assert x < t && Conflict(s.tasks[x], s.tasks[t]) && s.tasks[x].kind != Done;
    }
  }

  /** A task starts only after every earlier sibling it conflicts with has finished. */
  lemma StartsAfter(ss: seq<Team>, es: seq<Event>, i: nat, t: nat, x: nat) returns (j: nat)
    requires Run(ss, es) && i < |es| && es[i] == Start(t)
    requires t < |ss[i].tasks| && x < t && Conflict(ss[i].tasks[x], ss[i].tasks[t])
    ensures j < i && es[j] == Finish(x)
  {
    RunInv(ss, es, i);
    assert NextAt(ss, es, i);
    QueuedIff(ss[i], t);
    j := DoneWasFinished(ss, es, i, x);
  }

  // ------------------------------------------------------------------
  // The barrier
  // ------------------------------------------------------------------

  /** Some unfinished task is queued or running whenever any is unfinished. */
  lemma {:induction false} SomeUnblocked(s: Team, t: nat) returns (u: nat)
    requires Inv(s) && t < |s.tasks| && s.tasks[t].kind != Done
    ensures u in Ready(s.tasks) || u in Running(s.tasks)
    ensures s.taskCount > 0
    decreases t
  {
    assert CountOk(s.tasks, t);
    if s.tasks[t].kind == Waiting && s.tasks[t].numDependees != 0 {
      assert Deps(s.tasks, t) != {};
      var x :| x in Deps(s.tasks, t);
      assert EdgeOk(s.tasks, x);
      u := SomeUnblocked(s, x);
    } else {
      u := t;
    }
  }

  /** Blocked tasks are never counted, yet task_count is 0 exactly when every
      created task has finished. */
  lemma TaskCountZero(s: Team)
    requires Inv(s)
    ensures s.taskCount == 0 <==> forall t :: 0 <= t < |s.tasks| ==> s.tasks[t].kind == Done
  {
    if s.taskCount == 0 {
      forall t | 0 <= t < |s.tasks|
        ensures s.tasks[t].kind == Done
      {
        if s.tasks[t].kind != Done {
          var u := SomeUnblocked(s, t);
        }
      }
    } else if forall t :: 0 <= t < |s.tasks| ==> s.tasks[t].kind == Done {
      assert Ready(s.tasks) == {} && Running(s.tasks) == {};
    }
  }

  /** No run gets stuck: while a task is unfinished, a step other than creation is possible. */
  lemma NeverStuck(ss: seq<Team>, es: seq<Event>, t: nat) returns (e: Event, r: Team)
    requires Run(ss, es) && t < |ss[|es|].tasks| && ss[|es|].tasks[t].kind != Done
    ensures !e.Create? && Run(ss + [r], es + [e])
  {
    var s := ss[|es|];
    RunInv(ss, es, |es|);
    var u := SomeUnblocked(s, t);
    if u in Ready(s.tasks) {
      e, r := Start(u), StartTask(s, u);
    } else {
      FinishKeeps(s, u);
      e, r := Finish(u), FinishTask(s, u);
    }
    RunExtended(ss, es, e, r);
  }

  // ------------------------------------------------------------------
  // Progress without further creation
  // ------------------------------------------------------------------

  ghost function Unstarted(tasks: seq<Task>): set<nat> {
    set t: nat | t < |tasks| && tasks[t].kind == Waiting
  }

  ghost function Unfinished(tasks: seq<Task>): set<nat> {
    set t: nat | t < |tasks| && tasks[t].kind != Done
  }

  /** The starts and finishes that are still to come. */
  ghost function StepsLeft(tasks: seq<Task>): nat {
    |Unstarted(tasks)| + |Unfinished(tasks)|
  }

  lemma StepCounts(s: Team, e: Event, r: Team)
    requires Inv(s) && Next(s, e, r) && !e.Create?
    ensures StepsLeft(r.tasks) == StepsLeft(s.tasks) - 1
  {
    match e {
      case Start(t) => StartCounts(s.tasks, r.tasks, t);
      case Finish(t) =>
        FinishKinds(s, t);
        FinishCounts(s.tasks, r.tasks, t);
    }
  }

  lemma StartCounts(tasks: seq<Task>, r: seq<Task>, t: nat)
    requires t < |tasks| && tasks[t].kind == Waiting && r == tasks[t := tasks[t].(kind := Tied)]
    ensures StepsLeft(r) == StepsLeft(tasks) - 1
  {
    assert Unstarted(r) == Unstarted(tasks) - {t} && t in Unstarted(tasks);
    assert Unfinished(r) == Unfinished(tasks);
  }

  lemma FinishCounts(tasks: seq<Task>, r: seq<Task>, t: nat)
    requires t < |tasks| == |r| && tasks[t].kind == Tied && r[t].kind == Done
    requires forall x {:trigger r[x]} :: 0 <= x < |r| && x != t ==> r[x].kind == tasks[x].kind
    ensures StepsLeft(r) == StepsLeft(tasks) - 1
  {
    assert Unstarted(r) == Unstarted(tasks);
    assert Unfinished(r) == Unfinished(tasks) - {t} && t in Unfinished(tasks);
  }

  /** Whatever threads run the tasks: from the last creation on, every step is one of
      the starts and finishes left then, so with NeverStuck all tasks get done. */
  lemma {:induction false} StepsBounded(ss: seq<Team>, es: seq<Event>, i: nat, j: nat)
    requires Run(ss, es) && i <= j <= |es|
    requires forall k :: i <= k < j ==> !es[k].Create?
    ensures j - i == StepsLeft(ss[i].tasks) - StepsLeft(ss[j].tasks)
    ensures StepsLeft(ss[j].tasks) == 0 <==> forall t :: 0 <= t < |ss[j].tasks| ==> ss[j].tasks[t].kind == Done
    decreases j - i
  {
    NoneLeft(ss[j].tasks);
    if i < j {
      StepsBounded(ss, es, i, j - 1);
      RunInv(ss, es, j - 1);
      assert NextAt(ss, es, j - 1);
      StepCounts(ss[j - 1], es[j - 1], ss[j]);
    }
  }

  lemma NoneLeft(tasks: seq<Task>)
    ensures StepsLeft(tasks) == 0 <==> forall t :: 0 <= t < |tasks| ==> tasks[t].kind == Done
  {
    if forall t :: 0 <= t < |tasks| ==> tasks[t].kind == Done {
      assert Unstarted(tasks) == {} && Unfinished(tasks) == {};
    } else {
      var t: nat :| t < |tasks| && tasks[t].kind != Done;
      assert t in Unfinished(tasks);
    }
  }

  lemma RunExtended(ss: seq<Team>, es: seq<Event>, e: Event, r: Team)
    requires Run(ss, es) && Next(ss[|es|], e, r)
    ensures Run(ss + [r], es + [e])
  {
    forall i: nat | i < |es + [e]|
      ensures NextAt(ss + [r], es + [e], i)
    {
      if i < |es| { assert NextAt(ss, es, i); }
    }
  }
}
