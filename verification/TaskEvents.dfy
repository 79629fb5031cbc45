/** The dependency engine seen from outside: what the events of a run say about each
    other, whatever the engine keeps in its state. */
module TaskEvents {
  import opened TaskDepend
  import opened TaskInvariant
  import opened TaskCreate
  import opened TaskFinish
  import opened TaskRuns

  /** How many of the first i events create a task; a task has this number when it
      is created by event i. */
  function Number(es: seq<Event>, i: nat): nat
    requires i <= |es|
  {
    if i == 0 then 0 else Number(es, i - 1) + if es[i - 1].Create? then 1 else 0
  }

  ghost predicate Within(es: seq<Event>, i: nat, e: Event)
    requires i <= |es|
  {
    exists j: nat :: j < i && es[j] == e
  }

  ghost predicate StartedIn(es: seq<Event>, i: nat, t: nat)
    requires i <= |es|
  {
    Within(es, i, Start(t))
  }

  ghost predicate FinishedIn(es: seq<Event>, i: nat, t: nat)
    requires i <= |es|
  {
    Within(es, i, Finish(t))
  }

  /** Two calls name one address, and one of them names it out. */
  ghost predicate Share(e: Event, f: Event)
    requires e.Create? && f.Create?
  {
    exists i, j :: SharedAt(e, f, i, j)
  }

  ghost predicate SharedAt(e: Event, f: Event, i: int, j: int)
    requires e.Create? && f.Create?
  {
    0 <= i < |e.addrs| && 0 <= j < |f.addrs| && e.addrs[i] == f.addrs[j] && (i < e.nout || j < f.nout)
  }

  // ------------------------------------------------------------------
  // The clauses of the tasks
  // ------------------------------------------------------------------

  ghost predicate HasClauses(task: Task, e: Event)
    requires e.Create?
  {
    ClausesAre(task, e.addrs, e.nout, |e.addrs|)
  }

  lemma NamesIff(task: Task, e: Event, a: Addr)
    requires e.Create? && HasClauses(task, e)
    ensures Names(task, a) <==> exists i :: 0 <= i < |e.addrs| && e.addrs[i] == a
    ensures NamesOut(task, a) <==> exists i :: 0 <= i < |e.addrs| && i < e.nout && e.addrs[i] == a
  {
    assert forall i :: 0 <= i < |e.addrs| ==>
      task.depend[i].addr == e.addrs[i] && (task.depend[i].isIn <==> i >= e.nout);
    if i :| 0 <= i < |e.addrs| && e.addrs[i] == a { assert task.depend[i].addr == a; }
    if i :| 0 <= i < |e.addrs| && i < e.nout && e.addrs[i] == a { assert task.depend[i].addr == a; }
  }

  lemma ConflictIff(x: Task, y: Task, e: Event, f: Event)
    requires e.Create? && f.Create? && HasClauses(x, e) && HasClauses(y, f)
    ensures Conflict(x, y) <==> Share(e, f)
  {
    if Conflict(x, y) {
      var a :| Names(x, a) && Names(y, a) && (NamesOut(x, a) || NamesOut(y, a));
      NamesIff(x, e, a);
      NamesIff(y, f, a);
      var i :| 0 <= i < |e.addrs| && e.addrs[i] == a && (NamesOut(x, a) ==> i < e.nout);
      var j :| 0 <= j < |f.addrs| && f.addrs[j] == a && (NamesOut(y, a) ==> j < f.nout);
      assert SharedAt(e, f, i, j);
    }
    if Share(e, f) {
      var i, j :| SharedAt(e, f, i, j);
      NamesIff(x, e, e.addrs[i]);
      NamesIff(y, f, e.addrs[i]);
    }
  }

  // ------------------------------------------------------------------
  // The state after the first events
  // ------------------------------------------------------------------

  /** The kind of a task tells which of its events have come. */
  ghost predicate KindIs(es: seq<Event>, i: nat, tasks: seq<Task>, t: nat)
    requires i <= |es| && t < |tasks|
  {
    && (tasks[t].kind == Waiting <==> !StartedIn(es, i, t))
    && (tasks[t].kind == Done <==> FinishedIn(es, i, t))
  }

  lemma WithinNext(es: seq<Event>, i: nat, e: Event)
    requires i < |es|
    ensures Within(es, i + 1, e) <==> Within(es, i, e) || es[i] == e
  {
    if es[i] == e { assert es[i] == e; }
  }

  function KindAfter(kind: Kind, e: Event, x: nat): Kind {
    if e == Start(x) then Tied else if e == Finish(x) then Done else kind
  }

  /** The kinds after one event. */
  ghost predicate KindsFollow(tasks: seq<Task>, e: Event, r: seq<Task>) {
    && |r| == |tasks| + (if e.Create? then 1 else 0)
    && (e.Create? ==> r[|tasks|].kind == Waiting)
    && (e.Start? ==> e.t < |tasks| && tasks[e.t].kind == Waiting)
    && (e.Finish? ==> e.t < |tasks| && tasks[e.t].kind == Tied)
    && forall x {:trigger r[x]} :: 0 <= x < |tasks| ==> r[x].kind == KindAfter(tasks[x].kind, e, x)
  }

  lemma NextKinds(s: Team, e: Event, r: Team)
    requires Inv(s) && Next(s, e, r)
    ensures KindsFollow(s.tasks, e, r.tasks)
  {
    match e {
      case Create(addrs, nout) => CreateKinds(s, addrs, nout);
      case Start(t) => StartKeeps(s, t);
      case Finish(t) => FinishKinds(s, t);
    }
  }

  /** A task is entered with the clauses of its call, and no event changes clauses. */
  ghost predicate ClausesFollow(tasks: seq<Task>, e: Event, r: seq<Task>) {
    && |r| >= |tasks|
    && (forall x {:trigger r[x]} :: 0 <= x < |tasks| ==> r[x].depend == tasks[x].depend)
    && (e.Create? ==> |r| == |tasks| + 1 && HasClauses(r[|tasks|], e))
  }

  lemma StepClauses(ss: seq<Team>, es: seq<Event>, i: nat)
    requires Run(ss, es) && i < |es|
    ensures ClausesFollow(ss[i].tasks, es[i], ss[i + 1].tasks)
  {
    RunInv(ss, es, i);
    assert NextAt(ss, es, i);
    NextClauses(ss[i], es[i], ss[i + 1]);
  }

  lemma NextClauses(s: Team, e: Event, r: Team)
    requires Inv(s) && Next(s, e, r)
    ensures ClausesFollow(s.tasks, e, r.tasks)
  {
    match e {
      case Create(addrs, nout) => CreateKeeps(s, addrs, nout);
      case Start(t) => StartKeeps(s, t);
      case Finish(t) => FinishKeeps(s, t);
    }
  }

  lemma {:induction false} KindsAre(ss: seq<Team>, es: seq<Event>, i: nat)
    requires Run(ss, es) && i <= |es|
    ensures |ss[i].tasks| == Number(es, i)
    ensures forall t: nat :: t < |ss[i].tasks| ==> KindIs(es, i, ss[i].tasks, t)
    ensures forall t: nat :: StartedIn(es, i, t) || FinishedIn(es, i, t) ==> t < |ss[i].tasks|
  {
    if i > 0 {
      KindsAre(ss, es, i - 1);
      StepKinds(ss, es, i - 1);
      forall t: nat
        ensures t < |ss[i].tasks| ==> KindIs(es, i, ss[i].tasks, t)
        ensures StartedIn(es, i, t) || FinishedIn(es, i, t) ==> t < |ss[i].tasks|
      {
        if t < |ss[i - 1].tasks| { assert KindIs(es, i - 1, ss[i - 1].tasks, t); }
        KindNext(es, i - 1, ss[i - 1].tasks, ss[i].tasks, t);
      }
    }
  }

  lemma StepKinds(ss: seq<Team>, es: seq<Event>, i: nat)
    requires Run(ss, es) && i < |es|
    ensures KindsFollow(ss[i].tasks, es[i], ss[i + 1].tasks)
  {
    RunInv(ss, es, i);
    assert NextAt(ss, es, i);
    NextKinds(ss[i], es[i], ss[i + 1]);
  }

  lemma KindNext(es: seq<Event>, i: nat, tasks: seq<Task>, r: seq<Task>, t: nat)
    requires i < |es| && KindsFollow(tasks, es[i], r)
    requires t < |tasks| ==> KindIs(es, i, tasks, t)
    requires StartedIn(es, i, t) || FinishedIn(es, i, t) ==> t < |tasks|
    ensures t < |r| ==> KindIs(es, i + 1, r, t)
    ensures StartedIn(es, i + 1, t) || FinishedIn(es, i + 1, t) ==> t < |r|
  {
    WithinNext(es, i, Start(t));
    WithinNext(es, i, Finish(t));
  }

  /** A task has the clauses of its call for ever. */
  lemma {:induction false} ClausesStay(ss: seq<Team>, es: seq<Event>, p: nat, i: nat)
    requires Run(ss, es) && p < i <= |es| && es[p].Create?
    ensures Number(es, p) < |ss[i].tasks| && HasClauses(ss[i].tasks[Number(es, p)], es[p])
    decreases i
  {
    KindsAre(ss, es, p);
    StepClauses(ss, es, i - 1);
    if p < i - 1 { ClausesStay(ss, es, p, i - 1); }
  }

  lemma {:induction false} NumbersGrow(es: seq<Event>, p: nat, q: nat)
    requires p < q <= |es| && es[p].Create?
    ensures Number(es, p) < Number(es, q)
    decreases q
  {
    if p < q - 1 { NumbersGrow(es, p, q - 1); }
  }

  lemma {:induction false} Creator(es: seq<Event>, q: nat, x: nat) returns (p: nat)
    requires q <= |es| && x < Number(es, q)
    ensures p < q && es[p].Create? && Number(es, p) == x
  {
    if es[q - 1].Create? && Number(es, q - 1) == x { p := q - 1; } else { p := Creator(es, q - 1, x); }
  }

  // ------------------------------------------------------------------
  // The promises of the depend clauses
  // ------------------------------------------------------------------

  /** A task that has been created and not started can start if and only if every task
      created before it whose call shares an address with its own, one of them naming it
      out, has finished. */
  lemma StartsIff(ss: seq<Team>, es: seq<Event>, q: nat, i: nat)
    requires Run(ss, es) && q < i <= |es| && es[q].Create? && !StartedIn(es, i, Number(es, q))
    ensures (exists r :: Next(ss[i], Start(Number(es, q)), r)) <==>
      forall p: nat :: p < q && es[p].Create? && Share(es[p], es[q]) ==> FinishedIn(es, i, Number(es, p))
  {
    var s, t := ss[i], Number(es, q);
    RunInv(ss, es, i);
    KindsAre(ss, es, i);
    ClausesStay(ss, es, q, i);
    assert KindIs(es, i, s.tasks, t);
    QueuedIff(s, t);
    QueuedByEvents(ss, es, q, i);
    if t in s.queue { assert Next(s, Start(t), StartTask(s, t)); }
  }

  lemma QueuedByEvents(ss: seq<Team>, es: seq<Event>, q: nat, i: nat)
    requires Run(ss, es) && q < i <= |es| && es[q].Create?
    ensures Number(es, q) < |ss[i].tasks|
    ensures (forall x: nat :: x < Number(es, q) && Conflict(ss[i].tasks[x], ss[i].tasks[Number(es, q)])
               ==> ss[i].tasks[x].kind == Done) <==>
      forall p: nat :: p < q && es[p].Create? && Share(es[p], es[q]) ==> FinishedIn(es, i, Number(es, p))
  {
    var tasks, t := ss[i].tasks, Number(es, q);
    KindsAre(ss, es, i);
    ClausesStay(ss, es, q, i);
    forall p: nat | p < q && es[p].Create?
      ensures Number(es, p) < t && (Share(es[p], es[q]) <==> Conflict(tasks[Number(es, p)], tasks[t]))
      ensures tasks[Number(es, p)].kind == Done <==> FinishedIn(es, i, Number(es, p))
    {
      NumbersGrow(es, p, q);
      ClausesStay(ss, es, p, i);
      ConflictIff(tasks[Number(es, p)], tasks[t], es[p], es[q]);
      assert KindIs(es, i, tasks, Number(es, p));
    }
    if forall p: nat :: p < q && es[p].Create? && Share(es[p], es[q]) ==> FinishedIn(es, i, Number(es, p)) {
      forall x: nat | x < t && Conflict(tasks[x], tasks[t])
        ensures tasks[x].kind == Done
      {
        var p := Creator(es, q, x);
      }
    }
  }

  /** In every run, a task starts only after every task created before it has finished
      whose call shares an address with its own, one of the two naming it out. */
  lemma ConflictsSerialized(ss: seq<Team>, es: seq<Event>, p: nat, q: nat, i: nat) returns (j: nat)
    requires Run(ss, es) && p < q < |es| && es[p].Create? && es[q].Create? && Share(es[p], es[q])
    requires i < |es| && es[i] == Start(Number(es, q))
    ensures q < i && j < i && es[j] == Finish(Number(es, p))
  {
    var t := Number(es, q);
    KindsAre(ss, es, i);
    StepKinds(ss, es, i);
    assert NextAt(ss, es, i);
    if i <= q { NumbersLast(es, i, q); }
    assert KindIs(es, i, ss[i].tasks, t);
    StartsIff(ss, es, q, i);
    j :| 0 <= j < i && es[j] == Finish(Number(es, p));
  }

  lemma {:induction false} NumbersLast(es: seq<Event>, i: nat, q: nat)
    requires i <= q <= |es|
    ensures Number(es, i) <= Number(es, q)
    decreases q
  {
    if i < q { NumbersLast(es, i, q - 1); }
  }
}
