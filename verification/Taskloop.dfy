/** How GOMP_taskloop in lib/libopenpop/taskloop.c divides a loop into tasks. */
module Taskloop {
  import opened Arithmetic
  import opened StaticSchedule

  /** The clause of the construct; NumTasks(0) stands for no clause at all. */
  datatype Clause = Grainsize(size: nat) | NumTasks(count: nat)

  /** The values the splitting loop starts from. */
  datatype Plan = Plan(numTasks: nat, taskStep: int, nfirst: int)

  // ------------------------------------------------------------------
  // The division
  // ------------------------------------------------------------------

  /** Whether the plan makes numTasks tasks of q iterations, the first t one longer. */
  ghost predicate Makes(p: Plan, n: nat, step: int, q: nat, t: nat) {
    && p.numTasks > 0 && Start(q, t, p.numTasks) == n && t < p.numTasks
    && (if t > 0 then p.taskStep == Times(q + 1, step) && p.nfirst == t - 1
        else p.taskStep == Times(q, step) && p.nfirst >= p.numTasks)
  }

  lemma DividedEvenly(n: nat, k: nat)
    requires 0 < k <= n
    ensures Start(n / k, n % k, k) == n && n / k >= 1
  {
    StartOfAll(n, k);
    QuotientIff(n, k, n / k);
    if n / k < 1 { TimesMonotone(n / k + 1, 1, k); }
  }

  /** The common case: numTasks tasks of nearly equal size. */
  method Divide(n: nat, numTasks: nat, step: int) returns (p: Plan)
    requires 0 < numTasks <= n
    ensures p.numTasks == numTasks && Makes(p, n, step, n / numTasks, n % numTasks)
  {
    DividedEvenly(n, numTasks);
    var div, mod := n / numTasks, n % numTasks;
    var taskStep, nfirst := Times(div, step), n;
    if mod != 0 {
      TimesAdds(div, 1, step);
      taskStep := taskStep + step;
      nfirst := mod - 1;
    }
    p := Plan(numTasks, taskStep, nfirst);
  }

  /** The tasks of a plan for the grainsize clause have at least min(g, n) and fewer
      than 2g iterations. */
  ghost predicate GrainOk(n: nat, g: nat, q: nat, t: nat) {
    && (g <= n ==> q >= g) && (n < g ==> q == n)
    && q + (if t > 0 then 1 else 0) < 2 * g
  }

  lemma BelowTwice(n: nat, g: nat, k: nat, q: nat)
    requires k >= 2 && g >= 2 && q * k <= n < (k + 1) * g
    ensures q + 1 < 2 * g
  {
    if q + 1 >= 2 * g {
      TimesMonotone(2 * g - 1, q, k);
      assert (2 * g - 1) * k == k * g + k * (g - 1) by {
        TimesAdds(g, g - 1, k);
      }
      assert (k + 1) * g == k * g + g;
      TimesMonotone(2, k, g - 1);
    }
  }

  lemma AtLeastGrain(n: nat, g: nat, k: nat, q: nat)
    requires k >= 1 && k * g <= n < (q + 1) * k
    ensures q >= g && n >= g && (g >= 1 ==> n >= k)
  {
    if q < g { TimesMonotone(q + 1, g, k); }
    TimesMonotone(1, k, g);
    if g >= 1 { TimesMonotone(1, g, k); }
  }

  lemma FewTasks(n: nat, g: nat, k: nat, q: nat, t: nat)
    requires 2 <= k < g && k * g <= n < (k + 1) * g && q * k <= n < (q + 1) * k
    ensures GrainOk(n, g, q, t) && k <= n
  {
    BelowTwice(n, g, k, q);
    AtLeastGrain(n, g, k, q);
  }

  lemma ManyTasks(n: nat, g: nat, k: nat)
    requires g > 0 && k == n / g && k >= 2 && k >= g
    ensures Start(g, n - k * g, k) == n && n - k * g < g && GrainOk(n, g, g, n - k * g)
  {
    QuotientIff(n, g, k);
    TimesAdds(k, 1, g);
    TimesMonotone(1, k, g);
    StartIs(g, n - k * g, k);
    if g == 1 { assert k * g == k; }
  }

  lemma OneTask(n: nat, g: nat)
    requires n > 0 && g > 0 && n / g <= 1
    ensures Start(n, 0, 1) == n && GrainOk(n, g, n, 0)
  {
    QuotientIff(n, g, n / g);
    TimesMonotone(n / g + 1, 2, g);
    if n / g == 0 { assert n < g; }
  }

  /** The choice of num_tasks, task_step and nfirst for the grainsize clause; `whole`
      says that one task takes the loop with its own end. A grainsize must be
      positive, or the source divides by zero. */
  method ChooseGrain(ws: Loop, g: nat) returns (p: Plan, whole: bool, ghost q: nat, ghost t: nat)
    requires LoopOk(ws) && Count(ws) > 0 && g > 0
    ensures if whole then p == Plan(1, ws.end - ws.next, Count(ws)) && q == Count(ws) && t == 0
      else Makes(p, Count(ws), ws.incr, q, t)
    ensures Start(q, t, p.numTasks) == Count(ws) && p.numTasks > 0 && GrainOk(Count(ws), g, q, t)
    ensures p.numTasks == if Count(ws) < 2 * g then 1 else Count(ws) / g
  {
    var n, step := Count(ws), ws.incr;
    var numTasks := n / g;
    whole := false;
    QuotientIff(n, g, 1);
    if numTasks <= 1 {
      OneTask(n, g);
      p, whole, q, t := Plan(1, ws.end - ws.next, n), true, n, 0;
    } else if numTasks >= g {
      p, q, t := ManyGrains(n, g, numTasks, step);
    } else {
      p, q, t := FewGrains(n, g, numTasks, step);
    }
    if !whole { assert Makes(p, n, step, q, t); }
  }

  /** Fewer tasks than the grainsize, as equal as they can be. */
  method FewGrains(n: nat, g: nat, numTasks: nat, step: int) returns (p: Plan, ghost q: nat, ghost t: nat)
    requires g > 0 && numTasks == n / g && 2 <= numTasks < g
    ensures p.numTasks == numTasks && Makes(p, n, step, q, t) && GrainOk(n, g, q, t)
  {
    QuotientIff(n, g, numTasks);
    QuotientIff(n, numTasks, n / numTasks);
    FewTasks(n, g, numTasks, n / numTasks, n % numTasks);
    p := Divide(n, numTasks, step);
    q, t := n / numTasks, n % numTasks;
  }

  /** Tasks of exactly the grainsize, with the rest spread over the first of them. */
  method ManyGrains(n: nat, g: nat, numTasks: nat, step: int) returns (p: Plan, ghost q: nat, ghost t: nat)
    requires g > 0 && numTasks == n / g && numTasks >= 2 && numTasks >= g
    ensures p.numTasks == numTasks && Makes(p, n, step, q, t) && GrainOk(n, g, q, t)
  {
    ManyTasks(n, g, numTasks);
    var mul := Times(numTasks, g);
    var taskStep, nfirst := Times(g, step), n;
    if mul != n {
      TimesAdds(g, 1, step);
      taskStep := taskStep + step;
      nfirst := n - mul - 1;
    }
    TimesMonotone(1, g, numTasks);
    p, q, t := Plan(numTasks, taskStep, nfirst), g, n - mul;
  }

  /** The same choice for the num_tasks clause, or for none. */
  method ChooseCount(ws: Loop, k: nat, nthreads: nat) returns (p: Plan, ghost q: nat, ghost t: nat)
    requires LoopOk(ws) && Count(ws) > 0 && nthreads > 0
    ensures Makes(p, Count(ws), ws.incr, q, t) && q > 0
    ensures p.numTasks == Wanted(k, nthreads, Count(ws)) && NearlyEqual(q, t, p.numTasks)
  {
    var n := Count(ws);
    var numTasks := k;
    if numTasks == 0 {
      numTasks := nthreads;
    }
    if numTasks >= n {
      DividedEvenly(n, n);
      RemainderIs(n, n, 1, 0);
      p, q, t := Plan(n, ws.incr, n), 1, 0;
    } else {
      DividedEvenly(n, numTasks);
      p := Divide(n, numTasks, ws.incr);
      q, t := n / numTasks, n % numTasks;
    }
    SizesNearlyEqual(q, t, p.numTasks);
  }

  ghost function Size(q: nat, t: nat, k: nat): int {
    Start(q, t, k + 1) - Start(q, t, k)
  }

  /** The sizes of the first n tasks differ by at most one. */
  ghost predicate NearlyEqual(q: nat, t: nat, n: nat) {
    forall i: nat, j: nat :: i < n && j < n ==> Size(q, t, i) <= Size(q, t, j) + 1
  }

  lemma TaskSize(q: nat, t: nat, k: nat)
    ensures Size(q, t, k) == if k < t then q + 1 else q
  {
  }

  lemma SizesNearlyEqual(q: nat, t: nat, n: nat)
    ensures NearlyEqual(q, t, n)
  {
    forall i: nat, j: nat | i < n && j < n ensures Size(q, t, i) <= Size(q, t, j) + 1 {
      TaskSize(q, t, i);
      TaskSize(q, t, j);
    }
  }

  /** As many tasks as asked for, or else as threads, but no more than iterations. */
  function Wanted(k: nat, nthreads: nat, n: nat): nat {
    var w := if k == 0 then nthreads else k;
    if w < n then w else n
  }

  // ------------------------------------------------------------------
  // The tasks
  // ------------------------------------------------------------------

  /** Task k has the iterations from a to b; its end may be that of the loop. */
  ghost predicate TaskIs(ws: Loop, task: (int, int), a: nat, b: nat)
    requires LoopOk(ws)
  {
    task.0 == At(ws, a) && (task.1 == At(ws, b) || (b == Count(ws) && task.1 == ws.end))
  }

  lemma NextStart(ws: Loop, q: nat, t: nat, i: nat)
    ensures At(ws, Start(q, t, i + 1)) == At(ws, Start(q, t, i)) + Times(if i < t then q + 1 else q, ws.incr)
    ensures Times(q + 1, ws.incr) == Times(q, ws.incr) + ws.incr
  {
    TimesAdds(Start(q, t, i), if i < t then q + 1 else q, ws.incr);
    TimesAdds(q, 1, ws.incr);
  }

  /** The splitting loop: each task starts where the one before it ended. */
  method Split(ws: Loop, p: Plan, ghost q: nat, ghost t: nat) returns (tasks: seq<(int, int)>)
    requires LoopOk(ws) && Makes(p, Count(ws), ws.incr, q, t)
    ensures |tasks| == p.numTasks
    ensures forall k: nat :: k < |tasks| ==> TaskIs(ws, tasks[k], Start(q, t, k), Start(q, t, k + 1))
  {
    tasks := [];
    var start, taskStep, i := ws.next, p.taskStep, 0;
    while i < p.numTasks
      invariant 0 <= i <= p.numTasks && |tasks| == i && start == At(ws, Start(q, t, i))
      invariant taskStep == Times(if i < t then q + 1 else q, ws.incr)
      invariant forall k: nat :: k < i ==> TaskIs(ws, tasks[k], Start(q, t, k), Start(q, t, k + 1))
    {
      NextStart(ws, q, t, i);
      var end := start + taskStep;
      tasks := tasks + [(start, end)];
      start := end;
      if i == p.nfirst {
        taskStep := taskStep - ws.incr;
      }
      i := i + 1;
    }
  }

  /** Consecutive tasks that make up n iterations. */
  ghost predicate Covers(ws: Loop, tasks: seq<(int, int)>, q: nat, t: nat)
    requires LoopOk(ws)
  {
    && Start(q, t, |tasks|) == Count(ws)
    && forall k: nat :: k < |tasks| ==> TaskIs(ws, tasks[k], Start(q, t, k), Start(q, t, k + 1))
  }

  /** The tasks GOMP_taskloop creates: they run the iterations of the loop in order and
      once each, in sizes as the clause asks. */
  method CreateTasks(start: int, end: int, step: int, clause: Clause, nthreads: nat)
    returns (tasks: seq<(int, int)>, ghost ws: Loop, ghost q: nat, ghost t: nat)
    requires step != 0 && nthreads > 0 && (clause.Grainsize? ==> clause.size > 0)
    ensures LoopOk(ws) && ws.next == start && ws.incr == step && (tasks != [] ==> ws.end == end)
    ensures tasks == [] <==> if step > 0 then start >= end else start <= end
    ensures tasks == [] ==> Count(ws) == 0
    ensures Covers(ws, tasks, q, t)
    ensures tasks != [] ==> match clause
      case Grainsize(g) =>
        GrainOk(Count(ws), g, q, t) && |tasks| == if Count(ws) < 2 * g then 1 else Count(ws) / g
      case NumTasks(k) => q > 0 && |tasks| == Wanted(k, nthreads, Count(ws)) && NearlyEqual(q, t, |tasks|)
  {
    if (step > 0 && start >= end) || (step < 0 && start <= end) {
      ws, q, t := Loop(start, start, step, 0), 0, 0;
      CountIff(ws, 0);
      return [], ws, q, t;
    }
    var loop := Loop(start, end, step, 0);
    CountIff(loop, 0);
    ws := loop;
    var p, whole;
    match clause {
      case Grainsize(g) =>
        p, whole, q, t := ChooseGrain(loop, g);
      case NumTasks(k) =>
        whole := false;
        p, q, t := ChooseCount(loop, k, nthreads);
    }
    if whole {
      tasks := [(start, start + p.taskStep)];
    } else {
      tasks := Split(loop, p, q, t);
    }
  }

  /** Every iteration is run by exactly one task. */
  lemma EveryIterationOnce(ws: Loop, tasks: seq<(int, int)>, q: nat, t: nat, x: nat) returns (k: nat)
    requires LoopOk(ws) && Covers(ws, tasks, q, t)
    ensures x < Count(ws) ==> k < |tasks| && Start(q, t, k) <= x < Start(q, t, k + 1)
    ensures forall j: nat :: j < |tasks| && Start(q, t, j) <= x < Start(q, t, j + 1) ==> x < Count(ws) && j == k
  {
    k := 0;
    while k < |tasks| && Start(q, t, k + 1) <= x
      invariant k <= |tasks| && Start(q, t, k) <= x
    {
      k := k + 1;
    }
    forall j: nat | j < |tasks| && Start(q, t, j) <= x < Start(q, t, j + 1)
      ensures x < Count(ws) && j == k
    {
      StartMonotone(q, t, j + 1, |tasks|);
      OneTaskHas(q, t, j, k, x);
    }
  }

  lemma OneTaskHas(q: nat, t: nat, j: nat, k: nat, x: nat)
    requires Start(q, t, j) <= x < Start(q, t, j + 1)
    requires Start(q, t, k) <= x
    ensures j >= k && (x < Start(q, t, k + 1) ==> j == k)
  {
    if j < k { StartMonotone(q, t, j + 1, k); } else if k < j { StartMonotone(q, t, k + 1, j); }
  }
}
