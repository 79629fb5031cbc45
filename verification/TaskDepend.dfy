/** The task dependency engine of lib/libopenpop/task.c: chains of depend
    entries per address, the edges recorded when a task is created, and the
    release of dependers when a task finishes. Every operation below is one
    critical section under team->task_lock. */
module TaskDepend {

  type Addr = int

  /** One depend clause of a task; `redundant` marks a clause whose address an
      earlier clause of the same task already named. */
  datatype Depend = Depend(addr: Addr, isIn: bool, redundant: bool)

  /** Waiting covers both queued tasks and tasks blocked on dependencies. */
  datatype Kind = Waiting | Tied | Done

  datatype Task = Task(depend: seq<Depend>, numDependees: int, dependers: seq<nat>, kind: Kind)

  /** An element of a hash chain. Tasks are named by their creation number. */
  datatype Entry = Entry(task: nat, isIn: bool, redundantOut: bool)

  type Chains = map<Addr, seq<Entry>>

  datatype Team = Team(tasks: seq<Task>, chains: Chains, queue: set<nat>,
                       taskCount: int, queuedCount: int, runningCount: int)

  const INIT := Team([], map[], {}, 0, 0, 0)

  // ------------------------------------------------------------------
  // What the clauses of two tasks say about each other
  // ------------------------------------------------------------------

  ghost predicate Names(task: Task, a: Addr) {
    exists i :: 0 <= i < |task.depend| && task.depend[i].addr == a
  }

  ghost predicate NamesOut(task: Task, a: Addr) {
    exists i :: 0 <= i < |task.depend| && task.depend[i].addr == a && !task.depend[i].isIn
  }

  /** Two siblings conflict when they name one address and one of them names it out. */
  ghost predicate Conflict(x: Task, y: Task) {
    exists a :: Names(x, a) && Names(y, a) && (NamesOut(x, a) || NamesOut(y, a))
  }

  // ------------------------------------------------------------------
  // Chains
  // ------------------------------------------------------------------

  function ChainAt(chains: Chains, a: Addr): seq<Entry> {
    if a in chains then chains[a] else []
  }

  /** The position of the first redundant out, or the length of the chain. */
  function ActiveLen(chain: seq<Entry>): (n: nat)
    ensures n <= |chain|
    ensures forall k :: 0 <= k < n ==> !chain[k].redundantOut
    ensures n < |chain| ==> chain[n].redundantOut
  {
    if chain == [] || chain[0].redundantOut then 0 else 1 + ActiveLen(chain[1..])
  }

  /** The position of the last out among the first n entries, or -1. */
  function LastOut(chain: seq<Entry>, n: nat): (k: int)
    requires n <= |chain|
    ensures -1 <= k < n
    ensures k >= 0 ==> !chain[k].isIn
    ensures forall j :: k < j < n ==> chain[j].isIn
  {
    if n == 0 then -1 else if !chain[n - 1].isIn then n - 1 else LastOut(chain, n - 1)
  }

  /** The chain after a new head is pushed; an out moves the previous active
      out to the front of the redundant outs. */
  function Pushed(chain: seq<Entry>, e: Entry): seq<Entry> {
    var n := ActiveLen(chain);
    var k := LastOut(chain, n);
    if !e.isIn && k >= 0 then
      [e] + chain[..k] + chain[k + 1..n] + [chain[k].(redundantOut := true)] + chain[n..]
    else
      [e] + chain
  }

  ghost predicate InRange(chain: seq<Entry>, n: nat) {
    forall k :: 0 <= k < |chain| ==> chain[k].task < n
  }

  // ------------------------------------------------------------------
  // Creating a task
  // ------------------------------------------------------------------

  /** Record that task t waits for the task of entry e, unless both only read
      or the edge is already there. */
  function AddEdge(tasks: seq<Task>, t: nat, e: Entry, isIn: bool): (r: seq<Task>)
    requires t < |tasks| && e.task < |tasks|
    ensures |r| == |tasks|
  {
    var d := tasks[e.task].dependers;
    if isIn && e.isIn then tasks
    else if d != [] && d[|d| - 1] == t then tasks
    else
      var r := tasks[e.task := tasks[e.task].(dependers := d + [t])];
      r[t := r[t].(numDependees := r[t].numDependees + 1)]
  }

  function AddEdges(tasks: seq<Task>, t: nat, chain: seq<Entry>, isIn: bool): (r: seq<Task>)
    requires t < |tasks| && InRange(chain, |tasks|)
    ensures |r| == |tasks|
    decreases |chain|
  {
    if chain == [] || chain[0].redundantOut then tasks
    else AddEdges(AddEdge(tasks, t, chain[0], isIn), t, chain[1..], isIn)
  }

  function AddDepend(tasks: seq<Task>, t: nat, d: Depend): (r: seq<Task>)
    requires t < |tasks|
    ensures |r| == |tasks|
  {
    tasks[t := tasks[t].(depend := tasks[t].depend + [d])]
  }

  ghost predicate AllInRange(chains: Chains, n: nat) {
    forall a :: a in chains ==> InRange(chains[a], n)
  }

  /** One iteration of the loop over the depend clauses of task t. */
  function AddClause(tasks: seq<Task>, chains: Chains, t: nat, a: Addr, isIn: bool): (r: (seq<Task>, Chains))
    requires t < |tasks| && AllInRange(chains, |tasks|)
    ensures |r.0| == |tasks|
  {
    var chain := ChainAt(chains, a);
    if chain != [] && chain[0].task == t then
      (AddDepend(tasks, t, Depend(a, isIn, true)), chains)
    else
      (AddDepend(AddEdges(tasks, t, chain, isIn), t, Depend(a, isIn, false)),
       chains[a := Pushed(chain, Entry(t, isIn, false))])
  }

  lemma JoinedInRange(c: seq<Entry>, d: seq<Entry>, n: nat)
    requires InRange(c, n) && InRange(d, n)
    ensures InRange(c + d, n)
  {
  }

  lemma SlicesInRange(chain: seq<Entry>, k: nat, m: nat, n: nat)
    requires InRange(chain, n) && k < m <= |chain|
    ensures InRange(chain[..k], n) && InRange(chain[k + 1..m], n) && InRange(chain[m..], n)
    ensures chain[k].task < n
  {
  }

  lemma PushedInRange(chain: seq<Entry>, e: Entry, n: nat)
    requires InRange(chain, n) && e.task < n
    ensures InRange(Pushed(chain, e), n)
  {
    var m := ActiveLen(chain);
    var k := LastOut(chain, m);
    if !e.isIn && k >= 0 {
      var moved := chain[k].(redundantOut := true);
      var a, b, c := chain[..k], chain[k + 1..m], chain[m..];
      SlicesInRange(chain, k, m, n);
      JoinedInRange([e], a, n);
      JoinedInRange([e] + a, b, n);
      JoinedInRange([e] + a + b, [moved], n);
      JoinedInRange([e] + a + b + [moved], c, n);
    } else {
      JoinedInRange([e], chain, n);
    }
  }

  lemma ClauseInRange(tasks: seq<Task>, chains: Chains, t: nat, a: Addr, isIn: bool)
    requires t < |tasks| && AllInRange(chains, |tasks|)
    ensures AllInRange(AddClause(tasks, chains, t, a, isIn).1, |tasks|)
  {
    var chain, cs := ChainAt(chains, a), AddClause(tasks, chains, t, a, isIn).1;
    PushedInRange(chain, Entry(t, isIn, false), |tasks|);
    forall b | b in cs ensures InRange(cs[b], |tasks|) {
      if b != a { assert cs[b] == chains[b]; }
    }
  }

  /** The loop of gomp_task_handle_depend from clause i on: the first nout
      addresses are out (or inout), the others in. */
  function AddClauses(tasks: seq<Task>, chains: Chains, t: nat, addrs: seq<Addr>, nout: nat, i: nat)
    : (r: (seq<Task>, Chains))
    requires t < |tasks| && AllInRange(chains, |tasks|) && i <= |addrs|
    ensures |r.0| == |tasks| && AllInRange(r.1, |tasks|)
    decreases |addrs| - i
  {
    if i == |addrs| then (tasks, chains)
    else
      var (ts, cs) := AddClause(tasks, chains, t, addrs[i], i >= nout);
      ClauseInRange(tasks, chains, t, addrs[i], i >= nout);
      AddClauses(ts, cs, t, addrs, nout, i + 1)
  }

  const FRESH := Task([], 0, [], Waiting)

  function CreateTask(s: Team, addrs: seq<Addr>, nout: nat): Team
    requires AllInRange(s.chains, |s.tasks|)
  {
    var t := |s.tasks|;
    var (ts, cs) := AddClauses(s.tasks + [FRESH], s.chains, t, addrs, nout, 0);
    if ts[t].numDependees != 0 then s.(tasks := ts, chains := cs)
    else s.(tasks := ts, chains := cs, queue := s.queue + {t},
            taskCount := s.taskCount + 1, queuedCount := s.queuedCount + 1)
  }

  // ------------------------------------------------------------------
  // Starting and finishing a task
  // ------------------------------------------------------------------

  function StartTask(s: Team, t: nat): Team
    requires t < |s.tasks|
  {
    s.(tasks := s.tasks[t := s.tasks[t].(kind := Tied)], queue := s.queue - {t},
       queuedCount := s.queuedCount - 1, runningCount := s.runningCount + 1)
  }

  function IndexOf(chain: seq<Entry>, t: nat): (k: nat)
    ensures k <= |chain|
    ensures k < |chain| ==> chain[k].task == t
    ensures forall j :: 0 <= j < k ==> chain[j].task != t
  {
    if chain == [] || chain[0].task == t then 0 else 1 + IndexOf(chain[1..], t)
  }

  function Without(chain: seq<Entry>, t: nat): seq<Entry> {
    var k := IndexOf(chain, t);
    if k < |chain| then chain[..k] + chain[k + 1..] else chain
  }

  /** Unlink the entry of task t for one address; an emptied slot is cleared. */
  function Unlink(chains: Chains, a: Addr, t: nat): Chains {
    var rest := Without(ChainAt(chains, a), t);
    if rest == [] then chains - {a} else chains[a := rest]
  }

  function UnlinkClause(chains: Chains, d: Depend, t: nat): Chains {
    if d.redundant then chains else Unlink(chains, d.addr, t)
  }

  /** gomp_task_run_post_handle_depend_hash over the clauses from i on. */
  function UnlinkAll(chains: Chains, depend: seq<Depend>, t: nat, i: nat): Chains
    requires i <= |depend|
    decreases |depend| - i
  {
    if i == |depend| then chains
    else UnlinkAll(UnlinkClause(chains, depend[i], t), depend, t, i + 1)
  }

  /** One iteration of gomp_task_run_post_handle_dependers. */
  function Release(s: Team, t: nat): (r: Team)
    requires t < |s.tasks|
    ensures |r.tasks| == |s.tasks|
  {
    var n := s.tasks[t].numDependees - 1;
    var ts := s.tasks[t := s.tasks[t].(numDependees := n)];
    if n != 0 then s.(tasks := ts)
    else s.(tasks := ts, queue := s.queue + {t}, taskCount := s.taskCount + 1, queuedCount := s.queuedCount + 1)
  }

  function ReleaseAll(s: Team, xs: seq<nat>): (r: Team)
    requires forall k :: 0 <= k < |xs| ==> xs[k] < |s.tasks|
    ensures |r.tasks| == |s.tasks|
    decreases |xs|
  {
    if xs == [] then s else ReleaseAll(Release(s, xs[0]), xs[1..])
  }

  function FinishTask(s: Team, f: nat): Team
    requires f < |s.tasks|
    requires forall k :: 0 <= k < |s.tasks[f].dependers| ==> s.tasks[f].dependers[k] < |s.tasks|
  {
    var u := s.(chains := UnlinkAll(s.chains, s.tasks[f].depend, f, 0));
    var r := ReleaseAll(u, s.tasks[f].dependers);
    r.(tasks := r.tasks[f := r.tasks[f].(dependers := [], kind := Done)],
       runningCount := r.runningCount - 1, taskCount := r.taskCount - 1)
  }
}
