/** Two-level dynamic loops always end: every run of the threads of all nodes is
    finite, and no thread is kept out by the lock of its node for good. */
module HierarchyProgress {
  import opened Dispenser
  import opened FiniteSets
  import opened HierarchyLoop
  import opened Progress

  // ------------------------------------------------------------------
  // Every step brings the end nearer
  // ------------------------------------------------------------------

  ghost function Length(incr: int, n: Node): int {
    Up(incr, n.end) - Up(incr, n.next)
  }

  ghost function NodeWork(incr: int, nodes: seq<Node>): int {
    if nodes == [] then 0 else NodeWork(incr, nodes[..|nodes| - 1]) + Length(incr, nodes[|nodes| - 1])
  }

  /** The values still in the node shares and the global share. */
  ghost function Work(s: State): int {
    Up(s.global.incr, s.global.end) - Up(s.global.incr, Front(s.global)) + NodeWork(s.global.incr, s.nodes)
  }

  ghost function Going(threads: seq<Thread>): set<nat> {
    set t: nat | t < |threads| && !threads[t].phase.Out?
  }

  predicate IsPending(p: Phase, next: int) {
    p.Ready? || (p.Swapping? && p.start != next)
  }

  ghost function Pending(threads: seq<Thread>, next: int): set<nat> {
    set t: nat | t < |threads| && IsPending(threads[t].phase, next)
  }

  ghost function RankOf(s: State): nat {
    var w := Work(s);
    Rank(if w >= 0 then w else 0, |Going(s.threads)|, |Pending(s.threads, s.global.next)|, |s.threads|)
  }

  lemma CountsFit(s: State)
    ensures |Going(s.threads)| <= |s.threads| && |Pending(s.threads, s.global.next)| <= |s.threads|
  {
    SubsetSmaller(Going(s.threads), Below(|s.threads|));
    SubsetSmaller(Pending(s.threads, s.global.next), Below(|s.threads|));
  }

  lemma {:induction false} NodeWorkAfter(incr: int, nodes: seq<Node>, i: nat, n: Node)
    requires i < |nodes|
    ensures NodeWork(incr, nodes[i := n]) == NodeWork(incr, nodes) - Length(incr, nodes[i]) + Length(incr, n)
    decreases |nodes|
  {
    var k := |nodes| - 1;
    if i < k {
      NodeWorkAfter(incr, nodes[..k], i, n);
      assert nodes[i := n][..k] == nodes[..k][i := n];
    } else {
      assert nodes[i := n][..k] == nodes[..k];
    }
  }

  lemma {:induction false} NodeWorkFits(s: State, first: int, k: nat)
    requires k <= |s.nodes| && forall i :: NodeOk(s, first, i)
    ensures NodeWork(s.global.incr, s.nodes[..k]) >= 0
  {
    if k > 0 {
      NodeWorkFits(s, first, k - 1);
      assert NodeOk(s, first, k - 1) && s.nodes[..k][..k - 1] == s.nodes[..k - 1];
    }
  }

  lemma WorkFits(s: State, first: int, chunk: nat, most: nat)
    requires Inv(s, first, chunk, most)
    ensures Work(s) >= Up(s.global.incr, s.global.end) - Up(s.global.incr, Front(s.global)) >= 0
  {
    NodeWorkFits(s, first, |s.nodes|);
    assert s.nodes[..|s.nodes|] == s.nodes;
  }

  /** A thread has received false. */
  lemma OutDrops(s: State, t: nat, r: State)
    requires t < |s.threads| && !s.threads[t].phase.Out? && r.threads == s.threads[t := s.threads[t].(phase := Out)]
    requires Work(r) == Work(s)
    ensures RankOf(r) < RankOf(s)
  {
    assert Going(r.threads) == Going(s.threads) - {t} && t in Going(s.threads);
    CountsFit(r);
    var w := if Work(s) >= 0 then Work(s) else 0;
    RankDrops(w, |Going(s.threads)|, |Pending(s.threads, s.global.next)|,
              w, |Going(r.threads)|, |Pending(r.threads, r.global.next)|, |s.threads|);
  }

  /** A thread has loaded the counter, again or for the first time. */
  lemma PrepareDrops(s: State, t: nat, p: Phase, r: State)
    requires t < |s.threads| && IsPending(s.threads[t].phase, s.global.next) && p.Swapping? && p.start == s.global.next
    requires r.threads == s.threads[t := s.threads[t].(phase := p)] && r.global == s.global && Work(r) == Work(s)
    ensures RankOf(r) < RankOf(s)
  {
    assert Going(r.threads) == Going(s.threads);
    assert Pending(r.threads, r.global.next) == Pending(s.threads, s.global.next) - {t};
    assert t in Pending(s.threads, s.global.next);
    CountsFit(r);
    var w := if Work(s) >= 0 then Work(s) else 0;
    RankDrops(w, |Going(s.threads)|, |Pending(s.threads, s.global.next)|,
              w, |Going(r.threads)|, |Pending(r.threads, r.global.next)|, |s.threads|);
  }

  /** A block has been given. */
  lemma GivenDrops(s: State, r: State)
    requires Work(r) < Work(s) && Work(s) > 0 && |r.threads| == |s.threads|
    ensures RankOf(r) < RankOf(s)
  {
    CountsFit(r);
    RankDrops(Work(s), |Going(s.threads)|, |Pending(s.threads, s.global.next)|,
              if Work(r) >= 0 then Work(r) else 0, |Going(r.threads)|, |Pending(r.threads, r.global.next)|,
              |s.threads|);
  }

  /** The work in a state from which a block has been taken out of node i. */
  lemma TakenWork(s: State, first: int, t: nat)
    requires t < |s.threads| && s.threads[t].node < |s.nodes| && NodeOk(s, first, s.threads[t].node)
    requires s.global.incr != 0 && IsLong(s.global.chunkSize) && Up(s.global.incr, s.global.chunkSize) > 0
    requires s.nodes[s.threads[t].node].next != s.nodes[s.threads[t].node].end && !s.nodes[s.threads[t].node].locked
    ensures Work(TakeFrom(s, t, s.nodes[s.threads[t].node])) < Work(s)
  {
    var g, i := s.global, s.threads[t].node;
    var n := s.nodes[i];
    CutOk(g.incr, n.end, n.next, g.chunkSize, g.chunkSize);
    NodeWorkAfter(g.incr, s.nodes, i, TakeFrom(s, t, n).nodes[i]);
  }

  /** A refill moves work from the global share to a node. */
  lemma RefilledWork(s: State, t: nat, gnext: int, e: int)
    requires t < |s.threads| && s.threads[t].node < |s.nodes|
    requires s.nodes[s.threads[t].node].next == s.nodes[s.threads[t].node].end
    requires Front(s.global) == s.global.next && Front(s.global.(next := gnext)) == e
    ensures Work(Refilled(s, t, gnext, e)) == Work(s)
  {
    NodeWorkAfter(s.global.incr, s.nodes, s.threads[t].node, Refilled(s, t, gnext, e).nodes[s.threads[t].node]);
  }

  lemma CompletedWork(s: State, t: nat, gnext: int)
    requires t < |s.threads| && s.threads[t].node < |s.nodes|
    requires Front(s.global.(next := gnext)) == Front(s.global)
    ensures Work(Complete(s.(global := s.global.(next := gnext)), t)) == Work(s)
  {
    var i := s.threads[t].node;
    NodeWorkAfter(s.global.incr, s.nodes, i, s.nodes[i].(completed := true, locked := false));
  }

  lemma TakeDrops(s: State, first: int, chunk: nat, most: nat, t: nat)
    requires Inv(s, first, chunk, most) && t < |s.threads| && s.threads[t].node < |s.nodes|
    requires s.threads[t].phase.Ready? && !s.nodes[s.threads[t].node].locked
    requires s.nodes[s.threads[t].node].next != s.nodes[s.threads[t].node].end
    ensures RankOf(TakeFrom(s, t, s.nodes[s.threads[t].node])) < RankOf(s)
  {
    assert NodeOk(s, first, s.threads[t].node);
    TakenWork(s, first, t);
    TakeKeeps(s, first, chunk, most, t);
    WorkFits(TakeFrom(s, t, s.nodes[s.threads[t].node]), first, chunk, most);
    GivenDrops(s, TakeFrom(s, t, s.nodes[s.threads[t].node]));
  }

  lemma AddDrops(s: State, first: int, chunk: nat, most: nat, t: nat, r: State)
    requires Inv(s, first, chunk, most) && Step(s, Add(t), r) && Roomy(s, Add(t), most)
    ensures RankOf(r) < RankOf(s)
  {
    var gnext := s.global.next + NodeChunk(s.global, s.nodes[s.threads[t].node]);
    AddForward(s, first, chunk, most, s.threads[t].node);
    AddShape(s, t, r, gnext);
    if Up(s.global.incr, s.global.next) >= Up(s.global.incr, s.global.end) {
      AddOutDrops(s, t, gnext);
    } else {
      AddTakeDrops(s, first, chunk, most, t);
    }
  }

  lemma AddOutDrops(s: State, t: nat, gnext: int)
    requires t < |s.threads| && s.threads[t].node < |s.nodes| && s.threads[t].phase.Ready?
    requires Up(s.global.incr, s.global.end) <= Up(s.global.incr, s.global.next) < Up(s.global.incr, gnext)
    ensures RankOf(Complete(s.(global := s.global.(next := gnext)), t)) < RankOf(s)
  {
    CompletedWork(s, t, gnext);
    OutDrops(s, t, Complete(s.(global := s.global.(next := gnext)), t));
  }

  lemma AddTakeDrops(s: State, first: int, chunk: nat, most: nat, t: nat)
    requires Inv(s, first, chunk, most) && t < |s.threads| && s.threads[t].node < |s.nodes| && s.threads[t].phase.Ready?
    requires s.global.mode && Up(s.global.incr, s.global.next) < Up(s.global.incr, s.global.end)
    requires var n := s.nodes[s.threads[t].node]; n.next == n.end && !n.completed && !n.locked
    ensures var n := s.nodes[s.threads[t].node]; var gnext := s.global.next + NodeChunk(s.global, n);
      var e := if Up(s.global.incr, gnext) > Up(s.global.incr, s.global.end) then s.global.end else gnext;
      RankOf(TakeFrom(s.(global := s.global.(next := gnext)), t, n.(next := s.global.next, end := e))) < RankOf(s)
  {
    var g := s.global;
    var gnext := g.next + NodeChunk(g, s.nodes[s.threads[t].node]);
    var e := if Up(g.incr, gnext) > Up(g.incr, g.end) then g.end else gnext;
    AddRefills(s, first, chunk, most, t);
    assert NodeOk(Refilled(s, t, gnext, e), first, s.threads[t].node);
    WorkFits(s, first, chunk, most);
    RefillDrops(s, first, t, gnext, e);
  }

  lemma AddForward(s: State, first: int, chunk: nat, most: nat, i: nat)
    requires Inv(s, first, chunk, most) && s.global.mode && i < |s.nodes| && !s.nodes[i].completed
    requires Up(s.global.incr, s.global.next) < Up(s.global.incr, s.global.end) || AddHasRoom(s, most, i)
    ensures var g := s.global;
      && IsLong(g.next + NodeChunk(g, s.nodes[i]))
      && Up(g.incr, g.next) < Up(g.incr, g.next + NodeChunk(g, s.nodes[i]))
  {
    assert NodeOk(s, first, i);
    AddFits(s, first, chunk, most, i);
    NodeChunkUp(s.global, s.nodes[i]);
  }

  /** Refilling a node and taking a block from it. */
  lemma RefillDrops(s: State, first: int, t: nat, gnext: int, e: int)
    requires t < |s.threads| && s.threads[t].node < |s.nodes|
      && NodeOk(Refilled(s, t, gnext, e), first, s.threads[t].node)
    requires s.global.incr != 0 && IsLong(s.global.chunkSize) && Up(s.global.incr, s.global.chunkSize) > 0
    requires s.nodes[s.threads[t].node].next == s.nodes[s.threads[t].node].end && s.global.next != e && Work(s) > 0
    requires Front(s.global) == s.global.next && Front(s.global.(next := gnext)) == e
    ensures RankOf(TakeFrom(s.(global := s.global.(next := gnext)), t,
      s.nodes[s.threads[t].node].(next := s.global.next, end := e)))
      < RankOf(s)
  {
    var m := Refilled(s, t, gnext, e);
    RefilledWork(s, t, gnext, e);
    TakenWork(m, first, t);
    TakeAfterRefill(s, t, gnext, e);
    GivenDrops(s, TakeFrom(m, t, m.nodes[s.threads[t].node]));
  }

  /** A successful exchange. */
  lemma SwapTakeDrops(s: State, first: int, chunk: nat, most: nat, t: nat, c: int)
    requires Inv(s, first, chunk, most) && t < |s.threads| && s.threads[t].node < |s.nodes|
    requires s.threads[t].phase == Swapping(s.global.next, c) && s.global.next != s.global.end
    ensures RankOf(Swapped(s, t)) < RankOf(s)
  {
    var e := Wrap(s.global.next + Cut(s.global.incr, s.global.end, s.global.next, c));
    SwapFacts(s, first, chunk, most, t, c, e);
    RefillDrops(s, first, t, e, e);
  }

  lemma SwapFacts(s: State, first: int, chunk: nat, most: nat, t: nat, c: int, e: int)
    requires Inv(s, first, chunk, most) && t < |s.threads| && s.threads[t].node < |s.nodes|
    requires s.threads[t].phase == Swapping(s.global.next, c) && s.global.next != s.global.end
    requires e == Wrap(s.global.next + Cut(s.global.incr, s.global.end, s.global.next, c))
    ensures var g, i := s.global, s.threads[t].node;
      && NodeOk(Refilled(s, t, e, e), first, i) && Work(s) > 0 && s.nodes[i].next == s.nodes[i].end && g.next != e
      && g.incr != 0 && IsLong(g.chunkSize) && Up(g.incr, g.chunkSize) > 0
      && Front(g) == g.next && Front(g.(next := e)) == e
  {
    assert ThreadOk(s, first, t) && NodeOk(s, first, s.threads[t].node);
    SwapRefills(s, first, chunk, most, t, c);
    assert NodeOk(Refilled(s, t, e, e), first, s.threads[t].node);
    assert GlobalOk(s, first, chunk, most) && GlobalOk(Refilled(s, t, e, e), first, chunk, most);
    WorkFits(s, first, chunk, most);
  }

  lemma SwapDrops(s: State, first: int, chunk: nat, most: nat, t: nat)
    requires Inv(s, first, chunk, most) && t < |s.threads| && s.threads[t].node < |s.nodes|
    requires s.threads[t].phase.Swapping?
    ensures RankOf(Swapped(s, t)) < RankOf(s)
  {
    var g, i := s.global, s.threads[t].node;
    var Swapping(start, c) := s.threads[t].phase;
    assert ThreadOk(s, first, t) && NodeOk(s, first, i);
    if start == g.end {
      CompletedWork(s, t, g.next);
      OutDrops(s, t, Complete(s, t));
    } else if g.next == start {
      SwapTakeDrops(s, first, chunk, most, t, c);
    } else {
      PrepareDrops(s, t, Swapping(g.next, Cut(g.incr, g.end, start, c)), Swapped(s, t));
    }
  }

  lemma StepDrops(s: State, first: int, chunk: nat, most: nat, e: Event, r: State)
    requires Inv(s, first, chunk, most) && Step(s, e, r) && Roomy(s, e, most)
    ensures RankOf(r) < RankOf(s)
  {
    var t := e.t;
    var i := s.threads[t].node;
    match e {
      case TakeLocal(_) => TakeDrops(s, first, chunk, most, t);
      case Refuse(_) => OutDrops(s, t, r);
      case Add(_) => AddDrops(s, first, chunk, most, t, r);
      case LoadGlobal(_) =>
        NodeWorkAfter(s.global.incr, s.nodes, i, s.nodes[i].(locked := true));
        PrepareDrops(s, t, Swapping(s.global.next, NodeChunk(s.global, s.nodes[i])), r);
      case Swap(_) => SwapDrops(s, first, chunk, most, t);
    }
  }

  // ------------------------------------------------------------------
  // Whole runs
  // ------------------------------------------------------------------

  /** Beyond the end it does not matter how far the counter has gone. */
  lemma EndRank(s: State, first: int, chunk: nat, most: nat)
    requires Inv(s, first, chunk, most) && s.global.mode
    requires Up(s.global.incr, s.global.end) <= Up(s.global.incr, s.global.next)
    ensures RankOf(AtEnd(s)) == RankOf(s)
  {
    forall t: nat | t < |s.threads| ensures !s.threads[t].phase.Swapping? { assert ThreadOk(s, first, t); }
    assert Pending(s.threads, s.global.end) == Pending(s.threads, s.global.next);
  }

  lemma SeenDrops(s: State, first: int, chunk: nat, most: nat, e: Event, r: State)
    requires Safe(s, first, chunk, most) && Step(s, e, r)
    ensures RankOf(Seen(r, first, chunk, most)) < RankOf(Seen(s, first, chunk, most))
  {
    if Over(s, first, chunk, most) {
      OverDrops(s, first, chunk, most, e, r);
    } else if Roomy(s, e, most) {
      StepDrops(s, first, chunk, most, e, r);
      StepKeeps(s, first, chunk, most, e, r);
      if Over(r, first, chunk, most) {
        var i := s.threads[e.t].node;
        assert |r.nodes| == |s.nodes| && NodeOk(r, first, i) && r.nodes[i].completed;
        EndRank(r, first, chunk, most);
      }
    } else {
      LastDrops(s, first, chunk, most, e.t, r);
    }
  }

  lemma OverDrops(s: State, first: int, chunk: nat, most: nat, e: Event, r: State)
    requires Over(s, first, chunk, most) && Step(s, e, r)
    ensures Over(r, first, chunk, most) && RankOf(AtEnd(r)) < RankOf(AtEnd(s))
  {
    var q := AtEnd(s);
    OverKeeps(s, first, chunk, most, e, r);
    assert NodeOk(q, first, s.threads[e.t].node) && ThreadOk(q, first, e.t);
    assert Step(q, e, AtEnd(r));
    StepDrops(q, first, chunk, most, e, AtEnd(r));
  }

  lemma LastDrops(s: State, first: int, chunk: nat, most: nat, t: nat, r: State)
    requires Inv(s, first, chunk, most) && Step(s, Add(t), r) && !Roomy(s, Add(t), most)
    ensures Over(r, first, chunk, most) && RankOf(AtEnd(r)) < RankOf(s)
  {
    LastAdd(s, first, chunk, most, t, r);
    EndRank(s, first, chunk, most);
    var q := AtEnd(s);
    CompletedWork(q, t, q.global.next);
    OutDrops(q, t, AtEnd(r));
  }

  /** No run goes on for ever, however its steps interleave. */
  lemma {:induction false} RunEnds(ss: seq<State>, es: seq<Event>, first: int, chunk: nat, most: nat, i: nat)
    requires Run(ss, es, first, chunk, most) && i <= |es|
    ensures i + RankOf(Seen(ss[i], first, chunk, most)) <= RankOf(Seen(ss[0], first, chunk, most))
  {
    if i > 0 {
      RunEnds(ss, es, first, chunk, most, i - 1);
      RunSafe(ss, es, first, chunk, most, i - 1);
      assert Step(ss[i - 1], es[i - 1], ss[i]);
      SeenDrops(ss[i - 1], first, chunk, most, es[i - 1], ss[i]);
    }
  }

  // ------------------------------------------------------------------
  // The lock of a node
  // ------------------------------------------------------------------

  ghost predicate Holds(s: State, i: nat, t: int) {
    0 <= t < |s.threads| && s.threads[t].node == i && s.threads[t].phase.Swapping?
  }

  /** A locked node is locked by a thread in its compare-and-swap loop. */
  ghost predicate LockOk(s: State, i: nat) {
    i < |s.nodes| && s.nodes[i].locked ==> exists t :: Holds(s, i, t)
  }

  lemma LocksKept(s: State, e: Event, r: State, i: nat)
    requires Step(s, e, r) && LockOk(s, i)
    ensures LockOk(r, i)
  {
    var j := s.threads[e.t].node;
    if i < |r.nodes| && r.nodes[i].locked {
      if i == j {
        assert Holds(r, i, e.t);
      } else {
        var t :| Holds(s, i, t);
        assert Holds(r, i, t);
      }
    }
  }

  lemma {:induction false} LocksInRun(ss: seq<State>, es: seq<Event>, first: int, chunk: nat, k: nat, i: nat)
    requires Execution(ss, es, first, chunk) && k <= |es|
    ensures LockOk(ss[k], i)
  {
    if k > 0 {
      LocksInRun(ss, es, first, chunk, k - 1, i);
      assert Step(ss[k - 1], es[k - 1], ss[k]);
      LocksKept(ss[k - 1], es[k - 1], ss[k], i);
    }
  }

  lemma StepOf(s: State, t: nat) returns (e: Event, r: State)
    requires t < |s.threads| && s.threads[t].node < |s.nodes| && !s.threads[t].phase.Out?
    requires s.threads[t].phase.Ready? ==> !s.nodes[s.threads[t].node].locked
    ensures e.t == t && Step(s, e, r)
  {
    var g, i := s.global, s.threads[t].node;
    var n := s.nodes[i];
    if s.threads[t].phase.Swapping? {
      e, r := Swap(t), Swapped(s, t);
    } else if n.next != n.end {
      e, r := TakeLocal(t), TakeFrom(s, t, n);
    } else if n.completed {
      e, r := Refuse(t), SetPhase(s, t, Out);
    } else if g.mode {
      e := Add(t);
      var nend := Wrap(g.next + NodeChunk(g, n));
      var m := s.(global := g.(next := nend));
      r := if Up(g.incr, g.next) >= Up(g.incr, g.end) then Complete(m, t)
           else TakeFrom(m, t, n.(next := g.next, end := if Up(g.incr, nend) > Up(g.incr, g.end) then g.end else nend));
    } else {
      e := LoadGlobal(t);
      r := SetPhase(s, t, Swapping(g.next, NodeChunk(g, n))).(nodes := s.nodes[i := n.(locked := true)]);
    }
  }

  /** A thread that has not received false can go on, or the thread that holds the lock
      of its node can; so a run that cannot be continued has given every thread false. */
  lemma CanGoOn(ss: seq<State>, es: seq<Event>, first: int, chunk: nat, most: nat, t: nat) returns (e: Event, r: State)
    requires Run(ss, es, first, chunk, most) && t < |ss[|es|].threads| && !ss[|es|].threads[t].phase.Out?
    ensures Run(ss + [r], es + [e], first, chunk, most)
    ensures e.t == t || Holds(ss[|es|], ss[|es|].threads[t].node, e.t)
  {
    var s := ss[|es|];
    RunSafe(ss, es, first, chunk, most, |es|);
    SeenInv(s, first, chunk, most);
    var i := s.threads[t].node;
    assert ThreadOk(Seen(s, first, chunk, most), first, t);
    if s.threads[t].phase.Ready? && s.nodes[i].locked {
      LocksInRun(ss, es, first, chunk, |es|, i);
      assert LockOk(s, i);
      var u: nat :| Holds(s, i, u);
      e, r := StepOf(s, u);
    } else {
      e, r := StepOf(s, t);
    }
    Longer(ss, es, first, chunk, e, r);
  }
}
