/** Exactly when the global counter of the two-level dynamic schedule of
    lib/libopenpop/hierarchy.c never wraps. */
module HierarchyRoom {
  import opened Arithmetic
  import opened Dispenser
  import opened HierarchyLoop

  ghost function Most(nodes: seq<Node>): (m: nat)
    ensures forall i :: 0 <= i < |nodes| ==> nodes[i].threads <= m
    ensures nodes != [] ==> exists i :: 0 <= i < |nodes| && nodes[i].threads == m
  {
    if nodes == [] then 0
    else
      var k := |nodes| - 1;
      var m := Most(nodes[..k]);
      assert forall i :: 0 <= i < k ==> nodes[..k][i] == nodes[i];
      if nodes[k].threads > m then nodes[k].threads else m
  }

  /** Thread t is about to add to the global counter. */
  ghost predicate AddsNext(s: State, t: nat) {
    && t < |s.threads| && s.threads[t].node < |s.nodes| && s.threads[t].phase.Ready? && s.global.mode
    && var n := s.nodes[s.threads[t].node];
    n.next == n.end && !n.completed && !n.locked
  }

  /** The sum that thread t is about to store does not fit a long. */
  ghost predicate Wraps(s: State, t: nat) {
    AddsNext(s, t) && !IsLong(s.global.next + NodeChunk(s.global, s.nodes[s.threads[t].node]))
  }

  /** The loop and the teams of all nodes, apart from where the loop starts. */
  ghost predicate SameLoop(s: State, g: Share, nodes: seq<Node>) {
    && s.global == g.(next := s.global.next) && |s.nodes| == |nodes|
    && forall i {:trigger s.nodes[i]} :: 0 <= i < |nodes| ==> s.nodes[i].threads == nodes[i].threads
  }

  /** In no run of the loop, wherever it starts, does an addition wrap. */
  ghost predicate NeverWraps(g: Share, nodes: seq<Node>, chunk: nat) {
    forall ss: seq<State>, es: seq<Event>, first: int, t: nat ::
      Execution(ss, es, first, chunk) && SameLoop(ss[0], g, nodes) ==> !Wraps(ss[|es|], t)
  }

  lemma {:induction false} SameCounts(a: seq<Node>, b: seq<Node>)
    requires |a| == |b| && forall i {:trigger a[i]} :: 0 <= i < |a| ==> a[i].threads == b[i].threads
    ensures AllThreads(a) == AllThreads(b)
    decreases |a|
  {
    if a != [] { SameCounts(a[..|a| - 1], b[..|b| - 1]); }
  }

  lemma RoomSuffices(g: Share, nodes: seq<Node>, chunk: nat, ss: seq<State>, es: seq<Event>, first: int, t: nat)
    requires g.mode && RoomForNodes(g, nodes, Most(nodes))
    requires Execution(ss, es, first, chunk) && SameLoop(ss[0], g, nodes)
    ensures !Wraps(ss[|es|], t)
  {
    var s, most := ss[|es|], Most(nodes);
    RoomInRun(g, nodes, chunk, ss, es, first);
    if AddsNext(s, t) {
      RunSafe(ss, es, first, chunk, most, |es|);
      RoomForAll(s, first, chunk, most, s.threads[t].node);
      AddFits(s, first, chunk, most, s.threads[t].node);
    }
  }

  lemma RoomInRun(g: Share, nodes: seq<Node>, chunk: nat, ss: seq<State>, es: seq<Event>, first: int)
    requires g.mode && RoomForNodes(g, nodes, Most(nodes))
    requires Execution(ss, es, first, chunk) && SameLoop(ss[0], g, nodes)
    ensures Run(ss, es, first, chunk, Most(nodes))
    ensures ss[|es|].global.mode && HasRoom(ss[|es|].global, Most(nodes) + AllThreads(ss[|es|].nodes))
  {
    var most := Most(nodes);
    SameCounts(ss[0].nodes, nodes);
    SignedTimes(chunk, g.incr);
    TimesMonotone(1, chunk, Abs(g.incr));
    RoomForFewer(ss[0].global, ss[0].nodes, most);
    LoopStaysInRun(ss, es, first, chunk, |es|);
  }

  /** The loop and the teams stay as they are. */
  lemma {:induction false} LoopStaysInRun(ss: seq<State>, es: seq<Event>, first: int, chunk: nat, i: nat)
    requires Execution(ss, es, first, chunk) && i <= |es|
    ensures ss[i].global == ss[0].global.(next := ss[i].global.next)
      && AllThreads(ss[i].nodes) == AllThreads(ss[0].nodes)
  {
    if i > 0 {
      LoopStaysInRun(ss, es, first, chunk, i - 1);
      assert Step(ss[i - 1], es[i - 1], ss[i]);
      LoopStays(ss[i - 1], es[i - 1], ss[i]);
    }
  }

  lemma RoomForFewer(g: Share, nodes: seq<Node>, most: nat)
    requires RoomForNodes(g, nodes, most) && Up(g.incr, g.chunkSize) > 0
    ensures RoomButOne(g, nodes, most)
  {
    forall i | 0 <= i < |nodes| ensures HasRoom(g, most + AllThreads(nodes) - nodes[i].threads) {
      TimesMonotone(most + AllThreads(nodes) - nodes[i].threads, most + AllThreads(nodes), Up(g.incr, g.chunkSize));
    }
  }

  /** No step changes the loop or the teams of the nodes. */
  lemma LoopStays(s: State, e: Event, r: State)
    requires Step(s, e, r)
    ensures r.global == s.global.(next := r.global.next) && AllThreads(r.nodes) == AllThreads(s.nodes)
  {
    var i := s.threads[e.t].node;
    assert |r.nodes| == |s.nodes| && r.nodes == s.nodes[i := r.nodes[i]];
    ThreadsAfter(s.nodes, i, r.nodes[i]);
  }

  // ------------------------------------------------------------------
  // A run that takes all the room there is
  // ------------------------------------------------------------------

  /** The k-th node when node z is left out; nothing is left out if there is no node z. */
  function Nth(z: nat, k: nat): nat {
    if k < z then k else k + 1
  }

  /** Node i is one of the first k. */
  predicate Among(z: nat, k: nat, i: int) {
    i != z && (if i < z then i < k else i <= k)
  }

  function Others(z: nat, n: nat): nat {
    if z < n then n - 1 else n
  }

  function Spared(z: nat, nodes: seq<Node>): nat {
    if z < |nodes| then nodes[z].threads else 0
  }

  /** The first k nodes have added to the counter beyond the end, after a refill that
      overshot it by most blocks. */
  ghost predicate CounterBeyond(g: Share, nodes: seq<Node>, most: nat, z: nat, k: nat) {
    && g.mode && g.incr != 0 && k <= Others(z, |nodes|) && most > 0 && Up(g.incr, g.chunkSize) > 0 && IsLong(g.next)
    && Up(g.incr, g.next) == Up(g.incr, g.end) - 1 + Times(most + CompletedThreads(nodes), Up(g.incr, g.chunkSize))
    && (forall i {:trigger nodes[i]} :: 0 <= i < |nodes| ==>
          nodes[i].next == nodes[i].end && !nodes[i].locked && (nodes[i].completed <==> Among(z, k, i)))
  }

  /** The threads of the other nodes, one for each, are ready. */
  ghost predicate ReadyBut(threads: seq<Thread>, z: nat, k: nat) {
    forall i: nat {:trigger threads[i]} :: i < |threads| && !Among(z, k, i) ==> threads[i] == Thread(i, Ready)
  }

  lemma {:induction false} CompletedBut(nodes: seq<Node>, z: nat)
    requires forall i {:trigger nodes[i]} :: 0 <= i < |nodes| ==> (nodes[i].completed <==> i != z)
    ensures CompletedThreads(nodes) + Spared(z, nodes) == AllThreads(nodes)
    decreases |nodes|
  {
    if nodes != [] { CompletedBut(nodes[..|nodes| - 1], z); }
  }

  lemma {:induction false} NoneCompleted(nodes: seq<Node>)
    requires forall i {:trigger nodes[i]} :: 0 <= i < |nodes| ==> !nodes[i].completed
    ensures CompletedThreads(nodes) == 0
    decreases |nodes|
  {
    if nodes != [] { NoneCompleted(nodes[..|nodes| - 1]); }
  }

  /** The state after node i has added beyond the end. */
  ghost function Added(s: State, i: nat): State
    requires i < |s.threads| == |s.nodes|
  {
    State(s.global.(next := Wrap(s.global.next + NodeChunk(s.global, s.nodes[i]))),
          s.nodes[i := s.nodes[i].(completed := true, locked := false)],
          s.threads[i := Thread(i, Out)], s.given)
  }

  lemma AddedByStep(s: State, i: nat)
    requires i < |s.threads| == |s.nodes| && s.threads[i] == Thread(i, Ready)
    requires s.global.mode && Up(s.global.incr, s.global.next) >= Up(s.global.incr, s.global.end)
    requires s.nodes[i].next == s.nodes[i].end && !s.nodes[i].locked && !s.nodes[i].completed
    ensures AddsNext(s, i) && Step(s, Add(i), Added(s, i))
  {
  }

  lemma BeyondTheEnd(g: Share, nodes: seq<Node>, most: nat, z: nat, k: nat)
    requires CounterBeyond(g, nodes, most, z, k)
    ensures Up(g.incr, g.next) >= Up(g.incr, g.end)
  {
    TimesMonotone(1, most + CompletedThreads(nodes), Up(g.incr, g.chunkSize));
  }

  /** One more node adds beyond the end, if its sum still fits. */
  lemma AddsBeyond(g: Share, nodes: seq<Node>, most: nat, z: nat, k: nat)
    requires CounterBeyond(g, nodes, most, z, k) && k < Others(z, |nodes|)
      && IsLong(g.next + NodeChunk(g, nodes[Nth(z, k)]))
    ensures var i := Nth(z, k); var after := nodes[i := nodes[i].(completed := true, locked := false)];
      && CounterBeyond(g.(next := g.next + NodeChunk(g, nodes[i])), after, most, z, k + 1)
      && AllThreads(after) == AllThreads(nodes) && Spared(z, after) == Spared(z, nodes)
  {
    var i := Nth(z, k);
    var n := nodes[i];
    ThreadsAfter(nodes, i, n.(completed := true, locked := false));
    TimesAdds(most + CompletedThreads(nodes), n.threads, Up(g.incr, g.chunkSize));
  }

  /** Once all those nodes have added, the counter shows that there was room. */
  lemma AllAdded(g: Share, nodes: seq<Node>, most: nat, z: nat)
    requires CounterBeyond(g, nodes, most, z, Others(z, |nodes|))
    ensures HasRoom(g, most + AllThreads(nodes) - Spared(z, nodes))
  {
    CompletedBut(nodes, z);
  }

  /** The execution has come to a state in which node t is about to wrap the counter, and
      node z has yet to look at it; so far only `given` has been handed out. */
  ghost predicate AboutToWrap(ss: seq<State>, es: seq<Event>, first: int, chunk: nat, z: nat, t: nat,
                              given: seq<Block>)
  {
    && Execution(ss, es, first, chunk)
    && var s := ss[|es|];
    && t != z && t < |s.threads| == |s.nodes| && s.threads[t] == Thread(t, Ready) && Wraps(s, t) && s.given == given
    && Up(s.global.incr, s.global.next) >= Up(s.global.incr, s.global.end) && IsLong(s.global.next)
    && (z < |s.nodes| ==> Waits(s, z))
  }

  ghost predicate Waits(s: State, z: nat) {
    && z < |s.threads| == |s.nodes| && s.threads[z] == Thread(z, Ready)
    && s.nodes[z].next == s.nodes[z].end && !s.nodes[z].locked && !s.nodes[z].completed
  }

  /** Node by node, leaving out node z, the counter is driven beyond the range of a long. */
  lemma {:induction false} DrivenOver(ss: seq<State>, es: seq<Event>, first: int, chunk: nat, most: nat, z: nat, k: nat)
    returns (ss': seq<State>, es': seq<Event>, t: nat)
    requires Execution(ss, es, first, chunk) && |ss[|es|].threads| == |ss[|es|].nodes|
    requires var s := ss[|es|];
      && CounterBeyond(s.global, s.nodes, most, z, k) && ReadyBut(s.threads, z, k)
      && !HasRoom(s.global, most + AllThreads(s.nodes) - Spared(z, s.nodes))
    ensures AboutToWrap(ss', es', first, chunk, z, t, ss[|es|].given)
    ensures ss'[0] == ss[0] && ss'[|es'|].global == ss[|es|].global.(next := ss'[|es'|].global.next)
    ensures SameTeams(ss[|es|].nodes, ss'[|es'|].nodes)
    decreases |ss[|es|].nodes| - k
  {
    var s := ss[|es|];
    if k == Others(z, |s.nodes|) {
      AllAdded(s.global, s.nodes, most, z);
      assert false;
    }
    var i := Nth(z, k);
    assert s.threads[i] == Thread(i, Ready);
    BeyondTheEnd(s.global, s.nodes, most, z, k);
    AddedByStep(s, i);
    if Wraps(s, i) { return ss, es, i; }
    AddsBeyond(s.global, s.nodes, most, z, k);
    Longer(ss, es, first, chunk, Add(i), Added(s, i));
    ss', es', t := DrivenOver(ss + [Added(s, i)], es + [Add(i)], first, chunk, most, z, k + 1);
  }

  ghost predicate SameTeams(a: seq<Node>, b: seq<Node>) {
    |a| == |b| && forall i {:trigger b[i]} :: 0 <= i < |a| ==> b[i].threads == a[i].threads
  }

  ghost function FreshNodes(nodes: seq<Node>, first: int): (r: seq<Node>)
    ensures |r| == |nodes|
    ensures forall i {:trigger r[i]} :: 0 <= i < |r| ==> r[i] == Node(first, first, nodes[i].threads, false, false)
  {
    if nodes == [] then []
    else FreshNodes(nodes[..|nodes| - 1], first) + [Node(first, first, nodes[|nodes| - 1].threads, false, false)]
  }

  ghost function ReadyThreads(n: nat): (r: seq<Thread>)
    ensures |r| == n
    ensures forall i: nat {:trigger r[i]} :: i < n ==> r[i] == Thread(i, Ready)
  {
    if n == 0 then [] else ReadyThreads(n - 1) + [Thread(n - 1, Ready)]
  }

  /** A loop with one iteration left, whose nodes have one thread each to act for them. */
  ghost function LastIteration(g: Share, nodes: seq<Node>, first: int): State {
    State(g.(next := first), FreshNodes(nodes, first), ReadyThreads(|nodes|), [])
  }

  /** Node i has taken the last iteration and added all it could. */
  ghost function LastTaken(g: Share, nodes: seq<Node>, first: int, i: nat): State
    requires i < |nodes|
  {
    var s := LastIteration(g, nodes, first);
    State(g.(next := first + NodeChunk(g, nodes[i])), s.nodes[i := s.nodes[i].(next := g.end, end := g.end)],
          s.threads, [(first, g.end)])
  }

  lemma LastTakenByStep(g: Share, nodes: seq<Node>, first: int, i: nat)
    requires g.mode && g.incr != 0 && IsLong(g.end) && IsLong(g.chunkSize) && Up(g.incr, g.chunkSize) > 0
    requires IsLong(first) && Up(g.incr, first) == Up(g.incr, g.end) - 1
    requires i < |nodes| && nodes[i].threads > 0 && IsLong(first + NodeChunk(g, nodes[i]))
    ensures Step(LastIteration(g, nodes, first), Add(i), LastTaken(g, nodes, first, i))
  {
    var s := LastIteration(g, nodes, first);
    assert s.threads[i] == Thread(i, Ready) && s.nodes[i] == Node(first, first, nodes[i].threads, false, false);
    RefilledByStep(s, i);
    NodeChunkUp(g, nodes[i]);
    LastTakenIs(g, nodes, first, i);
  }

  lemma LastTakenIs(g: Share, nodes: seq<Node>, first: int, i: nat)
    requires g.incr != 0 && IsLong(g.end) && IsLong(g.chunkSize) && Up(g.incr, g.chunkSize) > 0
    requires IsLong(first) && Up(g.incr, first) == Up(g.incr, g.end) - 1 && i < |nodes|
    ensures var s := LastIteration(g, nodes, first);
      && i < |s.threads| && s.threads[i].node == i
      && TakeFrom(s.(global := g.(next := first + NodeChunk(g, nodes[i]))), i, s.nodes[i].(next := first, end := g.end))
        == LastTaken(g, nodes, first, i)
  {
    var s := LastIteration(g, nodes, first);
    assert s.threads[i] == Thread(i, Ready);
    CutOk(g.incr, g.end, first, g.chunkSize, g.chunkSize);
    assert s.threads[i := s.threads[i].(phase := Ready)] == s.threads;
  }

  /** The nodes after the last iteration has been taken. */
  lemma LastTakenBeyond(g: Share, before: seq<Node>, nodes: seq<Node>, most: nat, i: nat, z: nat)
    requires g.mode && g.incr != 0 && Up(g.incr, g.chunkSize) > 0 && IsLong(g.next)
    requires i < |nodes| == |before| && nodes[i].threads == most > 0
    requires Up(g.incr, g.next - NodeChunk(g, nodes[i])) == Up(g.incr, g.end) - 1
    requires forall j {:trigger nodes[j]} :: 0 <= j < |nodes| ==>
      nodes[j].next == nodes[j].end && !nodes[j].locked && !nodes[j].completed && nodes[j].threads == before[j].threads
    ensures CounterBeyond(g, nodes, most, z, 0) && AllThreads(nodes) == AllThreads(before)
  {
    NoneCompleted(nodes);
    SameCounts(nodes, before);
    NodeChunkUp(g, nodes[i]);
    assert forall j {:trigger nodes[j]} :: 0 <= j < |nodes| ==> !nodes[j].completed;
  }

  lemma LastIterationStarts(g: Share, nodes: seq<Node>, chunk: nat, first: int)
    requires LoopShape(g, nodes, chunk) && first == LastValue(g)
    ensures var s := LastIteration(g, nodes, first); Execution([s], [], first, chunk) && SameLoop(s, g, nodes)
  {
  }

  /** A run in which node i takes the last iteration. */
  lemma LastTakenRun(g: Share, nodes: seq<Node>, chunk: nat, first: int, i: nat)
    requires LoopShape(g, nodes, chunk) && first == LastValue(g)
    requires i < |nodes| && IsLong(first + NodeChunk(g, nodes[i]))
    ensures var s, r := LastIteration(g, nodes, first), LastTaken(g, nodes, first, i);
      Execution([s] + [r], [Add(i)], first, chunk) && SameLoop(s, g, nodes)
  {
    var s, r, none: seq<Event> := LastIteration(g, nodes, first), LastTaken(g, nodes, first, i), [];
    LastIterationStarts(g, nodes, chunk, first);
    BlockUp(g, nodes, chunk);
    LastTakenByStep(g, nodes, first, i);
    Longer([s], none, first, chunk, Add(i), r);
    assert none + [Add(i)] == [Add(i)];
  }

  lemma BlockUp(g: Share, nodes: seq<Node>, chunk: nat)
    requires LoopShape(g, nodes, chunk)
    ensures Up(g.incr, g.chunkSize) > 0
  {
    SignedTimes(chunk, g.incr);
    TimesMonotone(1, chunk, Abs(g.incr));
  }

  /** A run in which the largest node has taken the last iteration. */
  lemma LastRun(g: Share, nodes: seq<Node>, chunk: nat, z: nat) returns (s: State, r: State, e: Event)
    requires LoopShape(g, nodes, chunk) && HasRoom(g, Most(nodes))
    ensures Execution([s] + [r], [e], LastValue(g), chunk) && SameLoop(s, g, nodes) && SameLoop(r, g, nodes)
    ensures |r.threads| == |r.nodes| && r.given == [(LastValue(g), g.end)] && ReadyBut(r.threads, z, 0)
    ensures CounterBeyond(r.global, r.nodes, Most(nodes), z, 0)
  {
    var first := LastValue(g);
    var i: nat :| i < |nodes| && nodes[i].threads == Most(nodes);
    s, r, e := LastIteration(g, nodes, first), LastTaken(g, nodes, first, i), Add(i);
    LastRefillFits(g, nodes, chunk, i);
    LastTakenShape(g, nodes, i, z);
    LastTakenCounter(g, nodes, chunk, i, z);
    LastTakenRun(g, nodes, chunk, first, i);
  }

  /** Without room for all nodes but z, some run drives the counter over before node z
      looks at it, unless already the refill of the largest node wraps. */
  lemma WrappingRun(g: Share, nodes: seq<Node>, chunk: nat, z: nat) returns (ss: seq<State>, es: seq<Event>, t: nat)
    requires LoopShape(g, nodes, chunk) && !HasRoom(g, Most(nodes) + AllThreads(nodes) - Spared(z, nodes))
    requires HasRoom(g, Most(nodes))
    ensures Wrapping(g, nodes, chunk, z, ss, es, t)
  {
    var s, r, e := LastRun(g, nodes, chunk, z);
    SameRoom(g, r.global, nodes, r.nodes, Most(nodes), z);
    ss, es, t := DrivenFrom(g, nodes, chunk, z, s, r, e);
  }

  lemma DrivenFrom(g: Share, nodes: seq<Node>, chunk: nat, z: nat, s: State, r: State, e: Event)
    returns (ss: seq<State>, es: seq<Event>, t: nat)
    requires Execution([s] + [r], [e], LastValue(g), chunk) && SameLoop(s, g, nodes) && SameLoop(r, g, nodes)
    requires |r.threads| == |r.nodes| && r.given == [(LastValue(g), g.end)] && ReadyBut(r.threads, z, 0)
    requires CounterBeyond(r.global, r.nodes, Most(nodes), z, 0)
    requires !HasRoom(r.global, Most(nodes) + AllThreads(r.nodes) - Spared(z, r.nodes))
    ensures Wrapping(g, nodes, chunk, z, ss, es, t)
  {
    ss, es := [s] + [r], [e];
    assert ss[0] == s && ss[|es|] == r;
    ss, es, t := DrivenOver(ss, es, LastValue(g), chunk, Most(nodes), z, 0);
  }

  lemma LastRefillFits(g: Share, nodes: seq<Node>, chunk: nat, i: nat)
    requires LoopShape(g, nodes, chunk) && i < |nodes| && nodes[i].threads == Most(nodes) && HasRoom(g, Most(nodes))
    ensures IsLong(LastValue(g) + NodeChunk(g, nodes[i])) && Up(g.incr, g.chunkSize) > 0
  {
    BlockUp(g, nodes, chunk);
    NodeChunkUp(g, nodes[i]);
  }

  /** Where the last iteration leaves the shares and the threads. */
  lemma LastTakenShape(g: Share, nodes: seq<Node>, i: nat, z: nat)
    requires i < |nodes|
    ensures var r := LastTaken(g, nodes, LastValue(g), i);
      && SameLoop(r, g, nodes) && ReadyBut(r.threads, z, 0) && r.given == [(LastValue(g), g.end)]
      && (g.incr != 0 && LastValue(g) != g.end ==> |r.threads| == |r.nodes|)
    ensures var r := LastTaken(g, nodes, LastValue(g), i);
      forall j {:trigger r.nodes[j]} :: 0 <= j < |r.nodes| ==>
        && !r.nodes[j].locked && !r.nodes[j].completed && r.nodes[j].next == r.nodes[j].end
        && r.nodes[j].threads == nodes[j].threads
  {
  }

  lemma RoomSame(g: Share, h: Share, k: int, l: int)
    requires h == g.(next := h.next) && k == l
    ensures HasRoom(h, k) <==> HasRoom(g, l)
  {
  }

  lemma LastTakenCounter(g: Share, nodes: seq<Node>, chunk: nat, i: nat, z: nat)
    requires LoopShape(g, nodes, chunk) && i < |nodes| && nodes[i].threads == Most(nodes) && HasRoom(g, Most(nodes))
    ensures var r := LastTaken(g, nodes, LastValue(g), i);
      CounterBeyond(r.global, r.nodes, Most(nodes), z, 0) && AllThreads(r.nodes) == AllThreads(nodes)
  {
    var r := LastTaken(g, nodes, LastValue(g), i);
    LastRefillFits(g, nodes, chunk, i);
    LastTakenShape(g, nodes, i, z);
    LastTakenBeyond(r.global, nodes, r.nodes, Most(nodes), i, z);
  }

  lemma SameRoom(g: Share, h: Share, before: seq<Node>, after: seq<Node>, most: nat, z: nat)
    requires h == g.(next := h.next) && |before| == |after|
    requires forall i {:trigger after[i]} :: 0 <= i < |after| ==> after[i].threads == before[i].threads
    requires !HasRoom(g, most + AllThreads(before) - Spared(z, before))
    ensures !HasRoom(h, most + AllThreads(after) - Spared(z, after))
  {
    SameCounts(after, before);
    RoomSame(g, h, most + AllThreads(after) - Spared(z, after), most + AllThreads(before) - Spared(z, before));
  }

  ghost predicate Wrapping(g: Share, nodes: seq<Node>, chunk: nat, z: nat, ss: seq<State>, es: seq<Event>, t: nat) {
    && AboutToWrap(ss, es, LastValue(g), chunk, z, t, [(LastValue(g), g.end)])
    && SameLoop(ss[0], g, nodes) && SameLoop(ss[|es|], g, nodes)
  }

  /** The last value of a loop that can be its only one. */
  function LastValue(g: Share): int {
    if g.incr > 0 then g.end - 1 else g.end + 1
  }

  /** A loop of at least one iteration can end where this one does. */
  ghost predicate LoopShape(g: Share, nodes: seq<Node>, chunk: nat) {
    && g.mode && g.incr != 0 && chunk > 0 && g.chunkSize == Times(chunk, g.incr) && IsLong(g.chunkSize)
    && IsLong(g.end) && IsLong(LastValue(g))
    && nodes != []
    && forall i {:trigger nodes[i]} :: 0 <= i < |nodes| ==>
         nodes[i].threads > 0 && IsLong(NodeChunk(g, nodes[i]))
  }

  lemma RefillWraps(g: Share, nodes: seq<Node>, chunk: nat) returns (i: nat)
    requires LoopShape(g, nodes, chunk) && !HasRoom(g, Most(nodes))
    ensures Wraps(LastIteration(g, nodes, LastValue(g)), i)
  {
    i :| i < |nodes| && nodes[i].threads == Most(nodes);
    var s := LastIteration(g, nodes, LastValue(g));
    BlockUp(g, nodes, chunk);
    NodeChunkUp(g, nodes[i]);
    assert s.threads[i] == Thread(i, Ready)
      && s.nodes[i] == Node(LastValue(g), LastValue(g), nodes[i].threads, false, false);
  }

  /** The additions to the global counter never wrap, in any run and from any start,
      if and only if every node may add once beyond the end after a last refill by
      the largest node. */
  lemma NeverWrapsIff(g: Share, nodes: seq<Node>, chunk: nat)
    requires LoopShape(g, nodes, chunk)
    ensures NeverWraps(g, nodes, chunk) <==> RoomForNodes(g, nodes, Most(nodes))
  {
    if RoomForNodes(g, nodes, Most(nodes)) {
      forall ss: seq<State>, es: seq<Event>, first: int, t: nat | Execution(ss, es, first, chunk)
        && SameLoop(ss[0], g, nodes)
        ensures !Wraps(ss[|es|], t)
      {
        RoomSuffices(g, nodes, chunk, ss, es, first, t);
      }
    } else {
      SomeWraps(g, nodes, chunk);
    }
  }

  lemma SomeWraps(g: Share, nodes: seq<Node>, chunk: nat)
    requires LoopShape(g, nodes, chunk) && !RoomForNodes(g, nodes, Most(nodes))
    ensures !NeverWraps(g, nodes, chunk)
  {
    var first := LastValue(g);
    if HasRoom(g, Most(nodes)) {
      var ss, es, t := WrappingRun(g, nodes, chunk, |nodes|);
      assert Execution(ss, es, first, chunk) && Wraps(ss[|es|], t);
    } else {
      var s, none: seq<Event> := LastIteration(g, nodes, first), [];
      LastIterationStarts(g, nodes, chunk, first);
      var i := RefillWraps(g, nodes, chunk);
      assert Execution([s], none, first, chunk) && Wraps([s][|none|], i);
    }
  }

  // ------------------------------------------------------------------
  // Exactly when the loop is handed out rightly
  // ------------------------------------------------------------------

  /** Nothing has been handed out twice, and nothing outside the loop. */
  ghost predicate Correct(s: State, first: int) {
    forall x :: Covering(s.global.incr, s.given, x) <= One(In(s.global.incr, first, s.global.end, x))
  }

  ghost predicate AlwaysCorrect(g: Share, nodes: seq<Node>, chunk: nat) {
    forall ss: seq<State>, es: seq<Event>, first: int ::
      Execution(ss, es, first, chunk) && SameLoop(ss[0], g, nodes) ==> Correct(ss[|es|], first)
  }

  /** The loop passes the check of the source with the threads of every node, and a
      refill by any node fits before its end. */
  ghost predicate Checked(g: Share, nodes: seq<Node>) {
    forall i {:trigger nodes[i]} :: 0 <= i < |nodes| ==>
      RoomToAdd(g.incr, g.end, g.chunkSize, nodes[i].threads) && IsLong(g.end - NodeChunk(g, nodes[i]))
  }

  lemma RoomKeepsCorrect(g: Share, nodes: seq<Node>, chunk: nat, ss: seq<State>, es: seq<Event>, first: int)
    requires g.mode && RoomButOne(g, nodes, Most(nodes))
    requires Execution(ss, es, first, chunk) && SameLoop(ss[0], g, nodes)
    ensures Correct(ss[|es|], first)
  {
    SameCounts(ss[0].nodes, nodes);
    forall i | 0 <= i < |ss[0].nodes|
      ensures HasRoom(ss[0].global, Most(nodes) + AllThreads(ss[0].nodes) - ss[0].nodes[i].threads)
    {
      assert HasRoom(g, Most(nodes) + AllThreads(nodes) - nodes[i].threads);
    }
    assert Run(ss, es, first, chunk, Most(nodes));
    forall x ensures Covering(ss[|es|].global.incr, ss[|es|].given, x)
      <= One(In(ss[|es|].global.incr, first, ss[|es|].global.end, x))
    {
      NoneTwice(ss, es, first, chunk, Most(nodes), |es|, x);
    }
  }

  /** Where a sum of the counter and one node chunk wraps to. */
  lemma WrapsFarBack(g: Share, n: Node, next: int)
    requires g.incr != 0 && IsLong(next) && IsLong(g.end) && IsLong(NodeChunk(g, n)) && Up(g.incr, NodeChunk(g, n)) > 0
    requires !IsLong(next + NodeChunk(g, n)) && IsLong(g.end - NodeChunk(g, n))
    ensures var w := Wrap(next + NodeChunk(g, n));
      IsLong(w) && Up(g.incr, w) < Up(g.incr, g.end) && Up(g.incr, w) <= 0
  {
  }

  /** A node that looks at a counter that has wrapped hands out what is not its to give. */
  lemma ReadsWrapped(s: State, chunk: nat, z: nat, first: int) returns (r: State)
    requires Waits(s, z) && s.global.mode && s.global.incr != 0 && IsLong(s.global.end) && IsLong(s.global.chunkSize)
    requires IsLong(s.global.next) && Up(s.global.incr, s.global.next) <= 0
    requires Up(s.global.incr, s.global.next) < Up(s.global.incr, s.global.end)
      && Up(s.global.incr, s.global.chunkSize) > 0
    requires IsLong(NodeChunk(s.global, s.nodes[z])) && Up(s.global.incr, NodeChunk(s.global, s.nodes[z])) > 0
    requires IsLong(first) && Up(s.global.incr, first) == Up(s.global.incr, s.global.end) - 1
    requires s.given == [(first, s.global.end)]
    ensures Step(s, Add(z), r) && !Correct(r, first)
  {
    var e;
    r, e := RefillGives(s, z);
    WrappedRefill(s.global, NodeChunk(s.global, s.nodes[z]), e);
    TwiceOrOutside(r, first, s.global.next, r.given[1].1);
  }

  /** The block that comes out of a refill of node z up to e. */
  lemma RefillGives(s: State, z: nat) returns (r: State, e: int)
    requires Waits(s, z) && s.global.mode && Up(s.global.incr, s.global.next) < Up(s.global.incr, s.global.end)
    ensures Step(s, Add(z), r) && r.global == s.global.(next := r.global.next)
    ensures var g := s.global; var nend := Wrap(g.next + NodeChunk(g, s.nodes[z]));
      && e == (if Up(g.incr, nend) > Up(g.incr, g.end) then g.end else nend)
      && r.given == s.given + [(g.next, Wrap(g.next + Cut(g.incr, e, g.next, g.chunkSize)))]
  {
    var g, n := s.global, s.nodes[z];
    var nend := Wrap(g.next + NodeChunk(g, n));
    e := if Up(g.incr, nend) > Up(g.incr, g.end) then g.end else nend;
    r := TakeFrom(s.(global := g.(next := nend)), z, n.(next := g.next, end := e));
    RefilledByStep(s, z);
  }

  /** A refill far back in the loop is not empty. */
  lemma WrappedRefill(g: Share, c: int, e: int)
    requires g.incr != 0 && IsLong(g.next) && IsLong(g.end) && IsLong(c) && IsLong(g.chunkSize)
    requires Up(g.incr, c) > 0 && Up(g.incr, g.chunkSize) > 0 && Up(g.incr, g.next) <= 0
    requires Up(g.incr, g.next) < Up(g.incr, g.end)
    requires var nend := Wrap(g.next + c); e == if Up(g.incr, nend) > Up(g.incr, g.end) then g.end else nend
    ensures Up(g.incr, g.next) < Up(g.incr, Wrap(g.next + Cut(g.incr, e, g.next, g.chunkSize)))
  {
    CutOk(g.incr, e, g.next, g.chunkSize, g.chunkSize);
  }

  lemma RefilledByStep(s: State, z: nat)
    requires Waits(s, z) && s.global.mode && Up(s.global.incr, s.global.next) < Up(s.global.incr, s.global.end)
    ensures var g, n := s.global, s.nodes[z]; var nend := Wrap(g.next + NodeChunk(g, n));
      var e := if Up(g.incr, nend) > Up(g.incr, g.end) then g.end else nend;
      Step(s, Add(z), TakeFrom(s.(global := g.(next := nend)), z, n.(next := g.next, end := e)))
  {
  }

  lemma TwiceOrOutside(r: State, first: int, w: int, e: int)
    requires r.given == [(first, r.global.end)] + [(w, e)] && Up(r.global.incr, w) < Up(r.global.incr, e)
    requires Up(r.global.incr, first) == Up(r.global.incr, r.global.end) - 1
      && Up(r.global.incr, w) <= Up(r.global.incr, first)
    ensures !Correct(r, first)
  {
    var g := r.global;
    CoveringSnoc(g.incr, [(first, g.end)], (w, e), w);
    CoveringSnoc(g.incr, [], (first, g.end), w);
    assert Covering(g.incr, r.given, w) > One(In(g.incr, first, g.end, w));
  }

  /** The wrap and the look at what it left. */
  lemma GoesWrong(g: Share, nodes: seq<Node>, chunk: nat, z: nat, t: nat, s: State) returns (m: State, r: State)
    requires LoopShape(g, nodes, chunk) && Checked(g, nodes) && SameLoop(s, g, nodes) && z < |nodes| && t < |nodes|
      && t != z
    requires Waits(s, z) && Wraps(s, t) && s.threads[t] == Thread(t, Ready) && IsLong(s.global.next)
    requires Up(g.incr, s.global.next) >= Up(g.incr, g.end) && s.given == [(LastValue(g), g.end)]
    ensures Step(s, Add(t), m) && Step(m, Add(z), r) && !Correct(r, LastValue(g))
  {
    BlockUp(g, nodes, chunk);
    NodeChunkUp(g, nodes[t]);
    NodeChunkUp(g, nodes[z]);
    SameChunk(s, g, nodes, t);
    SameChunk(s, g, nodes, z);
    WrapsFarBack(g, nodes[t], s.global.next);
    AddedByStep(s, t);
    m := Added(s, t);
    r := ReadsWrapped(m, chunk, z, LastValue(g));
  }

  lemma SameChunk(s: State, g: Share, nodes: seq<Node>, i: nat)
    requires SameLoop(s, g, nodes) && i < |nodes|
    ensures NodeChunk(s.global, s.nodes[i]) == NodeChunk(g, nodes[i]) && s.nodes[i].threads == nodes[i].threads
  {
  }

  /** Without room for all nodes but the smallest some run goes wrong. */
  lemma SomeGoesWrong(g: Share, nodes: seq<Node>, chunk: nat, z: nat)
    requires LoopShape(g, nodes, chunk) && Checked(g, nodes)
    requires z < |nodes| && HasRoom(g, Most(nodes)) && !HasRoom(g, Most(nodes) + AllThreads(nodes) - Spared(z, nodes))
    ensures !AlwaysCorrect(g, nodes, chunk)
  {
    var ss, es, t := WrappingRun(g, nodes, chunk, z);
    WrongEnd(g, nodes, chunk, z, ss, es, t);
  }

  lemma WrongEnd(g: Share, nodes: seq<Node>, chunk: nat, z: nat, ss: seq<State>, es: seq<Event>, t: nat)
    requires LoopShape(g, nodes, chunk) && Checked(g, nodes) && z < |nodes| && Wrapping(g, nodes, chunk, z, ss, es, t)
    ensures !AlwaysCorrect(g, nodes, chunk)
  {
    var first := LastValue(g);
    var m, r := GoesWrong(g, nodes, chunk, z, t, ss[|es|]);
    Longer(ss, es, first, chunk, Add(t), m);
    Longer(ss + [m], es + [Add(t)], first, chunk, Add(z), r);
    NotAlways(g, nodes, chunk, ss + [m] + [r], es + [Add(t)] + [Add(z)], first);
  }

  lemma NotAlways(g: Share, nodes: seq<Node>, chunk: nat, ss: seq<State>, es: seq<Event>, first: int)
    requires Execution(ss, es, first, chunk) && SameLoop(ss[0], g, nodes) && !Correct(ss[|es|], first)
    ensures !AlwaysCorrect(g, nodes, chunk)
  {
  }

  lemma NoRoomBut(g: Share, nodes: seq<Node>) returns (z: nat)
    requires AtMost(nodes, Most(nodes)) && !RoomButOne(g, nodes, Most(nodes))
    ensures z < |nodes| && !HasRoom(g, Most(nodes) + AllThreads(nodes) - Spared(z, nodes))
  {
    z :| z < |nodes| && !HasRoom(g, Most(nodes) + AllThreads(nodes) - nodes[z].threads);
  }

  lemma CheckedRefills(g: Share, nodes: seq<Node>, chunk: nat)
    requires LoopShape(g, nodes, chunk) && Checked(g, nodes)
    ensures HasRoom(g, Most(nodes))
  {
    var i: nat :| i < |nodes| && nodes[i].threads == Most(nodes);
    BlockUp(g, nodes, chunk);
    assert RoomToAdd(g.incr, g.end, g.chunkSize, nodes[i].threads);
    TimesMonotone(Most(nodes), Most(nodes) + 1, Up(g.incr, g.chunkSize));
  }

  /** A loop that passes the check of the source on every node is handed out rightly
      in all runs, from any start, if and only if all nodes but the smallest may add
      beyond the end after a last refill by the largest. */
  lemma AlwaysCorrectIff(g: Share, nodes: seq<Node>, chunk: nat)
    requires LoopShape(g, nodes, chunk) && Checked(g, nodes)
    ensures AlwaysCorrect(g, nodes, chunk) <==> RoomButOne(g, nodes, Most(nodes))
  {
    if RoomButOne(g, nodes, Most(nodes)) {
      forall ss: seq<State>, es: seq<Event>, first: int | Execution(ss, es, first, chunk) && SameLoop(ss[0], g, nodes)
        ensures Correct(ss[|es|], first)
      {
        RoomKeepsCorrect(g, nodes, chunk, ss, es, first);
      }
    } else {
      CheckedRefills(g, nodes, chunk);
      var z := NoRoomBut(g, nodes);
      SomeGoesWrong(g, nodes, chunk, z);
    }
  }
}
