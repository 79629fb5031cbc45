/** The two-level dynamic schedule of lib/libopenpop/hierarchy.c: threads take
    blocks from the work share of their node under its lock, and an empty node
    share is refilled from the global one by an atomic operation. */
module HierarchyLoop {
  import opened Arithmetic
  import opened Bits
  import opened Dispenser

  /** The work share of a node with `threads` threads. Its lock stays taken
      between the steps of a thread that is swapping on the global share. */
  datatype Node = Node(next: int, end: int, threads: nat, completed: bool, locked: bool)

  /** An Out thread has received false. */
  datatype Phase = Ready | Swapping(start: int, chunk: int) | Out

  datatype Thread = Thread(node: nat, phase: Phase)

  datatype State = State(global: Share, nodes: seq<Node>, threads: seq<Thread>, given: seq<Block>)

  datatype Event = TakeLocal(t: nat) | Refuse(t: nat) | Add(t: nat) | LoadGlobal(t: nat) | Swap(t: nat)

  // ------------------------------------------------------------------
  // The steps of hierarchy_next_dynamic
  // ------------------------------------------------------------------

  /** What one refill of a node takes. */
  function NodeChunk(g: Share, n: Node): int {
    Times(n.threads, g.chunkSize)
  }

  /** Thread t takes the next block of its node, whose share is then n, and lets
      go of the lock. */
  function TakeFrom(s: State, t: nat, n: Node): State
    requires t < |s.threads| && s.threads[t].node < |s.nodes|
  {
    var g := s.global;
    var e := Wrap(n.next + Cut(g.incr, n.end, n.next, g.chunkSize));
    s.(nodes := s.nodes[s.threads[t].node := n.(next := e, locked := false)],
       threads := s.threads[t := s.threads[t].(phase := Ready)],
       given := s.given + [(n.next, e)])
  }

  /** The global share has nothing left for the node of thread t. */
  function Complete(s: State, t: nat): State
    requires t < |s.threads| && s.threads[t].node < |s.nodes|
  {
    var i := s.threads[t].node;
    s.(nodes := s.nodes[i := s.nodes[i].(completed := true, locked := false)],
       threads := s.threads[t := s.threads[t].(phase := Out)])
  }

  function SetPhase(s: State, t: nat, p: Phase): State
    requires t < |s.threads|
  {
    s.(threads := s.threads[t := s.threads[t].(phase := p)])
  }

  /** One turn of the compare-and-swap loop of thread t. */
  function Swapped(s: State, t: nat): State
    requires t < |s.threads| && s.threads[t].node < |s.nodes| && s.threads[t].phase.Swapping?
  {
    var g, Swapping(start, chunk) := s.global, s.threads[t].phase;
    var cut := Cut(g.incr, g.end, start, chunk);
    if start == g.end then Complete(s, t)
    else if g.next == start then
      var nend := Wrap(start + cut);
      TakeFrom(s.(global := g.(next := nend)), t, s.nodes[s.threads[t].node].(next := start, end := nend))
    else SetPhase(s, t, Swapping(g.next, cut))
  }

  ghost predicate Step(s: State, e: Event, r: State) {
    var g, t := s.global, e.t;
    && t < |s.threads| && s.threads[t].node < |s.nodes|
    && var i := s.threads[t].node;
    && var n := s.nodes[i];
    && (!e.Swap? ==> s.threads[t].phase.Ready? && !n.locked)
    && match e
       case TakeLocal(_) => n.next != n.end && r == TakeFrom(s, t, n)
       case Refuse(_) => n.next == n.end && n.completed && r == SetPhase(s, t, Out)
       case Add(_) =>
         && n.next == n.end && !n.completed && g.mode
         && var chunk := NodeChunk(g, n);
         && var s' := s.(global := g.(next := Wrap(g.next + chunk)));
            if Up(g.incr, g.next) >= Up(g.incr, g.end) then r == Complete(s', t)
            else
              var nend := Wrap(g.next + chunk);
              var e := if Up(g.incr, nend) > Up(g.incr, g.end) then g.end else nend;
              r == TakeFrom(s', t, n.(next := g.next, end := e))
       case LoadGlobal(_) =>
         && n.next == n.end && !n.completed && !g.mode
         && r == SetPhase(s, t, Swapping(g.next, NodeChunk(g, n))).(nodes := s.nodes[i := n.(locked := true)])
       case Swap(_) =>
         s.threads[t].phase.Swapping? && r == Swapped(s, t)
  }

  ghost function AllThreads(nodes: seq<Node>): nat {
    if nodes == [] then 0 else AllThreads(nodes[..|nodes| - 1]) + nodes[|nodes| - 1].threads
  }

  ghost function CompletedThreads(nodes: seq<Node>): nat {
    if nodes == [] then 0
    else
      var n := nodes[|nodes| - 1];
      CompletedThreads(nodes[..|nodes| - 1]) + if n.completed then n.threads else 0
  }

  /** The counter can go k blocks beyond the last value of the loop. */
  ghost predicate HasRoom(g: Share, k: int) {
    Up(g.incr, g.end) - 1 + Times(k, Up(g.incr, g.chunkSize)) <= UpMost(g.incr)
  }

  ghost predicate AtMost(nodes: seq<Node>, most: nat) {
    most > 0 && forall i :: 0 <= i < |nodes| ==> nodes[i].threads <= most
  }

  /** No sum of the global counter can leave the range of a long: every node may
      add once beyond the end, after one last refill that overshoots it. */
  ghost predicate RoomForNodes(g: Share, nodes: seq<Node>, most: nat) {
    AtMost(nodes, most) && HasRoom(g, most + AllThreads(nodes))
  }

  /** No sum can that some thread still looks at: all nodes but one may add beyond
      the end, whichever is the last. */
  ghost predicate RoomButOne(g: Share, nodes: seq<Node>, most: nat) {
    && AtMost(nodes, most)
    && forall i {:trigger nodes[i]} :: 0 <= i < |nodes| ==> HasRoom(g, most + AllThreads(nodes) - nodes[i].threads)
  }

  /** The shares as hierarchy_init_workshare_dynamic leaves them: all work is in the
      global share and every node share is empty. */
  ghost predicate Start(s: State, first: int, chunk: nat) {
    var g := s.global;
    && s.given == [] && g.next == first && g.incr != 0 && chunk > 0
    && IsLong(first) && IsLong(g.end) && Up(g.incr, first) <= Up(g.incr, g.end) && g.chunkSize == Times(chunk, g.incr)
    && (forall i {:trigger s.nodes[i]} :: 0 <= i < |s.nodes| ==>
          && s.nodes[i].threads > 0 && IsLong(NodeChunk(g, s.nodes[i]))
          && s.nodes[i] == Node(first, first, s.nodes[i].threads, false, false))
    && (forall t {:trigger s.threads[t]} :: 0 <= t < |s.threads| ==>
          s.threads[t].phase == Ready && s.threads[t].node < |s.nodes|)
  }

  // ------------------------------------------------------------------
  // The invariant
  // ------------------------------------------------------------------

  function Front(g: Share): int {
    if Up(g.incr, g.next) > Up(g.incr, g.end) then g.end else g.next
  }

  /** How many node shares still hold x. */
  ghost function Held(incr: int, nodes: seq<Node>, x: int): nat {
    if nodes == [] then 0
    else Held(incr, nodes[..|nodes| - 1], x) + One(In(incr, nodes[|nodes| - 1].next, nodes[|nodes| - 1].end, x))
  }

  /** Every value is in exactly one place: a given block, a node share or the rest
      of the global share. */
  ghost predicate Conserved(s: State, first: int, x: int) {
    var g := s.global;
    Covering(g.incr, s.given, x) + Held(g.incr, s.nodes, x) + One(In(g.incr, Front(g), g.end, x))
      == One(In(g.incr, first, g.end, x))
  }

  ghost predicate NodeOk(s: State, first: int, i: int) {
    0 <= i < |s.nodes| ==>
      var g, n := s.global, s.nodes[i];
      && n.threads > 0 && IsLong(NodeChunk(g, n)) && IsLong(n.next) && IsLong(n.end)
      && Up(g.incr, n.next) <= Up(g.incr, n.end)
      && (n.next != n.end ==> Aligned(first, g.incr, n.next))
      && (n.completed ==> Up(g.incr, g.end) <= Up(g.incr, g.next))
      && (n.locked ==> n.next == n.end && !n.completed)
  }

  ghost predicate ThreadOk(s: State, first: int, t: int) {
    0 <= t < |s.threads| ==>
      var g, i := s.global, s.threads[t].node;
      && i < |s.nodes|
      && match s.threads[t].phase
         case Ready => true
         case Out => s.nodes[i].completed && s.nodes[i].next == s.nodes[i].end
         case Swapping(start, chunk) =>
           && !g.mode && s.nodes[i].locked && IsLong(start) && IsLong(chunk)
           && Up(g.incr, first) <= Up(g.incr, start) <= Up(g.incr, g.next)
           && (start != g.end ==> ChunkOk(g.incr, g.end, start, chunk, NodeChunk(g, s.nodes[i])))
           && (IsLong(g.end - first) || start == first || start == g.end)
  }

  /** A node is locked by one thread only. */
  ghost predicate Alone(s: State, t: int, u: int) {
    0 <= t < |s.threads| && 0 <= u < |s.threads| && t != u && BothSwap(s.threads[t], s.threads[u]) ==>
      s.threads[t].node != s.threads[u].node
  }

  predicate BothSwap(a: Thread, b: Thread) {
    a.phase.Swapping? && b.phase.Swapping?
  }

  ghost predicate BlockOk(s: State, first: int, k: int) {
    0 <= k < |s.given| ==> Aligned(first, s.global.incr, s.given[k].0)
  }

  ghost predicate GlobalOk(s: State, first: int, chunk: nat, most: nat) {
    var g := s.global;
    && g.incr != 0 && chunk > 0 && IsLong(first) && IsLong(g.end) && IsLong(g.next) && IsLong(g.chunkSize)
    && g.chunkSize == Times(chunk, g.incr) && Up(g.incr, g.chunkSize) > 0
    && Up(g.incr, first) <= Up(g.incr, g.end) && Up(g.incr, first) <= Up(g.incr, g.next)
    && (Up(g.incr, g.next) < Up(g.incr, g.end) ==> Aligned(first, g.incr, g.next))
    && (if g.mode then
          && RoomButOne(g, s.nodes, most)
          && Up(g.incr, g.next) <= Up(g.incr, g.end) - 1
            + Times(most + CompletedThreads(s.nodes), Up(g.incr, g.chunkSize))
        else
          && Up(g.incr, g.next) <= Up(g.incr, g.end)
          && (IsLong(g.end - first) || g.next == first || g.next == g.end))
  }

  ghost predicate Inv(s: State, first: int, chunk: nat, most: nat) {
    && GlobalOk(s, first, chunk, most)
    && (forall x :: Conserved(s, first, x))
    && (forall i :: NodeOk(s, first, i))
    && (forall t :: ThreadOk(s, first, t))
    && (forall t, u :: Alone(s, t, u))
    && (forall k :: BlockOk(s, first, k))
  }

  // ------------------------------------------------------------------
  // Sums over the nodes
  // ------------------------------------------------------------------

  lemma {:induction false} HeldAfter(incr: int, nodes: seq<Node>, i: nat, n: Node, x: int)
    requires i < |nodes|
    ensures Held(incr, nodes[i := n], x) + One(In(incr, nodes[i].next, nodes[i].end, x))
      == Held(incr, nodes, x) + One(In(incr, n.next, n.end, x))
    decreases |nodes|
  {
    var k := |nodes| - 1;
    if i < k {
      HeldAfter(incr, nodes[..k], i, n, x);
      assert nodes[i := n][..k] == nodes[..k][i := n];
    } else {
      assert nodes[i := n][..k] == nodes[..k];
    }
  }

  lemma {:induction false} HeldNothing(incr: int, nodes: seq<Node>, x: int)
    requires forall i {:trigger nodes[i]} :: 0 <= i < |nodes| ==> nodes[i].next == nodes[i].end
    ensures Held(incr, nodes, x) == 0
    decreases |nodes|
  {
    if nodes != [] { HeldNothing(incr, nodes[..|nodes| - 1], x); }
  }

  lemma {:induction false} ThreadsAfter(nodes: seq<Node>, i: nat, n: Node)
    requires i < |nodes| && n.threads == nodes[i].threads
    ensures AllThreads(nodes[i := n]) == AllThreads(nodes)
    ensures n.completed == nodes[i].completed ==> CompletedThreads(nodes[i := n]) == CompletedThreads(nodes)
    ensures n.completed && !nodes[i].completed ==>
      CompletedThreads(nodes[i := n]) == CompletedThreads(nodes) + n.threads <= AllThreads(nodes)
    decreases |nodes|
  {
    var k := |nodes| - 1;
    CompletedAtMostAll(nodes[..k]);
    if i < k {
      ThreadsAfter(nodes[..k], i, n);
      assert nodes[i := n][..k] == nodes[..k][i := n];
    } else {
      assert nodes[i := n][..k] == nodes[..k];
    }
  }

  lemma RoomStays(g: Share, h: Share, nodes: seq<Node>, i: nat, n: Node, most: nat)
    requires RoomButOne(g, nodes, most) && i < |nodes| && n.threads == nodes[i].threads
    requires h.incr == g.incr && h.end == g.end && h.chunkSize == g.chunkSize
    ensures RoomButOne(h, nodes[i := n], most)
  {
    ThreadsAfter(nodes, i, n);
    var ms := nodes[i := n];
    forall j | 0 <= j < |ms| ensures HasRoom(h, most + AllThreads(ms) - ms[j].threads) {
      assert HasRoom(g, most + AllThreads(nodes) - nodes[j].threads);
    }
  }

  lemma {:induction false} CompletedAtMostAll(nodes: seq<Node>)
    ensures CompletedThreads(nodes) <= AllThreads(nodes)
    decreases |nodes|
  {
    if nodes != [] { CompletedAtMostAll(nodes[..|nodes| - 1]); }
  }

  // ------------------------------------------------------------------
  // Every step keeps the invariant
  // ------------------------------------------------------------------

  lemma StartInv(s: State, first: int, chunk: nat, most: nat)
    requires Start(s, first, chunk) && IsLong(s.global.chunkSize)
    requires s.global.mode ==> RoomButOne(s.global, s.nodes, most)
    ensures Inv(s, first, chunk, most)
  {
    var g := s.global;
    AlignedStart(first, g.incr);
    SignedTimes(chunk, g.incr);
    TimesMonotone(1, chunk, Abs(g.incr));
    if g.mode { TimesMonotone(1, most + CompletedThreads(s.nodes), Up(g.incr, g.chunkSize)); }
    forall x ensures Conserved(s, first, x) {
      HeldNothing(g.incr, s.nodes, x);
    }
  }

  /** Only node i and the phase of one of its threads differ, and node i is not
      locked afterwards unless it was. */
  ghost predicate Local(s: State, r: State, t: nat) {
    && t < |s.threads| && s.threads[t].node < |s.nodes| == |r.nodes|
    && r.global.incr == s.global.incr && r.global.end == s.global.end
    && r.global.chunkSize == s.global.chunkSize && r.global.mode == s.global.mode
    && Up(s.global.incr, s.global.next) <= Up(s.global.incr, r.global.next)
    && |r.threads| == |s.threads|
    && r.threads == s.threads[t := s.threads[t].(phase := r.threads[t].phase)]
    && var i := s.threads[t].node;
    r.nodes == s.nodes[i := r.nodes[i].(threads := s.nodes[i].threads)]
      && (s.nodes[i].completed ==> r.nodes[i].completed)
  }

  /** The other threads of a node whose lock is free are not swapping. */
  ghost predicate LockHeld(s: State, t: nat)
    requires t < |s.threads| && s.threads[t].node < |s.nodes|
  {
    s.threads[t].phase.Swapping? || (s.threads[t].phase.Ready? && !s.nodes[s.threads[t].node].locked)
  }

  /** No other thread of the node is affected by what the lock holder does. */
  lemma OthersKeep(s: State, first: int, chunk: nat, most: nat, t: nat, r: State)
    requires Inv(s, first, chunk, most) && Local(s, r, t) && LockHeld(s, t)
    requires ThreadOk(r, first, t) && NodeOk(r, first, s.threads[t].node)
    requires var i := s.threads[t].node;
      s.nodes[i].completed && s.nodes[i].next == s.nodes[i].end ==> r.nodes[i].next == r.nodes[i].end
    ensures forall u :: ThreadOk(r, first, u)
    ensures forall u, v :: Alone(r, u, v)
    ensures forall i :: NodeOk(r, first, i)
  {
    forall u ensures ThreadOk(r, first, u) {
      assert ThreadOk(s, first, u) && ThreadOk(s, first, t) && Alone(s, t, u);
    }
    forall u, v ensures Alone(r, u, v) {
      assert Alone(s, u, v) && ThreadOk(s, first, u) && ThreadOk(s, first, v) && ThreadOk(s, first, t);
    }
    forall i ensures NodeOk(r, first, i) { assert NodeOk(s, first, i); }
  }

  /** A thread takes a block from its node. */
  lemma TakeKeeps(s: State, first: int, chunk: nat, most: nat, t: nat)
    requires Inv(s, first, chunk, most) && t < |s.threads| && s.threads[t].node < |s.nodes|
    requires s.threads[t].phase.Ready? && !s.nodes[s.threads[t].node].locked
    requires s.nodes[s.threads[t].node].next != s.nodes[s.threads[t].node].end
    ensures Inv(TakeFrom(s, t, s.nodes[s.threads[t].node]), first, chunk, most)
  {
    var r := TakeFrom(s, t, s.nodes[s.threads[t].node]);
    TakenNode(s, first, chunk, most, t);
    assert ThreadOk(r, first, t);
    OthersKeep(s, first, chunk, most, t, r);
    forall x ensures Conserved(r, first, x) { TakenConserved(s, first, t, x); }
    forall k ensures BlockOk(r, first, k) { assert BlockOk(s, first, k); }
  }

  lemma TakenNode(s: State, first: int, chunk: nat, most: nat, t: nat)
    requires GlobalOk(s, first, chunk, most) && t < |s.threads| && s.threads[t].node < |s.nodes|
    requires NodeOk(s, first, s.threads[t].node) && !s.nodes[s.threads[t].node].locked
    requires s.nodes[s.threads[t].node].next != s.nodes[s.threads[t].node].end
    ensures var r := TakeFrom(s, t, s.nodes[s.threads[t].node]);
      NodeOk(r, first, s.threads[t].node) && GlobalOk(r, first, chunk, most)
    ensures var n := s.nodes[s.threads[t].node];
      && Up(s.global.incr, n.next) <= Up(s.global.incr, TakeFrom(s, t, n).nodes[s.threads[t].node].next)
      && Aligned(first, s.global.incr, n.next)
      && Up(s.global.incr, TakeFrom(s, t, n).nodes[s.threads[t].node].next) <= Up(s.global.incr, n.end)
  {
    var g, i := s.global, s.threads[t].node;
    var n := s.nodes[i];
    CutOk(g.incr, n.end, n.next, g.chunkSize, g.chunkSize);
    AlignedStep(first, g.incr, n.next, chunk);
    ThreadsAfter(s.nodes, i, TakeFrom(s, t, n).nodes[i]);
    if g.mode { RoomStays(g, g, s.nodes, i, TakeFrom(s, t, n).nodes[i], most); }
  }

  lemma TakenConserved(s: State, first: int, t: nat, x: int)
    requires t < |s.threads| && s.threads[t].node < |s.nodes| && Conserved(s, first, x)
    requires var n := s.nodes[s.threads[t].node]; var e := TakeFrom(s, t, n).nodes[s.threads[t].node].next;
      Up(s.global.incr, n.next) <= Up(s.global.incr, e) <= Up(s.global.incr, n.end)
    ensures Conserved(TakeFrom(s, t, s.nodes[s.threads[t].node]), first, x)
  {
    var g, i := s.global, s.threads[t].node;
    var n := s.nodes[i];
    var r := TakeFrom(s, t, n);
    var e := r.nodes[i].next;
    CoveringSnoc(g.incr, s.given, (n.next, e), x);
    BlockSplits(g.incr, n.next, e, n.end, x);
    HeldAfter(g.incr, s.nodes, i, r.nodes[i], x);
  }

  /** The state after the front of the global share up to e has gone to the node
      of thread t, which still has to take its block from there. */
  function Refilled(s: State, t: nat, gnext: int, e: int): State
    requires t < |s.threads| && s.threads[t].node < |s.nodes|
  {
    var i := s.threads[t].node;
    s.(global := s.global.(next := gnext),
       nodes := s.nodes[i := s.nodes[i].(next := s.global.next, end := e, locked := false)],
       threads := s.threads[t := s.threads[t].(phase := Ready)])
  }

  lemma RefillKeeps(s: State, first: int, chunk: nat, most: nat, t: nat, gnext: int, e: int)
    requires Inv(s, first, chunk, most) && t < |s.threads| && s.threads[t].node < |s.nodes| && LockHeld(s, t)
    requires var n := s.nodes[s.threads[t].node]; n.next == n.end && !n.completed
    requires var g := s.global;
      && Up(g.incr, g.next) < Up(g.incr, e) <= Up(g.incr, g.end) && IsLong(e)
      && Up(g.incr, e) <= Up(g.incr, gnext) && Front(g.(next := gnext)) == e
    requires GlobalOk(Refilled(s, t, gnext, e), first, chunk, most)
    ensures Inv(Refilled(s, t, gnext, e), first, chunk, most)
  {
    var g, i := s.global, s.threads[t].node;
    var r := Refilled(s, t, gnext, e);
    assert NodeOk(s, first, i);
    OthersKeep(s, first, chunk, most, t, r);
    forall x ensures Conserved(r, first, x) {
      assert Conserved(s, first, x);
      BlockSplits(g.incr, g.next, e, g.end, x);
      HeldAfter(g.incr, s.nodes, i, r.nodes[i], x);
    }
    forall k ensures BlockOk(r, first, k) { assert BlockOk(s, first, k); }
  }

  /** The global share is used up; gnext is what its counter then says. */
  lemma CompleteKeeps(s: State, first: int, chunk: nat, most: nat, t: nat, gnext: int)
    requires Inv(s, first, chunk, most) && t < |s.threads| && s.threads[t].node < |s.nodes| && LockHeld(s, t)
    requires var n := s.nodes[s.threads[t].node]; n.next == n.end && !n.completed
    requires Up(s.global.incr, s.global.end) <= Up(s.global.incr, s.global.next) <= Up(s.global.incr, gnext)
    requires GlobalOk(Complete(s.(global := s.global.(next := gnext)), t), first, chunk, most)
    ensures Inv(Complete(s.(global := s.global.(next := gnext)), t), first, chunk, most)
  {
    var g, i := s.global, s.threads[t].node;
    var r := Complete(s.(global := g.(next := gnext)), t);
    assert NodeOk(s, first, i);
    OthersKeep(s, first, chunk, most, t, r);
    forall x ensures Conserved(r, first, x) {
      assert Conserved(s, first, x);
      HeldAfter(g.incr, s.nodes, i, r.nodes[i], x);
    }
    forall k ensures BlockOk(r, first, k) { assert BlockOk(s, first, k); }
  }

  /** A thread changes its phase and perhaps takes the lock. */
  lemma PhaseKeeps(s: State, first: int, chunk: nat, most: nat, t: nat, r: State)
    requires Inv(s, first, chunk, most) && Local(s, r, t) && LockHeld(s, t)
    requires r.global == s.global && r.given == s.given
    requires r.nodes[s.threads[t].node] == s.nodes[s.threads[t].node].(locked := r.nodes[s.threads[t].node].locked)
    requires ThreadOk(r, first, t) && NodeOk(r, first, s.threads[t].node)
    ensures Inv(r, first, chunk, most)
  {
    var g, i := s.global, s.threads[t].node;
    OthersKeep(s, first, chunk, most, t, r);
    ThreadsAfter(s.nodes, i, r.nodes[i]);
    if g.mode { RoomStays(g, g, s.nodes, i, r.nodes[i], most); }
    forall x ensures Conserved(r, first, x) {
      assert Conserved(s, first, x);
      HeldAfter(g.incr, s.nodes, i, r.nodes[i], x);
    }
    forall k ensures BlockOk(r, first, k) { assert BlockOk(s, first, k); }
  }

  lemma NodeChunkUp(g: Share, n: Node)
    requires Up(g.incr, g.chunkSize) > 0 && n.threads > 0
    ensures Up(g.incr, NodeChunk(g, n)) == Times(n.threads, Up(g.incr, g.chunkSize)) > 0
  {
    TimesMonotone(1, n.threads, Up(g.incr, g.chunkSize));
  }

  /** A node that adds once more finds room enough. */
  ghost predicate AddHasRoom(s: State, most: nat, i: nat)
    requires i < |s.nodes|
  {
    HasRoom(s.global, most + CompletedThreads(s.nodes) + s.nodes[i].threads)
  }

  /** Every node adds beyond the end at most once, so the sum stays a long. */
  lemma AddFits(s: State, first: int, chunk: nat, most: nat, i: nat)
    requires Inv(s, first, chunk, most) && s.global.mode && i < |s.nodes| && !s.nodes[i].completed
    requires Up(s.global.incr, s.global.next) < Up(s.global.incr, s.global.end) || AddHasRoom(s, most, i)
    ensures var g := s.global; var c := Up(g.incr, g.chunkSize);
      var v := Up(g.incr, g.next) + Times(s.nodes[i].threads, c);
      && v <= Up(g.incr, g.end) - 1 + Times(most + CompletedThreads(s.nodes) + s.nodes[i].threads, c)
      && (Up(g.incr, g.next) < Up(g.incr, g.end) ==>
        v <= Up(g.incr, g.end) - 1 + Times(most + CompletedThreads(s.nodes), c))
    ensures IsLong(s.global.next + NodeChunk(s.global, s.nodes[i]))
  {
    var g, n := s.global, s.nodes[i];
    var c, k := Up(g.incr, g.chunkSize), CompletedThreads(s.nodes);
    assert NodeOk(s, first, i);
    NodeChunkUp(g, n);
    ThreadsAfter(s.nodes, i, n.(completed := true));
    TimesAdds(most + k, n.threads, c);
    TimesMonotone(n.threads, most + k, c);
    if Up(g.incr, g.next) < Up(g.incr, g.end) { TimesMonotone(most + k, most + AllThreads(s.nodes) - n.threads, c); }
  }

  /** While another node is still to add, there is room. */
  lemma RoomForOne(s: State, first: int, chunk: nat, most: nat, i: nat, j: nat)
    requires GlobalOk(s, first, chunk, most) && s.global.mode && i < |s.nodes| && !s.nodes[i].completed
    requires j < |s.nodes| && j != i && !s.nodes[j].completed
    ensures AddHasRoom(s, most, i)
  {
    var k := CompletedThreads(s.nodes);
    var ms := s.nodes[i := s.nodes[i].(completed := true)];
    ThreadsAfter(s.nodes, i, ms[i]);
    ThreadsAfter(ms, j, ms[j].(completed := true));
    TimesMonotone(most + k + s.nodes[i].threads, most + AllThreads(s.nodes) - s.nodes[j].threads,
                  Up(s.global.incr, s.global.chunkSize));
  }

  lemma RoomForAll(s: State, first: int, chunk: nat, most: nat, i: nat)
    requires GlobalOk(s, first, chunk, most) && s.global.mode && i < |s.nodes| && !s.nodes[i].completed
    requires HasRoom(s.global, most + AllThreads(s.nodes))
    ensures AddHasRoom(s, most, i)
  {
    var k := CompletedThreads(s.nodes);
    ThreadsAfter(s.nodes, i, s.nodes[i].(completed := true));
    TimesMonotone(most + k + s.nodes[i].threads, most + AllThreads(s.nodes), Up(s.global.incr, s.global.chunkSize));
  }

  lemma AddCompletes(s: State, first: int, chunk: nat, most: nat, t: nat)
    requires Inv(s, first, chunk, most) && t < |s.threads| && s.threads[t].node < |s.nodes| && s.threads[t].phase.Ready?
    requires s.global.mode && Up(s.global.incr, s.global.next) >= Up(s.global.incr, s.global.end)
    requires var n := s.nodes[s.threads[t].node]; n.next == n.end && !n.completed && !n.locked
    requires AddHasRoom(s, most, s.threads[t].node)
    ensures var gnext := s.global.next + NodeChunk(s.global, s.nodes[s.threads[t].node]);
      IsLong(gnext) && Inv(Complete(s.(global := s.global.(next := gnext)), t), first, chunk, most)
  {
    var g, i := s.global, s.threads[t].node;
    var n, c := s.nodes[i], Up(s.global.incr, s.global.chunkSize);
    assert NodeOk(s, first, i);
    AddFits(s, first, chunk, most, i);
    NodeChunkUp(g, n);
    ThreadsAfter(s.nodes, i, n.(completed := true, locked := false));
    RoomStays(g, g.(next := g.next + NodeChunk(g, n)), s.nodes, i, n.(completed := true, locked := false), most);
    CompleteKeeps(s, first, chunk, most, t, g.next + NodeChunk(g, n));
  }

  lemma AddRefills(s: State, first: int, chunk: nat, most: nat, t: nat)
    requires Inv(s, first, chunk, most) && t < |s.threads| && s.threads[t].node < |s.nodes| && s.threads[t].phase.Ready?
    requires s.global.mode && Up(s.global.incr, s.global.next) < Up(s.global.incr, s.global.end)
    requires var n := s.nodes[s.threads[t].node]; n.next == n.end && !n.completed && !n.locked
    ensures var gnext := s.global.next + NodeChunk(s.global, s.nodes[s.threads[t].node]);
      var e := if Up(s.global.incr, gnext) > Up(s.global.incr, s.global.end) then s.global.end else gnext;
      && IsLong(gnext) && Up(s.global.incr, s.global.next) < Up(s.global.incr, e)
      && Inv(Refilled(s, t, gnext, e), first, chunk, most)
  {
    var g, i := s.global, s.threads[t].node;
    var n := s.nodes[i];
    var gnext := g.next + NodeChunk(g, n);
    var e := if Up(g.incr, gnext) > Up(g.incr, g.end) then g.end else gnext;
    assert NodeOk(s, first, i);
    AddFits(s, first, chunk, most, i);
    NodeChunkUp(g, n);
    NodeAligned(g, n, first, chunk);
    AddedGlobal(s, first, chunk, most, t, gnext, e);
    RefillKeeps(s, first, chunk, most, t, gnext, e);
  }

  lemma AddedGlobal(s: State, first: int, chunk: nat, most: nat, t: nat, gnext: int, e: int)
    requires GlobalOk(s, first, chunk, most) && s.global.mode && t < |s.threads| && s.threads[t].node < |s.nodes|
    requires IsLong(gnext) && Up(s.global.incr, s.global.next) <= Up(s.global.incr, gnext)
    requires Up(s.global.incr, gnext)
      <= Up(s.global.incr, s.global.end) - 1
        + Times(most + CompletedThreads(s.nodes), Up(s.global.incr, s.global.chunkSize))
    requires Aligned(first, s.global.incr, gnext)
    ensures GlobalOk(Refilled(s, t, gnext, e), first, chunk, most)
  {
    var i := s.threads[t].node;
    var n := s.nodes[i].(next := s.global.next, end := e, locked := false);
    ThreadsAfter(s.nodes, i, n);
    RoomStays(s.global, s.global.(next := gnext), s.nodes, i, n, most);
  }

  /** A refill of a whole node chunk leaves the counter on an iteration. */
  lemma NodeAligned(g: Share, n: Node, first: int, chunk: nat)
    requires Aligned(first, g.incr, g.next) && g.chunkSize == Times(chunk, g.incr)
    ensures Aligned(first, g.incr, g.next + NodeChunk(g, n))
  {
    TimesAssoc(n.threads, chunk, g.incr);
    AlignedStep(first, g.incr, g.next, n.threads * chunk);
  }

  lemma AddTakes(s: State, first: int, chunk: nat, most: nat, t: nat)
    requires Inv(s, first, chunk, most) && t < |s.threads| && s.threads[t].node < |s.nodes| && s.threads[t].phase.Ready?
    requires s.global.mode && Up(s.global.incr, s.global.next) < Up(s.global.incr, s.global.end)
    requires var n := s.nodes[s.threads[t].node]; n.next == n.end && !n.completed && !n.locked
    ensures var n := s.nodes[s.threads[t].node]; var gnext := s.global.next + NodeChunk(s.global, n);
      var e := if Up(s.global.incr, gnext) > Up(s.global.incr, s.global.end) then s.global.end else gnext;
      && IsLong(gnext)
      && Inv(TakeFrom(s.(global := s.global.(next := gnext)), t, n.(next := s.global.next, end := e)), first, chunk,
        most)
  {
    var gnext := s.global.next + NodeChunk(s.global, s.nodes[s.threads[t].node]);
    var e := if Up(s.global.incr, gnext) > Up(s.global.incr, s.global.end) then s.global.end else gnext;
    AddRefills(s, first, chunk, most, t);
    TakeKeeps(Refilled(s, t, gnext, e), first, chunk, most, t);
    TakeAfterRefill(s, t, gnext, e);
  }

  lemma AddKeeps(s: State, first: int, chunk: nat, most: nat, t: nat, r: State)
    requires Inv(s, first, chunk, most) && Step(s, Add(t), r)
    requires Up(s.global.incr, s.global.next) >= Up(s.global.incr, s.global.end) ==>
      AddHasRoom(s, most, s.threads[t].node)
    ensures Inv(r, first, chunk, most)
  {
    AddKeepsAll(s, first, chunk, most, t);
    AddShape(s, t, r, s.global.next + NodeChunk(s.global, s.nodes[s.threads[t].node]));
  }

  /** What an addition that does not wrap leads to. */
  function AddResult(s: State, t: nat, gnext: int): State
    requires t < |s.threads| && s.threads[t].node < |s.nodes|
  {
    var g, s' := s.global, s.(global := s.global.(next := gnext));
    if Up(g.incr, g.next) >= Up(g.incr, g.end) then Complete(s', t)
    else
      var e := if Up(g.incr, gnext) > Up(g.incr, g.end) then g.end else gnext;
      TakeFrom(s', t, s.nodes[s.threads[t].node].(next := g.next, end := e))
  }

  lemma AddShape(s: State, t: nat, r: State, gnext: int)
    requires Step(s, Add(t), r) && IsLong(gnext)
    requires gnext == s.global.next + NodeChunk(s.global, s.nodes[s.threads[t].node])
    ensures r == AddResult(s, t, gnext)
  {
  }

  lemma AddKeepsAll(s: State, first: int, chunk: nat, most: nat, t: nat)
    requires Inv(s, first, chunk, most) && t < |s.threads| && s.threads[t].node < |s.nodes| && s.threads[t].phase.Ready?
    requires var n := s.nodes[s.threads[t].node];
      s.global.mode && n.next == n.end && !n.completed && !n.locked
    requires Up(s.global.incr, s.global.next) >= Up(s.global.incr, s.global.end) ==>
      AddHasRoom(s, most, s.threads[t].node)
    ensures var gnext := s.global.next + NodeChunk(s.global, s.nodes[s.threads[t].node]);
      IsLong(gnext) && Inv(AddResult(s, t, gnext), first, chunk, most)
  {
    if Up(s.global.incr, s.global.next) >= Up(s.global.incr, s.global.end) {
      AddCompletes(s, first, chunk, most, t);
    } else {
      AddTakes(s, first, chunk, most, t);
    }
  }

  /** Refilling and taking in one critical section. */
  lemma TakeAfterRefill(s: State, t: nat, gnext: int, e: int)
    requires t < |s.threads| && s.threads[t].node < |s.nodes|
    ensures var i := s.threads[t].node; var p := Refilled(s, t, gnext, e);
      TakeFrom(p, t, p.nodes[i]) ==
        TakeFrom(s.(global := s.global.(next := gnext)), t, s.nodes[i].(next := s.global.next, end := e))
  {
  }

  lemma SwapRefills(s: State, first: int, chunk: nat, most: nat, t: nat, c: int)
    requires Inv(s, first, chunk, most) && t < |s.threads| && s.threads[t].node < |s.nodes|
    requires s.threads[t].phase == Swapping(s.global.next, c) && s.global.next != s.global.end
    ensures var e := Wrap(s.global.next + Cut(s.global.incr, s.global.end, s.global.next, c));
      Up(s.global.incr, s.global.next) < Up(s.global.incr, e) && Inv(Refilled(s, t, e, e), first, chunk, most)
  {
    var g, i := s.global, s.threads[t].node;
    var e := Wrap(g.next + Cut(g.incr, g.end, g.next, c));
    assert ThreadOk(s, first, t) && NodeOk(s, first, i);
    SwapBlock(g, s.nodes[i], first, chunk, c);
    SwappedGlobal(s, first, chunk, most, t, e);
    RefillKeeps(s, first, chunk, most, t, e, e);
  }

  /** What a successful exchange of the counter takes for node n. */
  lemma SwapBlock(g: Share, n: Node, first: int, chunk: nat, c: int)
    requires g.incr != 0 && IsLong(g.next) && IsLong(g.end) && IsLong(c) && Up(g.incr, g.next) < Up(g.incr, g.end)
    requires n.threads > 0 && Up(g.incr, g.chunkSize) > 0 && g.chunkSize == Times(chunk, g.incr)
    requires ChunkOk(g.incr, g.end, g.next, c, NodeChunk(g, n)) && Aligned(first, g.incr, g.next)
    ensures var e := Wrap(g.next + Cut(g.incr, g.end, g.next, c));
      && Up(g.incr, g.next) < Up(g.incr, e) <= Up(g.incr, g.end)
      && (e != g.end ==> Aligned(first, g.incr, e)) && (IsLong(g.end - g.next) || e == g.end)
      && ChunkOrRest(g.incr, g.end, g.next, NodeChunk(g, n), false, e)
  {
    NodeChunkUp(g, n);
    CutOk(g.incr, g.end, g.next, c, NodeChunk(g, n));
    NodeAligned(g, n, first, chunk);
  }

  lemma SwappedGlobal(s: State, first: int, chunk: nat, most: nat, t: nat, e: int)
    requires GlobalOk(s, first, chunk, most) && !s.global.mode && t < |s.threads| && s.threads[t].node < |s.nodes|
    requires IsLong(e) && Up(s.global.incr, s.global.next) <= Up(s.global.incr, e) <= Up(s.global.incr, s.global.end)
    requires e != s.global.end ==> Aligned(first, s.global.incr, e)
    requires IsLong(s.global.end - s.global.next) || e == s.global.end
    ensures GlobalOk(Refilled(s, t, e, e), first, chunk, most)
  {
  }

  lemma SwapTakes(s: State, first: int, chunk: nat, most: nat, t: nat, c: int)
    requires Inv(s, first, chunk, most) && t < |s.threads| && s.threads[t].node < |s.nodes|
    requires s.threads[t].phase == Swapping(s.global.next, c) && s.global.next != s.global.end
    ensures Inv(Swapped(s, t), first, chunk, most)
  {
    var e := Wrap(s.global.next + Cut(s.global.incr, s.global.end, s.global.next, c));
    SwapRefills(s, first, chunk, most, t, c);
    TakeKeeps(Refilled(s, t, e, e), first, chunk, most, t);
    TakeAfterRefill(s, t, e, e);
  }

  lemma SwapMisses(s: State, first: int, chunk: nat, most: nat, t: nat, start: int, c: int)
    requires Inv(s, first, chunk, most) && t < |s.threads| && s.threads[t].node < |s.nodes|
    requires s.threads[t].phase == Swapping(start, c) && start != s.global.end && s.global.next != start
    ensures Inv(Swapped(s, t), first, chunk, most)
  {
    var g, n := s.global, s.nodes[s.threads[t].node];
    assert ThreadOk(s, first, t) && NodeOk(s, first, s.threads[t].node);
    NodeChunkUp(g, n);
    CutOk(g.incr, g.end, start, c, NodeChunk(g, n));
    PhaseKeeps(s, first, chunk, most, t, Swapped(s, t));
  }

  lemma SwapEnds(s: State, first: int, chunk: nat, most: nat, t: nat, c: int)
    requires Inv(s, first, chunk, most) && t < |s.threads| && s.threads[t].node < |s.nodes|
    requires s.threads[t].phase == Swapping(s.global.end, c)
    ensures Inv(Swapped(s, t), first, chunk, most)
  {
    var i := s.threads[t].node;
    assert ThreadOk(s, first, t) && NodeOk(s, first, i);
    ThreadsAfter(s.nodes, i, s.nodes[i].(completed := true, locked := false));
    CompleteKeeps(s, first, chunk, most, t, s.global.next);
  }

  lemma SwapKeeps(s: State, first: int, chunk: nat, most: nat, t: nat)
    requires Inv(s, first, chunk, most) && t < |s.threads| && s.threads[t].node < |s.nodes|
    requires s.threads[t].phase.Swapping?
    ensures Inv(Swapped(s, t), first, chunk, most)
  {
    var Swapping(start, c) := s.threads[t].phase;
    if start == s.global.end {
      SwapEnds(s, first, chunk, most, t, c);
    } else if s.global.next == start {
      SwapTakes(s, first, chunk, most, t, c);
    } else {
      SwapMisses(s, first, chunk, most, t, start, c);
    }
  }

  /** The step is no addition beyond the end that could wrap the counter. */
  ghost predicate Roomy(s: State, e: Event, most: nat)
    requires e.t < |s.threads| && s.threads[e.t].node < |s.nodes|
  {
    e.Add? && Up(s.global.incr, s.global.next) >= Up(s.global.incr, s.global.end) ==>
      AddHasRoom(s, most, s.threads[e.t].node)
  }

  lemma StepKeeps(s: State, first: int, chunk: nat, most: nat, e: Event, r: State)
    requires Inv(s, first, chunk, most) && Step(s, e, r) && Roomy(s, e, most)
    ensures Inv(r, first, chunk, most)
  {
    var i := s.threads[e.t].node;
    assert NodeOk(s, first, i);
    match e {
      case TakeLocal(t) => TakeKeeps(s, first, chunk, most, t);
      case Refuse(t) => PhaseKeeps(s, first, chunk, most, t, r);
      case Add(t) => AddKeeps(s, first, chunk, most, t, r);
      case LoadGlobal(t) => PhaseKeeps(s, first, chunk, most, t, r);
      case Swap(t) => SwapKeeps(s, first, chunk, most, t);
    }
  }

  // ------------------------------------------------------------------
  // The last addition
  // ------------------------------------------------------------------

  /** The counter has come to the end, as far as any thread still cares. */
  function AtEnd(s: State): State {
    s.(global := s.global.(next := s.global.end))
  }

  /** No node looks at the counter any more, which may have wrapped. */
  ghost predicate Over(s: State, first: int, chunk: nat, most: nat) {
    && s.global.mode && Inv(AtEnd(s), first, chunk, most)
    && forall i {:trigger s.nodes[i]} :: 0 <= i < |s.nodes| ==> s.nodes[i].completed
  }

  ghost predicate Safe(s: State, first: int, chunk: nat, most: nat) {
    Inv(s, first, chunk, most) || Over(s, first, chunk, most)
  }

  lemma EndIsEnough(s: State, first: int, chunk: nat, most: nat)
    requires Inv(s, first, chunk, most) && s.global.mode
    requires Up(s.global.incr, s.global.end) <= Up(s.global.incr, s.global.next)
    ensures Inv(AtEnd(s), first, chunk, most)
  {
    var r, g := AtEnd(s), s.global;
    TimesMonotone(1, most + CompletedThreads(s.nodes), Up(g.incr, g.chunkSize));
    forall i | 0 <= i < |s.nodes| ensures HasRoom(r.global, most + AllThreads(s.nodes) - s.nodes[i].threads) {
      assert HasRoom(g, most + AllThreads(s.nodes) - s.nodes[i].threads);
    }
    forall x ensures Conserved(r, first, x) { assert Conserved(s, first, x); }
    forall i ensures NodeOk(r, first, i) { assert NodeOk(s, first, i); }
    forall t ensures ThreadOk(r, first, t) { assert ThreadOk(s, first, t); }
    forall t, u ensures Alone(r, t, u) { assert Alone(s, t, u); }
    forall k ensures BlockOk(r, first, k) { assert BlockOk(s, first, k); }
  }

  /** The one addition that may wrap is that of the last node. */
  lemma LastAdd(s: State, first: int, chunk: nat, most: nat, t: nat, r: State)
    requires Inv(s, first, chunk, most) && Step(s, Add(t), r)
    requires Up(s.global.incr, s.global.next) >= Up(s.global.incr, s.global.end)
    requires !AddHasRoom(s, most, s.threads[t].node)
    ensures Over(r, first, chunk, most)
  {
    var i, g := s.threads[t].node, s.global;
    forall j | 0 <= j < |s.nodes| && j != i ensures s.nodes[j].completed {
      if !s.nodes[j].completed { RoomForOne(s, first, chunk, most, i, j); }
    }
    EndIsEnough(s, first, chunk, most);
    assert NodeOk(s, first, i);
    EndCompletes(AtEnd(s), first, chunk, most, t);
    assert AtEnd(r) == Complete(AtEnd(s), t);
  }

  lemma EndCompletes(s: State, first: int, chunk: nat, most: nat, t: nat)
    requires Inv(s, first, chunk, most) && s.global.mode && s.global.next == s.global.end
    requires t < |s.threads| && s.threads[t].node < |s.nodes| && s.threads[t].phase.Ready?
    requires var n := s.nodes[s.threads[t].node]; n.next == n.end && !n.completed && !n.locked
    ensures Inv(Complete(s, t), first, chunk, most)
  {
    var g, i := s.global, s.threads[t].node;
    var n := s.nodes[i].(completed := true, locked := false);
    ThreadsAfter(s.nodes, i, n);
    RoomStays(g, g, s.nodes, i, n, most);
    TimesMonotone(1, most + CompletedThreads(s.nodes[i := n]), Up(g.incr, g.chunkSize));
    CompleteKeeps(s, first, chunk, most, t, g.next);
  }

  /** Once all nodes are completed, only what is left in them is handed out. */
  lemma OverKeeps(s: State, first: int, chunk: nat, most: nat, e: Event, r: State)
    requires Over(s, first, chunk, most) && Step(s, e, r)
    ensures Over(r, first, chunk, most)
  {
    var q := AtEnd(s);
    assert NodeOk(q, first, s.threads[e.t].node) && ThreadOk(q, first, e.t);
    assert Step(q, e, AtEnd(r));
    StepKeeps(q, first, chunk, most, e, AtEnd(r));
  }

  lemma SafeKeeps(s: State, first: int, chunk: nat, most: nat, e: Event, r: State)
    requires Safe(s, first, chunk, most) && Step(s, e, r)
    ensures Safe(r, first, chunk, most)
  {
    if !Inv(s, first, chunk, most) {
      OverKeeps(s, first, chunk, most, e, r);
    } else if Roomy(s, e, most) {
      StepKeeps(s, first, chunk, most, e, r);
    } else {
      LastAdd(s, first, chunk, most, e.t, r);
    }
  }

  // ------------------------------------------------------------------
  // One call, undisturbed
  // ------------------------------------------------------------------

  class NodeShare {
    const ws: WorkShare
    const global: WorkShare
    const threadsPerNode: nat
    var threadsCompleted: bool

    constructor (ws: WorkShare, global: WorkShare, threadsPerNode: nat)
      ensures this.ws == ws && this.global == global && this.threadsPerNode == threadsPerNode && !threadsCompleted
    {
      this.ws, this.global, this.threadsPerNode, threadsCompleted := ws, global, threadsPerNode, false;
    }

    ghost predicate Valid()
      reads this, ws, global
    {
      && ws != global && ws.Valid() && threadsPerNode > 0
      && global.incr == ws.incr && IsLong(global.next) && IsLong(global.end)
      && (!global.mode ==> Up(global.incr, global.next) <= Up(global.incr, global.end))
      && (threadsCompleted ==> global.Front() == global.end)
    }

    /** How often x is still to be handed out to this node. */
    ghost function Left(x: int): nat
      reads this, ws, global
    {
      LeftIn(Value(Ready, []), x)
    }

    /** The shares as they are between the steps of the one thread of the node, which has
        been given `blocks` so far. */
    ghost function Value(phase: Phase, blocks: seq<Block>): State
      reads this, ws, global
    {
      State(Share(global.next, global.end, ws.incr, ws.chunkSize, global.mode),
            [Node(ws.next, ws.end, threadsPerNode, threadsCompleted, false)], [Thread(0, phase)], blocks)
    }

    /** hierarchy_next_dynamic: a non-empty block that leaves the shares, or the
        news that both are empty. */
    method NextDynamic() returns (ok: bool, pstart: int, pend: int)
      requires Valid() && IsLong(Times(threadsPerNode, ws.chunkSize))
      requires global.mode ==> IsLong(global.next + Times(threadsPerNode, ws.chunkSize))
      modifies this`threadsCompleted, ws`next, ws`end, global`next
      ensures Valid()
      ensures ok <==> old(ws.next) != old(ws.end) || (!old(threadsCompleted) && old(global.Front()) != global.end)
      ensures ok ==> Up(ws.incr, pstart) < Up(ws.incr, pend)
      ensures forall x :: Left(x) + Covering(ws.incr, if ok then [(pstart, pend)] else [], x) == old(Left(x))
      ensures CallGives(old(Value(Ready, [])), Value(if ok then Ready else Out, if ok then [(pstart, pend)] else []))
    {
      ghost var s := Value(Ready, []);
      ok, pstart, pend := ws.DynamicNextLocked(ws.chunkSize);
      if !ok && !threadsCompleted {
        ok := Replenish();
        if ok {
          ok, pstart, pend := ws.DynamicNextLocked(ws.chunkSize);
        } else {
          threadsCompleted := true;
        }
      }
      CallConserves(s, Value(if ok then Ready else Out, if ok then [(pstart, pend)] else []));
    }

    /** The part of hierarchy_next_dynamic that refills the empty share of the node. */
    method Replenish() returns (ok: bool)
      requires Valid() && ws.next == ws.end && IsLong(Times(threadsPerNode, ws.chunkSize))
      requires global.mode ==> IsLong(global.next + Times(threadsPerNode, ws.chunkSize))
      modifies ws`next, ws`end, global`next
      ensures Valid() && (ok <==> old(global.Front()) != global.end)
      ensures if ok then
          ws.next == old(global.Front()) && global.Front() == ws.end && Up(ws.incr, ws.next) < Up(ws.incr, ws.end)
        else ws.next == old(ws.next) && ws.end == old(ws.end) && global.Front() == global.end
      ensures ok ==>
        ChunkOrRest(ws.incr, global.end, ws.next, Times(threadsPerNode, ws.chunkSize), global.mode, ws.end)
      ensures global.next == if global.mode then old(global.next) + Times(threadsPerNode, ws.chunkSize)
        else if ok then ws.end else old(global.next)
      ensures Up(ws.incr, Times(threadsPerNode, ws.chunkSize)) > 0
    {
      var chunk := Times(threadsPerNode, ws.chunkSize);
      TimesMonotone(1, threadsPerNode, Up(ws.incr, ws.chunkSize));
      var s, e;
      ok, s, e := global.DynamicNextRaw(chunk);
      if ok {
        ws.next, ws.end := s, e;
      }
    }
  }

  /** What a call by a thread that nobody disturbs does: the block is a chunk from the
      front of the node's share, or the rest of that share; an empty share is first
      refilled with a chunk for every thread of the node, or the rest of the loop. */
  ghost predicate CallGives(s: State, r: State) {
    && |s.nodes| == |r.nodes| == 1
    && var g, n, n' := s.global, s.nodes[0], r.nodes[0];
       && r.global == g.(next := r.global.next) && n' == n.(next := n'.next, end := n'.end, completed := n'.completed)
       && if n.next != n.end then FrontTaken(s, r, n.next) && n'.end == n.end && r.global.next == g.next
          else if !n.completed && Front(g) != g.end then
            && FrontTaken(s, r, g.next)
            && ChunkOrRest(g.incr, g.end, g.next, Times(n.threads, g.chunkSize), g.mode, n'.end)
            && r.global.next == if g.mode then g.next + Times(n.threads, g.chunkSize) else n'.end
          else
            && r.threads == [Thread(0, Out)] && r.given == [] && n' == n.(completed := true)
            && r.global.next == if g.mode && !n.completed then g.next + Times(n.threads, g.chunkSize) else g.next
  }

  /** How often x is still to be handed out in a state with one node. */
  ghost function LeftIn(s: State, x: int): nat
    requires |s.nodes| == 1
  {
    var g, n := s.global, s.nodes[0];
    One(In(g.incr, n.next, n.end, x)) + One(In(g.incr, Front(g), g.end, x))
  }

  lemma CallConserves(s: State, r: State)
    requires CallGives(s, r)
    requires var g, n, n' := s.global, s.nodes[0], r.nodes[0];
      && Up(g.incr, n.next) <= Up(g.incr, n.end) && Up(g.incr, n'.next) <= Up(g.incr, n'.end)
      && (n.next != n.end ==> Up(g.incr, n.next) <= Up(g.incr, n'.next))
      && (n.next == n.end && !n.completed && Front(g) != g.end ==>
            Up(g.incr, g.next) <= Up(g.incr, n'.next) && Front(r.global) == n'.end
            && Up(g.incr, n'.end) <= Up(g.incr, g.end))
      && (n.next == n.end && (n.completed || Front(g) == g.end) ==> Front(r.global) == Front(g))
    ensures forall x :: LeftIn(r, x) + Covering(s.global.incr, r.given, x) == LeftIn(s, x)
  {
    var g, n, n' := s.global, s.nodes[0], r.nodes[0];
    forall x ensures LeftIn(r, x) + Covering(g.incr, r.given, x) == LeftIn(s, x) {
      if n.next != n.end {
        OneCovers(g.incr, n.next, n'.next, x);
        BlockSplits(g.incr, n.next, n'.next, n.end, x);
      } else if !n.completed && Front(g) != g.end {
        OneCovers(g.incr, g.next, n'.next, x);
        BlockSplits(g.incr, g.next, n'.next, n'.end, x);
        BlockSplits(g.incr, g.next, n'.end, g.end, x);
      }
    }
  }

  lemma OneCovers(incr: int, a: int, b: int, x: int)
    ensures Covering(incr, [(a, b)], x) == One(In(incr, a, b, x))
  {
    assert [] + [(a, b)] == [(a, b)];
    CoveringSnoc(incr, [], (a, b), x);
  }

  /** The thread gets the first chunk of the node's share from `front` on. */
  ghost predicate FrontTaken(s: State, r: State, front: int)
    requires |r.nodes| == |s.nodes| == 1
  {
    var n' := r.nodes[0];
    && r.threads == [Thread(0, Ready)] && r.given == [(front, n'.next)] && n'.completed == s.nodes[0].completed
    && ChunkOrRest(s.global.incr, n'.end, front, s.global.chunkSize, false, n'.next)
  }

  /** A step on the node's share, or the addition to the global counter, or its load
      and exchange. */
  ghost predicate OneCall(s: State, r: State) {
    || Step(s, TakeLocal(0), r) || Step(s, Refuse(0), r) || Step(s, Add(0), r)
    || exists m :: Step(s, LoadGlobal(0), m) && Step(m, Swap(0), r)
  }

  /** One thread of one node, with nothing given. */
  ghost predicate Single(s: State) {
    && s.threads == [Thread(0, Ready)] && |s.nodes| == 1 && !s.nodes[0].locked && s.given == []
    && s.global.incr != 0 && IsLong(s.global.end) && IsLong(s.global.next) && IsLong(s.global.chunkSize)
    && Up(s.global.incr, s.global.chunkSize) > 0
  }

  /** The result of a call that gives the block b and leaves the node with share n. */
  ghost function Gave(s: State, gnext: int, n: Node, b: Block): State {
    s.(global := s.global.(next := gnext), nodes := [n.(next := b.1)], given := [b])
  }

  lemma LocalCall(s: State, pend: int)
    requires Single(s)
    requires var g, n := s.global, s.nodes[0];
      && IsLong(n.next) && IsLong(n.end) && Up(g.incr, n.next) < Up(g.incr, n.end)
      && ChunkOrRest(g.incr, n.end, n.next, g.chunkSize, false, pend)
    ensures var n := s.nodes[0]; OneCall(s, Gave(s, s.global.next, n, (n.next, pend)))
  {
    var g, n := s.global, s.nodes[0];
    ChunkIsCut(g.incr, n.end, n.next, g.chunkSize, pend);
    assert Step(s, TakeLocal(0), Gave(s, g.next, n, (n.next, pend)));
  }

  /** The node's share is empty and the global one is not, and a refill goes up to e. */
  ghost predicate Refills(s: State, e: int, pend: int) {
    && Single(s)
    && var g, n := s.global, s.nodes[0];
       var c := NodeChunk(g, n);
       && n.next == n.end && !n.completed && Up(g.incr, g.next) < Up(g.incr, g.end)
       && IsLong(c) && Up(g.incr, c) > 0 && (g.mode ==> IsLong(g.next + c))
       && ChunkOrRest(g.incr, g.end, g.next, c, g.mode, e) && IsLong(e) && Up(g.incr, g.next) < Up(g.incr, e)
       && ChunkOrRest(g.incr, e, g.next, g.chunkSize, false, pend)
  }

  lemma RefillCall(s: State, e: int, pend: int)
    requires Refills(s, e, pend)
    ensures var g, n := s.global, s.nodes[0];
      OneCall(s, Gave(s, if g.mode then g.next + NodeChunk(g, n) else e, n.(end := e), (g.next, pend)))
  {
    if s.global.mode { AddCall(s, e, pend); } else { SwapCall(s, e, pend); }
  }

  lemma AddCall(s: State, e: int, pend: int)
    requires Refills(s, e, pend) && s.global.mode
    ensures var g, n := s.global, s.nodes[0];
      Step(s, Add(0), Gave(s, g.next + NodeChunk(g, n), n.(end := e), (g.next, pend)))
  {
    var g := s.global;
    ChunkIsCut(g.incr, e, g.next, g.chunkSize, pend);
    AddedCall(s, e, pend);
  }

  lemma AddedCall(s: State, e: int, pend: int)
    requires Single(s) && s.global.mode
    requires var g, n := s.global, s.nodes[0]; var gnext := g.next + NodeChunk(g, n);
      && n.next == n.end && !n.completed && Up(g.incr, g.next) < Up(g.incr, g.end) && IsLong(gnext)
      && e == (if Up(g.incr, gnext) > Up(g.incr, g.end) then g.end else gnext)
      && pend == Wrap(g.next + Cut(g.incr, e, g.next, g.chunkSize))
    ensures var g, n := s.global, s.nodes[0];
      Step(s, Add(0), Gave(s, g.next + NodeChunk(g, n), n.(end := e), (g.next, pend)))
  {
    var g, n := s.global, s.nodes[0];
    AddedIsGiven(s, g.next + NodeChunk(g, n), e, pend);
  }

  lemma AddedIsGiven(s: State, gnext: int, e: int, pend: int)
    requires Single(s)
    requires var g := s.global; pend == Wrap(g.next + Cut(g.incr, e, g.next, g.chunkSize))
    ensures var g, n := s.global, s.nodes[0];
      Gave(s, gnext, n.(end := e), (g.next, pend)) ==
        TakeFrom(s.(global := g.(next := gnext)), 0, n.(next := g.next, end := e))
  {
  }

  lemma SwapCall(s: State, e: int, pend: int)
    requires Refills(s, e, pend) && !s.global.mode
    ensures OneCall(s, Gave(s, e, s.nodes[0].(end := e), (s.global.next, pend)))
  {
    var g, n := s.global, s.nodes[0];
    var c := NodeChunk(g, n);
    ChunkIsCut(g.incr, e, g.next, g.chunkSize, pend);
    ChunkIsCut(g.incr, g.end, g.next, c, e);
    var m := LoadedCall(s);
    SwappedCall(s, m, e, pend);
    assert Step(m, Swap(0), Gave(s, e, n.(end := e), (g.next, pend)));
  }

  lemma SwappedCall(s: State, m: State, e: int, pend: int)
    requires Single(s)
    requires var g, n := s.global, s.nodes[0]; var c := NodeChunk(g, n);
      && m == s.(nodes := [n.(locked := true)], threads := [Thread(0, Swapping(g.next, c))])
      && n.next == n.end && g.next != g.end
      && e == Wrap(g.next + Cut(g.incr, g.end, g.next, c))
      && pend == Wrap(g.next + Cut(g.incr, e, g.next, g.chunkSize))
    ensures Swapped(m, 0) == Gave(s, e, s.nodes[0].(end := e), (s.global.next, pend))
  {
  }

  /** A call that nobody disturbs is one of the steps of the protocol, or the two of an
      exchange. */
  lemma CallIsStep(s: State, r: State)
    requires Single(s) && CallGives(s, r)
    requires var g, n := s.global, s.nodes[0]; var c := NodeChunk(g, n);
      && IsLong(n.next) && IsLong(n.end) && Up(g.incr, n.next) <= Up(g.incr, n.end)
      && IsLong(c) && Up(g.incr, c) > 0
      && if g.mode then IsLong(g.next + c) else Up(g.incr, g.next) <= Up(g.incr, g.end)
    ensures OneCall(s, r)
  {
    var g, n, n' := s.global, s.nodes[0], r.nodes[0];
    if n.next != n.end {
      LocalCall(s, n'.next);
    } else if !n.completed && Front(g) != g.end {
      RefillCall(s, n'.end, n'.next);
      assert r == Gave(s, r.global.next, n.(end := n'.end), (g.next, n'.next));
    } else if !n.completed {
      EndCall(s);
    } else {
      assert Step(s, Refuse(0), r);
    }
  }

  lemma LoadedCall(s: State) returns (m: State)
    requires Single(s) && !s.global.mode && s.nodes[0].next == s.nodes[0].end && !s.nodes[0].completed
    ensures Step(s, LoadGlobal(0), m)
    ensures var g, n := s.global, s.nodes[0];
      m == s.(nodes := [n.(locked := true)], threads := [Thread(0, Swapping(g.next, NodeChunk(g, n)))])
  {
    var g, n := s.global, s.nodes[0];
    m := s.(nodes := [n.(locked := true)], threads := [Thread(0, Swapping(g.next, NodeChunk(g, n)))]);
  }

  lemma EndCall(s: State)
    requires Single(s)
    requires var g, n := s.global, s.nodes[0];
      && n.next == n.end && !n.completed && Up(g.incr, g.next) >= Up(g.incr, g.end) && (!g.mode ==> g.next == g.end)
      && (g.mode ==> IsLong(g.next + NodeChunk(g, n)))
    ensures var g, n := s.global, s.nodes[0];
      var r := s.(global := g.(next := if g.mode then g.next + NodeChunk(g, n) else g.next),
                  nodes := [n.(completed := true)], threads := [Thread(0, Out)]);
      OneCall(s, r)
  {
    var g, n := s.global, s.nodes[0];
    var r := s.(global := g.(next := if g.mode then g.next + NodeChunk(g, n) else g.next),
                nodes := [n.(completed := true)], threads := [Thread(0, Out)]);
    if g.mode {
      assert Step(s, Add(0), r);
    } else {
      var m := LoadedCall(s);
      assert Step(m, Swap(0), r);
    }
  }

  // ------------------------------------------------------------------
  // Whole runs
  // ------------------------------------------------------------------

  ghost predicate Execution(ss: seq<State>, es: seq<Event>, first: int, chunk: nat) {
    && |ss| == |es| + 1 && Start(ss[0], first, chunk) && IsLong(ss[0].global.chunkSize)
    && forall i {:trigger es[i]} :: 0 <= i < |es| ==> Step(ss[i], es[i], ss[i + 1])
  }

  /** A run of a loop from `first`. In the fetch-and-add mode the nodes must leave
      the global counter room enough; hierarchy.c does not check that. */
  ghost predicate Run(ss: seq<State>, es: seq<Event>, first: int, chunk: nat, most: nat) {
    && Execution(ss, es, first, chunk)
    && (ss[0].global.mode ==> RoomButOne(ss[0].global, ss[0].nodes, most))
  }

  lemma {:induction false} RunSafe(ss: seq<State>, es: seq<Event>, first: int, chunk: nat, most: nat, i: nat)
    requires Run(ss, es, first, chunk, most) && i <= |es|
    ensures Safe(ss[i], first, chunk, most)
  {
    if i == 0 {
      StartInv(ss[0], first, chunk, most);
    } else {
      RunSafe(ss, es, first, chunk, most, i - 1);
      assert Step(ss[i - 1], es[i - 1], ss[i]);
      SafeKeeps(ss[i - 1], first, chunk, most, es[i - 1], ss[i]);
    }
  }

  /** The state as far as the threads still care. */
  ghost function Seen(s: State, first: int, chunk: nat, most: nat): State {
    if Over(s, first, chunk, most) then AtEnd(s) else s
  }

  lemma SeenInv(s: State, first: int, chunk: nat, most: nat)
    requires Safe(s, first, chunk, most)
    ensures var q := Seen(s, first, chunk, most);
      && Inv(q, first, chunk, most) && q.given == s.given && q.nodes == s.nodes && q.threads == s.threads
      && q.global.incr == s.global.incr && q.global.end == s.global.end
  {
  }

  /** In every run no value of the loop is handed out twice, and none outside it. */
  lemma NoneTwice(ss: seq<State>, es: seq<Event>, first: int, chunk: nat, most: nat, i: nat, x: int)
    requires Run(ss, es, first, chunk, most) && i <= |es|
    ensures Covering(ss[i].global.incr, ss[i].given, x) <= One(In(ss[i].global.incr, first, ss[i].global.end, x))
  {
    RunSafe(ss, es, first, chunk, most, i);
    SeenInv(ss[i], first, chunk, most);
    assert Conserved(Seen(ss[i], first, chunk, most), first, x);
  }

  /** Once a thread of every node has received false, every value of the loop has
      been handed out exactly once, and iteration k is run by the thread whose
      block holds it. */
  lemma ExactlyOnce(ss: seq<State>, es: seq<Event>, first: int, chunk: nat, most: nat, i: nat, k: nat)
    requires Run(ss, es, first, chunk, most) && i <= |es| && ss[i].nodes != []
    requires forall n: nat :: n < |ss[i].nodes| ==> Refused(ss[i], n)
    ensures var g := ss[i].global; var x := first + Times(k, g.incr);
      Up(g.incr, x) < Up(g.incr, g.end) ==>
        && Covering(g.incr, ss[i].given, x) == 1
        && exists j :: 0 <= j < |ss[i].given| && RunsIn(g.incr, ss[i].given[j], x)
  {
    RunSafe(ss, es, first, chunk, most, i);
    SeenInv(ss[i], first, chunk, most);
    var q := Seen(ss[i], first, chunk, most);
    forall n: nat | n < |q.nodes| ensures Refused(q, n) {
      assert Refused(ss[i], n);
      var t :| RefusedAt(ss[i], n, t);
      assert RefusedAt(q, n, t);
    }
    AllGiven(q, first, chunk, most, k);
  }

  lemma AllGiven(s: State, first: int, chunk: nat, most: nat, k: nat)
    requires Inv(s, first, chunk, most) && s.nodes != [] && forall n: nat :: n < |s.nodes| ==> Refused(s, n)
    ensures var g := s.global; var x := first + Times(k, g.incr);
      Up(g.incr, x) < Up(g.incr, g.end) ==>
        && Covering(g.incr, s.given, x) == 1
        && exists j :: 0 <= j < |s.given| && RunsIn(g.incr, s.given[j], x)
  {
    var g, x := s.global, first + Times(k, s.global.incr);
    forall n | 0 <= n < |s.nodes|
      ensures s.nodes[n].next == s.nodes[n].end && s.nodes[n].completed
    {
      assert Refused(s, n);
      var t :| RefusedAt(s, n, t);
      assert ThreadOk(s, first, t);
    }
    assert NodeOk(s, first, 0) && Conserved(s, first, x);
    HeldNothing(g.incr, s.nodes, x);
    if Up(g.incr, x) < Up(g.incr, g.end) {
      SignedTimes(k, g.incr);
      var j := CoveredBy(g.incr, s.given, x);
      assert BlockOk(s, first, j);
      var m: nat :| IterationIs(first, g.incr, m, s.given[j].0);
      StepsBetween(first, g.incr, m, k, s.given[j]);
    }
  }

  /** Some thread of node n has received false. */
  ghost predicate Refused(s: State, n: nat) {
    exists t :: RefusedAt(s, n, t)
  }

  ghost predicate RefusedAt(s: State, n: nat, t: int) {
    0 <= t < |s.threads| && s.threads[t].phase.Out? && s.threads[t].node == n
  }

  // ------------------------------------------------------------------
  // The check made by hierarchy.c is too weak
  // ------------------------------------------------------------------

  lemma Longer(ss: seq<State>, es: seq<Event>, first: int, chunk: nat, e: Event, r: State)
    requires Execution(ss, es, first, chunk) && Step(ss[|es|], e, r)
    ensures Execution(ss + [r], es + [e], first, chunk)
  {
    forall i | 0 <= i < |es + [e]|
      ensures Step((ss + [r])[i], (es + [e])[i], (ss + [r])[i + 1])
    {
      if i < |es| { assert Step(ss[i], es[i], ss[i + 1]); }
    }
  }

  const WEAK_END: int := LONG_MAX - 18

  /** Three nodes of sixteen threads and a loop with one value left; two additions
      wrap the counter and the third reads it. */
  function WeakState(k: nat): State
    requires k <= 3
  {
    var first := WEAK_END - 1;
    var g, n := Share(first, WEAK_END, 1, 1, true), Node(first, first, 16, false, false);
    var full, done := n.(next := WEAK_END, end := WEAK_END), n.(completed := true);
    var a, b, c := Thread(0, Ready), Thread(1, Ready), Thread(2, Ready);
    var x := first + 32 - TWO64;
    if k == 0 then State(g, [n, n, n], [a, b, c], [])
    else if k == 1 then State(g.(next := first + 16), [full, n, n], [a, b, c], [(first, WEAK_END)])
    else if k == 2 then State(g.(next := x), [full, done, n], [a, Thread(1, Out), c], [(first, WEAK_END)])
    else State(g.(next := x + 16), [full, done, n.(next := x + 1, end := x + 16)], [a, Thread(1, Out), c],
               [(first, WEAK_END)] + [(x, x + 1)])
  }

  lemma WeakStart()
    ensures var s := WeakState(0);
      && Start(s, WEAK_END - 1, 1) && IsLong(s.global.chunkSize) && s.global.mode && RoomToAdd(1, s.global.end, 1, 16)
      && forall n | 0 <= n < |s.nodes| :: s.nodes[n].threads == 16
  {
  }

  lemma WeakGiven()
    ensures var s, first := WeakState(3), WEAK_END - 1; var x := first + 32 - TWO64;
      Covering(1, s.given, x) == 1 && !In(1, first, s.global.end, x)
  {
    var first := WEAK_END - 1;
    var x := first + 32 - TWO64;
    CoveringSnoc(1, [(first, WEAK_END)], (x, x + 1), x);
    CoveringSnoc(1, [], (first, WEAK_END), x);
  }

  lemma WeakRefill()
    ensures Step(WeakState(0), Add(0), WeakState(1))
  {
    var s, r := WeakState(0), WeakState(1);
    assert r.threads == s.threads[0 := Thread(0, Ready)] && r.nodes == s.nodes[0 := r.nodes[0]];
  }

  lemma WeakWrap()
    ensures Step(WeakState(1), Add(1), WeakState(2))
  {
    var s, r := WeakState(1), WeakState(2);
    assert r.threads == s.threads[1 := Thread(1, Out)] && r.nodes == s.nodes[1 := r.nodes[1]];
  }

  lemma WeakRead()
    ensures Step(WeakState(2), Add(2), WeakState(3))
  {
    var s, r := WeakState(2), WeakState(3);
    assert r.threads == s.threads[2 := Thread(2, Ready)] && r.nodes == s.nodes[2 := r.nodes[2]];
  }

  /** Three nodes of sixteen threads pass the overflow check made for one node; the
      second refill past the end wraps the counter, and the third node then hands
      out a value that is not in the loop. */
  lemma GuardTooWeak() returns (ss: seq<State>, es: seq<Event>, first: int, x: int)
    ensures Execution(ss, es, first, 1)
    ensures forall n | 0 <= n < |ss[0].nodes| :: ss[0].nodes[n].threads == 16
    ensures ss[0].global.mode && RoomToAdd(1, ss[0].global.end, 1, 16)
    ensures Covering(1, ss[|es|].given, x) == 1 && !In(1, first, ss[|es|].global.end, x)
  {
    first, x := WEAK_END - 1, WEAK_END - 1 + 32 - TWO64;
    WeakStart();
    ss, es := [WeakState(0)], [];
    WeakRefill();
    Longer(ss, es, first, 1, Add(0), WeakState(1));
    ss, es := ss + [WeakState(1)], es + [Add(0)];
    WeakWrap();
    Longer(ss, es, first, 1, Add(1), WeakState(2));
    ss, es := ss + [WeakState(2)], es + [Add(1)];
    WeakRead();
    Longer(ss, es, first, 1, Add(2), WeakState(3));
    ss, es := ss + [WeakState(3)], es + [Add(2)];
    WeakGiven();
  }
}
