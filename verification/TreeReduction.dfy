/** The two-level tree reduction of lib/libopenpop/hierarchy.c: the first thread of
    a node to arrive collects the data of the others through shared slots, and the
    first node leader to finish collects the data of the other leaders. Each event
    is one atomic access, but for taking a full slot: its load, the combination and the
    store that clears it are one event, as only the collecting thread changes a full
    slot. Rounds are separated by a barrier. */
module TreeReduction {
  import opened FiniteSets
  import opened Popcorn

  const REDUCTION_ENTRIES := 48

  /** What a thread does in hierarchy_reduce. A thread that is Placed has returned
      false with its data in a slot; one that is Done has returned `won`. */
  datatype Phase =
    | Arriving
    | Placing(ticket: nat)
    | Placed(slot: nat)
    | Gathering(reduced: nat)
    | GlobalGathering(reduced: nat)
    | GlobalPlacing
    | Cleaning(won: bool)
    | Done(won: bool)

  /** `parts` lists the threads whose contributions the data of this thread
      combines, in order; `taken` data has been combined into another thread's. */
  datatype Thread = Thread(node: nat, phase: Phase, taken: bool, parts: seq<nat>)

  /** A slot holds the number of a thread or -1. `leaders` and `winner` remember
      who was selected in this round. */
  datatype Team = Team(threads: seq<Thread>, remaining: seq<int>, slots: seq<seq<int>>, leaders: seq<int>,
                       globalRemaining: int, globalSlots: seq<int>, winner: int)

  datatype Event =
    | Arrive(t: nat)
    | Place(t: nat)
    | Collect(t: nat, slot: nat)
    | Elect(t: nat)
    | Publish(t: nat)
    | CollectGlobal(t: nat, node: nat)
    | Finish(t: nat)
    | Clean(t: nat)
    | Barrier

  // ------------------------------------------------------------------
  // Sets of threads and nodes
  // ------------------------------------------------------------------

  ghost function Members(threads: seq<Thread>, n: nat): set<nat> {
    set t: nat | t < |threads| && threads[t].node == n
  }

  /** The threads of node n that have not arrived. */
  ghost function Coming(threads: seq<Thread>, n: nat): set<nat> {
    set t: nat | t < |threads| && threads[t].node == n && threads[t].phase.Arriving?
  }

  /** The threads of node n whose data the leader of the node has taken. */
  ghost function Merged(threads: seq<Thread>, n: nat): set<nat> {
    set t: nat | t < |threads| && threads[t].node == n && threads[t].phase.Placed? && threads[t].taken
  }

  ghost function Nodes(threads: seq<Thread>): set<nat> {
    set n: nat | n < MAX_POPCORN_NODES && Members(threads, n) != {}
  }

  predicate Elected(p: Phase) {
    p.GlobalGathering? || p.GlobalPlacing? || p.Cleaning? || p.Done?
  }

  predicate Leads(p: Phase) {
    p.Gathering? || Elected(p)
  }

  predicate Wins(p: Phase) {
    p.GlobalGathering? || (p.Cleaning? && p.won) || (p.Done? && p.won)
  }

  /** The leader of a node that left its data in the global slot of the node. */
  predicate Leaves(p: Phase) {
    (p.Cleaning? && !p.won) || (p.Done? && !p.won)
  }

  ghost predicate HasElected(s: Team, n: nat) {
    n < |s.leaders| && 0 <= s.leaders[n] < |s.threads| && Elected(s.threads[s.leaders[n]].phase)
  }

  ghost predicate LeaderTaken(s: Team, n: nat) {
    n < |s.leaders| && 0 <= s.leaders[n] < |s.threads| && s.threads[s.leaders[n]].taken
  }

  /** The nodes whose leaders have not yet taken part in the global election. */
  ghost function Awaited(s: Team): set<nat> {
    set n: nat | n < MAX_POPCORN_NODES && n in Nodes(s.threads) && !HasElected(s, n)
  }

  ghost function GlobalMerged(s: Team): set<nat> {
    set n: nat | n < MAX_POPCORN_NODES && LeaderTaken(s, n)
  }

  // ------------------------------------------------------------------
  // The steps
  // ------------------------------------------------------------------

  function SetPhase(s: Team, t: nat, p: Phase): Team
    requires t < |s.threads|
  {
    s.(threads := s.threads[t := s.threads[t].(phase := p)])
  }

  /** Thread t combines its data with that of thread u. */
  function Merge(threads: seq<Thread>, t: nat, u: nat, p: Phase): seq<Thread>
    requires t < |threads| && u < |threads|
  {
    threads[u := threads[u].(taken := true)][t := threads[t].(phase := p, parts := threads[t].parts + threads[u].parts)]
  }

  ghost predicate Shaped(s: Team) {
    && |s.remaining| == |s.slots| == |s.leaders| == |s.globalSlots| == MAX_POPCORN_NODES
    && (forall t :: 0 <= t < |s.threads| ==> s.threads[t].node < MAX_POPCORN_NODES)
    && (forall n :: 0 <= n < MAX_POPCORN_NODES ==> |s.slots[n]| == REDUCTION_ENTRIES)
  }

  ghost function Num(s: Team, n: nat): nat {
    |Members(s.threads, n)|
  }

  ghost function GlobalNum(s: Team): nat {
    |Nodes(s.threads)|
  }

  ghost predicate Returned(p: Phase) {
    p.Placed? || p.Done?
  }

  function Rearmed(threads: seq<Thread>): seq<Thread> {
    seq(|threads|, t requires 0 <= t < |threads| => Thread(threads[t].node, Arriving, false, [t]))
  }

  ghost predicate Step(s: Team, e: Event, r: Team) {
    && Shaped(s)
    && if e.Barrier? then
         && (forall t :: 0 <= t < |s.threads| ==> Returned(s.threads[t].phase))
         && r == s.(threads := Rearmed(s.threads), leaders := seq(MAX_POPCORN_NODES, _ => -1), winner := -1)
       else
         && e.t < |s.threads| && ThreadStep(s, e, r)
  }

  ghost predicate ThreadStep(s: Team, e: Event, r: Team)
    requires Shaped(s) && !e.Barrier? && e.t < |s.threads|
  {
    var t := e.t;
    var n, p := s.threads[t].node, s.threads[t].phase;
    match e
    // select_leader_optimistic on the node
    case Arrive(_) =>
      && p.Arriving? && s.remaining[n] > 0
      && var s' := s.(remaining := s.remaining[n := s.remaining[n] - 1]);
      if s.remaining[n] == Num(s, n) then r == SetPhase(s', t, Gathering(1)).(leaders := s.leaders[n := t])
      else r == SetPhase(s', t, Placing(s.remaining[n] - 1))
    // the successful compare-and-exchange of hierarchy_reduce_local
    case Place(_) =>
      && p.Placing?
      && var j := p.ticket % REDUCTION_ENTRIES;
      s.slots[n][j] == -1 && r == SetPhase(s, t, Placed(j)).(slots := s.slots[n := s.slots[n][j := t]])
    // one full slot of the local loop of hierarchy_reduce_leader
    case Collect(_, j) =>
      && p.Gathering? && j < REDUCTION_ENTRIES && j < Num(s, n) && 0 <= s.slots[n][j] < |s.threads|
      && r == s.(threads := Merge(s.threads, t, s.slots[n][j], Gathering(p.reduced + 1)),
                 slots := s.slots[n := s.slots[n][j := -1]])
    // the end of the local loop and select_leader_optimistic on the whole system
    case Elect(_) =>
      && p.Gathering? && p.reduced >= Num(s, n)
      && var s' := s.(globalRemaining := s.globalRemaining - 1);
      if s.globalRemaining == GlobalNum(s) then r == SetPhase(s', t, GlobalGathering(1)).(winner := t)
      else r == SetPhase(s', t, GlobalPlacing)
    case Publish(_) =>
      && p.GlobalPlacing?
      && r == SetPhase(s, t, Cleaning(false)).(globalSlots := s.globalSlots[n := t])
    // one full slot of the global loop
    case CollectGlobal(_, m) =>
      && p.GlobalGathering? && m < MAX_POPCORN_NODES && m in Nodes(s.threads) && 0 <= s.globalSlots[m] < |s.threads|
      && r == s.(threads := Merge(s.threads, t, s.globalSlots[m], GlobalGathering(p.reduced + 1)),
                 globalSlots := s.globalSlots[m := -1])
    // the end of the global loop and the cleanup of the global selector
    case Finish(_) =>
      && p.GlobalGathering? && p.reduced >= GlobalNum(s)
      && r == SetPhase(s, t, Cleaning(true)).(globalRemaining := GlobalNum(s))
    // the cleanup of the node's selector, and the return
    case Clean(_) =>
      p.Cleaning? && r == SetPhase(s, t, Done(p.won)).(remaining := s.remaining[n := Num(s, n)])
  }

  ghost predicate Init(s: Team) {
    && Shaped(s) && s.threads == Rearmed(s.threads)
    && s.leaders == seq(MAX_POPCORN_NODES, _ => -1) && s.winner == -1
    && (forall n {:trigger s.remaining[n]} :: 0 <= n < MAX_POPCORN_NODES ==> s.remaining[n] == Num(s, n))
    && s.globalRemaining == GlobalNum(s)
    && (forall n {:trigger s.slots[n]} :: 0 <= n < MAX_POPCORN_NODES ==> s.slots[n] == seq(REDUCTION_ENTRIES, _ => -1))
    && s.globalSlots == seq(MAX_POPCORN_NODES, _ => -1)
  }

  // ------------------------------------------------------------------
  // The invariant
  // ------------------------------------------------------------------

  /** The leader of the node has taken the data of every other thread. */
  ghost predicate Settled(s: Team, n: nat, leader: int) {
    forall t: nat :: t in Members(s.threads, n) ==> t == leader || t in Merged(s.threads, n)
  }

  /** The winner has taken the data of every other leader. */
  ghost predicate GlobalSettled(s: Team, own: nat) {
    forall n: nat :: n in Nodes(s.threads) ==> n == own || n in GlobalMerged(s)
  }

  ghost predicate ThreadOk(s: Team, t: int)
    requires Shaped(s)
  {
    0 <= t < |s.threads| ==>
      var n, p := s.threads[t].node, s.threads[t].phase;
      && (Leads(p) <==> s.leaders[n] == t)
      && (Wins(p) <==> s.winner == t)
      && (s.threads[t].taken ==> p.Placed? || Leaves(p))
      && (p.Placing? ==> p.ticket + 2 <= Num(s, n))
      && (p.Placed? ==> p.slot < REDUCTION_ENTRIES && p.slot < Num(s, n))
      && (p.Placed? && !s.threads[t].taken ==> s.slots[n][p.slot] == t)
      && (p.Gathering? ==> p.reduced == 1 + |Merged(s.threads, n)|)
      && (Elected(p) ==> Settled(s, n, t))
      && (p.GlobalGathering? ==> p.reduced == 1 + |GlobalMerged(s)|)
      && (Leaves(p) && !s.threads[t].taken ==> s.globalSlots[n] == t)
      && (Wins(p) && !p.GlobalGathering? ==> GlobalSettled(s, n))
  }

  ghost predicate SlotOk(s: Team, n: nat, j: int)
    requires Shaped(s) && n < MAX_POPCORN_NODES
  {
    0 <= j < REDUCTION_ENTRIES && s.slots[n][j] != -1 ==>
      var u := s.slots[n][j];
      0 <= u < |s.threads| && s.threads[u].node == n && s.threads[u].phase == Placed(j) && !s.threads[u].taken
  }

  /** The selector of a node is re-armed by its leader once all have arrived. */
  ghost predicate NodeOk(s: Team, n: nat)
    requires Shaped(s)
  {
    n < MAX_POPCORN_NODES ==>
      var l := s.leaders[n];
      && (l == -1 || (0 <= l < |s.threads| && s.threads[l].node == n))
      && (l == -1 <==> Coming(s.threads, n) == Members(s.threads, n))
      && s.remaining[n] == (if l != -1 && s.threads[l].phase.Done? then Num(s, n) else |Coming(s.threads, n)|)
      && (forall j :: SlotOk(s, n, j))
      && var g := s.globalSlots[n];
      g == -1 || (g == l && l != -1 && Leaves(s.threads[l].phase) && !s.threads[l].taken)
  }

  ghost predicate GlobalOk(s: Team) {
    && (s.winner == -1 || 0 <= s.winner < |s.threads|)
    && (s.winner == -1 <==> Awaited(s) == Nodes(s.threads))
    && s.globalRemaining ==
         (if s.winner != -1 && !s.threads[s.winner].phase.GlobalGathering? then GlobalNum(s) else |Awaited(s)|)
  }

  ghost function Occurrences(ids: seq<nat>, x: nat): nat {
    multiset(ids)[x]
  }

  /** How often the data of a thread, if still its own, combines contribution x. */
  ghost function Part(th: Thread, x: nat): nat {
    if th.taken then 0 else Occurrences(th.parts, x)
  }

  ghost function Live(threads: seq<Thread>, x: nat): nat {
    if threads == [] then 0 else Live(threads[..|threads| - 1], x) + Part(threads[|threads| - 1], x)
  }

  ghost predicate ConservedAt(s: Team, x: nat) {
    Live(s.threads, x) == if x < |s.threads| then 1 else 0
  }

  /** Every contribution is in exactly one place. */
  ghost predicate Conserved(s: Team) {
    forall x: nat :: ConservedAt(s, x)
  }

  ghost predicate Inv(s: Team) {
    && Shaped(s) && GlobalOk(s) && Conserved(s)
    && (forall t :: ThreadOk(s, t)) && (forall n: nat :: NodeOk(s, n))
  }

  // ------------------------------------------------------------------
  // What a change of threads does to the sets
  // ------------------------------------------------------------------

  lemma PhaseSets(s: Team, t: nat, p: Phase)
    requires t < |s.threads| && !p.Arriving? && !s.threads[t].phase.Placed?
    requires p.Placed? ==> !s.threads[t].taken
    ensures var ts := s.threads[t := s.threads[t].(phase := p)];
      && Nodes(ts) == Nodes(s.threads)
      && forall m: nat {:trigger Members(ts, m)} {:trigger Coming(ts, m)} {:trigger Merged(ts, m)} ::
           && Members(ts, m) == Members(s.threads, m) && Merged(ts, m) == Merged(s.threads, m)
           && Coming(ts, m) == Coming(s.threads, m) - {t}
  {
    var ts := s.threads[t := s.threads[t].(phase := p)];
    forall m: nat
      ensures Members(ts, m) == Members(s.threads, m) && Merged(ts, m) == Merged(s.threads, m)
      ensures Coming(ts, m) == Coming(s.threads, m) - {t}
    {
    }
    assert forall m: nat :: Members(ts, m) != {} <==> Members(s.threads, m) != {};
  }

  lemma MergeSets(threads: seq<Thread>, t: nat, u: nat, p: Phase)
    requires t < |threads| && u < |threads| && t != u && Leads(p) && Leads(threads[t].phase)
      && !threads[u].phase.Arriving?
    ensures var ts := Merge(threads, t, u, p);
      && Nodes(ts) == Nodes(threads)
      && forall m: nat {:trigger Members(ts, m)} {:trigger Coming(ts, m)} {:trigger Merged(ts, m)} ::
           && Members(ts, m) == Members(threads, m) && Coming(ts, m) == Coming(threads, m)
           && Merged(ts, m) == Merged(threads, m)
             + (if threads[u].phase.Placed? && threads[u].node == m then {u} else {})
  {
    var ts := Merge(threads, t, u, p);
    forall m: nat
      ensures Members(ts, m) == Members(threads, m) && Coming(ts, m) == Coming(threads, m)
      ensures Merged(ts, m) == Merged(threads, m)
        + (if threads[u].phase.Placed? && threads[u].node == m then {u} else {})
    {
    }
    assert forall m: nat :: Members(ts, m) != {} <==> Members(threads, m) != {};
  }

  lemma {:induction false} LiveAfter(threads: seq<Thread>, t: nat, th: Thread, x: nat)
    requires t < |threads|
    ensures Live(threads[t := th], x) + Part(threads[t], x) == Live(threads, x) + Part(th, x)
    decreases |threads|
  {
    var k := |threads| - 1;
    if t < k {
      LiveAfter(threads[..k], t, th, x);
      assert threads[t := th][..k] == threads[..k][t := th];
    } else {
      assert threads[t := th][..k] == threads[..k];
    }
  }

  lemma PhaseConserves(s: Team, r: Team, t: nat)
    requires Conserved(s) && t < |s.threads| == |r.threads|
      && r.threads == s.threads[t := s.threads[t].(phase := r.threads[t].phase)]
    ensures Conserved(r)
  {
    forall x: nat ensures ConservedAt(r, x) {
      assert ConservedAt(s, x);
      LiveAfter(s.threads, t, r.threads[t], x);
    }
  }

  lemma MergeConserves(s: Team, r: Team, t: nat, u: nat, p: Phase)
    requires Conserved(s) && t < |s.threads| && u < |s.threads| && t != u && !s.threads[t].taken && !s.threads[u].taken
    requires r.threads == Merge(s.threads, t, u, p)
    ensures Conserved(r)
  {
    var th := s.threads[u].(taken := true);
    var w := s.threads[t].(phase := p, parts := s.threads[t].parts + s.threads[u].parts);
    forall x: nat ensures ConservedAt(r, x) {
      assert ConservedAt(s, x);
      LiveAfter(s.threads, u, th, x);
      LiveAfter(s.threads[u := th], t, w, x);
    }
  }

  // ------------------------------------------------------------------
  // What a step leaves alone
  // ------------------------------------------------------------------

  /** Thread u and everything its own conditions speak of are as before. */
  ghost predicate SameForThread(s: Team, r: Team, u: nat)
    requires Shaped(s) && Shaped(r)
  {
    && u < |s.threads| == |r.threads| && r.threads[u] == s.threads[u]
    && var n, p := s.threads[u].node, s.threads[u].phase;
    && (r.leaders[n] == u <==> s.leaders[n] == u) && (r.winner == u <==> s.winner == u)
    && Members(r.threads, n) == Members(s.threads, n) && Nodes(r.threads) == Nodes(s.threads)
    && Merged(s.threads, n) <= Merged(r.threads, n) && GlobalMerged(s) <= GlobalMerged(r)
    && (p.Gathering? ==> Merged(r.threads, n) == Merged(s.threads, n))
    && (p.GlobalGathering? ==> GlobalMerged(r) == GlobalMerged(s))
    && (p.Placed? && p.slot < REDUCTION_ENTRIES && s.slots[n][p.slot] == u ==> r.slots[n][p.slot] == u)
    && (s.globalSlots[n] == u ==> r.globalSlots[n] == u)
  }

  lemma SameThread(s: Team, r: Team, u: nat)
    requires Shaped(s) && Shaped(r) && SameForThread(s, r, u) && ThreadOk(s, u)
    ensures ThreadOk(r, u)
  {
  }

  /** Node m and everything its own conditions speak of are as before. */
  ghost predicate SameForNode(s: Team, r: Team, m: nat)
    requires Shaped(s) && Shaped(r)
  {
    && |s.threads| == |r.threads|
    && (m < MAX_POPCORN_NODES ==>
          && r.leaders[m] == s.leaders[m] && r.remaining[m] == s.remaining[m]
          && r.slots[m] == s.slots[m] && r.globalSlots[m] == s.globalSlots[m])
    && Members(r.threads, m) == Members(s.threads, m) && Coming(r.threads, m) == Coming(s.threads, m)
    && forall u {:trigger r.threads[u]} :: 0 <= u < |s.threads| && s.threads[u].node == m ==>
      r.threads[u] == s.threads[u]
  }

  lemma SameNode(s: Team, r: Team, m: nat)
    requires Shaped(s) && Shaped(r) && SameForNode(s, r, m) && NodeOk(s, m)
    ensures NodeOk(r, m)
  {
    if m < MAX_POPCORN_NODES {
      forall j ensures SlotOk(r, m, j) { assert SlotOk(s, m, j); }
    }
  }

  /** Only the phase of thread t changes among the threads, nobody is selected, and
      slots are at most filled. */
  ghost predicate PhaseChange(s: Team, r: Team, t: nat) {
    && Shaped(s) && Shaped(r) && t < |s.threads| == |r.threads|
    && !s.threads[t].phase.Placed? && !r.threads[t].phase.Arriving?
    && (r.threads[t].phase.Placed? ==> !s.threads[t].taken)
    && r.threads == s.threads[t := s.threads[t].(phase := r.threads[t].phase)]
    && r.leaders == s.leaders && (r.winner == s.winner || r.winner == t)
    && (Elected(s.threads[t].phase) ==> Elected(r.threads[t].phase))
    && (forall n, j :: 0 <= n < MAX_POPCORN_NODES && 0 <= j < REDUCTION_ENTRIES && s.slots[n][j] != -1 ==>
      r.slots[n][j] == s.slots[n][j])
    && (forall n :: 0 <= n < MAX_POPCORN_NODES && s.globalSlots[n] != -1 ==> r.globalSlots[n] == s.globalSlots[n])
    && var n := s.threads[t].node;
    r.remaining == s.remaining[n := r.remaining[n]] && r.slots == s.slots[n := r.slots[n]]
      && r.globalSlots == s.globalSlots[n := r.globalSlots[n]]
  }

  lemma PhaseOtherThread(s: Team, r: Team, t: nat, u: nat)
    requires PhaseChange(s, r, t) && u < |s.threads| && u != t && ThreadOk(s, u)
      && (r.winner == s.winner || s.winner == -1)
    requires GlobalMerged(r) == GlobalMerged(s)
    ensures SameForThread(s, r, u)
  {
    PhaseSets(s, t, r.threads[t].phase);
  }

  lemma PhaseOtherNode(s: Team, r: Team, t: nat, m: nat)
    requires PhaseChange(s, r, t) && m != s.threads[t].node
    ensures SameForNode(s, r, m)
  {
    PhaseSets(s, t, r.threads[t].phase);
    assert t !in Coming(s.threads, m);
  }

  /** Who is awaited changes only when a leader is elected. */
  lemma PhaseElections(s: Team, r: Team, t: nat)
    requires PhaseChange(s, r, t) && Inv(s)
    ensures GlobalMerged(r) == GlobalMerged(s) && Nodes(r.threads) == Nodes(s.threads)
    ensures Awaited(r) ==
      if Elected(r.threads[t].phase) && s.leaders[s.threads[t].node] == t then Awaited(s) - {s.threads[t].node}
      else Awaited(s)
  {
    PhaseSets(s, t, r.threads[t].phase);
    forall m: nat | m < MAX_POPCORN_NODES
      ensures LeaderTaken(r, m) <==> LeaderTaken(s, m)
      ensures HasElected(r, m) <==> HasElected(s, m) || (Elected(r.threads[t].phase) && s.leaders[m] == t)
      ensures s.leaders[m] == t ==> m == s.threads[t].node
    {
      assert NodeOk(s, m) && ThreadOk(s, t);
    }
  }

  lemma PhaseKeeps(s: Team, r: Team, t: nat)
    requires PhaseChange(s, r, t) && Inv(s) && (r.winner == s.winner || s.winner == -1)
    requires ThreadOk(r, t) && NodeOk(r, s.threads[t].node) && GlobalOk(r)
    ensures Inv(r)
  {
    PhaseElections(s, r, t);
    PhaseConserves(s, r, t);
    forall u ensures ThreadOk(r, u) {
      assert ThreadOk(s, u);
      if 0 <= u < |s.threads| && u != t {
        PhaseOtherThread(s, r, t, u);
        SameThread(s, r, u);
      }
    }
    forall m: nat ensures NodeOk(r, m) {
      assert NodeOk(s, m);
      if m < MAX_POPCORN_NODES && m != s.threads[t].node {
        PhaseOtherNode(s, r, t, m);
        SameNode(s, r, m);
      }
    }
  }

  // ------------------------------------------------------------------
  // Every step keeps the invariant
  // ------------------------------------------------------------------

  /** The selector of a node says `num` to the first thread to arrive and to it only. */
  lemma FirstToArrive(s: Team, t: nat)
    requires Inv(s) && t < |s.threads| && s.threads[t].phase.Arriving?
    ensures var n := s.threads[t].node;
      && s.remaining[n] == |Coming(s.threads, n)| > 0
      && (s.remaining[n] == Num(s, n) <==> s.leaders[n] == -1)
      && s.remaining[n] <= Num(s, n)
      && t in Members(s.threads, n) && t in Coming(s.threads, n)
  {
    var n := s.threads[t].node;
    assert NodeOk(s, n) && ThreadOk(s, s.leaders[n]);
    assert t in Members(s.threads, n) && t in Coming(s.threads, n);
    SubsetSmaller(Coming(s.threads, n), Members(s.threads, n));
    if s.leaders[n] != -1 && |Coming(s.threads, n)| == Num(s, n) {
      SubsetFull(Coming(s.threads, n), Members(s.threads, n));
    }
  }

  lemma ArrivedNode(s: Team, t: nat, r: Team)
    requires Inv(s) && t < |s.threads| && s.threads[t].phase.Arriving? && Shaped(r)
    requires var n := s.threads[t].node;
      && r.remaining == s.remaining[n := s.remaining[n] - 1] && r.slots == s.slots && r.globalSlots == s.globalSlots
      && (if s.leaders[n] == -1 then r.leaders == s.leaders[n := t]
        && r.threads == s.threads[t := s.threads[t].(phase := Gathering(1))]
          else r.leaders == s.leaders && exists k :: r.threads == s.threads[t := s.threads[t].(phase := Placing(k))])
    ensures NodeOk(r, s.threads[t].node)
  {
    var n := s.threads[t].node;
    FirstToArrive(s, t);
    PhaseSets(s, t, r.threads[t].phase);
    assert NodeOk(s, n) && ThreadOk(s, s.leaders[n]);
    forall j ensures SlotOk(r, n, j) { assert SlotOk(s, n, j); }
  }

  lemma NothingMerged(s: Team, n: nat)
    requires Inv(s) && n < MAX_POPCORN_NODES && s.leaders[n] == -1
    ensures Merged(s.threads, n) == {}
  {
    assert NodeOk(s, n);
    forall u: nat ensures u !in Merged(s.threads, n) {
      assert u in Members(s.threads, n) ==> u in Coming(s.threads, n);
    }
  }

  lemma ArriveFirst(s: Team, t: nat, r: Team)
    requires Inv(s) && t < |s.threads| && s.threads[t].phase.Arriving? && s.leaders[s.threads[t].node] == -1
    requires var n := s.threads[t].node;
      r == s.(remaining := s.remaining[n := s.remaining[n] - 1], leaders := s.leaders[n := t],
              threads := s.threads[t := s.threads[t].(phase := Gathering(1))])
    ensures Inv(r)
  {
    var n := s.threads[t].node;
    assert ThreadOk(s, t) && NodeOk(s, n) && Shaped(r);
    ArrivedNode(s, t, r);
    PhaseConserves(s, r, t);
    FirstGlobal(s, t, r);
    FirstThreads(s, t, r);
    forall m: nat ensures NodeOk(r, m) {
      assert NodeOk(s, m);
      if m < MAX_POPCORN_NODES && m != n { FirstOtherNode(s, t, r, m); }
    }
  }

  lemma FirstGlobal(s: Team, t: nat, r: Team)
    requires Inv(s) && t < |s.threads| && s.threads[t].phase.Arriving? && s.leaders[s.threads[t].node] == -1
    requires var n := s.threads[t].node;
      r == s.(remaining := s.remaining[n := s.remaining[n] - 1], leaders := s.leaders[n := t],
              threads := s.threads[t := s.threads[t].(phase := Gathering(1))])
    ensures GlobalOk(r)
  {
    SelectedElections(s, t, r);
    PhaseSets(s, t, Gathering(1));
    assert ThreadOk(s, t);
  }

  lemma FirstThreads(s: Team, t: nat, r: Team)
    requires Inv(s) && t < |s.threads| && s.threads[t].phase.Arriving? && s.leaders[s.threads[t].node] == -1
    requires var n := s.threads[t].node;
      r == s.(remaining := s.remaining[n := s.remaining[n] - 1], leaders := s.leaders[n := t],
              threads := s.threads[t := s.threads[t].(phase := Gathering(1))])
    ensures forall u :: Shaped(r) && ThreadOk(r, u)
  {
    var n := s.threads[t].node;
    assert ThreadOk(s, t) && Shaped(r);
    PhaseSets(s, t, Gathering(1));
    SelectedElections(s, t, r);
    NothingMerged(s, n);
    forall u ensures ThreadOk(r, u) {
      assert ThreadOk(s, u);
      if u == t {
        FirstThread(s, t, r);
      } else if 0 <= u < |s.threads| {
        SameThread(s, r, u);
      }
    }
  }

  lemma FirstOtherNode(s: Team, t: nat, r: Team, m: nat)
    requires Shaped(s) && Shaped(r) && t < |s.threads| && s.threads[t].phase.Arriving? && m < MAX_POPCORN_NODES
    requires r.threads == s.threads[t := s.threads[t].(phase := Gathering(1))] && m != s.threads[t].node && NodeOk(s, m)
    requires r.leaders[m] == s.leaders[m] && r.remaining[m] == s.remaining[m]
    requires r.slots == s.slots && r.globalSlots == s.globalSlots
    ensures NodeOk(r, m)
  {
    PhaseSets(s, t, Gathering(1));
    assert t !in Coming(s.threads, m);
    SameNode(s, r, m);
  }

  lemma FirstThread(s: Team, t: nat, r: Team)
    requires Shaped(s) && Shaped(r) && t < |s.threads| == |r.threads| && s.threads[t].phase.Arriving? && ThreadOk(s, t)
    requires r.threads == s.threads[t := s.threads[t].(phase := Gathering(1))] && r.winner == s.winner
    requires r.leaders == s.leaders[s.threads[t].node := t] && Merged(s.threads, s.threads[t].node) == {}
    ensures ThreadOk(r, t)
  {
    PhaseSets(s, t, Gathering(1));
  }

  lemma SelectedElections(s: Team, t: nat, r: Team)
    requires Inv(s) && t < |s.threads| == |r.threads| && s.threads[t].phase.Arriving?
      && s.leaders[s.threads[t].node] == -1
    requires r.threads == s.threads[t := s.threads[t].(phase := Gathering(1))]
      && r.leaders == s.leaders[s.threads[t].node := t]
    ensures Awaited(r) == Awaited(s) && GlobalMerged(r) == GlobalMerged(s)
  {
    PhaseSets(s, t, Gathering(1));
    assert ThreadOk(s, t);
    forall m: nat | m < MAX_POPCORN_NODES
      ensures (HasElected(r, m) <==> HasElected(s, m)) && (LeaderTaken(r, m) <==> LeaderTaken(s, m))
    {
      assert NodeOk(s, m);
    }
  }

  lemma ArriveLater(s: Team, t: nat, r: Team)
    requires Inv(s) && t < |s.threads| && s.threads[t].phase.Arriving? && s.leaders[s.threads[t].node] != -1
    requires s.remaining[s.threads[t].node] > 0
    requires var n := s.threads[t].node;
      r == s.(remaining := s.remaining[n := s.remaining[n] - 1],
              threads := s.threads[t := s.threads[t].(phase := Placing(s.remaining[n] - 1))])
    ensures Inv(r)
  {
    FirstToArrive(s, t);
    assert ThreadOk(s, t) && PhaseChange(s, r, t);
    PhaseElections(s, r, t);
    PhaseSets(s, t, r.threads[t].phase);
    ArrivedNode(s, t, r);
    PhaseKeeps(s, r, t);
  }

  lemma PlaceKeeps(s: Team, t: nat, r: Team)
    requires Inv(s) && t < |s.threads| && s.threads[t].phase.Placing?
    requires s.slots[s.threads[t].node][s.threads[t].phase.ticket % REDUCTION_ENTRIES] == -1
    requires var n, j := s.threads[t].node, s.threads[t].phase.ticket % REDUCTION_ENTRIES;
      r == s.(slots := s.slots[n := s.slots[n][j := t]], threads := s.threads[t := s.threads[t].(phase := Placed(j))])
    ensures Inv(r)
  {
    assert ThreadOk(s, t) && NodeOk(s, s.threads[t].node) && PhaseChange(s, r, t);
    PhaseElections(s, r, t);
    PlacedNode(s, t, r);
    PlacedThread(s, t, r);
    PhaseKeeps(s, r, t);
  }

  lemma PlacedThread(s: Team, t: nat, r: Team)
    requires PhaseChange(s, r, t) && ThreadOk(s, t) && s.threads[t].phase.Placing?
    requires var j := s.threads[t].phase.ticket % REDUCTION_ENTRIES;
      r.threads[t].phase == Placed(j) && r.slots[s.threads[t].node][j] == t && r.winner == s.winner
    ensures ThreadOk(r, t)
  {
    PhaseSets(s, t, r.threads[t].phase);
  }

  lemma PlacedNode(s: Team, t: nat, r: Team)
    requires Inv(s) && t < |s.threads| && s.threads[t].phase.Placing? && PhaseChange(s, r, t)
    requires s.slots[s.threads[t].node][s.threads[t].phase.ticket % REDUCTION_ENTRIES] == -1
    requires var n, j := s.threads[t].node, s.threads[t].phase.ticket % REDUCTION_ENTRIES;
      r == s.(slots := s.slots[n := s.slots[n][j := t]], threads := s.threads[t := s.threads[t].(phase := Placed(j))])
    ensures NodeOk(r, s.threads[t].node)
  {
    var n := s.threads[t].node;
    assert ThreadOk(s, t) && NodeOk(s, n) && ThreadOk(s, s.leaders[n]);
    PhaseSets(s, t, r.threads[t].phase);
    assert t !in Coming(s.threads, n);
    forall k ensures SlotOk(r, n, k) { assert SlotOk(s, n, k); }
  }

  // ------------------------------------------------------------------
  // Taking data
  // ------------------------------------------------------------------

  lemma CollectSets(s: Team, t: nat, j: nat, r: Team)
    requires Inv(s) && t < |s.threads| && s.threads[t].phase.Gathering? && j < REDUCTION_ENTRIES
    requires 0 <= s.slots[s.threads[t].node][j] < |s.threads|
    requires r == Collected(s, t, j)
    ensures var n := s.threads[t].node; var u := s.slots[n][j];
      && u != t && s.threads[u].node == n && s.threads[u].phase == Placed(j) && !s.threads[u].taken
      && !s.threads[t].taken
      && u !in Merged(s.threads, n)
    ensures Awaited(r) == Awaited(s) && GlobalMerged(r) == GlobalMerged(s)
  {
    var n := s.threads[t].node;
    var u: nat := s.slots[n][j];
    assert NodeOk(s, n) && SlotOk(s, n, j) && ThreadOk(s, t) && ThreadOk(s, u);
    MergeSets(s.threads, t, u, r.threads[t].phase);
    forall m: nat ensures (HasElected(r, m) <==> HasElected(s, m)) && (LeaderTaken(r, m) <==> LeaderTaken(s, m)) {
      assert NodeOk(s, m);
      if m < MAX_POPCORN_NODES { assert s.leaders[m] != u; }
    }
  }

  function Collected(s: Team, t: nat, j: nat): Team
    requires Shaped(s) && t < |s.threads| && s.threads[t].phase.Gathering? && j < REDUCTION_ENTRIES
    requires 0 <= s.slots[s.threads[t].node][j] < |s.threads|
  {
    var n := s.threads[t].node;
    s.(slots := s.slots[n := s.slots[n][j := -1]],
       threads := Merge(s.threads, t, s.slots[n][j], Gathering(s.threads[t].phase.reduced + 1)))
  }

  lemma CollectOtherThread(s: Team, t: nat, j: nat, r: Team, v: nat)
    requires Inv(s) && t < |s.threads| && s.threads[t].phase.Gathering? && j < REDUCTION_ENTRIES
    requires 0 <= s.slots[s.threads[t].node][j] < |s.threads| && r == Collected(s, t, j) && Shaped(r)
    requires v < |s.threads| && v != t && v != s.slots[s.threads[t].node][j]
    ensures ThreadOk(r, v)
  {
    assert ThreadOk(s, t) && ThreadOk(s, v);
    CollectSets(s, t, j, r);
    CollectOther(s, t, j, r, v);
    SameThread(s, r, v);
  }

  lemma CollectOther(s: Team, t: nat, j: nat, r: Team, v: nat)
    requires Shaped(s) && t < |s.threads| && s.threads[t].phase.Gathering? && j < REDUCTION_ENTRIES
    requires 0 <= s.slots[s.threads[t].node][j] < |s.threads| && r == Collected(s, t, j) && Shaped(r)
    requires v < |s.threads| && v != t && v != s.slots[s.threads[t].node][j]
    requires s.slots[s.threads[t].node][j] != t && s.threads[s.slots[s.threads[t].node][j]].node == s.threads[t].node
      && s.threads[s.slots[s.threads[t].node][j]].phase.Placed?
    requires s.threads[v].phase.Gathering? ==> s.threads[v].node != s.threads[t].node
    requires GlobalMerged(r) == GlobalMerged(s)
    ensures SameForThread(s, r, v)
  {
    MergeSets(s.threads, t, s.slots[s.threads[t].node][j], r.threads[t].phase);
  }

  lemma CollectOwn(s: Team, t: nat, j: nat, r: Team)
    requires Inv(s) && t < |s.threads| && s.threads[t].phase.Gathering? && j < REDUCTION_ENTRIES
    requires 0 <= s.slots[s.threads[t].node][j] < |s.threads| && r == Collected(s, t, j) && Shaped(r)
    ensures ThreadOk(r, t) && ThreadOk(r, s.slots[s.threads[t].node][j])
  {
    var n := s.threads[t].node;
    var u: nat := s.slots[n][j];
    assert ThreadOk(s, t) && ThreadOk(s, u);
    CollectSets(s, t, j, r);
    MergeSets(s.threads, t, u, r.threads[t].phase);
    assert Merged(r.threads, n) == Merged(s.threads, n) + {u};
  }

  lemma CollectOwnNode(s: Team, t: nat, j: nat, r: Team)
    requires Inv(s) && t < |s.threads| && s.threads[t].phase.Gathering? && j < REDUCTION_ENTRIES
    requires 0 <= s.slots[s.threads[t].node][j] < |s.threads| && r == Collected(s, t, j) && Shaped(r)
    ensures NodeOk(r, s.threads[t].node)
  {
    var n := s.threads[t].node;
    assert NodeOk(s, n) && ThreadOk(s, t);
    CollectSets(s, t, j, r);
    MergeSets(s.threads, t, s.slots[n][j], r.threads[t].phase);
    forall k ensures SlotOk(r, n, k) { assert SlotOk(s, n, k); }
  }

  lemma CollectOtherNode(s: Team, t: nat, j: nat, r: Team, m: nat)
    requires Inv(s) && t < |s.threads| && s.threads[t].phase.Gathering? && j < REDUCTION_ENTRIES
    requires 0 <= s.slots[s.threads[t].node][j] < |s.threads| && r == Collected(s, t, j) && Shaped(r)
    requires m != s.threads[t].node
    ensures SameForNode(s, r, m)
  {
    CollectSets(s, t, j, r);
    MergeSets(s.threads, t, s.slots[s.threads[t].node][j], r.threads[t].phase);
  }

  lemma CollectKeeps(s: Team, t: nat, j: nat, r: Team)
    requires Inv(s) && t < |s.threads| && s.threads[t].phase.Gathering? && j < REDUCTION_ENTRIES
    requires 0 <= s.slots[s.threads[t].node][j] < |s.threads| && r == Collected(s, t, j)
    ensures Inv(r)
  {
    var u: nat := s.slots[s.threads[t].node][j];
    assert Shaped(r);
    CollectSets(s, t, j, r);
    MergeSets(s.threads, t, u, r.threads[t].phase);
    MergeConserves(s, r, t, u, r.threads[t].phase);
    assert ThreadOk(s, t);
    CollectOwn(s, t, j, r);
    forall v ensures ThreadOk(r, v) {
      if 0 <= v < |s.threads| && v != t && v != u { CollectOtherThread(s, t, j, r, v); }
    }
    forall m: nat ensures NodeOk(r, m) { CollectNode(s, t, j, r, m); }
  }

  lemma CollectNode(s: Team, t: nat, j: nat, r: Team, m: nat)
    requires Inv(s) && t < |s.threads| && s.threads[t].phase.Gathering? && j < REDUCTION_ENTRIES
    requires 0 <= s.slots[s.threads[t].node][j] < |s.threads| && r == Collected(s, t, j) && Shaped(r)
    ensures NodeOk(r, m)
  {
    assert NodeOk(s, m);
    if m == s.threads[t].node {
      CollectOwnNode(s, t, j, r);
    } else {
      CollectOtherNode(s, t, j, r, m);
      SameNode(s, r, m);
    }
  }

  /** A leader that has counted all threads of its node has taken all their data. */
  lemma AllMerged(s: Team, t: nat)
    requires Inv(s) && t < |s.threads| && s.threads[t].phase.Gathering?
      && s.threads[t].phase.reduced >= Num(s, s.threads[t].node)
    ensures Settled(s, s.threads[t].node, t)
  {
    var n := s.threads[t].node;
    assert ThreadOk(s, t) && t in Members(s.threads, n);
    SubsetFull(Merged(s.threads, n), Members(s.threads, n) - {t});
  }

  // ------------------------------------------------------------------
  // Between the nodes
  // ------------------------------------------------------------------

  /** The winner has taken nothing when it wins. */
  lemma NothingTaken(s: Team)
    requires Inv(s) && s.winner == -1
    ensures GlobalMerged(s) == {}
  {
    forall m: nat ensures m !in GlobalMerged(s) {
      assert NodeOk(s, m);
      if m < MAX_POPCORN_NODES && 0 <= s.leaders[m] < |s.threads| {
        assert ThreadOk(s, s.leaders[m]);
        assert s.leaders[m] in Members(s.threads, m);
        assert m in Awaited(s);
      }
    }
  }

  /** The global selector says `num` to the first leader and to it only. */
  lemma FirstLeader(s: Team, t: nat)
    requires Inv(s) && t < |s.threads| && s.threads[t].phase.Gathering?
    ensures s.threads[t].node in Awaited(s) && s.globalRemaining == |Awaited(s)| > 0
    ensures s.globalRemaining == GlobalNum(s) <==> s.winner == -1
  {
    var n := s.threads[t].node;
    assert ThreadOk(s, t) && NodeOk(s, n) && ThreadOk(s, s.winner);
    assert t in Members(s.threads, n);
    assert n in Awaited(s);
    if s.winner != -1 {
      var own := s.threads[s.winner].node;
      assert s.winner in Members(s.threads, own);
      if |Awaited(s)| == GlobalNum(s) { SubsetFull(Awaited(s), Nodes(s.threads)); }
    }
  }

  /** The parts of the node of a leader that only changes its phase. */
  lemma LeaderNode(s: Team, t: nat, r: Team)
    requires Inv(s) && PhaseChange(s, r, t) && Leads(s.threads[t].phase) && Leads(r.threads[t].phase)
    requires r.slots == s.slots
    requires var n := s.threads[t].node;
      && r.remaining[n] == (if r.threads[t].phase.Done? then Num(s, n) else s.remaining[n]) && !s.threads[t].phase.Done?
      && r.globalSlots[n] == if Leaves(r.threads[t].phase) && !s.threads[t].taken then t else -1
    ensures NodeOk(r, s.threads[t].node)
  {
    var n := s.threads[t].node;
    assert ThreadOk(s, t) && NodeOk(s, n);
    PhaseSets(s, t, r.threads[t].phase);
    assert t !in Coming(s.threads, n);
    forall j ensures SlotOk(r, n, j) { assert SlotOk(s, n, j); }
  }

  /** The thread of a leader that only changes its phase. */
  lemma LeaderThread(s: Team, t: nat, r: Team)
    requires PhaseChange(s, r, t) && ThreadOk(s, t) && Leads(s.threads[t].phase) && Elected(r.threads[t].phase)
    requires GlobalMerged(r) == GlobalMerged(s) && Settled(s, s.threads[t].node, t)
    requires var n, p := s.threads[t].node, r.threads[t].phase;
      && (Wins(p) <==> r.winner == t)
      && (p.GlobalGathering? ==> p.reduced == 1 + |GlobalMerged(s)|)
      && (s.threads[t].taken ==> Leaves(p))
      && (Leaves(p) && !s.threads[t].taken ==> r.globalSlots[n] == t)
      && (Wins(p) && !p.GlobalGathering? ==> GlobalSettled(s, n))
    ensures ThreadOk(r, t)
  {
    PhaseSets(s, t, r.threads[t].phase);
  }

  lemma ElectGlobal(s: Team, t: nat, r: Team)
    requires GlobalOk(s) && s.globalRemaining == |Awaited(s)| && PhaseChange(s, r, t) && s.threads[t].node in Awaited(s)
    requires (s.globalRemaining == GlobalNum(s) <==> s.winner == -1) && r.globalRemaining == s.globalRemaining - 1
    requires r.winner == (if s.winner == -1 then t else s.winner)
    requires s.winner == -1 ==> r.threads[t].phase.GlobalGathering?
    requires Awaited(r) == Awaited(s) - {s.threads[t].node} && Nodes(r.threads) == Nodes(s.threads)
    ensures GlobalOk(r)
  {
  }

  lemma ElectKeeps(s: Team, t: nat, r: Team)
    requires Inv(s) && t < |s.threads| && s.threads[t].phase.Gathering?
      && s.threads[t].phase.reduced >= Num(s, s.threads[t].node)
    requires r == s.(globalRemaining := s.globalRemaining - 1, winner := if s.winner == -1 then t else s.winner,
                     threads := s.threads[t := s.threads[t].(phase := if s.winner == -1 then GlobalGathering(1)
                       else GlobalPlacing)])
    ensures Inv(r)
  {
    ElectChange(s, t, r);
    ElectThread(s, t, r);
    FirstLeader(s, t);
    PhaseElections(s, r, t);
    PhaseSets(s, t, r.threads[t].phase);
    ElectGlobal(s, t, r);
    PhaseKeeps(s, r, t);
  }

  lemma ElectChange(s: Team, t: nat, r: Team)
    requires Inv(s) && t < |s.threads| && s.threads[t].phase.Gathering?
      && s.threads[t].phase.reduced >= Num(s, s.threads[t].node)
    requires r == s.(globalRemaining := s.globalRemaining - 1, winner := if s.winner == -1 then t else s.winner,
                     threads := s.threads[t := s.threads[t].(phase := if s.winner == -1 then GlobalGathering(1)
                       else GlobalPlacing)])
    ensures PhaseChange(s, r, t) && NodeOk(r, s.threads[t].node)
  {
    assert ThreadOk(s, t) && NodeOk(s, s.threads[t].node);
    assert PhaseChange(s, r, t);
    LeaderNode(s, t, r);
  }

  lemma ElectThread(s: Team, t: nat, r: Team)
    requires Inv(s) && t < |s.threads| && s.threads[t].phase.Gathering?
      && s.threads[t].phase.reduced >= Num(s, s.threads[t].node)
    requires PhaseChange(s, r, t) && r.globalSlots == s.globalSlots
    requires r.winner == (if s.winner == -1 then t else s.winner)
      && r.threads[t].phase == if s.winner == -1 then GlobalGathering(1) else GlobalPlacing
    ensures ThreadOk(r, t)
  {
    assert ThreadOk(s, t) && ThreadOk(s, s.winner);
    AllMerged(s, t);
    PhaseSets(s, t, r.threads[t].phase);
    if s.winner == -1 { NothingTaken(s); }
    LeaderThread(s, t, r);
  }

  lemma PublishKeeps(s: Team, t: nat, r: Team)
    requires Inv(s) && t < |s.threads| && s.threads[t].phase.GlobalPlacing?
    requires r == SetPhase(s, t, Cleaning(false)).(globalSlots := s.globalSlots[s.threads[t].node := t])
    ensures Inv(r)
  {
    PublishChange(s, t, r);
    assert ThreadOk(s, t) && ThreadOk(s, s.winner);
    PhaseElections(s, r, t);
    StillAwaited(s, t);
    LeaderThread(s, t, r);
    PhaseKeeps(s, r, t);
  }

  lemma PublishChange(s: Team, t: nat, r: Team)
    requires Inv(s) && t < |s.threads| && s.threads[t].phase.GlobalPlacing?
    requires r == SetPhase(s, t, Cleaning(false)).(globalSlots := s.globalSlots[s.threads[t].node := t])
    ensures PhaseChange(s, r, t) && NodeOk(r, s.threads[t].node)
  {
    assert ThreadOk(s, t) && NodeOk(s, s.threads[t].node);
    assert PhaseChange(s, r, t);
    LeaderNode(s, t, r);
  }

  lemma StillAwaited(s: Team, t: nat)
    requires Inv(s) && t < |s.threads| && Elected(s.threads[t].phase)
    ensures s.threads[t].node !in Awaited(s)
  {
    assert ThreadOk(s, t);
  }

  lemma TakenNode(s: Team, t: nat, m: nat)
    requires Inv(s) && t < |s.threads| && s.threads[t].phase.GlobalGathering? && m in GlobalMerged(s)
    ensures m in Nodes(s.threads) && m != s.threads[t].node
  {
    assert NodeOk(s, m) && ThreadOk(s, t) && s.leaders[m] in Members(s.threads, m);
  }

  /** A winner that has counted all nodes has taken the data of all their leaders. */
  lemma AllLeadersTaken(s: Team, t: nat)
    requires Inv(s) && t < |s.threads| && s.threads[t].phase.GlobalGathering?
      && s.threads[t].phase.reduced >= GlobalNum(s)
    ensures GlobalSettled(s, s.threads[t].node)
  {
    var n := s.threads[t].node;
    assert ThreadOk(s, t) && t in Members(s.threads, n);
    forall m | m in GlobalMerged(s) ensures m in Nodes(s.threads) && m != n { TakenNode(s, t, m); }
    SubsetFull(GlobalMerged(s), Nodes(s.threads) - {n});
  }

  lemma FinishKeeps(s: Team, t: nat, r: Team)
    requires Inv(s) && t < |s.threads| && s.threads[t].phase.GlobalGathering?
      && s.threads[t].phase.reduced >= GlobalNum(s)
    requires r == SetPhase(s, t, Cleaning(true)).(globalRemaining := GlobalNum(s))
    ensures Inv(r)
  {
    FinishChange(s, t, r);
    assert ThreadOk(s, t);
    AllLeadersTaken(s, t);
    PhaseElections(s, r, t);
    StillAwaited(s, t);
    LeaderThread(s, t, r);
    PhaseKeeps(s, r, t);
  }

  lemma FinishChange(s: Team, t: nat, r: Team)
    requires Inv(s) && t < |s.threads| && s.threads[t].phase.GlobalGathering?
    requires r == SetPhase(s, t, Cleaning(true)).(globalRemaining := GlobalNum(s))
    ensures PhaseChange(s, r, t) && NodeOk(r, s.threads[t].node)
  {
    assert ThreadOk(s, t) && NodeOk(s, s.threads[t].node);
    assert PhaseChange(s, r, t);
    LeaderNode(s, t, r);
  }

  lemma CleanKeeps(s: Team, t: nat, r: Team)
    requires Inv(s) && t < |s.threads| && s.threads[t].phase.Cleaning?
    requires var n := s.threads[t].node;
      r == SetPhase(s, t, Done(s.threads[t].phase.won)).(remaining := s.remaining[n := Num(s, n)])
    ensures Inv(r)
  {
    CleanChange(s, t, r);
    assert ThreadOk(s, t) && ThreadOk(s, s.winner);
    PhaseElections(s, r, t);
    StillAwaited(s, t);
    LeaderThread(s, t, r);
    PhaseKeeps(s, r, t);
  }

  lemma CleanChange(s: Team, t: nat, r: Team)
    requires Inv(s) && t < |s.threads| && s.threads[t].phase.Cleaning?
    requires var n := s.threads[t].node;
      r == SetPhase(s, t, Done(s.threads[t].phase.won)).(remaining := s.remaining[n := Num(s, n)])
    ensures PhaseChange(s, r, t) && NodeOk(r, s.threads[t].node)
  {
    assert ThreadOk(s, t) && NodeOk(s, s.threads[t].node);
    assert PhaseChange(s, r, t);
    LeaderNode(s, t, r);
  }

  function CollectedGlobally(s: Team, t: nat, m: nat): Team
    requires Shaped(s) && t < |s.threads| && s.threads[t].phase.GlobalGathering? && m < MAX_POPCORN_NODES
    requires 0 <= s.globalSlots[m] < |s.threads|
  {
    s.(globalSlots := s.globalSlots[m := -1],
       threads := Merge(s.threads, t, s.globalSlots[m], GlobalGathering(s.threads[t].phase.reduced + 1)))
  }

  /** A global slot holds the leader of its node, whose data is still its own. */
  lemma SlotLeader(s: Team, t: nat, m: nat)
    requires Inv(s) && t < |s.threads| && s.threads[t].phase.GlobalGathering? && m < MAX_POPCORN_NODES
    requires 0 <= s.globalSlots[m] < |s.threads|
    ensures var u := s.globalSlots[m];
      && u != t && u == s.leaders[m] && s.threads[u].node == m && Leaves(s.threads[u].phase)
      && !s.threads[u].taken && !s.threads[t].taken && m != s.threads[t].node && s.winner == t
  {
    assert NodeOk(s, m) && ThreadOk(s, t);
  }

  lemma CollectGlobalSets(s: Team, t: nat, m: nat, r: Team)
    requires Inv(s) && t < |s.threads| && s.threads[t].phase.GlobalGathering? && m < MAX_POPCORN_NODES
    requires 0 <= s.globalSlots[m] < |s.threads| && r == CollectedGlobally(s, t, m)
    ensures Awaited(r) == Awaited(s) && GlobalMerged(r) == GlobalMerged(s) + {m} && m !in GlobalMerged(s)
  {
    SlotLeader(s, t, m);
    var u: nat := s.globalSlots[m];
    forall k: nat | k < MAX_POPCORN_NODES && k != m ensures s.leaders[k] != u { assert NodeOk(s, k); }
    TakenLeader(s, t, m, u, r);
  }

  /** The elections when the data of the leader u of node m is taken. */
  lemma TakenLeader(s: Team, t: nat, m: nat, u: nat, r: Team)
    requires Shaped(s) && t < |s.threads| && u < |s.threads| && t != u && m < MAX_POPCORN_NODES
    requires s.threads[t].phase.GlobalGathering? && Leaves(s.threads[u].phase) && !s.threads[u].taken
    requires r.threads == Merge(s.threads, t, u, GlobalGathering(s.threads[t].phase.reduced + 1))
      && r.leaders == s.leaders
    requires s.leaders[m] == u && forall k: nat :: k < MAX_POPCORN_NODES && k != m ==> s.leaders[k] != u
    ensures Awaited(r) == Awaited(s) && GlobalMerged(r) == GlobalMerged(s) + {m} && m !in GlobalMerged(s)
  {
    MergeSets(s.threads, t, u, r.threads[t].phase);
    forall k: nat | k < MAX_POPCORN_NODES
      ensures (HasElected(r, k) <==> HasElected(s, k)) && (LeaderTaken(r, k) <==> LeaderTaken(s, k) || k == m)
    {
    }
  }

  lemma CollectGlobalOther(s: Team, t: nat, m: nat, r: Team, v: nat)
    requires Shaped(s) && t < |s.threads| && s.threads[t].phase.GlobalGathering? && m < MAX_POPCORN_NODES
    requires 0 <= s.globalSlots[m] < |s.threads| && r == CollectedGlobally(s, t, m) && Shaped(r)
    requires s.globalSlots[m] != t && Leaves(s.threads[s.globalSlots[m]].phase) && GlobalMerged(s) <= GlobalMerged(r)
    requires v < |s.threads| && !s.threads[v].phase.GlobalGathering? && v != t && v != s.globalSlots[m]
    ensures SameForThread(s, r, v)
  {
    MergeSets(s.threads, t, s.globalSlots[m], r.threads[t].phase);
  }

  lemma CollectGlobalThread(s: Team, t: nat, m: nat, r: Team, v: nat)
    requires Inv(s) && t < |s.threads| && s.threads[t].phase.GlobalGathering? && m < MAX_POPCORN_NODES
    requires 0 <= s.globalSlots[m] < |s.threads| && r == CollectedGlobally(s, t, m) && Shaped(r)
    requires v < |s.threads| && v != t && v != s.globalSlots[m]
    ensures ThreadOk(r, v)
  {
    assert ThreadOk(s, v);
    SlotLeader(s, t, m);
    CollectGlobalSets(s, t, m, r);
    CollectGlobalOther(s, t, m, r, v);
    SameThread(s, r, v);
  }

  lemma CollectGlobalWinner(s: Team, t: nat, m: nat, r: Team)
    requires Inv(s) && t < |s.threads| && s.threads[t].phase.GlobalGathering? && m < MAX_POPCORN_NODES
    requires 0 <= s.globalSlots[m] < |s.threads| && r == CollectedGlobally(s, t, m) && Shaped(r)
    ensures ThreadOk(r, t)
  {
    assert ThreadOk(s, t);
    SlotLeader(s, t, m);
    CollectGlobalSets(s, t, m, r);
    WinnerThread(s, t, m, r);
  }

  lemma WinnerThread(s: Team, t: nat, m: nat, r: Team)
    requires Shaped(s) && t < |s.threads| && s.threads[t].phase.GlobalGathering? && m < MAX_POPCORN_NODES
    requires 0 <= s.globalSlots[m] < |s.threads| && r == CollectedGlobally(s, t, m) && Shaped(r)
    requires ThreadOk(s, t) && s.globalSlots[m] != t && Leaves(s.threads[s.globalSlots[m]].phase)
    requires GlobalMerged(r) == GlobalMerged(s) + {m} && m !in GlobalMerged(s)
    ensures ThreadOk(r, t)
  {
    MergeSets(s.threads, t, s.globalSlots[m], r.threads[t].phase);
  }

  lemma CollectGlobalLoser(s: Team, t: nat, m: nat, r: Team)
    requires Inv(s) && t < |s.threads| && s.threads[t].phase.GlobalGathering? && m < MAX_POPCORN_NODES
    requires 0 <= s.globalSlots[m] < |s.threads| && r == CollectedGlobally(s, t, m) && Shaped(r)
    ensures ThreadOk(r, s.globalSlots[m])
  {
    assert ThreadOk(s, s.globalSlots[m]);
    SlotLeader(s, t, m);
    MergeSets(s.threads, t, s.globalSlots[m], r.threads[t].phase);
  }

  lemma CollectGlobalNode(s: Team, t: nat, m: nat, r: Team, k: nat)
    requires Inv(s) && t < |s.threads| && s.threads[t].phase.GlobalGathering? && m < MAX_POPCORN_NODES
    requires 0 <= s.globalSlots[m] < |s.threads| && r == CollectedGlobally(s, t, m) && Shaped(r)
    ensures NodeOk(r, k)
  {
    assert NodeOk(s, k) && ThreadOk(s, t);
    SlotLeader(s, t, m);
    MergeSets(s.threads, t, s.globalSlots[m], r.threads[t].phase);
    if k < MAX_POPCORN_NODES {
      forall j ensures SlotOk(r, k, j) { assert SlotOk(s, k, j); }
    }
  }

  lemma CollectGlobalKeeps(s: Team, t: nat, m: nat, r: Team)
    requires Inv(s) && t < |s.threads| && s.threads[t].phase.GlobalGathering? && m < MAX_POPCORN_NODES
    requires 0 <= s.globalSlots[m] < |s.threads| && r == CollectedGlobally(s, t, m)
    ensures Inv(r)
  {
    var u: nat := s.globalSlots[m];
    assert Shaped(r);
    SlotLeader(s, t, m);
    CollectGlobalSets(s, t, m, r);
    MergeSets(s.threads, t, u, r.threads[t].phase);
    MergeConserves(s, r, t, u, r.threads[t].phase);
    CollectGlobalWinner(s, t, m, r);
    CollectGlobalLoser(s, t, m, r);
    forall v ensures ThreadOk(r, v) {
      if 0 <= v < |s.threads| && v != t && v != u { CollectGlobalThread(s, t, m, r, v); }
    }
    forall k: nat ensures NodeOk(r, k) { CollectGlobalNode(s, t, m, r, k); }
    assert ThreadOk(s, t);
  }

  // ------------------------------------------------------------------
  // The barrier
  // ------------------------------------------------------------------

  /** Every thread has returned from hierarchy_reduce. */
  ghost predicate AllReturned(s: Team) {
    forall t :: 0 <= t < |s.threads| ==> Returned(s.threads[t].phase)
  }

  /** When all have returned, every node has its leader and the system its winner. */
  lemma LeadersDone(s: Team, t: nat)
    requires Inv(s) && AllReturned(s) && t < |s.threads|
    ensures var l := s.leaders[s.threads[t].node];
      0 <= l < |s.threads| && s.threads[l].node == s.threads[t].node && s.threads[l].phase.Done?
    ensures 0 <= s.winner < |s.threads| && s.threads[s.winner].phase == Done(true)
    ensures t == s.winner || s.threads[t].taken
  {
    var n := s.threads[t].node;
    var l := s.leaders[n];
    assert NodeOk(s, n) && t in Members(s.threads, n);
    assert t !in Coming(s.threads, n);
    assert ThreadOk(s, l) && ThreadOk(s, t) && ThreadOk(s, s.winner);
    assert n in Nodes(s.threads) && HasElected(s, n);
    assert n !in Awaited(s);
  }

  lemma {:induction false} RearmedLive(threads: seq<Thread>, k: nat, x: nat)
    requires k <= |threads|
    ensures Live(Rearmed(threads)[..k], x) == if x < k then 1 else 0
  {
    if k > 0 {
      RearmedLive(threads, k - 1, x);
      assert Rearmed(threads)[..k][..k - 1] == Rearmed(threads)[..k - 1];
      assert Rearmed(threads)[..k][k - 1] == Rearmed(threads)[k - 1];
    }
  }

  lemma RearmedSets(threads: seq<Thread>)
    ensures var ts := Rearmed(threads);
      && Nodes(ts) == Nodes(threads)
      && forall m: nat {:trigger Members(ts, m)} {:trigger Coming(ts, m)} {:trigger Merged(ts, m)} ::
           Members(ts, m) == Members(threads, m) && Coming(ts, m) == Members(ts, m) && Merged(ts, m) == {}
  {
    var ts := Rearmed(threads);
    forall m: nat
      ensures Members(ts, m) == Members(threads, m) && Coming(ts, m) == Members(ts, m) && Merged(ts, m) == {}
    {
    }
    assert forall m: nat :: Members(ts, m) != {} <==> Members(threads, m) != {};
  }

  /** A team without leaders whose selectors are armed and whose slots are empty. */
  lemma FreshRound(s: Team)
    requires Shaped(s) && s.threads == Rearmed(s.threads)
    requires s.leaders == seq(MAX_POPCORN_NODES, _ => -1) && s.winner == -1
    requires forall n {:trigger s.remaining[n]} :: 0 <= n < MAX_POPCORN_NODES ==> s.remaining[n] == Num(s, n)
    requires s.globalRemaining == GlobalNum(s)
    requires forall n, j :: 0 <= n < MAX_POPCORN_NODES && 0 <= j < REDUCTION_ENTRIES ==> s.slots[n][j] == -1
    requires forall n :: 0 <= n < MAX_POPCORN_NODES ==> s.globalSlots[n] == -1
    ensures Inv(s)
  {
    RearmedSets(s.threads);
    assert Awaited(s) == Nodes(s.threads);
    forall x: nat ensures ConservedAt(s, x) {
      RearmedLive(s.threads, |s.threads|, x);
      assert s.threads[..|s.threads|] == s.threads;
    }
    forall n: nat ensures NodeOk(s, n) {
      if n < MAX_POPCORN_NODES {
        forall j ensures SlotOk(s, n, j) { }
      }
    }
    forall t ensures ThreadOk(s, t) { }
  }

  lemma EmptyAfterRound(s: Team, n: nat)
    requires Inv(s) && AllReturned(s) && n < MAX_POPCORN_NODES
    ensures s.remaining[n] == Num(s, n) && s.globalSlots[n] == -1
    ensures forall j :: 0 <= j < REDUCTION_ENTRIES ==> s.slots[n][j] == -1
  {
    assert NodeOk(s, n);
    forall j | 0 <= j < REDUCTION_ENTRIES
      ensures s.slots[n][j] == -1
    {
      var u := s.slots[n][j];
      assert SlotOk(s, n, j) && ThreadOk(s, u);
      if u != -1 { LeadersDone(s, u); }
    }
    if Members(s.threads, n) == {} {
      assert Coming(s.threads, n) == {};
    } else {
      var t :| t in Members(s.threads, n);
      LeadersDone(s, t);
      var l := s.leaders[n];
      LeadersDone(s, l);
      assert ThreadOk(s, l);
    }
  }

  lemma BarrierKeeps(s: Team, r: Team)
    requires Inv(s) && AllReturned(s)
    requires r == s.(threads := Rearmed(s.threads), leaders := seq(MAX_POPCORN_NODES, _ => -1), winner := -1)
    ensures Inv(r)
  {
    RearmedSets(s.threads);
    assert Rearmed(r.threads) == r.threads;
    forall n: nat | n < MAX_POPCORN_NODES
      ensures s.remaining[n] == Num(r, n) && s.globalSlots[n] == -1
      ensures forall j :: 0 <= j < REDUCTION_ENTRIES ==> s.slots[n][j] == -1
    {
      EmptyAfterRound(s, n);
    }
    if |s.threads| > 0 {
      LeadersDone(s, 0);
    } else {
      assert Nodes(s.threads) == {};
    }
    assert Shaped(r);
    FreshRound(r);
  }

  // ------------------------------------------------------------------
  // Whole runs
  // ------------------------------------------------------------------

  lemma StepKeeps(s: Team, e: Event, r: Team)
    requires Inv(s) && Step(s, e, r)
    ensures Inv(r)
  {
    match e {
      case Arrive(t) =>
        FirstToArrive(s, t);
        if s.leaders[s.threads[t].node] == -1 { ArriveFirst(s, t, r); } else { ArriveLater(s, t, r); }
      case Place(t) => PlaceKeeps(s, t, r);
      case Collect(t, j) => CollectKeeps(s, t, j, r);
      case Elect(t) =>
        FirstLeader(s, t);
        ElectKeeps(s, t, r);
      case Publish(t) => PublishKeeps(s, t, r);
      case CollectGlobal(t, m) => CollectGlobalKeeps(s, t, m, r);
      case Finish(t) => FinishKeeps(s, t, r);
      case Clean(t) => CleanKeeps(s, t, r);
      case Barrier => BarrierKeeps(s, r);
    }
  }

  ghost predicate Run(ss: seq<Team>, es: seq<Event>) {
    && |ss| == |es| + 1 && Init(ss[0])
    && forall i {:trigger es[i]} :: 0 <= i < |es| ==> Step(ss[i], es[i], ss[i + 1])
  }

  lemma {:induction false} RunInv(ss: seq<Team>, es: seq<Event>, i: nat)
    requires Run(ss, es) && i <= |es|
    ensures Inv(ss[i])
  {
    if i == 0 {
      FreshRound(ss[0]);
    } else {
      RunInv(ss, es, i - 1);
      RunStep(ss, es, i - 1);
    }
  }

  lemma RunStep(ss: seq<Team>, es: seq<Event>, i: nat)
    requires Run(ss, es) && i < |es| && Inv(ss[i])
    ensures Inv(ss[i + 1])
  {
    assert Step(ss[i], es[i], ss[i + 1]);
    StepKeeps(ss[i], es[i], ss[i + 1]);
  }

  /** In every round of every run exactly one thread gets true, and its data then
      combines the contribution of every thread exactly once. */
  lemma OneWinner(ss: seq<Team>, es: seq<Event>, i: nat) returns (w: nat)
    requires Run(ss, es) && i <= |es| && AllReturned(ss[i]) && ss[i].threads != []
    ensures w < |ss[i].threads|
    ensures forall t :: 0 <= t < |ss[i].threads| ==> (ss[i].threads[t].phase == Done(true) <==> t == w)
    ensures forall x: nat :: Occurrences(ss[i].threads[w].parts, x) == if x < |ss[i].threads| then 1 else 0
  {
    RunInv(ss, es, i);
    var s := ss[i];
    LeadersDone(s, 0);
    w := s.winner;
    assert ThreadOk(s, w);
    forall t | 0 <= t < |s.threads|
      ensures s.threads[t].phase == Done(true) <==> t == w
      ensures t != w ==> s.threads[t].taken
    {
      LeadersDone(s, t);
      assert ThreadOk(s, t);
    }
    forall x: nat
      ensures Occurrences(s.threads[w].parts, x) == if x < |s.threads| then 1 else 0
    {
      assert ConservedAt(s, x);
      OnlyLive(s.threads, w, x);
    }
  }

  lemma {:induction false} OnlyLive(threads: seq<Thread>, w: nat, x: nat)
    requires w < |threads| && forall t :: 0 <= t < |threads| && t != w ==> threads[t].taken
    ensures Live(threads, x) == Part(threads[w], x)
    decreases |threads|
  {
    var k := |threads| - 1;
    if w < k {
      OnlyLive(threads[..k], w, x);
    } else {
      NoneLive(threads[..k], x);
    }
  }

  lemma {:induction false} NoneLive(threads: seq<Thread>, x: nat)
    requires forall t :: 0 <= t < |threads| ==> threads[t].taken
    ensures Live(threads, x) == 0
    decreases |threads|
  {
    if threads != [] { NoneLive(threads[..|threads| - 1], x); }
  }

  // ------------------------------------------------------------------
  // No round gets stuck
  // ------------------------------------------------------------------

  ghost predicate Enabled(s: Team, e: Event) {
    exists r :: Step(s, e, r)
  }

  ghost predicate CanMove(s: Team) {
    exists e :: Enabled(s, e)
  }

  lemma Moves(s: Team, e: Event, r: Team)
    requires Step(s, e, r)
    ensures CanMove(s)
  {
    assert Enabled(s, e);
  }

  lemma ArriveMoves(s: Team, t: nat)
    requires Inv(s) && t < |s.threads| && s.threads[t].phase.Arriving?
    ensures CanMove(s)
  {
    FirstToArrive(s, t);
    var n := s.threads[t].node;
    var s' := s.(remaining := s.remaining[n := s.remaining[n] - 1]);
    Moves(s, Arrive(t),
          if s.remaining[n] == Num(s, n) then SetPhase(s', t, Gathering(1)).(leaders := s.leaders[n := t])
          else SetPhase(s', t, Placing(s.remaining[n] - 1)));
  }

  /** A full slot is emptied by the leader of the node. */
  lemma SlotMoves(s: Team, n: nat, j: nat)
    requires Inv(s) && n < MAX_POPCORN_NODES && j < REDUCTION_ENTRIES && s.slots[n][j] != -1
    ensures CanMove(s)
  {
    assert NodeOk(s, n) && SlotOk(s, n, j);
    var u, l := s.slots[n][j], s.leaders[n];
    assert u in Members(s.threads, n) && u !in Coming(s.threads, n);
    assert ThreadOk(s, u) && ThreadOk(s, l);
    assert s.threads[l].phase.Gathering?;
    Moves(s, Collect(l, j), Collected(s, l, j));
  }

  lemma PlacingMoves(s: Team, t: nat)
    requires Inv(s) && t < |s.threads| && s.threads[t].phase.Placing?
    ensures CanMove(s)
  {
    var n, j := s.threads[t].node, s.threads[t].phase.ticket % REDUCTION_ENTRIES;
    if s.slots[n][j] == -1 {
      Moves(s, Place(t), SetPhase(s, t, Placed(j)).(slots := s.slots[n := s.slots[n][j := t]]));
    } else {
      SlotMoves(s, n, j);
    }
  }

  lemma GatheringMoves(s: Team, t: nat)
    requires Inv(s) && t < |s.threads| && s.threads[t].phase.Gathering?
    ensures CanMove(s)
  {
    var n := s.threads[t].node;
    assert ThreadOk(s, t) && t in Members(s.threads, n);
    if s.threads[t].phase.reduced >= Num(s, n) {
      var s' := s.(globalRemaining := s.globalRemaining - 1);
      Moves(s, Elect(t),
            if s.globalRemaining == GlobalNum(s) then SetPhase(s', t, GlobalGathering(1)).(winner := t)
            else SetPhase(s', t, GlobalPlacing));
    } else {
      if Members(s.threads, n) <= Merged(s.threads, n) + {t} {
        SubsetSmaller(Members(s.threads, n) - {t}, Merged(s.threads, n));
      }
      var u :| u in Members(s.threads, n) && u !in Merged(s.threads, n) && u != t;
      assert ThreadOk(s, u);
      match s.threads[u].phase {
        case Arriving => ArriveMoves(s, u);
        case Placing(_) => PlacingMoves(s, u);
        case Placed(j) => SlotMoves(s, n, j);
        case _ =>
      }
    }
  }

  lemma LeaderMoves(s: Team, t: nat)
    requires Inv(s) && t < |s.threads| && (s.threads[t].phase.GlobalPlacing? || s.threads[t].phase.Cleaning?)
    ensures CanMove(s)
  {
    var n := s.threads[t].node;
    if s.threads[t].phase.GlobalPlacing? {
      Moves(s, Publish(t), SetPhase(s, t, Cleaning(false)).(globalSlots := s.globalSlots[n := t]));
    } else {
      Moves(s, Clean(t), SetPhase(s, t, Done(s.threads[t].phase.won)).(remaining := s.remaining[n := Num(s, n)]));
    }
  }

  /** A node whose leader's data the winner still lacks can go on. */
  lemma MissingLeaderMoves(s: Team, t: nat, m: nat)
    requires Inv(s) && t < |s.threads| && s.threads[t].phase.GlobalGathering?
    requires m in Nodes(s.threads) && m !in GlobalMerged(s) && m != s.threads[t].node
    ensures CanMove(s)
  {
    assert ThreadOk(s, t) && NodeOk(s, m);
    var u :| u in Members(s.threads, m);
    var l := s.leaders[m];
    if l == -1 {
      assert u in Coming(s.threads, m);
      ArriveMoves(s, u);
    } else {
      assert ThreadOk(s, l);
      match s.threads[l].phase {
        case Gathering(_) => GatheringMoves(s, l);
        case GlobalPlacing => LeaderMoves(s, l);
        case Cleaning(_) => LeaderMoves(s, l);
        case Done(_) => Moves(s, CollectGlobal(t, m), CollectedGlobally(s, t, m));
        case _ =>
      }
    }
  }

  lemma WinnerMoves(s: Team, t: nat)
    requires Inv(s) && t < |s.threads| && s.threads[t].phase.GlobalGathering?
    ensures CanMove(s)
  {
    var n := s.threads[t].node;
    assert ThreadOk(s, t) && t in Members(s.threads, n);
    if s.threads[t].phase.reduced >= GlobalNum(s) {
      Moves(s, Finish(t), SetPhase(s, t, Cleaning(true)).(globalRemaining := GlobalNum(s)));
    } else {
      if Nodes(s.threads) <= GlobalMerged(s) + {n} {
        SubsetSmaller(Nodes(s.threads) - {n}, GlobalMerged(s));
      }
      var m :| m in Nodes(s.threads) && m !in GlobalMerged(s) && m != n;
      MissingLeaderMoves(s, t, m);
    }
  }

  /** In every run some step is always possible: a round cannot deadlock, even when
      threads share a slot. */
  lemma NeverStuck(ss: seq<Team>, es: seq<Event>, i: nat)
    requires Run(ss, es) && i <= |es|
    ensures CanMove(ss[i])
  {
    RunInv(ss, es, i);
    var s := ss[i];
    if AllReturned(s) {
      Moves(s, Barrier, s.(threads := Rearmed(s.threads), leaders := seq(MAX_POPCORN_NODES, _ => -1), winner := -1));
    } else {
      var t: nat :| t < |s.threads| && !Returned(s.threads[t].phase);
      match s.threads[t].phase {
        case Arriving => ArriveMoves(s, t);
        case Placing(_) => PlacingMoves(s, t);
        case Gathering(_) => GatheringMoves(s, t);
        case GlobalGathering(_) => WinnerMoves(s, t);
        case _ => LeaderMoves(s, t);
      }
    }
  }
}
