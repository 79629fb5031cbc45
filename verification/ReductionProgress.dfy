/** Every round of the tree reduction of lib/libopenpop/hierarchy.c ends, after a number
    of steps that depends only on the numbers of threads and of nodes. */
module ReductionProgress {
  import opened Progress
  import opened TreeReduction

  /** The steps that a thread still takes, and the one that takes its data; an arriving
      thread counts as one that leaves its data in a slot. */
  function StepsOf(th: Thread): nat {
    match th.phase
    case Arriving => 3
    case Placing(_) => 2
    case Placed(_) => if th.taken then 0 else 1
    case Gathering(_) => 4
    case GlobalPlacing => 3
    case GlobalGathering(_) => 2
    case Cleaning(won) => if won || th.taken then 1 else 2
    case Done(won) => if won || th.taken then 0 else 1
  }

  function Weights(threads: seq<Thread>): seq<nat> {
    seq(|threads|, t requires 0 <= t < |threads| => StepsOf(threads[t]))
  }

  ghost function Leaderless(s: Team): set<nat> {
    set n: nat | n < |s.leaders| && n in Nodes(s.threads) && s.leaders[n] == -1
  }

  /** The leader of a node takes two steps more than other threads, and the winner
      one less than other leaders. */
  ghost function StepsLeft(s: Team): int {
    Sum(Weights(s.threads)) + 2 * |Leaderless(s)| - if s.winner == -1 then 1 else 0
  }

  /** The steps of a round. */
  ghost function RoundSteps(s: Team): int {
    3 * |s.threads| + 2 * GlobalNum(s) - 1
  }

  lemma WeightsAfter(threads: seq<Thread>, t: nat, th: Thread)
    requires t < |threads|
    ensures Sum(Weights(threads[t := th])) == Sum(Weights(threads)) - StepsOf(threads[t]) + StepsOf(th)
  {
    assert Weights(threads[t := th]) == Weights(threads)[t := StepsOf(th)];
    SumAfter(Weights(threads), t, StepsOf(th));
  }

  lemma SameNodes(s: Team, r: Team)
    requires |r.threads| == |s.threads|
    requires forall t :: 0 <= t < |s.threads| ==> r.threads[t].node == s.threads[t].node
    ensures Nodes(r.threads) == Nodes(s.threads)
    ensures r.leaders == s.leaders ==> Leaderless(r) == Leaderless(s)
  {
    assert forall n: nat :: Members(r.threads, n) == Members(s.threads, n);
  }

  /** The thread takes a phase that weighs less, by one more if it is the winner. */
  lemma PhaseWeighs(s: Team, t: nat, r: Team)
    requires t < |s.threads| == |r.threads| && r.leaders == s.leaders
    requires r.threads == s.threads[t := s.threads[t].(phase := r.threads[t].phase)]
    requires StepsOf(s.threads[t]) - StepsOf(r.threads[t]) ==
               if s.winner == -1 && r.winner != -1 then 2 else 1
    requires r.winner == s.winner || s.winner == -1
    ensures StepsLeft(r) == StepsLeft(s) - 1
  {
    WeightsAfter(s.threads, t, r.threads[t]);
    SameNodes(s, r);
  }

  lemma ArriveTakesOne(s: Team, t: nat, r: Team)
    requires Inv(s) && Step(s, Arrive(t), r)
    ensures StepsLeft(r) == StepsLeft(s) - 1
  {
    FirstToArrive(s, t);
    ArriveWeighs(s, t, r);
  }

  lemma ArriveWeighs(s: Team, t: nat, r: Team)
    requires Step(s, Arrive(t), r) && t in Members(s.threads, s.threads[t].node)
    requires var n := s.threads[t].node; s.remaining[n] == Num(s, n) <==> s.leaders[n] == -1
    ensures StepsLeft(r) == StepsLeft(s) - 1
  {
    var n := s.threads[t].node;
    WeightsAfter(s.threads, t, r.threads[t]);
    SameNodes(s, r);
    if s.leaders[n] == -1 {
      assert n in Leaderless(s);
      assert Leaderless(r) == Leaderless(s) - {n};
    }
  }

  lemma ElectTakesOne(s: Team, t: nat, r: Team)
    requires Inv(s) && Step(s, Elect(t), r)
    ensures StepsLeft(r) == StepsLeft(s) - 1
  {
    FirstLeader(s, t);
    PhaseWeighs(s, t, r);
  }

  lemma OwnTakesOne(s: Team, e: Event, r: Team)
    requires Inv(s) && Step(s, e, r) && (e.Place? || e.Publish? || e.Finish? || e.Clean?)
    ensures StepsLeft(r) == StepsLeft(s) - 1
  {
    assert ThreadOk(s, e.t);
    PhaseWeighs(s, e.t, r);
  }

  /** Data is taken once. */
  lemma MergeTakesOne(s: Team, t: nat, u: nat, p: Phase, r: Team)
    requires t < |s.threads| && u < |s.threads| && t != u && r.threads == Merge(s.threads, t, u, p)
    requires StepsOf(s.threads[t].(phase := p)) == StepsOf(s.threads[t])
    requires !s.threads[u].taken && (s.threads[u].phase.Placed? || Leaves(s.threads[u].phase))
    requires r.leaders == s.leaders && r.winner == s.winner
    ensures StepsLeft(r) == StepsLeft(s) - 1
  {
    var mid := s.threads[u := s.threads[u].(taken := true)];
    WeightsAfter(s.threads, u, mid[u]);
    WeightsAfter(mid, t, r.threads[t]);
    SameNodes(s, r);
  }

  lemma StepTakesOne(s: Team, e: Event, r: Team)
    requires Inv(s) && Step(s, e, r) && !e.Barrier?
    ensures StepsLeft(r) == StepsLeft(s) - 1
  {
    match e {
      case Arrive(t) => ArriveTakesOne(s, t, r);
      case Collect(t, j) =>
        CollectSets(s, t, j, r);
        assert ThreadOk(s, t);
        MergeTakesOne(s, t, s.slots[s.threads[t].node][j], r.threads[t].phase, r);
      case CollectGlobal(t, m) =>
        SlotLeader(s, t, m);
        MergeTakesOne(s, t, s.globalSlots[m], r.threads[t].phase, r);
      case Elect(t) => ElectTakesOne(s, t, r);
      case Place(_) => OwnTakesOne(s, e, r);
      case Publish(_) => OwnTakesOne(s, e, r);
      case Finish(_) => OwnTakesOne(s, e, r);
      case Clean(_) => OwnTakesOne(s, e, r);
    }
  }

  lemma StepKeepsTeam(s: Team, e: Event, r: Team)
    requires Step(s, e, r)
    ensures |r.threads| == |s.threads| && GlobalNum(r) == GlobalNum(s)
  {
    SameNodes(s, r);
  }

  lemma FreshSteps(s: Team)
    requires Inv(s) && s.threads == Rearmed(s.threads) && s.winner == -1
    ensures StepsLeft(s) == RoundSteps(s)
  {
    SumAll(Weights(s.threads), 3);
    forall n: nat | n in Nodes(s.threads) ensures n in Leaderless(s) {
      assert NodeOk(s, n);
      RearmedSets(s.threads);
    }
    assert Leaderless(s) == Nodes(s.threads);
  }

  lemma ReturnedSteps(s: Team)
    requires Inv(s) && AllReturned(s) && s.threads != []
    ensures StepsLeft(s) == 0
  {
    forall t | 0 <= t < |s.threads|
      ensures StepsOf(s.threads[t]) == 0
    {
      LeadersDone(s, t);
      assert ThreadOk(s, t);
    }
    SumAll(Weights(s.threads), 0);
    forall n: nat | n in Nodes(s.threads) ensures n !in Leaderless(s) {
      var t :| t in Members(s.threads, n);
      LeadersDone(s, t);
    }
    assert Leaderless(s) == {};
    LeadersDone(s, 0);
  }

  lemma UnreturnedSteps(s: Team)
    requires Inv(s) && !AllReturned(s)
    ensures StepsLeft(s) > 0
  {
    var t: nat :| t < |s.threads| && !Returned(s.threads[t].phase);
    var n := s.threads[t].node;
    SumAtLeast(Weights(s.threads), t);
    assert StepsOf(s.threads[t]) >= 1;
    if s.winner == -1 {
      assert t in Members(s.threads, n) && n in Nodes(s.threads) && n in Awaited(s);
      var l := s.leaders[n];
      assert NodeOk(s, n);
      if l == -1 {
        assert n in Leaderless(s);
      } else {
        assert ThreadOk(s, l);
        SumAtLeast(Weights(s.threads), l);
      }
    }
  }

  ghost predicate RoundFrom(es: seq<Event>, i: nat, j: nat)
    requires i <= j <= |es|
  {
    && (i > 0 ==> es[i - 1].Barrier?)
    && forall k :: i <= k < j ==> !es[k].Barrier?
  }

  lemma RoundStart(ss: seq<Team>, es: seq<Event>, i: nat)
    requires Run(ss, es) && i <= |es| && (i > 0 ==> es[i - 1].Barrier?)
    ensures StepsLeft(ss[i]) == RoundSteps(ss[i])
  {
    RunInv(ss, es, i);
    if i > 0 {
      assert Step(ss[i - 1], es[i - 1], ss[i]);
      assert Rearmed(ss[i].threads) == ss[i].threads;
    }
    FreshSteps(ss[i]);
  }

  lemma {:induction false} StepsOfRound(ss: seq<Team>, es: seq<Event>, i: nat, j: nat)
    requires Run(ss, es) && i <= j <= |es| && RoundFrom(es, i, j)
    ensures j - i + StepsLeft(ss[j]) == RoundSteps(ss[i])
    ensures |ss[j].threads| == |ss[i].threads|
    decreases j
  {
    if i == j {
      RoundStart(ss, es, i);
    } else {
      StepsOfRound(ss, es, i, j - 1);
      RunInv(ss, es, j - 1);
      assert Step(ss[j - 1], es[j - 1], ss[j]);
      StepTakesOne(ss[j - 1], es[j - 1], ss[j]);
      StepKeepsTeam(ss[j - 1], es[j - 1], ss[j]);
    }
  }

  /** Every round ends: no interleaving makes it longer than three steps for each thread
      and two for each node, less one. After exactly as many steps all have returned,
      and before that some step other than the barrier is possible. */
  lemma RoundEnds(ss: seq<Team>, es: seq<Event>, i: nat, j: nat)
    requires Run(ss, es) && i <= j <= |es| && RoundFrom(es, i, j) && ss[i].threads != []
    ensures j - i <= RoundSteps(ss[i])
    ensures j - i == RoundSteps(ss[i]) <==> AllReturned(ss[j])
    ensures !AllReturned(ss[j]) ==> exists e :: Enabled(ss[j], e) && !e.Barrier?
  {
    StepsOfRound(ss, es, i, j);
    RunInv(ss, es, j);
    if AllReturned(ss[j]) {
      ReturnedSteps(ss[j]);
    } else {
      UnreturnedSteps(ss[j]);
      NeverStuck(ss, es, j);
    }
  }
}
