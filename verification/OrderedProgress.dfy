/** Every run of the ordered sections of lib/libopenpop/ordered.c ends, after a number
    of steps that depends only on the numbers of blocks and threads. */
module OrderedProgress {
  import opened OrderedRing
  import opened Progress

  /** The steps a thread takes until it asks for its next block, and this request. */
  function StepsOf(p: Phase): nat {
    match p
    case Idle => 1
    case Working(_) => 4
    case Waiting(_) => 3
    case Claiming(_) => 2
    case Owning(_) => 1
    case Out => 0
  }

  function Weights(phases: seq<Phase>): seq<nat> {
    seq(|phases|, t requires 0 <= t < |phases| => StepsOf(phases[t]))
  }

  /** Each block still to come costs four steps. */
  function StepsLeft(s: Team): int {
    4 * (s.total - s.given) + Sum(Weights(s.phases))
  }

  ghost predicate AllOut(s: Team) {
    forall t :: 0 <= t < |s.phases| ==> s.phases[t].Out?
  }

  lemma WeightsAfter(phases: seq<Phase>, t: nat, p: Phase)
    requires t < |phases|
    ensures Sum(Weights(phases[t := p])) == Sum(Weights(phases)) - StepsOf(phases[t]) + StepsOf(p)
  {
    assert Weights(phases[t := p]) == Weights(phases)[t := StepsOf(p)];
    SumAfter(Weights(phases), t, StepsOf(p));
  }

  lemma StepTakesOne(s: Team, e: Event, r: Team)
    requires Step(s, e, r)
    ensures StepsLeft(r) == StepsLeft(s) - 1
    ensures r.total == s.total && |r.phases| == |s.phases|
  {
    WeightsAfter(s.phases, e.t, r.phases[e.t]);
  }

  /** The steps of a run and those left add up to four for each block and one for
      each thread, whatever the order of the steps. */
  lemma {:induction false} StepsOfRun(ss: seq<Team>, es: seq<Event>, i: nat)
    requires Run(ss, es) && i <= |es|
    ensures i + StepsLeft(ss[i]) == 4 * ss[0].total + |ss[0].phases|
    ensures ss[i].total == ss[0].total && |ss[i].phases| == |ss[0].phases|
  {
    if i == 0 {
      SumAll(Weights(ss[0].phases), 1);
    } else {
      StepsOfRun(ss, es, i - 1);
      assert Step(ss[i - 1], es[i - 1], ss[i]);
      StepTakesOne(ss[i - 1], es[i - 1], ss[i]);
    }
  }

  lemma NoneLeftIff(s: Team)
    requires Inv(s)
    ensures StepsLeft(s) >= 0
    ensures StepsLeft(s) == 0 <==> AllOut(s)
  {
    if t: nat :| t < |s.phases| && !s.phases[t].Out? {
      SumAtLeast(Weights(s.phases), t);
      assert StepsOf(s.phases[t]) >= 1;
    } else {
      SumAll(Weights(s.phases), 0);
      assert ThreadOk(s, 0);
    }
  }

  lemma SomeMoves(s: Team)
    requires Inv(s) && !AllOut(s)
    ensures exists e :: Enabled(s, e)
  {
    if s.ring.numUsed > 0 {
      assert SlotOk(s, 0);
      HeadMoves(s, At(s.ring, |s.phases|, 0));
    } else {
      var t: nat :| t < |s.phases| && !s.phases[t].Out?;
      assert t !in Active(s.phases);
      IdleMoves(s, t);
    }
  }

  /** No run is longer than four steps for each block and one for each thread; a
      shorter one can go on, and one of this length has let every thread out and
      entered every block. */
  lemma RunEnds(ss: seq<Team>, es: seq<Event>)
    requires Run(ss, es)
    ensures var s, most := ss[|es|], 4 * ss[0].total + |ss[0].phases|;
      && |es| <= most
      && (|es| < most ==> exists e :: Enabled(s, e))
      && (|es| == most <==> AllOut(s))
      && (AllOut(s) ==> s.entered == seq(s.total, k => k))
  {
    var s := ss[|es|];
    RunInv(ss, es, |es|);
    StepsOfRun(ss, es, |es|);
    NoneLeftIff(s);
    if AllOut(s) { OutEntered(s); } else { SomeMoves(s); }
  }

  lemma OutEntered(s: Team)
    requires Inv(s) && AllOut(s)
    ensures s.entered == seq(s.total, k => k)
  {
    assert ThreadOk(s, 0) && ThreadOk(s, s.ring.owner);
    assert Active(s.phases) == {};
  }
}
