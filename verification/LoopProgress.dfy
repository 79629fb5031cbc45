/** Dynamically scheduled loops always end: no interleaving keeps the lock-free
    routines of lib/libopenpop/iter.c busy for ever. */
module LoopProgress {
  import opened Dispenser
  import opened FiniteSets
  import opened LoopRuns
  import opened Progress

  /** The values not yet handed out. */
  function Work(ws: Share): int {
    Up(ws.incr, ws.end) - Up(ws.incr, Front(ws))
  }

  ghost function Going(phases: seq<Phase>): set<nat> {
    set t: nat | t < |phases| && !phases[t].Done?
  }

  /** What has to be loaded, again or for the first time, before a swap can succeed. */
  predicate IsPending(p: Phase, next: int) {
    p.Ready? || (p.Loaded? && p.start != next)
  }

  ghost function Pending(phases: seq<Phase>, next: int): set<nat> {
    set t: nat | t < |phases| && IsPending(phases[t], next)
  }

  ghost function RankOf(s: State): nat {
    var w := Work(s.ws);
    Rank(if w >= 0 then w else 0, |Going(s.phases)|, |Pending(s.phases, s.ws.next)|, |s.phases|)
  }

  lemma CountsFit(s: State)
    ensures |Going(s.phases)| <= |s.phases| && |Pending(s.phases, s.ws.next)| <= |s.phases|
  {
    SubsetSmaller(Going(s.phases), Below(|s.phases|));
    SubsetSmaller(Pending(s.phases, s.ws.next), Below(|s.phases|));
  }

  lemma GoingAfter(phases: seq<Phase>, t: nat, p: Phase)
    requires t < |phases| && !phases[t].Done?
    ensures |Going(phases[t := p])| == |Going(phases)| - (if p.Done? then 1 else 0)
  {
    assert Going(phases[t := p]) == if p.Done? then Going(phases) - {t} else Going(phases);
    assert t in Going(phases);
  }

  lemma PendingAfter(phases: seq<Phase>, next: int, t: nat, p: Phase)
    requires t < |phases| && IsPending(phases[t], next) && !IsPending(p, next)
    ensures |Pending(phases[t := p], next)| == |Pending(phases, next)| - 1
  {
    assert Pending(phases[t := p], next) == Pending(phases, next) - {t};
    assert t in Pending(phases, next);
  }

  /** A thread only prepares: it loads the counter, again or for the first time. */
  lemma PrepareDrops(s: State, t: nat, p: Phase)
    requires t < |s.phases| && IsPending(s.phases[t], s.ws.next) && p.Loaded? && p.start == s.ws.next
    ensures RankOf(s.(phases := s.phases[t := p])) < RankOf(s)
  {
    var r := s.(phases := s.phases[t := p]);
    GoingAfter(s.phases, t, p);
    PendingAfter(s.phases, s.ws.next, t, p);
    CountsFit(r);
    var w := if Work(s.ws) >= 0 then Work(s.ws) else 0;
    RankDrops(w, |Going(s.phases)|, |Pending(s.phases, s.ws.next)|,
              w, |Going(r.phases)|, |Pending(r.phases, r.ws.next)|, |s.phases|);
  }

  /** A thread has received false, and all work stays handed out. */
  lemma DoneDrops(s: State, t: nat, r: State)
    requires t < |s.phases| && !s.phases[t].Done? && r.phases == s.phases[t := Done]
    requires Work(s.ws) == Work(r.ws)
    ensures RankOf(r) < RankOf(s)
  {
    GoingAfter(s.phases, t, Done);
    CountsFit(r);
    var w := if Work(s.ws) >= 0 then Work(s.ws) else 0;
    RankDrops(w, |Going(s.phases)|, |Pending(s.phases, s.ws.next)|,
              w, |Going(r.phases)|, |Pending(r.phases, r.ws.next)|, |s.phases|);
  }

  /** A block has been given. */
  lemma GivenDrops(s: State, r: State)
    requires 0 <= Work(r.ws) < Work(s.ws) && |r.phases| == |s.phases|
    ensures RankOf(r) < RankOf(s)
  {
    CountsFit(r);
    RankDrops(Work(s.ws), |Going(s.phases)|, |Pending(s.phases, s.ws.next)|,
              Work(r.ws), |Going(r.phases)|, |Pending(r.phases, r.ws.next)|, |s.phases|);
  }

  lemma AddDrops(s: State, first: int, chunk: nat, t: nat, r: State)
    requires Inv(s, first, chunk) && Step(s, FetchAdd(t), r)
    ensures RankOf(r) < RankOf(s)
  {
    AddFits(s, first, chunk, t);
    if Up(s.ws.incr, s.ws.next) >= Up(s.ws.incr, s.ws.end) {
      DoneDrops(s, t, r);
    } else {
      GivenDrops(s, r);
    }
  }

  lemma SwapDrops(s: State, first: int, chunk: nat, t: nat, r: State)
    requires Inv(s, first, chunk) && Step(s, Swap(t), r)
    ensures RankOf(r) < RankOf(s)
  {
    var Loaded(start, c) := s.phases[t];
    assert PhaseOk(s, t);
    if start == s.ws.end {
      DoneDrops(s, t, r);
    } else if s.ws.next == start {
      BlockEndOk(s, first, chunk, c);
      GivenDrops(s, r);
    } else {
      PrepareDrops(s, t, r.phases[t]);
    }
  }

  lemma LockedDrops(s: State, first: int, chunk: nat, t: nat, r: State)
    requires Inv(s, first, chunk) && Step(s, Locked(t), r)
    ensures RankOf(r) < RankOf(s)
  {
    if s.ws.next == s.ws.end {
      DoneDrops(s, t, r);
    } else {
      BlockEndOk(s, first, chunk, s.ws.chunkSize);
      GivenDrops(s, r);
    }
  }

  lemma StepDrops(s: State, first: int, chunk: nat, e: Event, r: State)
    requires Inv(s, first, chunk) && Step(s, e, r)
    ensures RankOf(r) < RankOf(s)
  {
    match e {
      case FetchAdd(t) => AddDrops(s, first, chunk, t, r);
      case Load(t) => PrepareDrops(s, t, Loaded(s.ws.next, s.ws.chunkSize));
      case Swap(t) => SwapDrops(s, first, chunk, t, r);
      case Locked(t) => LockedDrops(s, first, chunk, t, r);
    }
  }

  /** No run goes on for ever, however its steps interleave. */
  lemma {:induction false} RunEnds(ss: seq<State>, es: seq<Event>, first: int, chunk: nat, i: nat)
    requires Run(ss, es, first, chunk) && i <= |es|
    ensures i + RankOf(ss[i]) <= RankOf(ss[0])
  {
    if i > 0 {
      RunEnds(ss, es, first, chunk, i - 1);
      RunInv(ss, es, first, chunk, i - 1);
      assert Step(ss[i - 1], es[i - 1], ss[i]);
      StepDrops(ss[i - 1], first, chunk, es[i - 1], ss[i]);
    }
  }

  /** A thread that has not received false can always go on, so a run that cannot be
      continued has given every thread false. */
  lemma CanGoOn(ss: seq<State>, es: seq<Event>, first: int, chunk: nat, t: nat) returns (e: Event, r: State)
    requires Run(ss, es, first, chunk) && t < |ss[|es|].phases| && !ss[|es|].phases[t].Done?
    ensures e.t == t && Run(ss + [r], es + [e], first, chunk)
  {
    var s := ss[|es|];
    RunInv(ss, es, first, chunk, |es|);
    e, r := StepOf(s, first, chunk, t);
    forall i | 0 <= i < |es + [e]|
      ensures Step((ss + [r])[i], (es + [e])[i], (ss + [r])[i + 1])
    {
      if i < |es| { assert Step(ss[i], es[i], ss[i + 1]); }
    }
  }

  lemma StepOf(s: State, first: int, chunk: nat, t: nat) returns (e: Event, r: State)
    requires Inv(s, first, chunk) && t < |s.phases| && !s.phases[t].Done?
    ensures e.t == t && Step(s, e, r)
  {
    var ws := s.ws;
    match s.phases[t] {
      case Loaded(start, c) =>
        e := Swap(t);
        if start == ws.end {
          r := s.(phases := s.phases[t := Done]);
        } else if ws.next == start {
          r := Give(s, t, (start, BlockEnd(s, start, c)));
        } else {
          var k := if s.schedule.Guided? then c else Cut(ws.incr, ws.end, start, c);
          r := s.(phases := s.phases[t := Loaded(ws.next, k)]);
        }
      case Ready =>
        if ws.mode {
          e := FetchAdd(t);
          var m := s.(ws := ws.(next := Wrap(ws.next + ws.chunkSize)));
          r := if Up(ws.incr, ws.next) >= Up(ws.incr, ws.end) then m.(phases := s.phases[t := Done])
               else m.(given := s.given + [(ws.next, AddEnd(ws))]);
        } else {
          e, r := Load(t), s.(phases := s.phases[t := Loaded(ws.next, ws.chunkSize)]);
        }
    }
  }
}
