/** The ordered sections seen from outside: what the events of a run say about each other. */
module OrderedEvents {
  import opened OrderedRing

  /** A thread asks for its first or its next block. */
  predicate Asks(e: Event) {
    e.Start? || e.Advance?
  }

  function AskCount(es: seq<Event>, i: nat): nat
    requires i <= |es|
  {
    if i == 0 then 0 else AskCount(es, i - 1) + if Asks(es[i - 1]) then 1 else 0
  }

  /** How many ordered sections are entered by the first i events. */
  function EntryCount(es: seq<Event>, i: nat): nat
    requires i <= |es|
  {
    if i == 0 then 0 else EntryCount(es, i - 1) + if es[i - 1].Claim? then 1 else 0
  }

  /** Event j is the request of thread t that comes after b others. */
  ghost predicate AskedAt(es: seq<Event>, j: int, t: nat, b: nat) {
    0 <= j < |es| && Asks(es[j]) && es[j].t == t && AskCount(es, j) == b
  }

  ghost predicate AskedBefore(es: seq<Event>, i: nat, t: nat, b: nat) {
    exists j :: j < i && AskedAt(es, j, t, b)
  }

  /** Blocks are numbered in the order of the requests, and sections counted as entered. */
  ghost predicate Counts(es: seq<Event>, i: nat, s: Team)
    requires i <= |es|
  {
    && s.given == (if AskCount(es, i) < s.total then AskCount(es, i) else s.total)
    && |s.entered| == EntryCount(es, i)
    && forall t :: 0 <= t < |s.phases| && HasBlock(s.phases[t]) ==> AskedBefore(es, i, t, s.phases[t].block)
  }

  lemma CountsNext(es: seq<Event>, i: nat, s: Team, r: Team)
    requires i < |es| && Counts(es, i, s) && Step(s, es[i], r)
    ensures Counts(es, i + 1, r)
  {
    var e := es[i];
    assert Asks(e) ==> AskedAt(es, i, e.t, AskCount(es, i));
    forall t | 0 <= t < |r.phases| && HasBlock(r.phases[t])
      ensures AskedBefore(es, i + 1, t, r.phases[t].block)
    {
      if !(Asks(e) && t == e.t) {
        assert HasBlock(s.phases[t]) && s.phases[t].block == r.phases[t].block;
        assert AskedBefore(es, i, t, s.phases[t].block);
      }
    }
  }

  lemma StepCounts(ss: seq<Team>, es: seq<Event>, i: nat)
    requires Run(ss, es) && i < |es| && Counts(es, i, ss[i])
    ensures Counts(es, i + 1, ss[i + 1]) && ss[i + 1].total == ss[i].total
  {
    assert Step(ss[i], es[i], ss[i + 1]);
    CountsNext(es, i, ss[i], ss[i + 1]);
  }

  lemma {:induction false} CountsHold(ss: seq<Team>, es: seq<Event>, i: nat)
    requires Run(ss, es) && i <= |es|
    ensures Counts(es, i, ss[i]) && ss[i].total == ss[0].total
  {
    if i > 0 {
      CountsHold(ss, es, i - 1);
      StepCounts(ss, es, i - 1);
    }
  }

  lemma EntersNext(ss: seq<Team>, es: seq<Event>, i: nat)
    requires Run(ss, es) && i < |es| && es[i].Claim?
    ensures var s, t := ss[i], es[i].t;
      t < |s.phases| && s.phases[t].Claiming? && s.phases[t].block == |s.entered| < s.given <= s.total
  {
    var s := ss[i];
    RunInv(ss, es, i);
    assert Step(s, es[i], ss[i + 1]);
    assert ThreadOk(s, es[i].t) && ThreadOk(s, s.ring.owner);
  }

  /** In every run, the thread that enters an ordered section after k others is the one
      whose request for a block came after k others. */
  lemma EnteredAsAsked(ss: seq<Team>, es: seq<Event>, i: nat) returns (j: nat)
    requires Run(ss, es) && i < |es| && es[i].Claim?
    ensures j < i && Asks(es[j]) && es[j].t == es[i].t && AskCount(es, j) == EntryCount(es, i) < ss[0].total
  {
    var s, t := ss[i], es[i].t;
    CountsHold(ss, es, i);
    EntersNext(ss, es, i);
    assert AskedBefore(es, i, t, s.phases[t].block);
    var k :| k < i && AskedAt(es, k, t, s.phases[t].block);
    j := k;
  }

  lemma {:induction false} OwnsOn(ss: seq<Team>, es: seq<Event>, i: nat, j: nat)
    requires Run(ss, es) && i < j <= |es| && es[i].Claim?
    requires forall k :: i < k < j ==> es[k] != Advance(es[i].t)
    ensures es[i].t < |ss[j].phases| && ss[j].phases[es[i].t].Owning?
    decreases j
  {
    if i < j - 1 { OwnsOn(ss, es, i, j - 1); }
    assert Step(ss[j - 1], es[j - 1], ss[j]);
  }

  /** When a thread enters, no thread is inside. */
  lemma NobodyInside(ss: seq<Team>, es: seq<Event>, j: nat, t: nat)
    requires Run(ss, es) && j < |es| && es[j].Claim? && t < |ss[j].phases|
    ensures !ss[j].phases[t].Owning?
  {
    assert Step(ss[j], es[j], ss[j + 1]);
    Exclusive(ss, es, j, t, es[j].t);
    assert MayEnter(ss[j], es[j].t);
  }

  /** Between two entries into ordered sections, the thread that was inside has left. */
  lemma SectionsApart(ss: seq<Team>, es: seq<Event>, i: nat, j: nat)
    requires Run(ss, es) && i < j < |es| && es[i].Claim? && es[j].Claim?
    ensures exists k :: i < k < j && es[k] == Advance(es[i].t)
  {
    if forall k :: i < k < j ==> es[k] != Advance(es[i].t) {
      OwnsOn(ss, es, i, j);
      NobodyInside(ss, es, j, es[i].t);
    }
  }
}
