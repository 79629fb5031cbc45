/** Ordered sections of dynamically scheduled loops, lib/libopenpop/ordered.c and
    loop.c: threads queue in a ring in the order in which they were given blocks,
    and a semaphore token tells the head of the ring that it may proceed. */
module OrderedRing {
  import opened FiniteSets

  /** The ordered fields of a work share with the release semaphores of the team. */
  datatype Ring = Ring(ids: seq<int>, numUsed: nat, cur: nat, owner: int, sems: seq<nat>)

  /** A thread of the team and the block it has. It is Waiting once it has found
      that it is not the owner, and Claiming once it has taken its token. */
  datatype Phase =
    | Idle
    | Working(block: nat)
    | Waiting(block: nat)
    | Claiming(block: nat)
    | Owning(block: nat)
    | Out

  /** `given` of `total` blocks have been handed out; `entered` records the blocks
      whose threads have entered their ordered sections. */
  datatype Team = Team(ring: Ring, phases: seq<Phase>, given: nat, total: nat, entered: seq<nat>)

  datatype Event = Start(t: nat) | Check(t: nat) | Wait(t: nat) | Claim(t: nat) | Advance(t: nat)

  // ------------------------------------------------------------------
  // The ring operations
  // ------------------------------------------------------------------

  ghost predicate RingOk(r: Ring, n: nat) {
    n >= 2 && |r.ids| == n && |r.sems| == n && r.cur < n && r.numUsed <= n
  }

  function Wrap(i: nat, n: nat): nat {
    if i >= n then i - n else i
  }

  function Posted(r: Ring, t: int): Ring
    requires 0 <= t < |r.sems|
  {
    r.(sems := r.sems[t := r.sems[t] + 1])
  }

  /** gomp_ordered_first. */
  function First(r: Ring, n: nat, t: nat): Ring
    requires RingOk(r, n) && r.numUsed < n && t < n
  {
    var r' := r.(ids := r.ids[Wrap(r.cur + r.numUsed, n) := t], numUsed := r.numUsed + 1);
    if r.numUsed == 0 then Posted(r', t) else r'
  }

  /** gomp_ordered_last; None stands for a released id outside the team. */
  function Last(r: Ring, n: nat): Ring
    requires RingOk(r, n) && r.numUsed > 0
    requires 0 <= r.ids[Wrap(r.cur + 1, n)] < n || r.numUsed == 1
  {
    var r' := r.(owner := -1, numUsed := r.numUsed - 1);
    if r.numUsed == 1 then r'
    else
      var next := Wrap(r.cur + 1, n);
      Posted(r'.(cur := next), r.ids[next])
  }

  /** gomp_ordered_next. */
  function Next(r: Ring, n: nat, t: nat): Ring
    requires RingOk(r, n) && r.numUsed > 0 && t < n
    requires 0 <= r.ids[Wrap(r.cur + 1, n)] < n || r.numUsed == 1
  {
    var r' := r.(owner := -1);
    if r.numUsed == 1 then Posted(r', t)
    else
      var ids := if r.numUsed < n then r.ids[Wrap(r.cur + r.numUsed, n) := t] else r.ids;
      var next := Wrap(r.cur + 1, n);
      Posted(r'.(ids := ids, cur := next), ids[next])
  }

  // ------------------------------------------------------------------
  // The steps of the threads
  // ------------------------------------------------------------------

  ghost predicate HasBlock(p: Phase) {
    p.Working? || p.Waiting? || p.Claiming? || p.Owning?
  }

  ghost predicate Step(s: Team, e: Event, r: Team) {
    var n, t := |s.phases|, e.t;
    && RingOk(s.ring, n) && t < n
    && match e
       // gomp_loop_ordered_dynamic_start, under the lock of the work share
       case Start(_) =>
         && s.phases[t].Idle?
         && if s.given < s.total then
              && s.ring.numUsed < n
              && r == s.(ring := First(s.ring, n, t), phases := s.phases[t := Working(s.given)], given := s.given + 1)
            else r == s.(phases := s.phases[t := Out])
       // gomp_ordered_sync: look at the owner
       case Check(_) =>
         && s.phases[t].Working? && s.ring.owner != t
         && r == s.(phases := s.phases[t := Waiting(s.phases[t].block)])
       // gomp_ordered_sync: take the token
       case Wait(_) =>
         && s.phases[t].Waiting? && s.ring.sems[t] > 0
         && r == s.(ring := s.ring.(sems := s.ring.sems[t := s.ring.sems[t] - 1]),
                    phases := s.phases[t := Claiming(s.phases[t].block)])
       // gomp_ordered_sync: become the owner
       case Claim(_) =>
         && s.phases[t].Claiming?
         && r == s.(ring := s.ring.(owner := t), phases := s.phases[t := Owning(s.phases[t].block)],
                    entered := s.entered + [s.phases[t].block])
       // gomp_loop_ordered_dynamic_next after its sync, under the lock
       case Advance(_) =>
         && s.phases[t].Owning? && s.ring.owner == t && s.ring.numUsed > 0
         && (0 <= s.ring.ids[Wrap(s.ring.cur + 1, n)] < n || s.ring.numUsed == 1)
         && if s.given < s.total then
              r == s.(ring := Next(s.ring, n, t), phases := s.phases[t := Working(s.given)], given := s.given + 1)
            else r == s.(ring := Last(s.ring, n), phases := s.phases[t := Out])
  }

  ghost predicate Init(s: Team) {
    var n := |s.phases|;
    && n >= 2 && |s.ring.ids| == n
    && s.ring.numUsed == 0 && s.ring.cur == 0 && s.ring.owner == -1 && s.ring.sems == seq(n, _ => 0)
    && (forall t :: 0 <= t < n ==> s.phases[t] == Idle)
    && s.given == 0 && s.entered == []
  }

  // ------------------------------------------------------------------
  // The invariant
  // ------------------------------------------------------------------

  /** The block of the head of the ring. */
  function Base(s: Team): int {
    s.given - s.ring.numUsed
  }

  /** The thread at position k of the ring. */
  function At(r: Ring, n: nat, k: nat): int
    requires RingOk(r, n) && k < n
  {
    r.ids[Wrap(r.cur + k, n)]
  }

  ghost predicate SlotOk(s: Team, k: int)
    requires RingOk(s.ring, |s.phases|)
  {
    0 <= k < s.ring.numUsed ==>
      var t := At(s.ring, |s.phases|, k);
      0 <= t < |s.phases| && HasBlock(s.phases[t]) && s.phases[t].block == Base(s) + k
  }

  ghost predicate ThreadOk(s: Team, t: int)
    requires RingOk(s.ring, |s.phases|)
  {
    0 <= t < |s.phases| ==>
      var p := s.phases[t];
      && (HasBlock(p) ==> Base(s) <= p.block < s.given && At(s.ring, |s.phases|, p.block - Base(s)) == t)
      && s.ring.sems[t] == (if (p.Working? || p.Waiting?) && p.block == Base(s) then 1 else 0)
      && ((p.Claiming? || p.Owning?) ==> p.block == Base(s))
      && (p.Owning? <==> s.ring.owner == t)
      && (p.Out? ==> s.given == s.total)
  }

  ghost function Active(phases: seq<Phase>): set<nat> {
    set t: nat | t < |phases| && HasBlock(phases[t])
  }

  ghost predicate EnteredOk(s: Team) {
    && |s.entered| == Base(s) + (if s.ring.owner == -1 then 0 else 1)
    && forall i :: 0 <= i < |s.entered| ==> s.entered[i] == i
  }

  /** The ring lists each active thread once, in the order of the blocks; there is
      one token or one owner, and it belongs to the head. */
  ghost predicate Inv(s: Team) {
    && RingOk(s.ring, |s.phases|) && s.given <= s.total
    && s.ring.numUsed == |Active(s.phases)| && Base(s) >= 0
    && -1 <= s.ring.owner < |s.phases|
    && (forall k :: SlotOk(s, k)) && (forall t :: ThreadOk(s, t))
    && EnteredOk(s)
  }

  // ------------------------------------------------------------------
  // The ring operations move the queue
  // ------------------------------------------------------------------

  lemma FirstAt(r: Ring, n: nat, t: nat, k: nat)
    requires RingOk(r, n) && r.numUsed < n && t < n && k <= r.numUsed
    ensures RingOk(First(r, n, t), n)
    ensures At(First(r, n, t), n, k) == if k < r.numUsed then At(r, n, k) else t
  {
  }

  lemma LastAt(r: Ring, n: nat, k: nat)
    requires RingOk(r, n) && r.numUsed > 0 && (0 <= r.ids[Wrap(r.cur + 1, n)] < n || r.numUsed == 1)
    ensures RingOk(Last(r, n), n)
    ensures k < r.numUsed - 1 ==> At(Last(r, n), n, k) == At(r, n, k + 1)
  {
  }

  lemma NextAt(r: Ring, n: nat, t: nat, k: nat)
    requires RingOk(r, n) && r.numUsed > 0 && (0 <= r.ids[Wrap(r.cur + 1, n)] < n || r.numUsed == 1)
    requires t < n && t == At(r, n, 0) && k < r.numUsed
    ensures RingOk(Next(r, n, t), n)
    ensures At(Next(r, n, t), n, k) == if k < r.numUsed - 1 then At(r, n, k + 1) else t
  {
  }

  lemma RoomFor(phases: seq<Phase>, t: nat)
    requires t < |phases| && !HasBlock(phases[t])
    ensures |Active(phases)| < |phases|
  {
    SubsetSmaller(Active(phases), Below(|phases|) - {t});
  }

  lemma ActiveAfter(phases: seq<Phase>, t: nat, p: Phase)
    requires t < |phases|
    ensures var a, b := Active(phases), Active(phases[t := p]);
      |b| == |a| + (if HasBlock(p) then 1 else 0) - (if HasBlock(phases[t]) then 1 else 0)
  {
    var a, b := Active(phases), Active(phases[t := p]);
    assert b == if HasBlock(p) then a + {t} else a - {t};
  }

  // ------------------------------------------------------------------
  // Every step keeps the invariant
  // ------------------------------------------------------------------

  lemma JoinKeeps(s: Team, t: nat, r: Team)
    requires Inv(s) && Step(s, Start(t), r) && s.given < s.total
    ensures Inv(r)
  {
    var n := |s.phases|;
    ActiveAfter(s.phases, t, r.phases[t]);
    FirstAt(s.ring, n, t, s.ring.numUsed);
    assert ThreadOk(s, t);
    forall k ensures SlotOk(r, k) {
      assert SlotOk(s, k);
      if 0 <= k <= s.ring.numUsed { FirstAt(s.ring, n, t, k); }
    }
    forall u ensures ThreadOk(r, u) {
      assert ThreadOk(s, u);
      JoinThread(s, t, r, u);
    }
  }

  lemma JoinThread(s: Team, t: nat, r: Team, u: int)
    requires Step(s, Start(t), r) && s.given < s.total && RingOk(r.ring, |r.phases|)
    requires ThreadOk(s, t) && ThreadOk(s, u) && Base(s) >= 0
    ensures ThreadOk(r, u)
  {
    if 0 <= u < |s.phases| && HasBlock(r.phases[u]) { FirstAt(s.ring, |s.phases|, t, r.phases[u].block - Base(r)); }
  }

  lemma StayOutKeeps(s: Team, t: nat, r: Team)
    requires Inv(s) && Step(s, Start(t), r) && s.given >= s.total
    ensures Inv(r)
  {
    ActiveAfter(s.phases, t, r.phases[t]);
    forall k ensures SlotOk(r, k) { assert SlotOk(s, k); }
    forall u ensures ThreadOk(r, u) { assert ThreadOk(s, u); }
  }

  lemma CheckKeeps(s: Team, t: nat, r: Team)
    requires Inv(s) && Step(s, Check(t), r)
    ensures Inv(r)
  {
    ActiveAfter(s.phases, t, r.phases[t]);
    assert ThreadOk(s, t);
    forall k ensures SlotOk(r, k) { assert SlotOk(s, k); }
    forall u ensures ThreadOk(r, u) { assert ThreadOk(s, u); }
  }

  lemma WaitKeeps(s: Team, t: nat, r: Team)
    requires Inv(s) && Step(s, Wait(t), r)
    ensures Inv(r)
  {
    ActiveAfter(s.phases, t, r.phases[t]);
    assert ThreadOk(s, t);
    forall k ensures SlotOk(r, k) { assert SlotOk(s, k); }
    forall u ensures ThreadOk(r, u) { assert ThreadOk(s, u); }
  }

  lemma ClaimKeeps(s: Team, t: nat, r: Team)
    requires Inv(s) && Step(s, Claim(t), r)
    ensures Inv(r)
  {
    ActiveAfter(s.phases, t, r.phases[t]);
    assert ThreadOk(s, t) && ThreadOk(s, s.ring.owner);
    forall k ensures SlotOk(r, k) { assert SlotOk(s, k); }
    forall u ensures ThreadOk(r, u) { assert ThreadOk(s, u); }
  }

  lemma HeadOwns(s: Team, t: nat)
    requires Inv(s) && t < |s.phases| && s.phases[t].Owning?
    ensures s.ring.numUsed > 0 && At(s.ring, |s.phases|, 0) == t && s.phases[t].block == Base(s)
    ensures s.ring.owner == t && s.ring.sems == seq(|s.phases|, _ => 0)
    ensures s.ring.numUsed > 1 ==> 0 <= s.ring.ids[Wrap(s.ring.cur + 1, |s.phases|)] < |s.phases|
  {
    assert ThreadOk(s, t) && SlotOk(s, 1);
    forall u | 0 <= u < |s.phases| ensures s.ring.sems[u] == 0 {
      assert ThreadOk(s, u);
    }
  }

  lemma GoOnSlot(s: Team, t: nat, r: Team, k: int)
    requires Inv(s) && Step(s, Advance(t), r) && s.given < s.total && RingOk(r.ring, |r.phases|)
    ensures SlotOk(r, k)
  {
    HeadOwns(s, t);
    var j := k + 1;
    assert SlotOk(s, j);
    if 0 <= k < s.ring.numUsed { NextAt(s.ring, |s.phases|, t, k); }
  }

  lemma GoOnThread(s: Team, t: nat, r: Team, u: int)
    requires Step(s, Advance(t), r) && s.given < s.total && RingOk(r.ring, |r.phases|)
    requires ThreadOk(s, u) && SlotOk(s, 1) && Base(s) >= 0
    requires At(s.ring, |s.phases|, 0) == t && s.phases[t].block == Base(s)
    requires s.ring.sems == seq(|s.phases|, _ => 0)
    ensures ThreadOk(r, u)
  {
    if 0 <= u < |s.phases| {
      if HasBlock(r.phases[u]) { GoOnPlace(s, t, r, u); }
      NextPosts(s.ring, |s.phases|, t);
    }
  }

  lemma GoOnPlace(s: Team, t: nat, r: Team, u: nat)
    requires Step(s, Advance(t), r) && s.given < s.total && RingOk(r.ring, |r.phases|)
    requires u < |s.phases| && ThreadOk(s, u) && Base(s) >= 0
    requires At(s.ring, |s.phases|, 0) == t && s.phases[t].block == Base(s)
    requires HasBlock(r.phases[u])
    ensures Base(r) <= r.phases[u].block < r.given && At(r.ring, |s.phases|, r.phases[u].block - Base(r)) == u
  {
    NextAt(s.ring, |s.phases|, t, if u == t then s.ring.numUsed - 1 else s.phases[u].block - Base(s) - 1);
  }

  /** Going on posts one token, to the thread at the next position. */
  lemma NextPosts(r: Ring, n: nat, t: nat)
    requires RingOk(r, n) && r.numUsed > 0 && (0 <= r.ids[Wrap(r.cur + 1, n)] < n || r.numUsed == 1)
    requires t < n && t == At(r, n, 0)
    ensures var r' := Next(r, n, t); var next := if r.numUsed == 1 then t else At(r, n, 1);
      && r'.owner == -1 && r'.numUsed == r.numUsed
      && 0 <= next < n && r'.sems == r.sems[next := r.sems[next] + 1]
  {
  }

  lemma GoOnKeeps(s: Team, t: nat, r: Team)
    requires Inv(s) && Step(s, Advance(t), r) && s.given < s.total
    ensures Inv(r)
  {
    ActiveAfter(s.phases, t, r.phases[t]);
    HeadOwns(s, t);
    NextAt(s.ring, |s.phases|, t, 0);
    forall k ensures SlotOk(r, k) { GoOnSlot(s, t, r, k); }
    assert SlotOk(s, 1);
    forall u ensures ThreadOk(r, u) {
      assert ThreadOk(s, u);
      GoOnThread(s, t, r, u);
    }
  }

  lemma LeaveKeeps(s: Team, t: nat, r: Team)
    requires Inv(s) && Step(s, Advance(t), r) && s.given >= s.total
    ensures Inv(r)
  {
    var n, m := |s.phases|, s.ring.numUsed;
    ActiveAfter(s.phases, t, r.phases[t]);
    HeadOwns(s, t);
    LastAt(s.ring, n, 0);
    assert SlotOk(s, 1);
    forall k ensures SlotOk(r, k) {
      assert SlotOk(s, k + 1);
      if 0 <= k < m { LastAt(s.ring, n, k); }
    }
    forall u ensures ThreadOk(r, u) {
      assert ThreadOk(s, u);
      LeaveThread(s, t, r, u);
    }
  }

  lemma LeaveThread(s: Team, t: nat, r: Team, u: int)
    requires Step(s, Advance(t), r) && s.given == s.total && RingOk(r.ring, |r.phases|)
    requires ThreadOk(s, u) && SlotOk(s, 1) && Base(s) >= 0
    requires At(s.ring, |s.phases|, 0) == t && s.phases[t].block == Base(s)
    requires s.ring.sems == seq(|s.phases|, _ => 0)
    ensures ThreadOk(r, u)
  {
    if 0 <= u < |s.phases| && HasBlock(r.phases[u]) { LastAt(s.ring, |s.phases|, r.phases[u].block - Base(r)); }
  }

  lemma StepKeeps(s: Team, e: Event, r: Team)
    requires Inv(s) && Step(s, e, r)
    ensures Inv(r)
  {
    match e {
      case Start(t) => if s.given < s.total { JoinKeeps(s, t, r); } else { StayOutKeeps(s, t, r); }
      case Advance(t) => if s.given < s.total { GoOnKeeps(s, t, r); } else { LeaveKeeps(s, t, r); }
      case Check(t) => CheckKeeps(s, t, r);
      case Wait(t) => WaitKeeps(s, t, r);
      case Claim(t) => ClaimKeeps(s, t, r);
    }
  }

  // ------------------------------------------------------------------
  // Whole runs
  // ------------------------------------------------------------------

  ghost predicate Run(ss: seq<Team>, es: seq<Event>) {
    && |ss| == |es| + 1 && Init(ss[0])
    && forall i {:trigger es[i]} :: 0 <= i < |es| ==> Step(ss[i], es[i], ss[i + 1])
  }

  lemma InitInv(s: Team)
    requires Init(s)
    ensures Inv(s)
  {
    assert Active(s.phases) == {};
  }

  lemma {:induction false} RunInv(ss: seq<Team>, es: seq<Event>, i: nat)
    requires Run(ss, es) && i <= |es|
    ensures Inv(ss[i])
  {
    if i == 0 {
      InitInv(ss[0]);
    } else {
      RunInv(ss, es, i - 1);
      RunStep(ss, es, i - 1);
    }
  }

  lemma RunStep(ss: seq<Team>, es: seq<Event>, i: nat)
    requires Run(ss, es) && i < |es| && Inv(ss[i])
    ensures Inv(ss[i + 1])
  {
    assert Step(ss[i], es[i], ss[i + 1]);
    StepKeeps(ss[i], es[i], ss[i + 1]);
  }

  /** In every run the ordered sections are entered in the order of the blocks,
      each block once and none left out. */
  lemma EnteredInOrder(ss: seq<Team>, es: seq<Event>, i: nat, k: nat)
    requires Run(ss, es) && i <= |es| && k < |ss[i].entered|
    ensures ss[i].entered[k] == k < ss[i].given
  {
    RunInv(ss, es, i);
    var s := ss[i];
    if s.ring.owner >= 0 { assert ThreadOk(s, s.ring.owner); }
  }

  /** Only one thread at a time can be in an ordered section or hold a token. */
  lemma Exclusive(ss: seq<Team>, es: seq<Event>, i: nat, t: nat, u: nat)
    requires Run(ss, es) && i <= |es| && t < |ss[i].phases| && u < |ss[i].phases|
    ensures |ss[i].ring.sems| == |ss[i].phases|
    ensures MayEnter(ss[i], t) && MayEnter(ss[i], u) ==> t == u
    ensures ss[i].ring.sems[t] <= 1
  {
    RunInv(ss, es, i);
    assert ThreadOk(ss[i], t) && ThreadOk(ss[i], u);
  }

  /** The thread is in an ordered section, or nothing can keep it from entering. */
  ghost predicate MayEnter(s: Team, t: nat)
    requires t < |s.phases|
  {
    s.phases[t].Owning? || s.phases[t].Claiming? || (t < |s.ring.sems| && s.ring.sems[t] > 0)
  }

  ghost predicate Enabled(s: Team, e: Event) {
    exists r :: Step(s, e, r)
  }

  /** While any thread is still in the loop some thread can take a step, so the
      loop ends with every block entered. */
  lemma NeverStuck(ss: seq<Team>, es: seq<Event>, i: nat)
    requires Run(ss, es) && i <= |es|
    ensures (exists e :: Enabled(ss[i], e)) || (|ss[i].entered| == ss[i].total && ss[i].ring.numUsed == 0)
  {
    RunInv(ss, es, i);
    var s := ss[i];
    var n := |s.phases|;
    if s.ring.numUsed > 0 {
      assert SlotOk(s, 0) && SlotOk(s, 1);
      HeadMoves(s, At(s.ring, n, 0));
    } else if t: nat :| t < n && s.phases[t].Idle? {
      IdleMoves(s, t);
    } else {
      assert ThreadOk(s, 0) && ThreadOk(s, s.ring.owner);
    }
  }

  lemma IdleMoves(s: Team, t: nat)
    requires Inv(s) && t < |s.phases| && s.phases[t].Idle?
    ensures Enabled(s, Start(t))
  {
    var n := |s.phases|;
    RoomFor(s.phases, t);
    var r := if s.given < s.total
      then s.(ring := First(s.ring, n, t), phases := s.phases[t := Working(s.given)], given := s.given + 1)
      else s.(phases := s.phases[t := Out]);
    assert Step(s, Start(t), r);
  }

  /** The head of the ring can always go on. */
  lemma HeadMoves(s: Team, t: nat)
    requires Inv(s) && s.ring.numUsed > 0 && t == At(s.ring, |s.phases|, 0) && t < |s.phases|
    ensures exists e :: Enabled(s, e)
  {
    var n, b := |s.phases|, s.phases[t];
    assert SlotOk(s, 0) && SlotOk(s, 1) && ThreadOk(s, t);
    match b {
      case Working(k) =>
        assert Step(s, Check(t), s.(phases := s.phases[t := Waiting(k)]));
        assert Enabled(s, Check(t));
      case Waiting(k) =>
        assert Step(s, Wait(t), s.(ring := s.ring.(sems := s.ring.sems[t := s.ring.sems[t] - 1]),
          phases := s.phases[t := Claiming(k)]));
        assert Enabled(s, Wait(t));
      case Claiming(k) =>
        assert Step(s, Claim(t), s.(ring := s.ring.(owner := t), phases := s.phases[t := Owning(k)],
          entered := s.entered + [k]));
        assert Enabled(s, Claim(t));
      case Owning(k) =>
        var r := if s.given < s.total
          then s.(ring := Next(s.ring, n, t), phases := s.phases[t := Working(s.given)], given := s.given + 1)
          else s.(ring := Last(s.ring, n), phases := s.phases[t := Out]);
        assert Step(s, Advance(t), r);
        assert Enabled(s, Advance(t));
    }
  }

  // ------------------------------------------------------------------
  // The operations on the shared fields
  // ------------------------------------------------------------------

  class OrderedShare {
    const nthreads: nat
    const teamIds: array<int>
    const release: array<nat>
    var numUsed: nat
    var cur: nat
    var owner: int

    ghost predicate Valid()
      reads this, teamIds, release
    {
      teamIds.Length == nthreads && release.Length == nthreads && RingOk(Value(), nthreads)
    }

    ghost function Value(): Ring
      reads this, teamIds, release
    {
      Ring(teamIds[..], numUsed, cur, owner, release[..])
    }

    constructor (nthreads: nat)
      requires nthreads >= 2
      ensures Valid() && fresh(teamIds) && fresh(release)
      ensures numUsed == 0 && cur == 0 && owner == -1 && release[..] == seq(nthreads, _ => 0)
    {
      this.nthreads := nthreads;
      numUsed, cur, owner := 0, 0, -1;
      teamIds := new int[nthreads](_ => 0);
      release := new nat[nthreads](_ => 0);
    }

    method Post(t: nat)
      requires Valid() && t < nthreads
      modifies release
      ensures Valid() && Value() == Posted(old(Value()), t)
    {
      release[t] := release[t] + 1;
    }

    /** gomp_ordered_sync of a thread that owns the section or whose token is there. */
    method OrderedSync(t: nat)
      requires Valid() && t < nthreads && (owner != t ==> release[t] > 0)
      modifies `owner, release
      ensures Valid()
      ensures Value() == if old(owner) == t then old(Value())
        else old(Value()).(owner := t, sems := old(release[..])[t := old(release[t]) - 1])
    {
      if owner != t {
        release[t] := release[t] - 1;
        owner := t;
      }
    }

    method OrderedFirst(t: nat)
      requires Valid() && t < nthreads && numUsed < nthreads
      modifies this, teamIds, release
      ensures Valid() && Value() == First(old(Value()), nthreads, t)
    {
      var index := cur + numUsed;
      if index >= nthreads {
        index := index - nthreads;
      }
      teamIds[index] := t;
      numUsed := numUsed + 1;
      if numUsed == 1 {
        Post(t);
      }
    }

    method OrderedLast()
      requires Valid() && numUsed > 0 && (numUsed == 1 || 0 <= teamIds[Wrap(cur + 1, nthreads)] < nthreads)
      modifies this, release
      ensures Valid() && Value() == Last(old(Value()), nthreads)
    {
      owner := -1;
      numUsed := numUsed - 1;
      if numUsed > 0 {
        var next := cur + 1;
        if next == nthreads {
          next := 0;
        }
        cur := next;
        Post(teamIds[next]);
      }
    }

    method OrderedNext(t: nat)
      requires Valid() && t < nthreads && numUsed > 0
        && (numUsed == 1 || 0 <= teamIds[Wrap(cur + 1, nthreads)] < nthreads)
      modifies this, teamIds, release
      ensures Valid() && Value() == Next(old(Value()), nthreads, t)
    {
      owner := -1;
      if numUsed == 1 {
        Post(t);
        return;
      }
      if numUsed < nthreads {
        var index := cur + numUsed;
        if index >= nthreads {
          index := index - nthreads;
        }
        teamIds[index] := t;
      }
      var index := cur + 1;
      if index == nthreads {
        index := 0;
      }
      cur := index;
      Post(teamIds[index]);
    }
  }
}
