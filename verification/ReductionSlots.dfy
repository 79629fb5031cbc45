/** Who waits for a slot in the tree reduction of lib/libopenpop/hierarchy.c: on a node
    with no more threads than slots and a leader, nobody. */
module ReductionSlots {
  import opened TreeReduction

  /** The ticket of a thread that brings its data to its leader. */
  function TicketOf(p: Phase): int {
    match p
    case Placing(ticket) => ticket
    case Placed(slot) => slot
    case _ => -1
  }

  ghost predicate Few(s: Team, n: nat) {
    Num(s, n) <= REDUCTION_ENTRIES + 1
  }

  /** Tickets are handed out downwards as the threads of the node arrive. */
  ghost predicate TicketOk(s: Team, t: nat) {
    t < |s.threads| && TicketOf(s.threads[t].phase) >= 0 && Few(s, s.threads[t].node) ==>
      |Coming(s.threads, s.threads[t].node)| <= TicketOf(s.threads[t].phase) < REDUCTION_ENTRIES
  }

  ghost predicate TicketsDiffer(s: Team, t: nat, u: nat) {
    t < |s.threads| && u < |s.threads| && t != u && s.threads[t].node == s.threads[u].node
      && TicketOf(s.threads[t].phase) >= 0 && Few(s, s.threads[t].node) ==>
      TicketOf(s.threads[t].phase) != TicketOf(s.threads[u].phase)
  }

  ghost predicate Tickets(s: Team) {
    (forall t: nat :: TicketOk(s, t)) && forall t: nat, u: nat :: TicketsDiffer(s, t, u)
  }

  /** The threads of each node and those of them still to come. */
  ghost predicate SameTeam(s: Team, r: Team) {
    && |r.threads| == |s.threads|
    && forall t :: 0 <= t < |s.threads| ==> r.threads[t].node == s.threads[t].node
  }

  lemma SameNums(s: Team, r: Team)
    requires SameTeam(s, r)
    ensures forall n: nat :: Num(r, n) == Num(s, n)
  {
    assert forall n: nat :: Members(r.threads, n) == Members(s.threads, n);
  }

  /** A step in which nobody arrives and every ticket is kept or given up. */
  lemma TicketsKept(s: Team, r: Team)
    requires Tickets(s) && SameTeam(s, r)
    requires forall t {:trigger r.threads[t]} :: 0 <= t < |s.threads| ==>
      && (r.threads[t].phase.Arriving? <==> s.threads[t].phase.Arriving?)
      && (TicketOf(r.threads[t].phase) >= 0 ==>
            Few(s, s.threads[t].node) ==> TicketOf(r.threads[t].phase) == TicketOf(s.threads[t].phase))
    ensures Tickets(r)
  {
    SameNums(s, r);
    assert forall n: nat :: Coming(r.threads, n) == Coming(s.threads, n);
    forall t: nat ensures TicketOk(r, t) { assert TicketOk(s, t); }
    forall t: nat, u: nat ensures TicketsDiffer(r, t, u) { assert TicketsDiffer(s, t, u); }
  }

  lemma ArriveTickets(s: Team, t: nat, r: Team)
    requires Inv(s) && Tickets(s) && Step(s, Arrive(t), r)
    ensures Tickets(r)
  {
    FirstToArrive(s, t);
    ArrivedTickets(s, t, r);
  }

  lemma ArrivedTickets(s: Team, t: nat, r: Team)
    requires Tickets(s) && Step(s, Arrive(t), r) && t in Coming(s.threads, s.threads[t].node)
    requires var n := s.threads[t].node; s.remaining[n] == |Coming(s.threads, n)| <= Num(s, n)
    ensures Tickets(r)
  {
    var n := s.threads[t].node;
    SameNums(s, r);
    forall m: nat ensures Coming(r.threads, m) == Coming(s.threads, m) - {t} { }
    forall u: nat ensures TicketOk(r, u) { assert TicketOk(s, u); }
    forall u: nat, v: nat ensures TicketsDiffer(r, u, v) {
      assert TicketsDiffer(s, u, v) && TicketOk(s, u) && TicketOk(s, v);
    }
  }

  lemma StepTickets(s: Team, e: Event, r: Team)
    requires Inv(s) && Tickets(s) && Step(s, e, r)
    ensures Tickets(r)
  {
    match e {
      case Arrive(t) => ArriveTickets(s, t, r);
      case Place(t) => PlaceTickets(s, t, r);
      case Collect(t, j) =>
        CollectSets(s, t, j, r);
        MergeTickets(s, t, s.slots[s.threads[t].node][j], r.threads[t].phase, r);
      case CollectGlobal(t, m) =>
        SlotLeader(s, t, m);
        MergeTickets(s, t, s.globalSlots[m], r.threads[t].phase, r);
      case Barrier => NoTickets(r);
      case _ => LeaderTickets(s, e, r);
    }
  }

  lemma PlaceTickets(s: Team, t: nat, r: Team)
    requires Tickets(s) && Step(s, Place(t), r)
    ensures Tickets(r)
  {
    assert TicketOk(s, t);
    TicketsKept(s, r);
  }

  lemma MergeTickets(s: Team, t: nat, u: nat, p: Phase, r: Team)
    requires Tickets(s) && t < |s.threads| && u < |s.threads| && t != u && r.threads == Merge(s.threads, t, u, p)
    requires TicketOf(p) < 0 && !p.Arriving? && !s.threads[t].phase.Arriving?
    ensures Tickets(r)
  {
    TicketsKept(s, r);
  }

  /** The phases of leaders have no tickets. */
  lemma LeaderTickets(s: Team, e: Event, r: Team)
    requires Tickets(s) && Step(s, e, r) && (e.Elect? || e.Publish? || e.Finish? || e.Clean?)
    ensures Tickets(r)
  {
    assert r.threads == s.threads[e.t := s.threads[e.t].(phase := r.threads[e.t].phase)];
    TicketsKept(s, r);
  }

  lemma NoTickets(s: Team)
    requires forall t :: 0 <= t < |s.threads| ==> TicketOf(s.threads[t].phase) < 0
    ensures Tickets(s)
  {
  }

  lemma {:induction false} RunTickets(ss: seq<Team>, es: seq<Event>, i: nat)
    requires Run(ss, es) && i <= |es|
    ensures Tickets(ss[i])
  {
    if i == 0 {
      NoTickets(ss[0]);
    } else {
      RunTickets(ss, es, i - 1);
      RunInv(ss, es, i - 1);
      assert Step(ss[i - 1], es[i - 1], ss[i]);
      StepTickets(ss[i - 1], es[i - 1], ss[i]);
    }
  }

  /** On a node with at most 49 threads a thread finds its slot empty: it never has to
      wait for its leader. */
  lemma NobodyWaits(ss: seq<Team>, es: seq<Event>, i: nat, t: nat)
    requires Run(ss, es) && i <= |es| && t < |ss[i].threads| && ss[i].threads[t].phase.Placing?
    requires Num(ss[i], ss[i].threads[t].node) <= 49
    ensures Enabled(ss[i], Place(t))
  {
    var s := ss[i];
    var n, ticket := s.threads[t].node, s.threads[t].phase.ticket;
    RunInv(ss, es, i);
    RunTickets(ss, es, i);
    assert TicketOk(s, t) && ThreadOk(s, t) && NodeOk(s, n);
    assert ticket < REDUCTION_ENTRIES;
    var u := s.slots[n][ticket];
    assert SlotOk(s, n, ticket);
    assert u < 0 || TicketsDiffer(s, t, u);
    assert Step(s, Place(t), SetPhase(s, t, Placed(ticket)).(slots := s.slots[n := s.slots[n][ticket := t]]));
  }
}
