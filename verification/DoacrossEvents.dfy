/** The doacross protocol seen from outside: what the events of a run say about each
    other. */
module DoacrossEvents {
  import opened Lexicographic
  import opened Doacross

  /** The vectors whose posting to entry k the first i events begin. */
  function Posts(evs: seq<Event>, i: nat, k: nat): seq<Vector>
    requires i <= |evs|
  {
    if i == 0 then []
    else
      Posts(evs, i - 1, k) + match evs[i - 1]
        case BeginPost(ent, v) => if ent == k then [v] else []
        case _ => []
  }

  /** How many waits the first i events begin; a wait has this number when it is begun
      by event i. */
  function Waits(evs: seq<Event>, i: nat): nat
    requires i <= |evs|
  {
    if i == 0 then 0 else Waits(evs, i - 1) + if evs[i - 1].BeginWait? then 1 else 0
  }

  /** The waiters are as the events that began them say. */
  ghost predicate WaiterIs(evs: seq<Event>, i: nat, waiters: seq<Waiter>, p: nat)
    requires i <= |evs|
  {
    p < i && evs[p].BeginWait? ==>
      Waits(evs, p) < |waiters| && waiters[Waits(evs, p)].ent == evs[p].ent && waiters[Waits(evs, p)].v == evs[p].v
  }

  lemma NextByEvent(s: State, ev: Event, r: State)
    requires Next(s, ev, r)
    ensures |r.entries| == |s.entries| && |r.waiters| == |s.waiters| + if ev.BeginWait? then 1 else 0
    ensures forall k :: 0 <= k < |s.entries| ==>
      r.entries[k].begun == s.entries[k].begun + if ev.BeginPost? && ev.ent == k then [ev.v] else []
    ensures forall w :: 0 <= w < |s.waiters| ==>
      r.waiters[w].ent == s.waiters[w].ent && r.waiters[w].v == s.waiters[w].v
    ensures ev.BeginWait? ==> r.waiters[|s.waiters|].ent == ev.ent && r.waiters[|s.waiters|].v == ev.v
  {
  }

  lemma {:induction false} StateByEvents(ss: seq<State>, evs: seq<Event>, i: nat)
    requires Run(ss, evs) && i <= |evs|
    ensures |ss[i].entries| == |ss[0].entries| && |ss[i].waiters| == Waits(evs, i)
    ensures forall k: nat :: k < |ss[i].entries| ==> ss[i].entries[k].begun == Posts(evs, i, k)
    ensures forall p: nat :: WaiterIs(evs, i, ss[i].waiters, p)
  {
    if i > 0 {
      StateByEvents(ss, evs, i - 1);
      assert Next(ss[i - 1], evs[i - 1], ss[i]);
      NextByEvent(ss[i - 1], evs[i - 1], ss[i]);
      forall p: nat ensures WaiterIs(evs, i, ss[i].waiters, p) {
        assert WaiterIs(evs, i - 1, ss[i - 1].waiters, p);
      }
    }
  }

  lemma {:induction false} PostEvent(evs: seq<Event>, i: nat, k: nat, m: nat) returns (j: nat)
    requires i <= |evs| && m < |Posts(evs, i, k)|
    ensures j < i && evs[j] == BeginPost(k, Posts(evs, i, k)[m])
  {
    if m < |Posts(evs, i - 1, k)| { j := PostEvent(evs, i - 1, k, m); } else { j := i - 1; }
  }

  /** In every run, a wait that has returned was preceded by the beginning of a post to
      its entry of a vector that is not before the one it waits for. */
  lemma WaitFollowsPost(ss: seq<State>, evs: seq<Event>, p: nat, i: nat) returns (j: nat)
    requires Run(ss, evs) && p < i <= |evs| && evs[p].BeginWait?
    requires Waits(evs, p) < |ss[i].waiters| && ss[i].waiters[Waits(evs, p)].phase.Passed?
    ensures j < i && evs[j].BeginPost? && evs[j].ent == evs[p].ent
    ensures |evs[p].v| == |evs[j].v| && LexLe(evs[p].v, evs[j].v)
  {
    StateByEvents(ss, evs, i);
    assert WaiterIs(evs, i, ss[i].waiters, p);
    PassedWasPosted(ss, evs, i, Waits(evs, p));
    var e, v := ss[i].entries[evs[p].ent], evs[p].v;
    var m :| 0 <= m < |e.begun| && |e.begun[m]| == |v| && LexLe(v, e.begun[m]);
    j := PostEvent(evs, i, evs[p].ent, m);
  }
}
