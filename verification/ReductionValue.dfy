/** What the tree reduction computes: the data of the winning thread is the
    combination of all contributions, whatever the interleaving. */
module ReductionValue {
  import opened TreeReduction

  ghost predicate Regroups<V>(op: (V, V) -> V, a: V, b: V, c: V) {
    op(op(a, b), c) == op(a, op(b, c))
  }

  ghost predicate Swaps<V>(op: (V, V) -> V, a: V, b: V) {
    op(a, b) == op(b, a)
  }

  ghost predicate Associative<V(!new)>(op: (V, V) -> V) {
    forall a, b, c :: Regroups(op, a, b, c)
  }

  ghost predicate Commutative<V(!new)>(op: (V, V) -> V) {
    forall a, b :: Swaps(op, a, b)
  }

  ghost predicate InRange(ids: seq<nat>, n: nat) {
    forall i :: 0 <= i < |ids| ==> ids[i] < n
  }

  /** The contributions of the given threads, combined from left to right. */
  ghost function Combined<V>(op: (V, V) -> V, given: seq<V>, ids: seq<nat>): V
    requires ids != [] && InRange(ids, |given|)
  {
    var k := |ids| - 1;
    if k == 0 then given[ids[0]] else op(Combined(op, given, ids[..k]), given[ids[k]])
  }

  lemma {:induction false} CombinedAppend<V(!new)>(op: (V, V) -> V, given: seq<V>, a: seq<nat>, b: seq<nat>)
    requires Associative(op) && a != [] && b != [] && InRange(a, |given|) && InRange(b, |given|)
    ensures Combined(op, given, a + b) == op(Combined(op, given, a), Combined(op, given, b))
    decreases |b|
  {
    var k := |b| - 1;
    assert (a + b)[..|a| + k] == a + b[..k];
    if k == 0 {
      assert a + b[..k] == a;
    } else {
      CombinedAppend(op, given, a, b[..k]);
      assert Regroups(op, Combined(op, given, a), Combined(op, given, b[..k]), given[b[k]]);
    }
  }

  /** Any contribution may be combined last. */
  lemma PulledOut<V(!new)>(op: (V, V) -> V, given: seq<V>, a: seq<nat>, k: nat, b: seq<nat>)
    requires Associative(op) && Commutative(op) && InRange(a, |given|) && InRange(b, |given|) && k < |given|
    requires a + b != []
    ensures Combined(op, given, a + [k] + b) == op(Combined(op, given, a + b), given[k])
  {
    var x := [k];
    assert Combined(op, given, x) == given[k];
    if a == [] {
      assert a + x + b == x + b && a + b == b;
      CombinedAppend(op, given, x, b);
      assert Swaps(op, given[k], Combined(op, given, b));
    } else if b == [] {
      assert a + x + b == a + x && a + b == a;
      CombinedAppend(op, given, a, x);
    } else {
      var va, vb := Combined(op, given, a), Combined(op, given, b);
      CombinedAppend(op, given, a + x, b);
      CombinedAppend(op, given, a, x);
      CombinedAppend(op, given, a, b);
      assert Regroups(op, va, given[k], vb) && Swaps(op, given[k], vb) && Regroups(op, va, vb, given[k]);
    }
  }

  /** a and b hold the same numbers equally often. */
  ghost predicate SameIds(a: seq<nat>, b: seq<nat>) {
    forall x: nat :: Occurrences(a, x) == Occurrences(b, x)
  }

  lemma WithoutOne(a: seq<nat>, b: seq<nat>) returns (l: seq<nat>, r: seq<nat>)
    requires b != [] && SameIds(a, b)
    ensures a == l + [b[|b| - 1]] + r && SameIds(l + r, b[..|b| - 1])
  {
    var x := b[|b| - 1];
    assert b == b[..|b| - 1] + [x];
    assert Occurrences(b, x) > 0 && Occurrences(a, x) > 0;
    var i :| 0 <= i < |a| && a[i] == x;
    l, r := a[..i], a[i + 1..];
    assert a == l + [x] + r;
    forall y: nat
      ensures Occurrences(l + r, y) == Occurrences(b[..|b| - 1], y)
    {
      assert Occurrences(l + [x] + r, y) == Occurrences(l + r, y) + Occurrences([x], y);
      assert Occurrences(b[..|b| - 1] + [x], y) == Occurrences(b[..|b| - 1], y) + Occurrences([x], y);
    }
  }

  lemma BothEmpty(a: seq<nat>, b: seq<nat>)
    requires SameIds(a, b)
    ensures a == [] <==> b == []
  {
    assert a != [] ==> Occurrences(a, a[0]) > 0;
    assert b != [] ==> Occurrences(b, b[0]) > 0;
  }

  /** The order of the contributions does not matter. */
  lemma {:induction false} Reordered<V(!new)>(op: (V, V) -> V, given: seq<V>, a: seq<nat>, b: seq<nat>)
    requires Associative(op) && Commutative(op) && InRange(a, |given|) && InRange(b, |given|)
    requires a != [] && b != [] && SameIds(a, b)
    ensures Combined(op, given, a) == Combined(op, given, b)
    decreases |b|
  {
    var k := |b| - 1;
    var l, r := WithoutOne(a, b);
    BothEmpty(l + r, b[..k]);
    if k == 0 {
      assert a == [b[0]];
    } else {
      InRangeParts(l, b[k], r, |given|);
      PulledOut(op, given, l, b[k], r);
      Reordered(op, given, l + r, b[..k]);
    }
  }

  lemma InRangeParts(l: seq<nat>, x: nat, r: seq<nat>, n: nat)
    requires InRange(l + [x] + r, n)
    ensures InRange(l, n) && InRange(r, n) && InRange(l + r, n)
  {
    var s := l + [x] + r;
    assert forall i :: 0 <= i < |l| ==> l[i] == s[i];
    assert forall i :: 0 <= i < |r| ==> r[i] == s[|l| + 1 + i];
  }

  function Ids(n: nat): (r: seq<nat>)
    ensures |r| == n && InRange(r, n)
  {
    seq(n, i => i)
  }

  lemma {:induction false} IdsOnce(n: nat, x: nat)
    ensures Occurrences(Ids(n), x) == if x < n then 1 else 0
  {
    if n > 0 {
      var k: nat := n - 1;
      IdsOnce(k, x);
      assert Ids(n) == Ids(k) + [k];
      assert Occurrences(Ids(k) + [k], x) == Occurrences(Ids(k), x) + Occurrences([k], x);
    }
  }

  // ------------------------------------------------------------------
  // The data along a run
  // ------------------------------------------------------------------

  /** The data of all threads after an event; the threads bring new contributions
      to the round that a barrier opens. */
  ghost predicate DataStep<V(!new)>(op: (V, V) -> V, s: Team, e: Event, d: seq<V>, r: seq<V>) {
    && |d| == |r| == |s.threads|
    && match e
       case Barrier => true
       case Collect(t, j) =>
         && t < |s.threads| && s.threads[t].node < |s.slots| && j < |s.slots[s.threads[t].node]|
         && var u := s.slots[s.threads[t].node][j];
         0 <= u < |d| && r == d[t := op(d[t], d[u])]
       case CollectGlobal(t, m) =>
         && t < |s.threads| && m < |s.globalSlots|
         && var u := s.globalSlots[m];
         0 <= u < |d| && r == d[t := op(d[t], d[u])]
       case _ => r == d
  }

  ghost predicate DataOf<V(!new)>(op: (V, V) -> V, given: seq<V>, s: Team, d: seq<V>, t: int) {
    0 <= t < |s.threads| == |d| == |given| && !s.threads[t].taken ==>
      s.threads[t].parts != [] && InRange(s.threads[t].parts, |given|)
        && d[t] == Combined(op, given, s.threads[t].parts)
  }

  /** Data that is still a thread's own combines the contributions listed with it. */
  ghost predicate DataOk<V(!new)>(op: (V, V) -> V, given: seq<V>, s: Team, d: seq<V>) {
    |s.threads| == |d| == |given| && forall t :: DataOf(op, given, s, d, t)
  }

  lemma MergeData<V(!new)>(op: (V, V) -> V, given: seq<V>, s: Team, d: seq<V>, t: nat, u: nat, p: Phase, r: Team)
    requires Associative(op) && DataOk(op, given, s, d) && t < |d| && u < |d| && t != u
    requires !s.threads[t].taken && !s.threads[u].taken && r.threads == Merge(s.threads, t, u, p)
    ensures DataOk(op, given, r, d[t := op(d[t], d[u])])
  {
    assert DataOf(op, given, s, d, t) && DataOf(op, given, s, d, u);
    MergedOwn(op, given, s, d, t, u, p, r);
    var d' := d[t := op(d[t], d[u])];
    forall v ensures DataOf(op, given, r, d', v) {
      assert DataOf(op, given, s, d, v);
      if v != t { MergedOther(op, given, s, d, d', t, u, p, r, v); }
    }
  }

  lemma MergedOwn<V(!new)>(op: (V, V) -> V, given: seq<V>, s: Team, d: seq<V>, t: nat, u: nat, p: Phase, r: Team)
    requires Associative(op) && |s.threads| == |d| == |given| && t < |d| && u < |d| && t != u
    requires DataOf(op, given, s, d, t) && DataOf(op, given, s, d, u)
    requires !s.threads[t].taken && !s.threads[u].taken && r.threads == Merge(s.threads, t, u, p)
    ensures DataOf(op, given, r, d[t := op(d[t], d[u])], t)
  {
    CombinedAppend(op, given, s.threads[t].parts, s.threads[u].parts);
  }

  lemma MergedOther<V(!new)>(op: (V, V) -> V, given: seq<V>, s: Team, d: seq<V>, d': seq<V>, t: nat, u: nat,
    p: Phase, r: Team, v: int)
    requires |s.threads| == |d| == |given| == |d'| && t < |d| && u < |d| && t != u && v != t
    requires r.threads == Merge(s.threads, t, u, p) && DataOf(op, given, s, d, v)
    requires 0 <= v < |d| ==> d'[v] == d[v]
    ensures DataOf(op, given, r, d', v)
  {
  }

  lemma FreshData<V(!new)>(op: (V, V) -> V, s: Team, d: seq<V>)
    requires s.threads == Rearmed(s.threads) && |d| == |s.threads|
    ensures DataOk(op, d, s, d)
  {
    forall t ensures DataOf(op, d, s, d, t) {
      if 0 <= t < |s.threads| { assert s.threads[t].parts == [t]; }
    }
  }

  lemma DataKeeps<V(!new)>(op: (V, V) -> V, given: seq<V>, s: Team, e: Event, r: Team, d: seq<V>, d': seq<V>)
    requires Associative(op) && Inv(s) && Step(s, e, r) && DataOk(op, given, s, d) && DataStep(op, s, e, d, d')
    ensures DataOk(op, if e.Barrier? then d' else given, r, d')
  {
    match e {
      case Barrier =>
        assert Rearmed(r.threads) == r.threads;
        FreshData(op, r, d');
      case Collect(t, j) =>
        var u := s.slots[s.threads[t].node][j];
        CollectSets(s, t, j, r);
        MergeData(op, given, s, d, t, u, r.threads[t].phase, r);
      case CollectGlobal(t, m) =>
        SlotLeader(s, t, m);
        MergeData(op, given, s, d, t, s.globalSlots[m], r.threads[t].phase, r);
      case _ =>
        PartsKept(s, e, r);
        forall t ensures DataOf(op, given, r, d', t) { assert DataOf(op, given, s, d, t); }
    }
  }

  /** Events that take no data leave the contributions of all threads alone. */
  lemma PartsKept(s: Team, e: Event, r: Team)
    requires Step(s, e, r) && !e.Barrier? && !e.Collect? && !e.CollectGlobal?
    ensures |r.threads| == |s.threads|
    ensures forall t {:trigger r.threads[t]} :: 0 <= t < |r.threads| ==>
      r.threads[t].parts == s.threads[t].parts && r.threads[t].taken == s.threads[t].taken
  {
  }

  /** A run with the data ds after each event and the contributions gs of its round. */
  ghost predicate DataRun<V(!new)>(op: (V, V) -> V, ss: seq<Team>, es: seq<Event>, ds: seq<seq<V>>, gs: seq<seq<V>>) {
    && Run(ss, es) && |ds| == |gs| == |ss| && |ds[0]| == |ss[0].threads| && gs[0] == ds[0]
    && forall i {:trigger es[i]} :: 0 <= i < |es| ==>
         DataStep(op, ss[i], es[i], ds[i], ds[i + 1]) && gs[i + 1] == if es[i].Barrier? then ds[i + 1] else gs[i]
  }

  lemma {:induction false} DataInv<V(!new)>(op: (V, V) -> V, ss: seq<Team>, es: seq<Event>, ds: seq<seq<V>>,
    gs: seq<seq<V>>, i: nat)
    requires Associative(op) && DataRun(op, ss, es, ds, gs) && i <= |es|
    ensures DataOk(op, gs[i], ss[i], ds[i])
  {
    if i == 0 {
      FreshData(op, ss[0], ds[0]);
    } else {
      DataInv(op, ss, es, ds, gs, i - 1);
      RunInv(ss, es, i - 1);
      var e := es[i - 1];
      assert Step(ss[i - 1], e, ss[i]) && DataStep(op, ss[i - 1], e, ds[i - 1], ds[i]);
      DataKeeps(op, gs[i - 1], ss[i - 1], e, ss[i], ds[i - 1], ds[i]);
    }
  }

  /** At the end of every round the one thread that gets true holds the combination
      of the contributions of all threads, each taken exactly once. */
  lemma RoundReduces<V(!new)>(op: (V, V) -> V, ss: seq<Team>, es: seq<Event>, ds: seq<seq<V>>, gs: seq<seq<V>>,
    i: nat) returns (w: nat)
    requires Associative(op) && Commutative(op) && DataRun(op, ss, es, ds, gs)
    requires i <= |es| && AllReturned(ss[i]) && ss[i].threads != []
    ensures w < |ss[i].threads| == |ds[i]| == |gs[i]|
    ensures forall t :: 0 <= t < |ss[i].threads| ==> (ss[i].threads[t].phase == Done(true) <==> t == w)
    ensures ds[i][w] == Combined(op, gs[i], Ids(|gs[i]|))
  {
    w := OneWinner(ss, es, i);
    DataInv(op, ss, es, ds, gs, i);
    RunInv(ss, es, i);
    assert ThreadOk(ss[i], w) && DataOf(op, gs[i], ss[i], ds[i], w);
    var parts, ids := ss[i].threads[w].parts, Ids(|gs[i]|);
    forall x: nat ensures Occurrences(parts, x) == Occurrences(ids, x) { IdsOnce(|gs[i]|, x); }
    Reordered(op, gs[i], parts, ids);
  }
}
