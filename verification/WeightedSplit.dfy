/** Static loops of lib/libopenpop/kmp.c: the plain split into one block per thread,
    and the split weighted by the rating of the node of each thread. */
module WeightedSplit {
  import opened Arithmetic
  import opened Popcorn
  import opened StaticSchedule

  // ------------------------------------------------------------------
  // The number of iterations
  // ------------------------------------------------------------------

  /** An inclusive loop that the compiler has found to run at least once. */
  ghost predicate InclusiveOk(lower: int, upper: int, incr: int) {
    (incr > 0 && lower <= upper) || (incr < 0 && lower >= upper)
  }

  ghost predicate Runs(lower: int, upper: int, incr: int, k: nat) {
    if incr > 0 then lower + Times(k, incr) <= upper else lower + Times(k, incr) >= upper
  }

  /** total_trips in __kmpc_for_static_init: iteration k runs exactly if k is less. */
  method TotalTrips(lower: int, upper: int, incr: int) returns (n: nat)
    requires InclusiveOk(lower, upper, incr)
    ensures n > 0 && forall k: nat :: Runs(lower, upper, incr, k) <==> k < n
  {
    if incr == 1 {
      n := upper - lower + 1;
    } else if incr == -1 {
      n := lower - upper + 1;
    } else if incr > 1 {
      n := TruncDiv(upper - lower, incr) + 1;
    } else {
      n := TruncDiv(lower - upper, -incr) + 1;
    }
    forall k: nat
      ensures Runs(lower, upper, incr, k) <==> k < n
    {
      RunsIff(lower, upper, incr, k);
    }
  }

  lemma RunsIff(lower: int, upper: int, incr: int, k: nat)
    requires InclusiveOk(lower, upper, incr)
    ensures Runs(lower, upper, incr, k) <==> k < Abs(upper - lower) / Abs(incr) + 1
  {
    TripsIff(Abs(upper - lower), Abs(incr), k);
    assert Times(k, incr) == if incr > 0 then k * Abs(incr) else -(k * Abs(incr));
  }

  lemma TripsIff(m: nat, d: nat, k: nat)
    requires d > 0
    ensures k * d <= m <==> k < m / d + 1
  {
    QuotientIff(m, d, m / d);
    if k <= m / d { TimesMonotone(k, m / d, d); } else { TimesMonotone(m / d + 1, k, d); }
  }

  // ------------------------------------------------------------------
  // The ratings of the threads
  // ------------------------------------------------------------------

  ghost function Sum(s: seq<nat>): nat {
    if s == [] then 0 else Sum(s[..|s| - 1]) + s[|s| - 1]
  }

  lemma {:induction false} SumAppend(a: seq<nat>, b: seq<nat>)
    ensures Sum(a + b) == Sum(a) + Sum(b)
    decreases |b|
  {
    if b == [] {
      assert a + b == a;
    } else {
      SumAppend(a, b[..|b| - 1]);
      assert (a + b)[..|a + b| - 1] == a + b[..|b| - 1];
    }
  }

  ghost function Repeated(x: nat, n: nat): (r: seq<nat>)
    ensures |r| == n && forall i :: 0 <= i < n ==> r[i] == x
  {
    seq(n, _ => x)
  }

  lemma {:induction false} SumRepeated(x: nat, n: nat)
    ensures Sum(Repeated(x, n)) == Times(n, x)
  {
    if n > 0 {
      SumRepeated(x, n - 1);
      assert Repeated(x, n)[..n - 1] == Repeated(x, n - 1);
      TimesAdds(n - 1, 1, x);
    }
  }

  lemma {:induction false} SumMonotone(s: seq<nat>, i: nat, j: nat)
    requires i <= j <= |s|
    ensures Sum(s[..i]) <= Sum(s[..j])
  {
    if i < j {
      SumMonotone(s, i, j - 1);
      assert s[..j][..j - 1] == s[..j - 1];
    }
  }

  lemma SumNext(s: seq<nat>, i: nat)
    requires i < |s|
    ensures Sum(s[..i + 1]) == Sum(s[..i]) + s[i]
  {
    assert s[..i + 1][..i] == s[..i];
  }

  /** The rating of every thread of the first i nodes, in thread order. */
  ghost function Ratings(threads: seq<nat>, rating: seq<nat>, i: nat): seq<nat>
    requires |threads| == |rating| && i <= |threads|
  {
    if i == 0 then [] else Ratings(threads, rating, i - 1) + Repeated(rating[i - 1], threads[i - 1])
  }

  lemma {:induction false} RatingsPrefix(threads: seq<nat>, rating: seq<nat>, i: nat, j: nat)
    requires |threads| == |rating| && i <= j <= |threads|
    ensures Ratings(threads, rating, i) <= Ratings(threads, rating, j)
  {
    if i < j { RatingsPrefix(threads, rating, i, j - 1); }
  }

  lemma RatingsNext(threads: seq<nat>, rating: seq<nat>, i: nat)
    requires |threads| == |rating| && i < |threads|
    ensures var a, b := Ratings(threads, rating, i), Ratings(threads, rating, i + 1);
      |b| == |a| + threads[i] && Sum(b) == Sum(a) + Times(threads[i], rating[i]) && Times(threads[i], rating[i]) >= 0
  {
    SumAppend(Ratings(threads, rating, i), Repeated(rating[i], threads[i]));
    SumRepeated(rating[i], threads[i]);
  }

  lemma PrefixOfAppend(rs: seq<nat>, a: seq<nat>, b: seq<nat>, k: nat)
    requires a + b <= rs && k < |b|
    ensures rs[..|a| + k] == a + b[..k] && rs[|a| + k] == b[k]
  {
    assert rs[..|a| + k] == (a + b)[..|a| + k];
    assert rs[|a| + k] == (a + b)[|a| + k];
  }

  lemma RepeatedPrefix(x: nat, n: nat, k: nat)
    requires k <= n
    ensures Repeated(x, n)[..k] == Repeated(x, k)
  {
  }

  /** The thread is one of those of node i. */
  lemma RatingAt(threads: seq<nat>, rating: seq<nat>, i: nat, gtid: nat)
    requires |threads| == |rating| && i < |threads|
    requires |Ratings(threads, rating, i)| <= gtid < |Ratings(threads, rating, i)| + threads[i]
    ensures var rs, before := Ratings(threads, rating, |threads|), Ratings(threads, rating, i);
      && gtid < |rs| && rs[gtid] == rating[i]
      && Sum(rs[..gtid]) == Sum(before) + Times(gtid - |before|, rating[i])
      && Times(gtid - |before|, rating[i]) >= 0
  {
    var rs, before := Ratings(threads, rating, |threads|), Ratings(threads, rating, i);
    var own, diff := Repeated(rating[i], threads[i]), gtid - |before|;
    RatingsPrefix(threads, rating, i + 1, |threads|);
    assert Ratings(threads, rating, i + 1) == before + own;
    PrefixOfAppend(rs, before, own, diff);
    RepeatedPrefix(rating[i], threads[i], diff);
    SumAppend(before, Repeated(rating[i], diff));
    SumRepeated(rating[i], diff);
  }

  /** The threads of the first i nodes. */
  ghost function ThreadsBefore(threads: seq<nat>, i: nat): nat
    requires i <= |threads|
  {
    if i == 0 then 0 else ThreadsBefore(threads, i - 1) + threads[i - 1]
  }

  /** The ratings of all their threads together. */
  ghost function RatingBefore(threads: seq<nat>, rating: seq<nat>, i: nat): int
    requires |threads| == |rating| && i <= |threads|
  {
    if i == 0 then 0 else RatingBefore(threads, rating, i - 1) + Times(threads[i - 1], rating[i - 1])
  }

  lemma {:induction false} RatingsAre(threads: seq<nat>, rating: seq<nat>, i: nat)
    requires |threads| == |rating| && i <= |threads|
    ensures var rs := Ratings(threads, rating, i);
      |rs| == ThreadsBefore(threads, i) && Sum(rs) == RatingBefore(threads, rating, i)
  {
    if i > 0 {
      RatingsAre(threads, rating, i - 1);
      RatingsNext(threads, rating, i - 1);
    }
  }

  /** The threads are numbered node by node, and each has the rating of its node. */
  lemma RatingOf(threads: seq<nat>, rating: seq<nat>, i: nat, gtid: nat)
    requires |threads| == |rating| && i < |threads|
    requires ThreadsBefore(threads, i) <= gtid < ThreadsBefore(threads, i) + threads[i]
    ensures var rs := Ratings(threads, rating, |threads|);
      && |rs| == ThreadsBefore(threads, |threads|) && gtid < |rs| && rs[gtid] == rating[i]
      && Sum(rs[..gtid]) == RatingBefore(threads, rating, i) + Times(gtid - ThreadsBefore(threads, i), rating[i])
  {
    RatingsAre(threads, rating, i);
    RatingsAre(threads, rating, |threads|);
    RatingAt(threads, rating, i, gtid);
  }

  /** get_scaled_range: the ratings before thread gtid and its own; a thread beyond
      those of all nodes gets none. */
  method ScaledRange(threads: seq<nat>, rating: seq<nat>, gtid: nat) returns (start: nat, range: nat)
    requires |threads| == |rating| == MAX_POPCORN_NODES
    ensures var rs := Ratings(threads, rating, MAX_POPCORN_NODES);
      if gtid < |rs| then start == Sum(rs[..gtid]) && range == rs[gtid] else range == 0
  {
    var i, tcount, curRange := 0, 0, 0;
    start, range := 0xffff_ffff_ffff_ffff, 0;
    while i < MAX_POPCORN_NODES
      invariant 0 <= i <= MAX_POPCORN_NODES && range == 0
      invariant tcount == |Ratings(threads, rating, i)| <= gtid && curRange == Sum(Ratings(threads, rating, i))
    {
      if gtid < tcount + threads[i] {
        var diff := gtid - tcount;
        RatingAt(threads, rating, i, gtid);
        start := curRange + Times(diff, rating[i]);
        range := rating[i];
        return;
      }
      RatingsNext(threads, rating, i);
      tcount := tcount + threads[i];
      curRange := curRange + Times(threads[i], rating[i]);
      i := i + 1;
    }
  }

  // ------------------------------------------------------------------
  // The weighted split
  // ------------------------------------------------------------------

  /** The first iteration of thread t when n iterations are shared by ratings. */
  ghost function First(rs: seq<nat>, n: nat, t: nat): nat
    requires t <= |rs| && Sum(rs) > 0
  {
    Start(n / Sum(rs), n % Sum(rs), Sum(rs[..t]))
  }

  /** The results are the bounds of the iterations from a to b of a loop. */
  ghost predicate Bounds(lower: int, upper: int, incr: int, a: int, b: int, l: int, u: int) {
    if a < b then l == lower + Times(a, incr) && u == lower + Times(b - 1, incr) else u == upper && l == u + incr
  }

  function Min(a: int, b: int): int {
    if a < b then a else b
  }

  /** The share of a thread when there are at least as many iterations as ratings. */
  lemma LongShare(n: nat, scaledThr: nat, start: nat, range: nat, myExtras: int)
    requires 0 < scaledThr <= n && range > 0
    requires var t := n % scaledThr; myExtras == if t > 0 && start < t then Min(range, t - start) else 0
    ensures var q, t := n / scaledThr, n % scaledThr;
      var a := Times(start, q) + if start < t then start else t;
      && a == Start(q, t, start) && a + Times(q, range) + myExtras == Start(q, t, start + range)
      && Times(q, range) >= 1
  {
    var q, t := n / scaledThr, n % scaledThr;
    StartIs(q, t, start);
    StartIs(q, t, start + range);
    WholeChunks(n, scaledThr);
    TimesMonotone(1, q, range);
    TimesAdds(start, range, q);
  }

  /** A block of `count` iterations from the a-th on. */
  lemma BoundsFrom(lower: int, upper: int, incr: int, a: int, count: int, l: int, u: int)
    requires count >= 1 && l == lower + Times(a, incr) && u == l + Times(count - 1, incr)
    ensures Bounds(lower, upper, incr, a, a + count, l, u)
  {
    TimesAdds(a, count - 1, incr);
  }

  /** The static case of for_static_skewed_init, given the start and range of the
      thread: both branches give it the iterations that its ratings stand for. */
  method SkewedBounds(start: nat, range: nat, scaledThr: nat, lower: int, upper: int, incr: int, n: nat)
    returns (l: int, u: int)
    requires scaledThr > 0 && start + range <= scaledThr
    ensures var q, t := n / scaledThr, n % scaledThr;
      Bounds(lower, upper, incr, Start(q, t, start), Start(q, t, start + range), l, u)
  {
    l, u := lower, upper;
    if range == 0 {
      l := u + incr;
      return;
    }
    var chunk, extras := n / scaledThr, n % scaledThr;
    if n < scaledThr {
      ShortShare(n, scaledThr, start, range);
      if start < n {
        var count := Min(range - 1, n - 1 - start) + 1;
        l := lower + Times(start, incr);
        u := l + Times(count - 1, incr);
        BoundsFrom(lower, upper, incr, start, count, l, u);
      } else {
        l := u + incr;
      }
    } else {
      var myExtras := 0;
      if extras > 0 && start < extras {
        myExtras := Min(range, extras - start);
      }
      LongShare(n, scaledThr, start, range, myExtras);
      var a := Times(start, chunk) + (if start < extras then start else extras);
      var count := Times(chunk, range) + myExtras;
      l := lower + Times(a, incr);
      u := l + Times(count - 1, incr);
      BoundsFrom(lower, upper, incr, a, count, l, u);
    }
  }

  /** The share of a thread when there are fewer iterations than ratings. */
  lemma ShortShare(n: nat, scaledThr: nat, start: nat, range: nat)
    requires n < scaledThr
    ensures var q, t := n / scaledThr, n % scaledThr;
      Start(q, t, start) == Min(start, n) && Start(q, t, start + range) == Min(start + range, n)
  {
    RemainderIs(n, scaledThr, 0, n);
    StartIs(0, n, start);
    StartIs(0, n, start + range);
  }

  lemma WholeChunks(n: nat, s: nat)
    requires 0 < s <= n
    ensures n / s >= 1
  {
    QuotientIff(n, s, n / s);
    if n / s < 1 { TimesMonotone(n / s + 1, 1, s); }
  }

  /** for_static_skewed_init for the static schedule. */
  method SkewedInit(threads: seq<nat>, rating: seq<nat>, gtid: nat, lower: int, upper: int, incr: int, n: nat)
    returns (l: int, u: int)
    requires |threads| == |rating| == MAX_POPCORN_NODES && Sum(Ratings(threads, rating, MAX_POPCORN_NODES)) > 0
    ensures var rs := Ratings(threads, rating, MAX_POPCORN_NODES);
      if gtid < |rs| then Bounds(lower, upper, incr, First(rs, n, gtid), First(rs, n, gtid + 1), l, u)
      else Bounds(lower, upper, incr, 0, 0, l, u)
  {
    ghost var rs := Ratings(threads, rating, MAX_POPCORN_NODES);
    var start, range := ScaledRange(threads, rating, gtid);
    if range == 0 {
      if gtid < |rs| { SumNext(rs, gtid); }
      return upper + incr, upper;
    }
    SumNext(rs, gtid);
    SumMonotone(rs, gtid + 1, |rs|);
    assert rs[..|rs|] == rs;
    var scaledThr := ScaledThreads(threads, rating);
    l, u := SkewedBounds(start, range, scaledThr, lower, upper, incr, n);
  }

  /** scaled_thread_range: the sum over the nodes of threads times rating. */
  method ScaledThreads(threads: seq<nat>, rating: seq<nat>) returns (s: nat)
    requires |threads| == |rating| == MAX_POPCORN_NODES
    ensures s == Sum(Ratings(threads, rating, MAX_POPCORN_NODES))
  {
    s := 0;
    for i := 0 to MAX_POPCORN_NODES
      invariant s == Sum(Ratings(threads, rating, i))
    {
      SumAppend(Ratings(threads, rating, i), Repeated(rating[i], threads[i]));
      SumRepeated(rating[i], threads[i]);
      s := s + Times(threads[i], rating[i]);
    }
  }

  // ------------------------------------------------------------------
  // What the split promises
  // ------------------------------------------------------------------

  /** The blocks of all threads follow each other from the first iteration to the last. */
  lemma SplitIsWhole(rs: seq<nat>, n: nat)
    requires Sum(rs) > 0
    ensures First(rs, n, 0) == 0 && First(rs, n, |rs|) == n
    ensures forall t: nat :: t < |rs| ==> First(rs, n, t) <= First(rs, n, t + 1)
  {
    assert rs[..0] == [] && rs[..|rs|] == rs;
    StartOfAll(n, Sum(rs));
    forall t: nat | t < |rs|
      ensures First(rs, n, t) <= First(rs, n, t + 1)
    {
      FirstMonotone(rs, n, t, t + 1);
    }
  }

  ghost predicate Gets(rs: seq<nat>, n: nat, t: nat, x: nat)
    requires Sum(rs) > 0
  {
    t < |rs| && First(rs, n, t) <= x < First(rs, n, t + 1)
  }

  /** Every iteration goes to exactly one thread. */
  lemma EveryIterationOnce(rs: seq<nat>, n: nat, x: nat) returns (t: nat)
    requires Sum(rs) > 0
    ensures x < n ==> Gets(rs, n, t, x)
    ensures forall u: nat :: Gets(rs, n, u, x) ==> x < n && u == t
  {
    SplitIsWhole(rs, n);
    t := 0;
    while t < |rs| && First(rs, n, t + 1) <= x
      invariant t <= |rs| && First(rs, n, t) <= x
    {
      t := t + 1;
    }
    forall u: nat | Gets(rs, n, u, x)
      ensures x < n && u == t
    {
      FirstMonotone(rs, n, u + 1, |rs|);
      if u < t { FirstMonotone(rs, n, u + 1, t); } else if t < u { FirstMonotone(rs, n, t + 1, u); }
    }
  }

  lemma FirstMonotone(rs: seq<nat>, n: nat, i: nat, j: nat)
    requires Sum(rs) > 0 && i <= j <= |rs|
    ensures First(rs, n, i) <= First(rs, n, j)
  {
    SumMonotone(rs, i, j);
    StartMonotone(n / Sum(rs), n % Sum(rs), Sum(rs[..i]), Sum(rs[..j]));
  }

  /** A thread's share is its rating times the share of one unit, give or take one
      iteration per unit. */
  lemma ShareBounds(rs: seq<nat>, n: nat, t: nat)
    requires Sum(rs) > 0 && t < |rs|
    ensures var count := First(rs, n, t + 1) - First(rs, n, t);
      Times(rs[t], n / Sum(rs)) <= count <= Times(rs[t], n / Sum(rs) + 1)
  {
    SumNext(rs, t);
    BlocksBounds(n / Sum(rs), n % Sum(rs), Sum(rs[..t]), rs[t]);
  }

  lemma BlocksBounds(q: nat, e: nat, a: nat, b: nat)
    ensures Times(b, q) <= Start(q, e, a + b) - Start(q, e, a) <= Times(b, q + 1)
  {
    StartIs(q, e, a);
    StartIs(q, e, a + b);
    TimesAdds(a, b, q);
    TimesAdds(q, 1, b);
  }

  /** Ratings of 1 give the plain split of gomp_iter_static_next. */
  lemma UniformIsPlain(nthreads: nat, n: nat, t: nat)
    requires t < nthreads
    ensures Sum(Repeated(1, nthreads)) == nthreads
    ensures First(Repeated(1, nthreads), n, t) == Start(n / nthreads, n % nthreads, t)
  {
    SumRepeated(1, nthreads);
    SumRepeated(1, t);
    assert Repeated(1, nthreads)[..t] == Repeated(1, t);
  }

  /** The static case of __kmpc_for_static_init without ratings. */
  method PlainInit(nthreads: nat, gtid: nat, lower: int, upper: int, incr: int, n: nat) returns (l: int, u: int)
    requires gtid < nthreads
    ensures var q, t := n / nthreads, n % nthreads;
      Bounds(lower, upper, incr, Start(q, t, gtid), Start(q, t, gtid + 1), l, u)
  {
    l, u := lower, upper;
    var chunk, extras := n / nthreads, n % nthreads;
    StartIs(chunk, extras, gtid);
    StartIs(chunk, extras, gtid + 1);
    if n < nthreads {
      RemainderIs(n, nthreads, 0, n);
      if gtid < n {
        l := lower + Times(gtid, incr);
        u := l;
      } else {
        l := u + incr;
      }
    } else {
      WholeChunks(n, nthreads);
      TimesAdds(gtid, 1, chunk);
      var a := Times(gtid, chunk) + (if gtid < extras then gtid else extras);
      l := lower + Times(a, incr);
      u := l + Times(chunk, incr) - (if gtid < extras then 0 else incr);
      var b := Start(chunk, extras, gtid + 1) - 1;
      TimesAdds(a, b - a, incr);
      TimesAdds(chunk, -1, incr);
    }
  }
}
