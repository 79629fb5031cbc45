/** The static schedule of lib/libopenpop/iter.c and the owner that
    lib/libopenpop/ordered.c computes for an iteration. */
module StaticSchedule {
  import opened Arithmetic

  /** The loop of a work share; gomp_loop_init leaves no bound behind the start. */
  datatype Loop = Loop(next: int, end: int, incr: int, chunkSize: nat)

  ghost predicate LoopOk(ws: Loop) {
    (ws.incr > 0 && ws.next <= ws.end) || (ws.incr < 0 && ws.next >= ws.end)
  }

  // ------------------------------------------------------------------
  // The number of iterations
  // ------------------------------------------------------------------

  /** The value of the loop variable in iteration k. */
  function At(ws: Loop, k: int): int {
    ws.next + Times(k, ws.incr)
  }

  /** Iteration k is before the end of the loop. */
  ghost predicate InLoop(ws: Loop, k: int) {
    k >= 0 && if ws.incr > 0 then At(ws, k) < ws.end else At(ws, k) > ws.end
  }

  function Count(ws: Loop): (n: int)
    requires LoopOk(ws)
    ensures n >= 0
  {
    var s := ws.incr + (if ws.incr > 0 then -1 else 1);
    TruncDiv(ws.end - ws.next + s, ws.incr)
  }

  /** The count is right for either sign of the increment, whether or not the
      increment divides the distance. */
  lemma CountIff(ws: Loop, k: int)
    requires LoopOk(ws) && k >= 0
    ensures InLoop(ws, k) <==> k < Count(ws)
  {
    var d := if ws.incr > 0 then ws.incr else -ws.incr;
    var m := if ws.incr > 0 then ws.end - ws.next else ws.next - ws.end;
    assert Times(k, ws.incr) == (if ws.incr > 0 then Times(k, d) else -Times(k, d));
    var n := (m + d - 1) / d;
    assert n == Count(ws);
    QuotientIff(m + d - 1, d, n);
    assert (n + 1) * d == n * d + d;
    if k < n {
      TimesMonotone(k + 1, n, d);
      assert (k + 1) * d == k * d + d;
    } else {
      TimesMonotone(n, k, d);
    }
  }

  // ------------------------------------------------------------------
  // Splitting n iterations into blocks
  // ------------------------------------------------------------------

  /** Where block k starts when the first t blocks have q + 1 iterations and the
      others q. */
  function Start(q: nat, t: nat, k: nat): (r: nat)
    ensures k == 0 ==> r == 0
  {
    if k == 0 then 0 else Start(q, t, k - 1) + (if k - 1 < t then q + 1 else q)
  }

  lemma {:induction false} StartIs(q: nat, t: nat, k: nat)
    ensures Start(q, t, k) == Times(k, q) + (if k < t then k else t)
  {
    if k > 0 {
      StartIs(q, t, k - 1);
      assert Times(k, q) == Times(k - 1, q) + q;
    }
  }

  lemma {:induction false} StartMonotone(q: nat, t: nat, j: nat, k: nat)
    requires j <= k
    ensures Start(q, t, j) <= Start(q, t, k)
  {
    if j < k { StartMonotone(q, t, j, k - 1); }
  }

  /** The first iteration beyond the longer blocks. */
  function Boundary(q: nat, t: nat): nat {
    TimesMonotone(0, t, q + 1);
    Times(t, q + 1)
  }

  /** The block of iteration x as GOMP_doacross_wait computes it. */
  function BlockOf(x: nat, q: nat, t: nat): (k: nat)
    requires q == 0 ==> x < Boundary(q, t)
  {
    if x < Boundary(q, t) then Quotient(x, q + 1) else Quotient(x - Boundary(q, t), q) + t
  }

  lemma InLongBlock(x: nat, q: nat, t: nat)
    requires x < Times(t, q + 1)
    ensures var k := Quotient(x, q + 1); k < t && Start(q, t, k) <= x < Start(q, t, k + 1)
  {
    var k := Quotient(x, q + 1);
    QuotientIff(x, q + 1, k);
    if k >= t { TimesMonotone(t, k, q + 1); }
    StartIs(q, t, k);
    TimesAdds(q, 1, k);
  }

  lemma InShortBlock(x: nat, q: nat, t: nat)
    requires x >= Times(t, q + 1) && q > 0
    ensures var k := Quotient(x - Times(t, q + 1), q) + t; Start(q, t, k) <= x < Start(q, t, k + 1)
  {
    var b := Times(t, q + 1);
    var j := Quotient(x - b, q);
    QuotientIff(x - b, q, j);
    StartIs(q, t, j + t);
    TimesAdds(j, t, q);
    TimesAdds(q, 1, t);
  }

  lemma InItsBlock(x: nat, q: nat, t: nat)
    requires q == 0 ==> x < Boundary(q, t)
    ensures Start(q, t, BlockOf(x, q, t)) <= x < Start(q, t, BlockOf(x, q, t) + 1)
  {
    if x < Boundary(q, t) { InLongBlock(x, q, t); } else { InShortBlock(x, q, t); }
  }

  /** Blocks do not overlap, so an iteration is in block k exactly when the
      formula says k. */
  lemma BlockIff(x: nat, q: nat, t: nat, k: nat)
    requires q == 0 ==> x < Boundary(q, t)
    ensures Start(q, t, k) <= x < Start(q, t, k + 1) <==> BlockOf(x, q, t) == k
  {
    InItsBlock(x, q, t);
    var j := BlockOf(x, q, t);
    if k < j { StartMonotone(q, t, k + 1, j); } else if k > j { StartMonotone(q, t, j + 1, k); }
  }

  /** The blocks of all threads make up the n iterations. */
  lemma StartOfAll(n: nat, nthreads: nat)
    requires nthreads > 0
    ensures Start(n / nthreads, n % nthreads, nthreads) == n
    ensures n / nthreads == 0 ==> Boundary(0, n % nthreads) == n
  {
    StartIs(n / nthreads, n % nthreads, nthreads);
    assert n == Times(nthreads, n / nthreads) + n % nthreads;
    assert Times(n % nthreads, 1) == n % nthreads;
  }

  /** The blocks are as equal as they can be, longer ones first. */
  lemma BlocksEven(n: nat, nthreads: nat, i: nat, j: nat)
    requires i < j < nthreads
    ensures var q, t := n / nthreads, n % nthreads;
      var a, b := Start(q, t, i + 1) - Start(q, t, i), Start(q, t, j + 1) - Start(q, t, j);
      b <= a <= b + 1
  {
  }

  // ------------------------------------------------------------------
  // The owner of an iteration
  // ------------------------------------------------------------------

  /** The thread on whose entry GOMP_doacross_wait waits for iteration x of n. */
  function Owner(x: nat, n: nat, nthreads: nat, chunkSize: nat): (i: nat)
    requires x < n && nthreads > 0
    ensures i < nthreads
  {
    if chunkSize == 0 then
      var q, t := n / nthreads, n % nthreads;
      StartOfAll(n, nthreads);
      InItsBlock(x, q, t);
      var i := BlockOf(x, q, t);
      assert i < nthreads by { if i >= nthreads { StartMonotone(q, t, nthreads, i); } }
      i
    else
      Chunk(x, chunkSize) % nthreads
  }

  function Chunk(x: nat, c: nat): nat
    requires c > 0
  {
    x / c
  }

  /** What gomp_doacross_init precomputes for an unchunked static loop. */
  class Doacross {
    const n: nat
    const nthreads: nat
    const chunkSize: nat
    var boundary: nat
    var q: nat
    var t: nat

    ghost predicate Valid()
      reads this
    {
      nthreads >= 2 && (chunkSize == 0 ==> q == n / nthreads && t == n % nthreads && boundary == Boundary(q, t))
    }

    constructor (n: nat, nthreads: nat, chunkSize: nat)
      requires nthreads >= 2
      ensures Valid() && this.n == n && this.nthreads == nthreads && this.chunkSize == chunkSize
    {
      this.n, this.nthreads, this.chunkSize := n, nthreads, chunkSize;
      if chunkSize == 0 {
        boundary, q, t := Boundary(n / nthreads, n % nthreads), n / nthreads, n % nthreads;
      }
    }

    /** The entry chosen by GOMP_doacross_wait; the quotient is never by zero. */
    method WaitEntry(first: nat) returns (ent: nat)
      requires Valid() && first < n
      ensures ent == Owner(first, n, nthreads, chunkSize) < nthreads
    {
      if chunkSize == 0 {
        StartOfAll(n, nthreads);
        if first < boundary {
          ent := Quotient(first, q + 1);
        } else {
          ent := Quotient(first - boundary, q) + t;
        }
      } else {
        ent := Chunk(first, chunkSize) % nthreads;
      }
    }
  }

  /** The chunk a thread takes on a trip, before it is cut at the end. */
  function ChunkStart(nthreads: nat, i: nat, c: nat, trip: nat): nat {
    Times(Times(trip, nthreads) + i, c)
  }

  /** With chunks of c, a thread takes iteration x on the trip Chunk(x, c) / nthreads
      and on no other, provided that it owns x. */
  lemma ChunkIff(x: nat, nthreads: nat, i: nat, c: nat, trip: nat)
    requires i < nthreads && c > 0
    ensures ChunkStart(nthreads, i, c, trip) <= x < ChunkStart(nthreads, i, c, trip) + c <==>
      Chunk(x, c) % nthreads == i && Quotient(Chunk(x, c), nthreads) == trip
  {
    var y, m := Chunk(x, c), Times(trip, nthreads) + i;
    QuotientIff(x, c, m);
    assert Times(m + 1, c) == Times(m, c) + c;
    if y == m {
      RemainderIs(m, nthreads, trip, i);
    } else {
      assert y == Times(Quotient(y, nthreads), nthreads) + y % nthreads;
    }
  }

  // ------------------------------------------------------------------
  // The threads
  // ------------------------------------------------------------------

  /** The calls that led to the given trip have handed out iteration x to its owner. */
  ghost predicate Given(x: nat, nthreads: nat, chunkSize: nat, trip: int)
    requires nthreads > 0
  {
    trip == -1 || (if chunkSize == 0 || nthreads == 1 then trip > 0 else Quotient(Chunk(x, chunkSize), nthreads) < trip)
  }

  ghost predicate Owns(x: nat, ws: Loop, nthreads: nat, i: nat)
    requires LoopOk(ws) && nthreads > 0
  {
    x < Count(ws) && (nthreads == 1 || Owner(x, Count(ws), nthreads, ws.chunkSize) == i)
  }

  /** The block of thread i, as gomp_iter_static_next finds it. */
  ghost predicate InBlock(x: nat, n: nat, nthreads: nat, i: nat)
    requires nthreads > 0
  {
    Start(n / nthreads, n % nthreads, i) <= x < Start(n / nthreads, n % nthreads, i + 1)
  }

  lemma OwnerIff(x: nat, n: nat, nthreads: nat, i: nat)
    requires i < nthreads && x < n
    ensures Owner(x, n, nthreads, 0) == i <==> InBlock(x, n, nthreads, i)
  {
    StartOfAll(n, nthreads);
    BlockIff(x, n / nthreads, n % nthreads, i);
  }

  lemma BlockOwned(n: nat, nthreads: nat, i: nat, s0: nat, e0: nat)
    requires i < nthreads
    requires s0 == Start(n / nthreads, n % nthreads, i) && e0 == Start(n / nthreads, n % nthreads, i + 1)
    ensures s0 <= e0 <= n
    ensures forall x: nat :: x < n ==> (Owner(x, n, nthreads, 0) == i <==> s0 <= x < e0)
  {
    BlockWithin(n, nthreads, i);
    forall x: nat | x < n
      ensures Owner(x, n, nthreads, 0) == i <==> s0 <= x < e0
    {
      OwnerIff(x, n, nthreads, i);
    }
  }

  lemma BlockWithin(n: nat, nthreads: nat, i: nat)
    requires i < nthreads
    ensures var q, t := n / nthreads, n % nthreads; Start(q, t, i) <= Start(q, t, i + 1) <= n
  {
    StartOfAll(n, nthreads);
    StartMonotone(n / nthreads, n % nthreads, i + 1, nthreads);
  }

  /** The bounds of block i as gomp_iter_static_next computes them. */
  method BlockBounds(q0: nat, t0: nat, i: nat) returns (s0: nat, e0: nat)
    ensures s0 == Start(q0, t0, i) && e0 == Start(q0, t0, i + 1)
  {
    var q, t := q0, t0;
    StartIs(q, t, i);
    if i < t {
      assert Times(i, q + 1) == Times(i, q) + i;
      t := 0;
      q := q + 1;
    }
    s0 := Times(i, q) + t;
    e0 := s0 + q;
  }

  /** The iterations from s0 to e0 belong to thread i, had not been given out, and
      now they alone have been. */
  ghost predicate Gives(ws: Loop, nthreads: nat, i: nat, trip: int, s0: nat, e0: nat, trip': int)
    requires LoopOk(ws) && nthreads > 0
  {
    && s0 <= e0 <= Count(ws)
    && (forall x: nat :: s0 <= x < e0 ==> Owns(x, ws, nthreads, i) && !Given(x, nthreads, ws.chunkSize, trip))
    && (forall x: nat :: Owns(x, ws, nthreads, i) ==>
          (Given(x, nthreads, ws.chunkSize, trip') <==> Given(x, nthreads, ws.chunkSize, trip) || s0 <= x < e0))
  }

  /** A call took the block; it was the last one exactly when the trip is now -1. */
  ghost predicate Took(ws: Loop, nthreads: nat, i: nat, trip: int, s0: nat, e0: nat, trip': int)
    requires LoopOk(ws) && nthreads > 0
  {
    && s0 < e0 && Gives(ws, nthreads, i, trip, s0, e0, trip')
    && (trip' == -1 <==> e0 == Count(ws)) && (trip' == -1 || trip < trip' <= Count(ws))
  }

  ghost predicate AllGiven(ws: Loop, nthreads: nat, i: nat, trip: int)
    requires LoopOk(ws) && nthreads > 0
  {
    forall x: nat :: Owns(x, ws, nthreads, i) ==> Given(x, nthreads, ws.chunkSize, trip)
  }

  ghost predicate Within(blocks: seq<(nat, nat)>, k: int, x: nat) {
    0 <= k < |blocks| && blocks[k].0 <= x < blocks[k].1
  }

  /** The blocks hold the iterations given out up to the trip, each once. */
  ghost predicate Taken(ws: Loop, nthreads: nat, i: nat, blocks: seq<(nat, nat)>, trip: int)
    requires LoopOk(ws) && nthreads > 0
  {
    && (forall k, x: nat :: Within(blocks, k, x) ==> Owns(x, ws, nthreads, i) && Given(x, nthreads, ws.chunkSize, trip))
    && (forall x: nat :: Owns(x, ws, nthreads, i) && Given(x, nthreads, ws.chunkSize, trip) ==>
      exists k :: Within(blocks, k, x))
    && (forall j, k, x: nat :: j != k && Within(blocks, j, x) ==> !Within(blocks, k, x))
    && (trip == -1 <==> exists k, x: nat :: Within(blocks, k, x) && x + 1 == Count(ws))
  }

  lemma TakeStep(ws: Loop, nthreads: nat, i: nat, blocks: seq<(nat, nat)>, trip: int, s0: nat, e0: nat, trip': int)
    requires LoopOk(ws) && nthreads > 0 && trip != -1
    requires Taken(ws, nthreads, i, blocks, trip) && Took(ws, nthreads, i, trip, s0, e0, trip')
    ensures Taken(ws, nthreads, i, blocks + [(s0, e0)], trip')
  {
    var bs := blocks + [(s0, e0)];
    forall k, x: nat
      ensures Within(bs, k, x) <==> Within(blocks, k, x) || (k == |blocks| && s0 <= x < e0)
    {
    }
    forall x: nat | Owns(x, ws, nthreads, i) && Given(x, nthreads, ws.chunkSize, trip')
      ensures exists k :: Within(bs, k, x)
    {
      if s0 <= x < e0 {
        assert Within(bs, |blocks|, x);
      } else {
        var k :| Within(blocks, k, x);
        assert Within(bs, k, x);
      }
    }
    if e0 == Count(ws) { assert Within(bs, |blocks|, e0 - 1); }
  }

  class Thread {
    const nthreads: nat
    const teamId: nat
    /** -1 once the thread has received the last iteration of the loop. */
    var staticTrip: int

    ghost predicate Valid()
      reads this
    {
      teamId < nthreads && staticTrip >= -1 && (nthreads == 1 ==> staticTrip <= 0)
    }

    constructor (nthreads: nat, teamId: nat)
      requires teamId < nthreads
      ensures Valid() && this.nthreads == nthreads && this.teamId == teamId && staticTrip == 0
    {
      this.nthreads, this.teamId, staticTrip := nthreads, teamId, 0;
    }

    /** The unchunked branch of gomp_iter_static_next. */
    method StaticBlock(ws: Loop) returns (status: int, s0: nat, e0: nat)
      requires Valid() && LoopOk(ws) && nthreads > 1 && ws.chunkSize == 0 && staticTrip != -1
      modifies this
      ensures Valid() && status in {0, 1}
      ensures status == 0 ==> Took(ws, nthreads, teamId, old(staticTrip), s0, e0, staticTrip)
      ensures status == 1 ==> AllGiven(ws, nthreads, teamId, old(staticTrip))
    {
      if staticTrip > 0 {
        return 1, 0, 0;
      }
      var n := Count(ws);
      s0, e0 := BlockBounds(n / nthreads, n % nthreads, teamId);
      BlockOwned(n, nthreads, teamId, s0, e0);
      if s0 >= e0 {
        staticTrip := 1;
        return 1, 0, 0;
      }
      staticTrip := if e0 == n then -1 else 1;
      status := 0;
    }

    /** The chunked branch of gomp_iter_static_next. */
    method StaticChunk(ws: Loop) returns (status: int, s0: nat, e0: nat)
      requires Valid() && LoopOk(ws) && nthreads > 1 && ws.chunkSize > 0 && staticTrip != -1
      modifies this
      ensures Valid() && status in {0, 1}
      ensures status == 0 ==> Took(ws, nthreads, teamId, old(staticTrip), s0, e0, staticTrip)
      ensures status == 1 ==> AllGiven(ws, nthreads, teamId, old(staticTrip))
    {
      var n, c := Count(ws), ws.chunkSize;
      s0 := ChunkStart(nthreads, teamId, c, staticTrip);
      e0 := s0 + c;
      ChunkOwned(nthreads, teamId, c, staticTrip, s0);
      if s0 >= n {
        return 1, 0, 0;
      }
      if e0 > n {
        e0 := n;
      }
      staticTrip := if e0 == n then -1 else staticTrip + 1;
      status := 0;
    }

    /** gomp_iter_static_next. The results stand for the iterations from s0 to e0. */
    method StaticNext(ws: Loop) returns (status: int, pstart: int, pend: int, s0: nat, e0: nat)
      requires Valid() && LoopOk(ws)
      modifies this
      ensures Valid()
      ensures status == 0 ==> Took(ws, nthreads, teamId, old(staticTrip), s0, e0, staticTrip)
      ensures status == 0 ==> pstart == At(ws, s0) && (pend == At(ws, e0) || (e0 == Count(ws) && pend == ws.end))
      ensures status != 0 ==> AllGiven(ws, nthreads, teamId, old(staticTrip))
      ensures status == -1 <==> old(staticTrip) == -1
    {
      pstart, pend, s0, e0 := 0, 0, 0, 0;
      if staticTrip == -1 {
        status := -1;
      } else if nthreads == 1 {
        CountIff(ws, 0);
        pstart, pend := ws.next, ws.end;
        e0 := Count(ws);
        status := if ws.next == ws.end then 1 else 0;
        staticTrip := -1;
      } else {
        var s, e;
        if ws.chunkSize == 0 {
          status, s, e := StaticBlock(ws);
        } else {
          status, s, e := StaticChunk(ws);
        }
        s0, e0, pstart, pend := s, e, At(ws, s), At(ws, e);
      }
    }

    /** The loop around the calls that the compiler emits: the thread receives
        exactly the iterations it owns, none twice, and learns whether it
        received the last one. */
    method TakeAll(ws: Loop) returns (blocks: seq<(nat, nat)>, last: bool)
      requires Valid() && LoopOk(ws) && staticTrip == 0
      modifies this
      ensures forall x: nat :: Owns(x, ws, nthreads, teamId) <==> exists k :: Within(blocks, k, x)
      ensures forall j, k, x: nat :: j != k && Within(blocks, j, x) ==> !Within(blocks, k, x)
      ensures last <==> Count(ws) > 0 && Owns(Count(ws) - 1, ws, nthreads, teamId)
    {
      blocks := [];
      var status := 0;
      ghost var trip := 0;
      while status == 0
        invariant Valid() && trip >= -1
        invariant Taken(ws, nthreads, teamId, blocks, trip)
        invariant status == 0 ==> staticTrip == trip && trip <= Count(ws)
        invariant status != 0 ==> AllGiven(ws, nthreads, teamId, trip) && (status == -1 <==> trip == -1)
        decreases status == 0, trip != -1, Count(ws) - trip
      {
        var pstart, pend;
        var s0, e0;
        status, pstart, pend, s0, e0 := StaticNext(ws);
        if status == 0 {
          TakeStep(ws, nthreads, teamId, blocks, trip, s0, e0, staticTrip);
          blocks := blocks + [(s0, e0)];
          trip := staticTrip;
        }
      }
      last := status == -1;
    }
  }

  /** The chunk of a trip is what the thread owns on that trip; what it owns on
      later trips comes after it. */
  lemma ChunkOwned(nthreads: nat, i: nat, c: nat, trip: nat, s0: nat)
    requires i < nthreads && c > 0 && s0 == ChunkStart(nthreads, i, c, trip)
    ensures trip <= s0
    ensures forall x: nat :: s0 <= x < s0 + c <==>
      Chunk(x, c) % nthreads == i && Quotient(Chunk(x, c), nthreads) == trip
    ensures forall x: nat :: Chunk(x, c) % nthreads == i && Quotient(Chunk(x, c), nthreads) > trip ==> x >= s0 + c
  {
    TimesMonotone(1, nthreads, trip);
    TimesMonotone(1, c, Times(trip, nthreads) + i);
    forall x: nat
      ensures s0 <= x < s0 + c <==> Chunk(x, c) % nthreads == i && Quotient(Chunk(x, c), nthreads) == trip
    {
      ChunkIff(x, nthreads, i, c, trip);
    }
    forall x: nat | Chunk(x, c) % nthreads == i && Quotient(Chunk(x, c), nthreads) > trip
      ensures x >= s0 + c
    {
      LaterTrip(x, nthreads, i, c, trip);
    }
  }

  lemma LaterTrip(x: nat, nthreads: nat, i: nat, c: nat, trip: nat)
    requires i < nthreads && c > 0 && Chunk(x, c) % nthreads == i && Quotient(Chunk(x, c), nthreads) > trip
    ensures x >= ChunkStart(nthreads, i, c, trip) + c
  {
    var y, m := Chunk(x, c), Times(trip, nthreads) + i;
    var r := Quotient(y, nthreads);
    assert y == Times(r, nthreads) + i;
    TimesMonotone(trip + 1, r, nthreads);
    assert Times(trip + 1, nthreads) == Times(trip, nthreads) + nthreads;
    QuotientIff(x, c, y);
    TimesMonotone(m + 1, y, c);
    assert Times(m + 1, c) == Times(m, c) + c;
  }
}
