/** Handing out the iterations of a work share: lib/libopenpop/iter.c and the
    initialisation in lib/libopenpop/loop.c. */
module Dispenser {
  import opened Arithmetic
  import opened Bits

  const LONG_MAX: int := 0x7fff_ffff_ffff_ffff

  predicate IsLong(x: int) {
    -LONG_MAX - 1 <= x <= LONG_MAX
  }

  /** A sum or difference of two longs, wrapped to 64 bits. */
  function Wrap(x: int): (r: int)
    ensures IsLong(r) && (IsLong(x) ==> r == x)
    ensures LONG_MAX < x <= 2 * LONG_MAX + 1 ==> r == x - TWO64
    ensures -2 * LONG_MAX - 2 <= x < -LONG_MAX - 1 ==> r == x + TWO64
  {
    var r := x % TWO64;
    if r > LONG_MAX then r - TWO64 else r
  }

  /** A work share; chunkSize is already multiplied by incr, as in the source. */
  datatype Share = Share(next: int, end: int, incr: int, chunkSize: int, mode: bool)

  /** x as a coordinate that grows in the direction of the loop. */
  function Up(incr: int, x: int): int {
    if incr > 0 then x else -x
  }

  /** The long farthest in the direction of the loop. */
  function UpMost(incr: int): int {
    if incr > 0 then LONG_MAX else LONG_MAX + 1
  }

  /** The value x lies in the block from s to e. */
  predicate In(incr: int, s: int, e: int, x: int) {
    Up(incr, s) <= Up(incr, x) < Up(incr, e)
  }

  function One(b: bool): nat {
    if b then 1 else 0
  }

  lemma BlockSplits(incr: int, s: int, m: int, e: int, x: int)
    requires Up(incr, s) <= Up(incr, m) <= Up(incr, e)
    ensures One(In(incr, s, e, x)) == One(In(incr, s, m, x)) + One(In(incr, m, e, x))
  {
  }

  type Block = (int, int)

  /** How many of the blocks contain x. */
  ghost function Covering(incr: int, blocks: seq<Block>, x: int): nat {
    if blocks == [] then 0
    else Covering(incr, blocks[..|blocks| - 1], x) + One(In(incr, blocks[|blocks| - 1].0, blocks[|blocks| - 1].1, x))
  }

  lemma CoveringSnoc(incr: int, blocks: seq<Block>, b: Block, x: int)
    ensures Covering(incr, blocks + [b], x) == Covering(incr, blocks, x) + One(In(incr, b.0, b.1, x))
  {
    assert (blocks + [b])[..|blocks|] == blocks;
  }

  /** x is the value of the loop variable in iteration k. */
  ghost predicate IterationIs(start: int, incr: int, k: nat, x: int) {
    x == start + Times(k, incr)
  }

  /** A thread may start its part of the loop at x. */
  ghost predicate Aligned(start: int, incr: int, x: int) {
    exists k: nat :: IterationIs(start, incr, k, x)
  }

  lemma AlignedStep(start: int, incr: int, x: int, c: nat)
    requires Aligned(start, incr, x)
    ensures Aligned(start, incr, x + Times(c, incr))
  {
    var k: nat :| IterationIs(start, incr, k, x);
    TimesAdds(k, c, incr);
    var m := k + c;
    assert IterationIs(start, incr, m, x + Times(c, incr));
  }

  lemma AlignedStart(start: int, incr: int)
    ensures Aligned(start, incr, start)
  {
    assert IterationIs(start, incr, 0, start);
  }

  /** A thread that runs its block from the start, incr at a time, runs x. */
  ghost predicate RunsIn(incr: int, b: Block, x: int) {
    In(incr, b.0, b.1, x) && Aligned(b.0, incr, x)
  }

  lemma StepsBetween(first: int, incr: int, m: nat, k: nat, b: Block)
    requires incr != 0 && IterationIs(first, incr, m, b.0) && In(incr, b.0, b.1, first + Times(k, incr))
    ensures RunsIn(incr, b, first + Times(k, incr))
  {
    SignedTimes(m, incr);
    SignedTimes(k, incr);
    if k < m { TimesMonotone(k + 1, m, Abs(incr)); TimesAdds(k, 1, Abs(incr)); }
    TimesAdds(m, k - m, incr);
    var n := k - m;
    assert IterationIs(b.0, incr, n, first + Times(k, incr));
  }

  lemma {:induction false} CoveredBy(incr: int, blocks: seq<Block>, x: int) returns (j: nat)
    requires Covering(incr, blocks, x) > 0
    ensures j < |blocks| && In(incr, blocks[j].0, blocks[j].1, x)
    decreases |blocks|
  {
    j := |blocks| - 1;
    if !In(incr, blocks[j].0, blocks[j].1, x) {
      j := CoveredBy(incr, blocks[..j], x);
    }
  }

  // ------------------------------------------------------------------
  // Cutting a block
  // ------------------------------------------------------------------

  /** The chunk cut to what is left; a distance of 2^63 or more wraps. */
  function Cut(incr: int, end: int, start: int, chunk: int): int {
    var left := Wrap(end - start);
    if incr < 0 then (if chunk < left then left else chunk)
    else (if chunk > left then left else chunk)
  }

  /** A chunk that may be used from `start`: a step forward, or more than is left. */
  predicate ChunkOk(incr: int, end: int, start: int, chunk: int, chunkSize: int) {
    chunk == chunkSize ||
    (IsLong(end - start) && Up(incr, end) - Up(incr, start) <= Up(incr, chunk) <= Up(incr, chunkSize))
  }

  /** The block from `start` is a whole chunk if so much is left, and else the rest. Unless
      `wide`, a distance of 2^63 or more wraps in the comparison and counts as less. */
  predicate ChunkOrRest(incr: int, end: int, start: int, chunkSize: int, wide: bool, pend: int) {
    pend == if (wide || IsLong(end - start)) && Up(incr, start) + Up(incr, chunkSize) <= Up(incr, end)
      then start + chunkSize else end
  }

  /** The block ends at the end of the loop or a whole chunk ahead, even when the
      computation of what is left wraps; the cut chunk may be used again. */
  lemma CutOk(incr: int, end: int, start: int, chunk: int, chunkSize: int)
    requires incr != 0 && IsLong(start) && IsLong(end) && IsLong(chunk) && Up(incr, start) < Up(incr, end)
    requires Up(incr, chunkSize) > 0 && ChunkOk(incr, end, start, chunk, chunkSize)
    ensures var cut := Cut(incr, end, start, chunk);
      var nend := Wrap(start + cut);
      && IsLong(cut) && Up(incr, start) < Up(incr, nend) <= Up(incr, end)
      && ChunkOrRest(incr, end, start, chunkSize, false, nend)
      && (if IsLong(end - start) then ChunkOk(incr, end, start, cut, chunkSize) else nend == end)
  {
  }

  lemma ChunkIsCut(incr: int, end: int, start: int, chunk: int, pend: int)
    requires incr != 0 && IsLong(start) && IsLong(end) && IsLong(chunk) && Up(incr, start) < Up(incr, end)
    requires Up(incr, chunk) > 0 && ChunkOrRest(incr, end, start, chunk, false, pend)
    ensures pend == Wrap(start + Cut(incr, end, start, chunk))
  {
    CutOk(incr, end, start, chunk, chunk);
  }

  /** n whole steps of the loop are left. */
  ghost predicate StepsLeft(incr: int, end: int, start: int, n: nat) {
    Times(n, Abs(incr)) <= Up(incr, end) - Up(incr, start) < Times(n + 1, Abs(incr))
  }

  /** k is the least share that is no less than a chunk and would, given to each of the
      threads, use up n steps. */
  ghost predicate LeastShare(n: nat, chunk: int, nthreads: int, k: nat) {
    && k >= chunk && Times(k, nthreads) >= n
    && forall j :: chunk <= j < k ==> Times(j, nthreads) < n
  }

  /** The block from `start` has the least share of the steps left, or is the rest. */
  ghost predicate GuidedBlock(incr: int, end: int, start: int, chunk: int, nthreads: int, pend: int) {
    exists n: nat, k: nat ::
      && StepsLeft(incr, end, start, n) && LeastShare(n, chunk, nthreads, k)
      && pend == if k <= n then start + Times(k, incr) else end
  }

  /** The iterations of a guided block when n are left. */
  function GuidedSize(n: int, chunkSize: int, nthreads: int): (q: int)
    requires nthreads > 0
    ensures q >= chunkSize
  {
    var q := (n + nthreads - 1) / nthreads;
    if q < chunkSize then chunkSize else q
  }

  /** The end of a guided block. */
  function GuidedEnd(incr: int, end: int, start: int, chunkSize: int, nthreads: int): int
    requires incr != 0 && nthreads > 0
  {
    var n := TruncDiv(end - start, incr);
    var q := GuidedSize(n, chunkSize, nthreads);
    if q <= n then start + Times(q, incr) else end
  }

  lemma WholeSteps(m: nat, d: nat, q: nat)
    requires d > 0 && 0 < q <= m / d
    ensures 0 < q * d <= m
  {
    QuotientIff(m, d, m / d);
    TimesMonotone(q, m / d, d);
    TimesMonotone(1, q, d);
  }

  lemma ShareIsLeast(n: nat, chunk: int, nthreads: int)
    requires nthreads > 0 && chunk > 0
    ensures LeastShare(n, chunk, nthreads, GuidedSize(n, chunk, nthreads))
  {
    var m, k := (n + nthreads - 1) / nthreads, GuidedSize(n, chunk, nthreads);
    QuotientIff(n + nthreads - 1, nthreads, m);
    TimesAdds(m, 1, nthreads);
    TimesMonotone(m, k, nthreads);
    forall j | chunk <= j < k ensures Times(j, nthreads) < n {
      TimesMonotone(j + 1, m, nthreads);
      TimesAdds(j, 1, nthreads);
    }
  }

  lemma GuidedIs(incr: int, end: int, start: int, chunk: int, nthreads: int)
    requires incr != 0 && nthreads > 0 && chunk > 0 && Up(incr, start) < Up(incr, end)
    ensures GuidedBlock(incr, end, start, chunk, nthreads, GuidedEnd(incr, end, start, chunk, nthreads))
  {
    var n := TruncDiv(end - start, incr);
    QuotientIff(Abs(end - start), Abs(incr), n);
    ShareIsLeast(n, chunk, nthreads);
    assert StepsLeft(incr, end, start, n) && LeastShare(n, chunk, nthreads, GuidedSize(n, chunk, nthreads));
  }

  lemma GuidedOk(incr: int, end: int, start: int, chunkSize: int, nthreads: int)
    requires incr != 0 && nthreads > 0 && chunkSize > 0 && Up(incr, start) < Up(incr, end)
    ensures var nend := GuidedEnd(incr, end, start, chunkSize, nthreads);
      && Up(incr, start) < Up(incr, nend) <= Up(incr, end)
      && (nend == end || exists q: nat :: nend == start + Times(q, incr))
      && GuidedBlock(incr, end, start, chunkSize, nthreads, nend)
  {
    GuidedIs(incr, end, start, chunkSize, nthreads);
    var n := TruncDiv(end - start, incr);
    var q := GuidedSize(n, chunkSize, nthreads);
    if q <= n {
      WholeSteps(Abs(end - start), Abs(incr), q);
      SignedTimes(q, incr);
    }
  }

  lemma SignedTimes(q: int, incr: int)
    ensures Times(q, incr) == if incr > 0 then q * Abs(incr) else -(q * Abs(incr))
  {
  }

  // ------------------------------------------------------------------
  // The work share in memory
  // ------------------------------------------------------------------

  /** The bound that the cheap overflow protection of gomp_loop_init checks. */
  ghost predicate RoomToAdd(incr: int, end: int, chunkSize: int, nthreads: nat) {
    && nthreads < 0x8000_0000 && Up(incr, chunkSize) < 0x8000_0000
    && Up(incr, end) + Times(nthreads + 1, Up(incr, chunkSize)) < LONG_MAX
  }

  /** The choice of mode in gomp_loop_init. */
  method ModeFor(end: int, incr: int, chunkSize: int, nthreads: nat) returns (mode: bool)
    requires Up(incr, chunkSize) > 0
    ensures mode <==> RoomToAdd(incr, end, chunkSize, nthreads)
  {
    Powers();
    OrBelow(nthreads, Abs(chunkSize), 31);
    if incr > 0 {
      if BitOr(nthreads, chunkSize) >= Pow2(31) {
        mode := false;
      } else {
        mode := end < LONG_MAX - Times(nthreads + 1, chunkSize);
      }
    } else if BitOr(nthreads, -chunkSize) >= Pow2(31) {
      mode := false;
    } else {
      mode := end > Times(nthreads + 1, -chunkSize) - LONG_MAX;
    }
  }

  class WorkShare {
    var next: int
    var end: int
    var incr: int
    var chunkSize: int
    var mode: bool

    ghost predicate Valid()
      reads this
    {
      && incr != 0 && IsLong(next) && IsLong(end) && IsLong(chunkSize)
      && Up(incr, next) <= Up(incr, end) && Up(incr, chunkSize) > 0
    }

    /** gomp_loop_init for a dynamic schedule in a team of nthreads. The caller
        passes a chunk size and increment whose product is a long. */
    constructor (start: int, end: int, incr: int, chunk: nat, nthreads: nat)
      requires IsLong(start) && IsLong(end) && incr != 0 && chunk > 0 && 0 < nthreads <= 0x7fff_ffff
      requires -LONG_MAX <= Times(chunk, incr) <= LONG_MAX
      ensures Valid() && next == start && this.incr == incr && chunkSize == Times(chunk, incr)
      ensures this.end == if Up(incr, start) > Up(incr, end) then start else end
      ensures mode <==> RoomToAdd(incr, this.end, chunkSize, nthreads)
    {
      var c := Times(chunk, incr);
      var last := if (incr > 0 && start > end) || (incr < 0 && start < end) then start else end;
      TimesMonotone(1, chunk, Abs(incr));
      SignedTimes(chunk, incr);
      var m := ModeFor(last, incr, c, nthreads);
      this.next, this.end, this.incr, chunkSize, mode := start, last, incr, c, m;
    }

    /** gomp_iter_dynamic_next_locked_raw, with the lock held: the next block, a
        whole chunk or all that is left. */
    method DynamicNextLocked(chunk: int) returns (ok: bool, pstart: int, pend: int)
      requires Valid() && IsLong(chunk) && Up(incr, chunk) > 0
      modifies this`next
      ensures Valid() && (ok <==> old(next) != end)
      ensures ok ==> pstart == old(next) && pend == next && Up(incr, pstart) < Up(incr, pend)
      ensures ok ==> ChunkOrRest(incr, end, pstart, chunk, false, pend)
      ensures !ok ==> next == old(next)
    {
      var start := next;
      if start == end {
        return false, 0, 0;
      }
      CutOk(incr, end, start, chunk, chunk);
      var left := Wrap(end - start);
      var c := chunk;
      if incr < 0 {
        if c < left {
          c := left;
        }
      } else {
        if c > left {
          c := left;
        }
      }
      next := Wrap(start + c);
      ok, pstart, pend := true, start, next;
    }

    /** The fetch-and-add branch of gomp_iter_dynamic_next_raw. */
    method DynamicNextAdd(chunk: int) returns (ok: bool, pstart: int, pend: int)
      requires incr != 0 && IsLong(next) && IsLong(end) && IsLong(chunk) && Up(incr, chunk) > 0 && IsLong(next + chunk)
      modifies this`next
      ensures next == old(next) + chunk && (ok <==> Up(incr, old(next)) < Up(incr, end))
      ensures ok ==> pstart == old(next) && Up(incr, pstart) < Up(incr, pend)
      ensures ok ==> ChunkOrRest(incr, end, pstart, chunk, true, pend)
    {
      var tmp := next;
      next := Wrap(next + chunk);
      if incr > 0 {
        if tmp >= end {
          return false, 0, 0;
        }
        pend := Wrap(tmp + chunk);
        if pend > end {
          pend := end;
        }
      } else {
        if tmp <= end {
          return false, 0, 0;
        }
        pend := Wrap(tmp + chunk);
        if pend < end {
          pend := end;
        }
      }
      ok, pstart := true, tmp;
    }

    method CompareAndSwap(expected: int, new_: int) returns (seen: int)
      modifies this`next
      ensures seen == old(next) && next == if seen == expected then new_ else seen
    {
      seen := next;
      if seen == expected {
        next := new_;
      }
    }

    /** The compare-and-swap branch of gomp_iter_dynamic_next_raw, met by no other
        thread; LoopRuns has the interleaved steps. */
    method DynamicNextSwap(chunk: int) returns (ok: bool, pstart: int, pend: int)
      requires incr != 0 && IsLong(next) && IsLong(end) && IsLong(chunk) && Up(incr, chunk) > 0
      requires Up(incr, next) <= Up(incr, end)
      modifies this`next
      ensures IsLong(next) && Up(incr, next) <= Up(incr, end) && (ok <==> old(next) != end)
      ensures ok ==> pstart == old(next) && pend == next && Up(incr, pstart) < Up(incr, pend)
      ensures ok ==> ChunkOrRest(incr, end, pstart, chunk, false, pend)
      ensures !ok ==> next == old(next) && pend == 0
    {
      var start, c := next, chunk;
      ok, pstart, pend := false, 0, 0;
      while !ok
        invariant ok ==> pstart == old(next) && pend == next
        invariant !ok ==> start == next == old(next) && c == chunk && pend == 0
        invariant ok ==> IsLong(next) && Up(incr, pstart) < Up(incr, pend) <= Up(incr, end)
        invariant ok ==> ChunkOrRest(incr, end, pstart, chunk, false, pend)
        decreases !ok
      {
        var left := Wrap(end - start);
        if start == end {
          return;
        }
        CutOk(incr, end, start, chunk, chunk);
        if incr < 0 {
          if c < left {
            c := left;
          }
        } else {
          if c > left {
            c := left;
          }
        }
        var nend := Wrap(start + c);
        var tmp := CompareAndSwap(start, nend);
        if tmp == start {
          ok, pstart, pend := true, start, nend;
        }
        start := tmp;
      }
    }

    /** Everything before the front has been handed out; the counter may be beyond. */
    function Front(): int
      reads this
    {
      if Up(incr, next) > Up(incr, end) then end else next
    }

    /** gomp_iter_dynamic_next_raw: a non-empty block from the front, if any is left. */
    method DynamicNextRaw(chunk: int) returns (ok: bool, pstart: int, pend: int)
      requires incr != 0 && IsLong(next) && IsLong(end) && IsLong(chunk) && Up(incr, chunk) > 0
      requires if mode then IsLong(next + chunk) else Up(incr, next) <= Up(incr, end)
      modifies this`next
      ensures IsLong(next) && (!mode ==> Up(incr, next) <= Up(incr, end))
      ensures ok <==> old(Front()) != end
      ensures ok ==> pstart == old(Front()) && Up(incr, pstart) < Up(incr, pend) <= Up(incr, end)
      ensures ok ==> ChunkOrRest(incr, end, pstart, chunk, mode, pend)
      ensures next == if mode then old(next) + chunk else if ok then pend else old(next)
      ensures (ok ==> IsLong(pend)) && Front() == if ok then pend else end
    {
      if mode {
        ok, pstart, pend := DynamicNextAdd(chunk);
      } else {
        ok, pstart, pend := DynamicNextSwap(chunk);
      }
    }

    /** gomp_iter_guided_next_locked; here the chunk size is a number of iterations. */
    method GuidedNextLocked(chunk: nat, nthreads: nat) returns (ok: bool, pstart: int, pend: int)
      requires Valid() && IsLong(end - next) && chunk > 0 && nthreads > 0
      modifies this`next
      ensures Valid() && (ok <==> old(next) != end)
      ensures ok ==> pstart == old(next) && pend == next && Up(incr, pstart) < Up(incr, pend)
      ensures ok ==> GuidedBlock(incr, end, pstart, chunk, nthreads, pend)
      ensures !ok ==> next == old(next)
    {
      if next == end {
        return false, 0, 0;
      }
      var start := next;
      GuidedOk(incr, end, start, chunk, nthreads);
      var n := TruncDiv(end - start, incr);
      var q := (n + nthreads - 1) / nthreads;
      if q < chunk {
        q := chunk;
      }
      if q <= n {
        next := start + Times(q, incr);
      } else {
        next := end;
      }
      ok, pstart, pend := true, start, next;
    }
  }
}
