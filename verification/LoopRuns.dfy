/** Dynamically scheduled loops over whole runs: the threads of a team take blocks
    of one work share, their atomic steps interleaved freely. */
module LoopRuns {
  import opened Arithmetic
  import opened Dispenser
  import opened FiniteSets

  /** A thread between two atomic operations; Loaded keeps the local variables of
      the compare-and-swap loop. A Done thread has received false. */
  datatype Phase = Ready | Loaded(start: int, chunk: int) | Done

  datatype Schedule = Dynamic | Guided

  datatype State = State(ws: Share, schedule: Schedule, phases: seq<Phase>, given: seq<Block>)

  datatype Event = FetchAdd(t: nat) | Load(t: nat) | Swap(t: nat) | Locked(t: nat)

  // ------------------------------------------------------------------
  // The steps
  // ------------------------------------------------------------------

  /** Where a block that starts at `start` ends, by the compare-and-swap loops and
      the locked routines. */
  function BlockEnd(s: State, start: int, chunk: int): int
    requires s.ws.incr != 0 && s.phases != []
  {
    match s.schedule
    case Dynamic => Wrap(start + Cut(s.ws.incr, s.ws.end, start, chunk))
    case Guided => GuidedEnd(s.ws.incr, s.ws.end, start, s.ws.chunkSize, |s.phases|)
  }

  function Give(s: State, t: nat, b: Block): State
    requires t < |s.phases|
  {
    s.(ws := s.ws.(next := b.1), phases := s.phases[t := Ready], given := s.given + [b])
  }

  /** The end of the block the fetch-and-add branch hands out. */
  function AddEnd(ws: Share): int {
    var nend := Wrap(ws.next + ws.chunkSize);
    if Up(ws.incr, nend) > Up(ws.incr, ws.end) then ws.end else nend
  }

  ghost predicate Step(s: State, e: Event, r: State) {
    var ws, t := s.ws, e.t;
    && t < |s.phases| && ws.incr != 0
    && match e
       case FetchAdd(_) =>
         && s.phases[t].Ready? && s.schedule.Dynamic? && ws.mode
         && var s' := s.(ws := ws.(next := Wrap(ws.next + ws.chunkSize)));
            if Up(ws.incr, ws.next) >= Up(ws.incr, ws.end) then r == s'.(phases := s.phases[t := Done])
            else r == s'.(given := s.given + [(ws.next, AddEnd(ws))])
       case Load(_) =>
         && s.phases[t].Ready? && !ws.mode
         && r == s.(phases := s.phases[t := Loaded(ws.next, ws.chunkSize)])
       case Swap(_) =>
         && s.phases[t].Loaded?
         && var Loaded(start, chunk) := s.phases[t];
            if start == ws.end then r == s.(phases := s.phases[t := Done])
            else if ws.next == start then r == Give(s, t, (start, BlockEnd(s, start, chunk)))
            else
              var c := if s.schedule.Guided? then chunk else Cut(ws.incr, ws.end, start, chunk);
              r == s.(phases := s.phases[t := Loaded(ws.next, c)])
       case Locked(_) =>
         && s.phases[t].Ready? && !ws.mode
         && if ws.next == ws.end then r == s.(phases := s.phases[t := Done])
            else r == Give(s, t, (ws.next, BlockEnd(s, ws.next, ws.chunkSize)))
  }

  /** A loop from `first` as gomp_loop_init leaves it; only dynamic schedules use
      the fetch-and-add mode, and then there is room for it. */
  ghost predicate Init(s: State, first: int, chunk: nat) {
    var ws := s.ws;
    && s.phases != [] && s.given == [] && ws.next == first && chunk > 0 && ws.incr != 0
    && (forall t :: 0 <= t < |s.phases| ==> s.phases[t] == Ready)
    && IsLong(first) && IsLong(ws.end) && IsLong(ws.chunkSize) && Up(ws.incr, first) <= Up(ws.incr, ws.end)
    && match s.schedule
       case Dynamic =>
         ws.chunkSize == Times(chunk, ws.incr) && (ws.mode ==> RoomToAdd(ws.incr, ws.end, ws.chunkSize, |s.phases|))
       case Guided =>
         ws.chunkSize == chunk && !ws.mode && IsLong(ws.end - first)
  }

  // ------------------------------------------------------------------
  // The invariant
  // ------------------------------------------------------------------

  /** Everything before the front has been handed out. */
  function Front(ws: Share): int {
    if Up(ws.incr, ws.next) > Up(ws.incr, ws.end) then ws.end else ws.next
  }

  ghost function Finished(phases: seq<Phase>): set<nat> {
    set t: nat | t < |phases| && phases[t].Done?
  }

  ghost predicate Conserved(s: State, first: int, x: int) {
    Covering(s.ws.incr, s.given, x) + One(In(s.ws.incr, Front(s.ws), s.ws.end, x))
      == One(In(s.ws.incr, first, s.ws.end, x))
  }

  ghost predicate PhaseOk(s: State, t: int) {
    0 <= t < |s.phases| ==>
      match s.phases[t]
      case Ready => true
      case Loaded(start, chunk) =>
        && !s.ws.mode && IsLong(start) && IsLong(chunk)
        && Up(s.ws.incr, start) <= Up(s.ws.incr, s.ws.next)
        && (start != s.ws.end && s.schedule.Dynamic? ==> ChunkOk(s.ws.incr, s.ws.end, start, chunk, s.ws.chunkSize))
      case Done => Up(s.ws.incr, s.ws.end) <= Up(s.ws.incr, s.ws.next)
  }

  ghost predicate BlockOk(s: State, first: int, k: int) {
    0 <= k < |s.given| ==> Aligned(first, s.ws.incr, s.given[k].0)
  }

  /** A loop so long that the distance left wraps is handed out in one block. */
  ghost predicate WideOk(s: State, first: int) {
    IsLong(s.ws.end - first) || s.ws.mode || s.ws.next == first || s.ws.next == s.ws.end
  }

  ghost predicate LoadedWideOk(s: State, first: int, t: int) {
    0 <= t < |s.phases| && s.phases[t].Loaded? ==>
      Up(s.ws.incr, first) <= Up(s.ws.incr, s.phases[t].start) &&
      (IsLong(s.ws.end - first) || s.phases[t].start == first || s.phases[t].start == s.ws.end)
  }

  ghost predicate NextOk(s: State, first: int) {
    var ws := s.ws;
    && IsLong(ws.next) && Up(ws.incr, first) <= Up(ws.incr, ws.next)
    && (Up(ws.incr, ws.next) < Up(ws.incr, ws.end) ==> Aligned(first, ws.incr, ws.next))
    && (if ws.mode
        then Up(ws.incr, ws.next) <= Up(ws.incr, ws.end) + Times(|Finished(s.phases)| + 1, Up(ws.incr, ws.chunkSize))
        else Up(ws.incr, ws.next) <= Up(ws.incr, ws.end))
  }

  ghost predicate Fixed(s: State, first: int, chunk: nat) {
    var ws := s.ws;
    && s.phases != [] && chunk > 0 && ws.incr != 0
    && IsLong(first) && IsLong(ws.end) && IsLong(ws.chunkSize) && Up(ws.incr, first) <= Up(ws.incr, ws.end)
    && match s.schedule
       case Dynamic =>
         && ws.chunkSize == Times(chunk, ws.incr) && Up(ws.incr, ws.chunkSize) > 0
         && (ws.mode ==> RoomToAdd(ws.incr, ws.end, ws.chunkSize, |s.phases|))
       case Guided =>
         ws.chunkSize == chunk && !ws.mode && IsLong(ws.end - first)
  }

  ghost predicate Inv(s: State, first: int, chunk: nat) {
    && Fixed(s, first, chunk) && NextOk(s, first) && WideOk(s, first)
    && (forall x :: Conserved(s, first, x))
    && (forall k :: BlockOk(s, first, k))
    && (forall t :: PhaseOk(s, t))
    && (forall t :: LoadedWideOk(s, first, t))
  }

  // ------------------------------------------------------------------
  // Every step keeps it
  // ------------------------------------------------------------------

  lemma InitInv(s: State, first: int, chunk: nat)
    requires Init(s, first, chunk)
    ensures Inv(s, first, chunk)
  {
    AlignedStart(first, s.ws.incr);
    assert Finished(s.phases) == {};
    if s.schedule.Dynamic? {
      SignedTimes(chunk, s.ws.incr);
      TimesMonotone(1, chunk, Abs(s.ws.incr));
    }
  }

  /** A block given from the front keeps every value in exactly one place. */
  lemma GiveConserves(s: State, first: int, r: State, b: Block)
    requires s.ws.incr != 0 && r.ws.incr == s.ws.incr && r.ws.end == s.ws.end
    requires Up(s.ws.incr, s.ws.next) < Up(s.ws.incr, s.ws.end) && b.0 == s.ws.next
    requires Up(s.ws.incr, b.0) <= Up(s.ws.incr, b.1) <= Up(s.ws.incr, s.ws.end) && Front(r.ws) == b.1
    requires r.given == s.given + [b]
    requires Aligned(first, s.ws.incr, b.0)
    requires forall x :: Conserved(s, first, x)
    requires forall k :: BlockOk(s, first, k)
    ensures forall x :: Conserved(r, first, x)
    ensures forall k :: BlockOk(r, first, k)
  {
    forall x ensures Conserved(r, first, x) {
      assert Conserved(s, first, x);
      CoveringSnoc(s.ws.incr, s.given, b, x);
      BlockSplits(s.ws.incr, b.0, b.1, s.ws.end, x);
    }
    forall k ensures BlockOk(r, first, k) { assert BlockOk(s, first, k); }
  }

  lemma SameGiven(s: State, first: int, r: State)
    requires r.ws.incr == s.ws.incr && r.ws.end == s.ws.end && Front(r.ws) == Front(s.ws) && r.given == s.given
    requires forall x :: Conserved(s, first, x)
    requires forall k :: BlockOk(s, first, k)
    ensures forall x :: Conserved(r, first, x)
    ensures forall k :: BlockOk(r, first, k)
  {
    forall x ensures Conserved(r, first, x) { assert Conserved(s, first, x); }
    forall k ensures BlockOk(r, first, k) { assert BlockOk(s, first, k); }
  }

  /** Giving a block, through a swap or under the lock. */
  lemma GiveKeeps(s: State, first: int, chunk: nat, t: nat, c: int, r: State)
    requires Inv(s, first, chunk) && t < |s.phases| && !s.ws.mode && s.ws.next != s.ws.end && IsLong(c)
    requires s.schedule.Dynamic? ==> ChunkOk(s.ws.incr, s.ws.end, s.ws.next, c, s.ws.chunkSize)
    requires r == Give(s, t, (s.ws.next, BlockEnd(s, s.ws.next, c)))
    ensures Inv(r, first, chunk)
  {
    var ws, nend := s.ws, BlockEnd(s, s.ws.next, c);
    BlockEndOk(s, first, chunk, c);
    GiveConserves(s, first, r, (ws.next, nend));
    forall u ensures PhaseOk(r, u) && LoadedWideOk(r, first, u) { assert PhaseOk(s, u) && LoadedWideOk(s, first, u); }
  }

  lemma BlockEndOk(s: State, first: int, chunk: nat, c: int)
    requires Inv(s, first, chunk) && !s.ws.mode && s.ws.next != s.ws.end && IsLong(c)
    requires s.schedule.Dynamic? ==> ChunkOk(s.ws.incr, s.ws.end, s.ws.next, c, s.ws.chunkSize)
    ensures var nend := BlockEnd(s, s.ws.next, c);
      && IsLong(nend) && Up(s.ws.incr, s.ws.next) < Up(s.ws.incr, nend) <= Up(s.ws.incr, s.ws.end)
      && (nend == s.ws.end || Aligned(first, s.ws.incr, nend))
      && (IsLong(s.ws.end - first) || nend == s.ws.end)
  {
    match s.schedule {
      case Dynamic => DynamicEndOk(s, first, chunk, c);
      case Guided => GuidedEndOk(s, first, chunk, c);
    }
  }

  lemma DynamicEndOk(s: State, first: int, chunk: nat, c: int)
    requires Inv(s, first, chunk) && !s.ws.mode && s.ws.next != s.ws.end && IsLong(c) && s.schedule.Dynamic?
    requires ChunkOk(s.ws.incr, s.ws.end, s.ws.next, c, s.ws.chunkSize)
    ensures var nend := BlockEnd(s, s.ws.next, c);
      && IsLong(nend) && Up(s.ws.incr, s.ws.next) < Up(s.ws.incr, nend) <= Up(s.ws.incr, s.ws.end)
      && (nend == s.ws.end || Aligned(first, s.ws.incr, nend))
      && (IsLong(s.ws.end - first) || nend == s.ws.end)
  {
    var ws := s.ws;
    CutOk(ws.incr, ws.end, ws.next, c, ws.chunkSize);
    AlignedStep(first, ws.incr, ws.next, chunk);
  }

  lemma GuidedEndOk(s: State, first: int, chunk: nat, c: int)
    requires Inv(s, first, chunk) && !s.ws.mode && s.ws.next != s.ws.end && s.schedule.Guided?
    ensures var nend := BlockEnd(s, s.ws.next, c);
      && IsLong(nend) && Up(s.ws.incr, s.ws.next) < Up(s.ws.incr, nend) <= Up(s.ws.incr, s.ws.end)
      && (nend == s.ws.end || Aligned(first, s.ws.incr, nend))
      && (IsLong(s.ws.end - first) || nend == s.ws.end)
  {
    var ws, nend := s.ws, BlockEnd(s, s.ws.next, c);
    GuidedOk(ws.incr, ws.end, ws.next, ws.chunkSize, |s.phases|);
    if nend != ws.end {
      var q: nat :| nend == ws.next + Times(q, ws.incr);
      AlignedStep(first, ws.incr, ws.next, q);
    }
  }

  /** A phase changes but nothing is given. */
  lemma WaitKeeps(s: State, first: int, chunk: nat, t: nat, p: Phase)
    requires Inv(s, first, chunk) && t < |s.phases| && !s.ws.mode
    requires var r := s.(phases := s.phases[t := p]); PhaseOk(r, t) && LoadedWideOk(r, first, t)
    ensures Inv(s.(phases := s.phases[t := p]), first, chunk)
  {
    var r := s.(phases := s.phases[t := p]);
    SameGiven(s, first, r);
    forall u ensures PhaseOk(r, u) && LoadedWideOk(r, first, u) { assert PhaseOk(s, u) && LoadedWideOk(s, first, u); }
  }

  lemma SwapKeeps(s: State, first: int, chunk: nat, t: nat, r: State)
    requires Inv(s, first, chunk) && Step(s, Swap(t), r)
    ensures Inv(r, first, chunk)
  {
    var ws := s.ws;
    var Loaded(start, c) := s.phases[t];
    assert PhaseOk(s, t) && LoadedWideOk(s, first, t);
    if start == ws.end {
      WaitKeeps(s, first, chunk, t, Done);
    } else if ws.next == start {
      GiveKeeps(s, first, chunk, t, c, r);
    } else {
      if s.schedule.Dynamic? { CutOk(ws.incr, ws.end, start, c, ws.chunkSize); }
      WaitKeeps(s, first, chunk, t, r.phases[t]);
    }
  }

  /** Every thread adds beyond the end at most once, so the sum stays a long. */
  lemma AddFits(s: State, first: int, chunk: nat, t: nat)
    requires Inv(s, first, chunk) && t < |s.phases| && !s.phases[t].Done? && s.ws.mode && s.schedule.Dynamic?
    ensures Up(s.ws.incr, s.ws.next) + Up(s.ws.incr, s.ws.chunkSize)
      <= Up(s.ws.incr, s.ws.end) + Times(|Finished(s.phases)| + 2, Up(s.ws.incr, s.ws.chunkSize)) < LONG_MAX
    ensures IsLong(s.ws.next + s.ws.chunkSize)
  {
    var c, f := Up(s.ws.incr, s.ws.chunkSize), |Finished(s.phases)|;
    SubsetSmaller(Finished(s.phases), Below(|s.phases|) - {t});
    TimesAdds(f + 1, 1, c);
    TimesMonotone(f + 2, |s.phases| + 1, c);
  }

  lemma FinishedAfter(phases: seq<Phase>, t: nat)
    requires t < |phases| && !phases[t].Done?
    ensures |Finished(phases[t := Done])| == |Finished(phases)| + 1
  {
    assert Finished(phases[t := Done]) == Finished(phases) + {t};
  }

  lemma FetchAddKeeps(s: State, first: int, chunk: nat, t: nat, r: State)
    requires Inv(s, first, chunk) && Step(s, FetchAdd(t), r)
    ensures Inv(r, first, chunk)
  {
    var ws := s.ws;
    AddFits(s, first, chunk, t);
    AddedNext(s, first, chunk, t, r);
    forall u ensures PhaseOk(r, u) && LoadedWideOk(r, first, u) { assert PhaseOk(s, u) && LoadedWideOk(s, first, u); }
    if Up(ws.incr, ws.next) >= Up(ws.incr, ws.end) {
      SameGiven(s, first, r);
    } else {
      GiveConserves(s, first, r, (ws.next, AddEnd(ws)));
    }
  }

  /** The counter after an addition that does not wrap. */
  lemma AddedNext(s: State, first: int, chunk: nat, t: nat, r: State)
    requires Fixed(s, first, chunk) && NextOk(s, first) && s.ws.mode && t < |s.phases| && s.phases[t].Ready?
    requires s.schedule.Dynamic? && r.ws == s.ws.(next := s.ws.next + s.ws.chunkSize) && IsLong(r.ws.next)
    requires r.phases == if Up(s.ws.incr, s.ws.next) >= Up(s.ws.incr, s.ws.end) then s.phases[t := Done] else s.phases
    ensures NextOk(r, first)
  {
    var ws, f := s.ws, |Finished(s.phases)|;
    var c := Up(ws.incr, ws.chunkSize);
    FinishedAfter(s.phases, t);
    TimesAdds(f + 1, 1, c);
    TimesMonotone(1, f + 1, c);
    if Up(ws.incr, ws.next) < Up(ws.incr, ws.end) { AlignedStep(first, ws.incr, ws.next, chunk); }
  }

  lemma StepKeeps(s: State, first: int, chunk: nat, e: Event, r: State)
    requires Inv(s, first, chunk) && Step(s, e, r)
    ensures Inv(r, first, chunk)
  {
    match e {
      case FetchAdd(t) => FetchAddKeeps(s, first, chunk, t, r);
      case Load(t) => WaitKeeps(s, first, chunk, t, Loaded(s.ws.next, s.ws.chunkSize));
      case Swap(t) => SwapKeeps(s, first, chunk, t, r);
      case Locked(t) =>
        if s.ws.next == s.ws.end {
          WaitKeeps(s, first, chunk, t, Done);
        } else {
          GiveKeeps(s, first, chunk, t, s.ws.chunkSize, r);
        }
    }
  }

  // ------------------------------------------------------------------
  // Whole runs
  // ------------------------------------------------------------------

  ghost predicate Run(ss: seq<State>, es: seq<Event>, first: int, chunk: nat) {
    && |ss| == |es| + 1 && Init(ss[0], first, chunk)
    && forall i {:trigger es[i]} :: 0 <= i < |es| ==> Step(ss[i], es[i], ss[i + 1])
  }

  lemma {:induction false} RunInv(ss: seq<State>, es: seq<Event>, first: int, chunk: nat, i: nat)
    requires Run(ss, es, first, chunk) && i <= |es|
    ensures Inv(ss[i], first, chunk)
  {
    if i == 0 {
      InitInv(ss[0], first, chunk);
    } else {
      RunInv(ss, es, first, chunk, i - 1);
      RunStep(ss, es, first, chunk, i - 1);
    }
  }

  lemma RunStep(ss: seq<State>, es: seq<Event>, first: int, chunk: nat, i: nat)
    requires Run(ss, es, first, chunk) && i < |es| && Inv(ss[i], first, chunk)
    ensures Inv(ss[i + 1], first, chunk)
  {
    assert Step(ss[i], es[i], ss[i + 1]);
    StepKeeps(ss[i], first, chunk, es[i], ss[i + 1]);
  }

  /** What the step of a block from the front is: a chunk or the rest, or the least share
      of the threads in what is left. */
  ghost predicate BlockFits(s: State, e: int) {
    match s.schedule
    case Dynamic => ChunkOrRest(s.ws.incr, s.ws.end, s.ws.next, s.ws.chunkSize, s.ws.mode, e)
    case Guided => GuidedBlock(s.ws.incr, s.ws.end, s.ws.next, s.ws.chunkSize, |s.phases|, e)
  }

  lemma StepGives(s: State, first: int, chunk: nat, e: Event, r: State)
    requires Inv(s, first, chunk) && Step(s, e, r)
    ensures r.given == s.given ||
      (|r.given| == |s.given| + 1 && r.given[|s.given|].0 == s.ws.next && BlockFits(s, r.given[|s.given|].1)
       && r.given == s.given + [r.given[|s.given|]])
  {
    var ws := s.ws;
    assert PhaseOk(s, e.t);
    match e {
      case FetchAdd(t) => AddFits(s, first, chunk, t);
      case Load(t) =>
      case Swap(t) =>
        if s.phases[t].start == ws.next && ws.next != ws.end { EndFits(s, first, chunk, s.phases[t].chunk); }
      case Locked(t) =>
        if ws.next != ws.end { EndFits(s, first, chunk, ws.chunkSize); }
    }
  }

  lemma EndFits(s: State, first: int, chunk: nat, c: int)
    requires Inv(s, first, chunk) && !s.ws.mode && s.ws.next != s.ws.end && IsLong(c)
    requires s.schedule.Dynamic? ==> ChunkOk(s.ws.incr, s.ws.end, s.ws.next, c, s.ws.chunkSize)
    ensures BlockFits(s, BlockEnd(s, s.ws.next, c))
  {
    var ws := s.ws;
    match s.schedule {
      case Dynamic => CutOk(ws.incr, ws.end, ws.next, c, ws.chunkSize);
      case Guided => GuidedOk(ws.incr, ws.end, ws.next, ws.chunkSize, |s.phases|);
    }
  }

  /** In every run, each block is taken from the front of what is left: for a dynamic
      schedule a chunk or the rest, for a guided one the least share of the threads in
      what is left, or the rest. */
  lemma BlockSizes(ss: seq<State>, es: seq<Event>, first: int, chunk: nat, i: nat)
    requires Run(ss, es, first, chunk) && i < |es|
    ensures var s, r := ss[i], ss[i + 1];
      r.given == s.given ||
      (|r.given| == |s.given| + 1 && r.given[|s.given|].0 == s.ws.next && BlockFits(s, r.given[|s.given|].1)
       && r.given == s.given + [r.given[|s.given|]])
  {
    RunInv(ss, es, first, chunk, i);
    assert Step(ss[i], es[i], ss[i + 1]);
    StepGives(ss[i], first, chunk, es[i], ss[i + 1]);
  }

  /** When the mode flag is set, the shared counter never leaves the range of a
      long, however the threads interleave: no addition ever wraps. */
  lemma NeverWraps(ss: seq<State>, es: seq<Event>, first: int, chunk: nat, i: nat)
    requires Run(ss, es, first, chunk) && i < |es| && es[i].FetchAdd?
    ensures ss[i + 1].ws.next == ss[i].ws.next + ss[i].ws.chunkSize
    ensures Up(ss[i].ws.incr, ss[i + 1].ws.next) < LONG_MAX
  {
    RunInv(ss, es, first, chunk, i);
    assert Step(ss[i], es[i], ss[i + 1]);
    AddFits(ss[i], first, chunk, es[i].t);
  }

  /** At any time no value has been handed out twice, and none outside the loop. */
  lemma NoneTwice(ss: seq<State>, es: seq<Event>, first: int, chunk: nat, i: nat, x: int)
    requires Run(ss, es, first, chunk) && i <= |es|
    ensures Covering(ss[i].ws.incr, ss[i].given, x) <= One(In(ss[i].ws.incr, first, ss[i].ws.end, x))
  {
    RunInv(ss, es, first, chunk, i);
    assert Conserved(ss[i], first, x);
  }

  /** Once a thread has received false every value of the loop has been handed
      out, and iteration k is run by the thread whose block holds it. */
  lemma ExactlyOnce(ss: seq<State>, es: seq<Event>, first: int, chunk: nat, i: nat, t: nat, k: nat)
    requires Run(ss, es, first, chunk) && i <= |es| && t < |ss[i].phases| && ss[i].phases[t].Done?
    ensures var s := ss[i]; var x := first + Times(k, s.ws.incr);
      Up(s.ws.incr, x) < Up(s.ws.incr, s.ws.end) ==>
        && Covering(s.ws.incr, s.given, x) == 1
        && exists j :: 0 <= j < |s.given| && RunsIn(s.ws.incr, s.given[j], x)
  {
    RunInv(ss, es, first, chunk, i);
    var s := ss[i]; var x := first + Times(k, s.ws.incr);
    assert PhaseOk(s, t) && Conserved(s, first, x);
    if Up(s.ws.incr, x) < Up(s.ws.incr, s.ws.end) {
      SignedTimes(k, s.ws.incr);
      var j := CoveredBy(s.ws.incr, s.given, x);
      assert BlockOk(s, first, j);
      var m: nat :| IterationIs(first, s.ws.incr, m, s.given[j].0);
      StepsBetween(first, s.ws.incr, m, k, s.given[j]);
    }
  }
}
