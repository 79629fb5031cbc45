/** What each block of the two-level schedule of lib/libopenpop/hierarchy.c is. */
module HierarchyBlocks {
  import opened Arithmetic
  import opened Dispenser
  import opened HierarchyLoop

  /** Thread t has been given a chunk from the front of the share of its node, or the rest
      of that share. The share was just refilled if it had been empty: from the front of
      the loop with a chunk for every thread of the node, or with the rest. */
  ghost predicate NextBlock(s: State, t: nat, r: State)
    requires t < |s.threads| && s.threads[t].node < |s.nodes| == |r.nodes|
  {
    var g, n, n' := s.global, s.nodes[s.threads[t].node], r.nodes[s.threads[t].node];
    var front := if n.next != n.end then n.next else g.next;
    && r.given == s.given + [(front, n'.next)]
    && ChunkOrRest(g.incr, n'.end, front, g.chunkSize, false, n'.next)
    && if n.next != n.end then n'.end == n.end && r.global == g
       else ChunkOrRest(g.incr, g.end, g.next, Times(n.threads, g.chunkSize), g.mode, n'.end)
  }

  /** The event gives a block, as described, or none. */
  ghost predicate GivesBlock(s: State, e: Event, r: State) {
    && e.t < |s.threads| && s.threads[e.t].node < |s.nodes| == |r.nodes|
    && (r.given == s.given || NextBlock(s, e.t, r))
  }

  lemma LocalGives(s: State, first: int, chunk: nat, most: nat, t: nat, r: State)
    requires Inv(s, first, chunk, most) && Step(s, TakeLocal(t), r)
    ensures NextBlock(s, t, r)
  {
    var g, n := s.global, s.nodes[s.threads[t].node];
    assert NodeOk(s, first, s.threads[t].node);
    CutOk(g.incr, n.end, n.next, g.chunkSize, g.chunkSize);
  }

  /** A block taken from a share that was just refilled up to e. */
  lemma RefillGives(s: State, t: nat, gnext: int, e: int, r: State)
    requires t < |s.threads| && s.threads[t].node < |s.nodes|
    requires var g, n := s.global, s.nodes[s.threads[t].node];
      && g.incr != 0 && IsLong(g.next) && IsLong(e) && IsLong(g.chunkSize) && Up(g.incr, g.chunkSize) > 0
      && Up(g.incr, g.next) < Up(g.incr, e) && n.next == n.end
      && ChunkOrRest(g.incr, g.end, g.next, Times(n.threads, g.chunkSize), g.mode, e)
      && r == TakeFrom(s.(global := g.(next := gnext)), t, n.(next := g.next, end := e))
    ensures NextBlock(s, t, r)
  {
    var g := s.global;
    CutOk(g.incr, e, g.next, g.chunkSize, g.chunkSize);
  }

  lemma AddGives(s: State, first: int, chunk: nat, most: nat, t: nat, r: State)
    requires Inv(s, first, chunk, most) && Step(s, Add(t), r)
    requires Up(s.global.incr, s.global.next) < Up(s.global.incr, s.global.end)
    ensures NextBlock(s, t, r)
  {
    var g, n := s.global, s.nodes[s.threads[t].node];
    var gnext := g.next + NodeChunk(g, n);
    var e := if Up(g.incr, gnext) > Up(g.incr, g.end) then g.end else gnext;
    AddRefills(s, first, chunk, most, t);
    AddShape(s, t, r, gnext);
    AddedEnd(g, NodeChunk(g, n), e);
    RefillGives(s, t, gnext, e, r);
  }

  lemma AddedEnd(g: Share, c: int, e: int)
    requires g.mode && e == if Up(g.incr, g.next + c) > Up(g.incr, g.end) then g.end else g.next + c
    ensures ChunkOrRest(g.incr, g.end, g.next, c, g.mode, e)
  {
  }

  lemma SwapGives(s: State, first: int, chunk: nat, most: nat, t: nat, r: State)
    requires Inv(s, first, chunk, most) && Step(s, Swap(t), r)
    requires s.threads[t].phase.start == s.global.next != s.global.end
    ensures NextBlock(s, t, r)
  {
    var g, i, c := s.global, s.threads[t].node, s.threads[t].phase.chunk;
    var e := Wrap(g.next + Cut(g.incr, g.end, g.next, c));
    assert ThreadOk(s, first, t) && NodeOk(s, first, i);
    SwapRefills(s, first, chunk, most, t, c);
    SwapBlock(g, s.nodes[i], first, chunk, c);
    RefillGives(s, t, e, e, r);
  }

  lemma StepGives(s: State, first: int, chunk: nat, most: nat, e: Event, r: State)
    requires Inv(s, first, chunk, most) && Step(s, e, r)
    ensures GivesBlock(s, e, r)
  {
    match e {
      case TakeLocal(t) => LocalGives(s, first, chunk, most, t, r);
      case Refuse(t) =>
      case Add(t) =>
        if Up(s.global.incr, s.global.next) < Up(s.global.incr, s.global.end) {
          AddGives(s, first, chunk, most, t, r);
        }
      case LoadGlobal(t) =>
      case Swap(t) =>
        if s.threads[t].phase.start == s.global.next != s.global.end { SwapGives(s, first, chunk, most, t, r); }
    }
  }

  /** When all nodes are completed, blocks come from the nodes only. */
  lemma OverGives(s: State, first: int, chunk: nat, most: nat, e: Event, r: State)
    requires Over(s, first, chunk, most) && Step(s, e, r)
    ensures GivesBlock(s, e, r)
  {
    var q := AtEnd(s);
    assert NodeOk(q, first, s.threads[e.t].node) && ThreadOk(q, first, e.t);
    if e.TakeLocal? {
      assert Step(q, e, AtEnd(r));
      LocalGives(q, first, chunk, most, e.t, AtEnd(r));
    }
  }

  /** In every run of the threads of all nodes, each block is such a block. */
  lemma BlockSizes(ss: seq<State>, es: seq<Event>, first: int, chunk: nat, most: nat, i: nat)
    requires Run(ss, es, first, chunk, most) && i < |es|
    ensures GivesBlock(ss[i], es[i], ss[i + 1])
  {
    RunSafe(ss, es, first, chunk, most, i);
    assert Step(ss[i], es[i], ss[i + 1]);
    if Inv(ss[i], first, chunk, most) {
      StepGives(ss[i], first, chunk, most, es[i], ss[i + 1]);
    } else {
      OverGives(ss[i], first, chunk, most, es[i], ss[i + 1]);
    }
  }
}
