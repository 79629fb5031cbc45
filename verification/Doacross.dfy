/** The many-word doacross protocol of lib/libopenpop/ordered.c: a poster
    publishes an iteration vector word by word, last word first, while waiters
    read the words first to last. Each event is one memory access, and the
    events of all threads interleave freely. */
module Doacross {
  import opened Lexicographic

  /** One entry of the doacross array with the vectors its poster has begun to
      post, in order; the words below `pos` of the last one are not yet written. */
  datatype Entry = Entry(words: seq<nat>, begun: seq<Vector>, pos: nat)

  datatype Phase = Reading(next: nat) | Passed

  datatype Waiter = Waiter(ent: nat, v: Vector, phase: Phase)

  datatype State = State(dims: nat, entries: seq<Entry>, waiters: seq<Waiter>)

  datatype Event =
    | BeginPost(ent: nat, v: Vector)
    | WriteWord(ent: nat)
    | BeginWait(ent: nat, v: Vector)
    | ReadWord(waiter: nat)

  // ------------------------------------------------------------------
  // The steps
  // ------------------------------------------------------------------

  /** One turn of the writing loop of GOMP_doacross_post. */
  function Written(e: Entry): (r: Entry)
    requires 0 < e.pos <= |e.words| && e.begun != [] && |e.begun[|e.begun| - 1]| == |e.words|
  {
    var i := e.pos - 1;
    e.(words := e.words[i := e.begun[|e.begun| - 1][i] + 1], pos := i)
  }

  /** One turn of the reading loop of GOMP_doacross_wait that saw the word `cur`. */
  function AfterRead(v: Vector, i: nat, cur: nat): Phase
    requires i < |v|
  {
    var thisv := v[i] + 1;
    if thisv < cur then Passed
    else if thisv > cur then Reading(0)
    else if i + 1 == |v| then Passed
    else Reading(i + 1)
  }

  /** A poster posts its iterations in order. */
  ghost predicate MayPost(e: Entry, v: Vector) {
    e.pos == 0 && |v| == |e.words| &&
    (e.begun == [] || (|e.begun[|e.begun| - 1]| == |v| && LexLe(e.begun[|e.begun| - 1], v)))
  }

  ghost predicate Next(s: State, ev: Event, r: State) {
    match ev
    case BeginPost(k, v) =>
      && k < |s.entries| && |v| == s.dims && MayPost(s.entries[k], v)
      && r == s.(entries := s.entries[k := s.entries[k].(begun := s.entries[k].begun + [v], pos := s.dims)])
    case WriteWord(k) =>
      && k < |s.entries| && 0 < s.entries[k].pos <= |s.entries[k].words| && s.entries[k].begun != []
      && |s.entries[k].begun[|s.entries[k].begun| - 1]| == |s.entries[k].words|
      && r == s.(entries := s.entries[k := Written(s.entries[k])])
    case BeginWait(k, v) =>
      && k < |s.entries| && |v| == s.dims
      && r == s.(waiters := s.waiters + [Waiter(k, v, Reading(0))])
    case ReadWord(w) =>
      && w < |s.waiters| && s.waiters[w].phase.Reading?
      && s.waiters[w].ent < |s.entries|
      && var i := s.waiters[w].phase.next;
      && i < |s.waiters[w].v| == |s.entries[s.waiters[w].ent].words|
      && r == s.(waiters := s.waiters[w := s.waiters[w].(phase :=
           AfterRead(s.waiters[w].v, i, s.entries[s.waiters[w].ent].words[i]))])
  }

  /** gomp_doacross_init: every word is zero and nobody waits. */
  ghost predicate Init(s: State) {
    && s.dims > 0 && s.waiters == []
    && forall k :: 0 <= k < |s.entries| ==> s.entries[k] == Entry(seq(s.dims, _ => 0), [], 0)
  }

  ghost predicate Run(ss: seq<State>, evs: seq<Event>) {
    && |ss| == |evs| + 1 && Init(ss[0])
    && forall i {:trigger evs[i]} :: 0 <= i < |evs| ==> Next(ss[i], evs[i], ss[i + 1])
  }

  // ------------------------------------------------------------------
  // The invariant
  // ------------------------------------------------------------------

  /** Which of the begun vectors word j comes from, or -1. */
  function Writer(e: Entry, j: int): int {
    if j >= e.pos then |e.begun| - 1 else |e.begun| - 2
  }

  ghost predicate VectorsOk(e: Entry, dims: nat) {
    && (forall k :: 0 <= k < |e.begun| ==> |e.begun[k]| == dims)
    && (forall k {:trigger e.begun[k]} :: 0 < k < |e.begun| ==> LexLe(e.begun[k - 1], e.begun[k]))
  }

  ghost predicate WordOk(e: Entry, j: int) {
    0 <= j < |e.words| ==>
      var w := Writer(e, j);
      if 0 <= w < |e.begun| && j < |e.begun[w]| then e.words[j] == e.begun[w][j] + 1 else e.words[j] == 0
  }

  ghost predicate EntryOk(e: Entry, dims: nat) {
    && |e.words| == dims && e.pos <= dims && (e.begun == [] ==> e.pos == 0)
    && VectorsOk(e, dims)
    && forall j :: WordOk(e, j)
  }

  /** The words read so far come from vectors that are far enough. */
  ghost predicate ReadOk(e: Entry, v: Vector, i: nat) {
    && i < |v|
    && (i > 0 ==>
          var w := Writer(e, i - 1);
          0 <= w < |e.begun| && |e.begun[w]| == |v| && LexLe(v[..i], e.begun[w][..i]))
  }

  /** The poster has begun a vector that is not before v. */
  ghost predicate Posted(e: Entry, v: Vector) {
    exists k :: 0 <= k < |e.begun| && |e.begun[k]| == |v| && LexLe(v, e.begun[k])
  }

  ghost predicate WaiterOk(s: State, w: int) {
    0 <= w < |s.waiters| ==>
      && s.waiters[w].ent < |s.entries| && |s.waiters[w].v| == s.dims
      && match s.waiters[w].phase
         case Reading(i) => ReadOk(s.entries[s.waiters[w].ent], s.waiters[w].v, i)
         case Passed => Posted(s.entries[s.waiters[w].ent], s.waiters[w].v)
  }

  ghost predicate Inv(s: State) {
    && s.dims > 0
    && (forall k {:trigger s.entries[k]} :: 0 <= k < |s.entries| ==> EntryOk(s.entries[k], s.dims))
    && (forall w :: WaiterOk(s, w))
  }

  // ------------------------------------------------------------------
  // Every step keeps it
  // ------------------------------------------------------------------

  lemma BeginPostEntry(e: Entry, v: Vector, dims: nat)
    requires EntryOk(e, dims) && MayPost(e, v)
    ensures EntryOk(e.(begun := e.begun + [v], pos := dims), dims)
  {
    var r := e.(begun := e.begun + [v], pos := dims);
    forall j
      ensures WordOk(r, j)
    {
      assert WordOk(e, j);
    }
  }

  lemma WriteWordEntry(e: Entry, dims: nat)
    requires EntryOk(e, dims) && 0 < e.pos
    ensures EntryOk(Written(e), dims)
  {
    var r := Written(e);
    forall j
      ensures WordOk(r, j)
    {
      assert WordOk(e, j);
    }
  }

  /** A word is replaced only by one of a later vector. */
  lemma WriterGrows(e: Entry, dims: nat, v: Vector, i: nat)
    requires EntryOk(e, dims) && 0 < e.pos && |v| == dims && ReadOk(e, v, i)
    ensures ReadOk(Written(e), v, i)
  {
    if i > 0 && i == e.pos {
      WriterMoves(e, dims, v, i);
    } else if i > 0 {
      assert Writer(Written(e), i - 1) == Writer(e, i - 1);
    }
  }

  /** The word before the one just written gets a later writer. */
  lemma WriterMoves(e: Entry, dims: nat, v: Vector, i: nat)
    requires VectorsOk(e, dims) && |v| == dims == |e.words| && 0 < i == e.pos && ReadOk(e, v, i)
    ensures ReadOk(Written(e), v, i)
  {
    var n := |e.begun|;
    LexPrefix(e.begun[n - 2], e.begun[n - 1], i);
    LexLeTrans(v[..i], e.begun[n - 2][..i], e.begun[n - 1][..i]);
  }

  lemma PostedStays(e: Entry, r: Entry, v: Vector)
    requires Posted(e, v) && e.begun <= r.begun
    ensures Posted(r, v)
  {
    var k :| 0 <= k < |e.begun| && |e.begun[k]| == |v| && LexLe(v, e.begun[k]);
    assert r.begun[k] == e.begun[k];
  }

  /** The vector word i comes from agrees with the words read before it. */
  lemma WriterFollows(e: Entry, dims: nat, v: Vector, i: nat)
    requires EntryOk(e, dims) && |v| == dims && ReadOk(e, v, i) && e.words[i] > 0
    ensures var w := Writer(e, i);
      0 <= w < |e.begun| && e.words[i] == e.begun[w][i] + 1 && LexLe(v[..i], e.begun[w][..i])
  {
    assert WordOk(e, i);
    var w := Writer(e, i);
    if i > 0 && i == e.pos {
      var u := e.begun[w];
      LexPrefix(e.begun[w - 1], u, i);
      LexLeTrans(v[..i], e.begun[w - 1][..i], u[..i]);
    }
  }

  /** The heart of the protocol: one more word read still proves enough. */
  lemma ReadWordOk(e: Entry, dims: nat, v: Vector, i: nat)
    requires EntryOk(e, dims) && |v| == dims && ReadOk(e, v, i)
    ensures match AfterRead(v, i, e.words[i])
      case Reading(n) => ReadOk(e, v, n)
      case Passed => Posted(e, v)
  {
    if v[i] + 1 <= e.words[i] {
      WriterFollows(e, dims, v, i);
      var u := e.begun[Writer(e, i)];
      LexExtends(v, u, i);
      if i + 1 == |v| { assert v[..i + 1] == v && u[..i + 1] == u; }
    }
  }

  lemma EntryStepWaiters(s: State, r: State, k: nat)
    requires Inv(s) && k < |s.entries| == |r.entries| && r.dims == s.dims && r.waiters == s.waiters
    requires r.entries == s.entries[k := r.entries[k]] && s.entries[k].begun <= r.entries[k].begun
    requires forall v: Vector, i: nat :: |v| == s.dims && ReadOk(s.entries[k], v, i) ==> ReadOk(r.entries[k], v, i)
    ensures forall w :: WaiterOk(r, w)
  {
    forall w
      ensures WaiterOk(r, w)
    {
      assert WaiterOk(s, w);
      if 0 <= w < |s.waiters| && s.waiters[w].ent == k && s.waiters[w].phase.Passed? {
        PostedStays(s.entries[k], r.entries[k], s.waiters[w].v);
      }
    }
  }

  lemma NextInv(s: State, ev: Event, r: State)
    requires Inv(s) && Next(s, ev, r)
    ensures Inv(r)
  {
    match ev {
      case BeginPost(k, v) =>
        BeginPostEntry(s.entries[k], v, s.dims);
        EntryStepWaiters(s, r, k);
      case WriteWord(k) =>
        WriteWordEntry(s.entries[k], s.dims);
        forall v: Vector, i: nat | |v| == s.dims && ReadOk(s.entries[k], v, i)
          ensures ReadOk(r.entries[k], v, i)
        {
          WriterGrows(s.entries[k], s.dims, v, i);
        }
        EntryStepWaiters(s, r, k);
      case BeginWait(k, v) =>
        forall w ensures WaiterOk(r, w) { assert WaiterOk(s, w); }
      case ReadWord(w0) =>
        assert WaiterOk(s, w0);
        ReadWordOk(s.entries[s.waiters[w0].ent], s.dims, s.waiters[w0].v, s.waiters[w0].phase.next);
        forall w ensures WaiterOk(r, w) { assert WaiterOk(s, w); }
    }
  }

  lemma {:induction false} RunInv(ss: seq<State>, evs: seq<Event>, i: nat)
    requires Run(ss, evs) && i <= |evs|
    ensures Inv(ss[i])
  {
    if i > 0 {
      RunInv(ss, evs, i - 1);
      assert Next(ss[i - 1], evs[i - 1], ss[i]);
      NextInv(ss[i - 1], evs[i - 1], ss[i]);
    }
  }

  /** In every run, a wait on v returns only if the poster of its entry has begun
      to post some vector that is not before v. */
  lemma PassedWasPosted(ss: seq<State>, evs: seq<Event>, i: nat, w: nat)
    requires Run(ss, evs) && i <= |evs|
    requires w < |ss[i].waiters| && ss[i].waiters[w].phase.Passed?
    ensures ss[i].waiters[w].ent < |ss[i].entries| && Posted(ss[i].entries[ss[i].waiters[w].ent], ss[i].waiters[w].v)
  {
    RunInv(ss, evs, i);
    assert WaiterOk(ss[i], w);
  }

  // ------------------------------------------------------------------
  // A waiter whose poster rests
  // ------------------------------------------------------------------

  /** n reads in a row of an entry that does not change. */
  ghost function Reads(e: Entry, v: Vector, phase: Phase, n: nat): Phase
    requires |v| == |e.words| && (phase.Reading? ==> phase.next < |v|)
    decreases n
  {
    match phase
    case Passed => Passed
    case Reading(i) => if n == 0 then phase else Reads(e, v, AfterRead(v, i, e.words[i]), n - 1)
  }

  lemma {:induction false} AgreeingReads(e: Entry, dims: nat, v: Vector, i: nat, n: nat)
    requires EntryOk(e, dims) && e.pos == 0 && e.begun != [] && |v| == dims && i < dims
    requires v[..i] == e.begun[|e.begun| - 1][..i] && LexLe(v, e.begun[|e.begun| - 1]) && n >= dims - i
    ensures Reads(e, v, Reading(i), n).Passed?
    decreases dims - i
  {
    var u := e.begun[|e.begun| - 1];
    assert WordOk(e, i);
    if v[i] != u[i] {
      LexAtFirst(v, u, i);
    } else if i + 1 < dims {
      assert v[..i + 1] == u[..i + 1];
      AgreeingReads(e, dims, v, i + 1, n - 1);
    }
  }

  lemma {:induction false} RestingReads(e: Entry, dims: nat, v: Vector, i: nat, n: nat)
    requires EntryOk(e, dims) && e.pos == 0 && e.begun != [] && |v| == dims && i < dims
    requires LexLe(v, e.begun[|e.begun| - 1]) && n >= 2 * dims - i
    ensures Reads(e, v, Reading(i), n).Passed?
    decreases dims - i
  {
    match AfterRead(v, i, e.words[i]) {
      case Passed =>
      case Reading(k) =>
        if k == 0 {
          AgreeingReads(e, dims, v, 0, n - 1);
        } else {
          RestingReads(e, dims, v, k, n - 1);
        }
    }
  }

  lemma {:induction false} BegunUpToLast(e: Entry, dims: nat, k: nat)
    requires VectorsOk(e, dims) && k < |e.begun|
    ensures LexLe(e.begun[k], e.begun[|e.begun| - 1])
    decreases |e.begun| - k
  {
    if k == |e.begun| - 1 {
      LexLeRefl(e.begun[k]);
    } else {
      BegunUpToLast(e, dims, k + 1);
      assert LexLe(e.begun[k], e.begun[k + 1]);
      LexLeTrans(e.begun[k], e.begun[k + 1], e.begun[|e.begun| - 1]);
    }
  }

  lemma {:induction false} ReadsOk(e: Entry, dims: nat, v: Vector, i: nat, n: nat)
    requires EntryOk(e, dims) && |v| == dims && ReadOk(e, v, i) && Reads(e, v, Reading(i), n).Passed?
    ensures Posted(e, v)
    decreases n
  {
    ReadWordOk(e, dims, v, i);
    match AfterRead(v, i, e.words[i]) {
      case Passed =>
      case Reading(k) => ReadsOk(e, dims, v, k, n - 1);
    }
  }

  /** Once the poster rests, a waiter caught anywhere in its scan returns, within
      two passes over the words, exactly when the last vector posted is not
      before the one it waits for. */
  lemma RestingWaitIff(e: Entry, dims: nat, v: Vector, i: nat, n: nat)
    requires EntryOk(e, dims) && e.pos == 0 && e.begun != [] && |v| == dims && ReadOk(e, v, i) && n >= 2 * dims
    ensures Reads(e, v, Reading(i), n).Passed? <==> LexLe(v, e.begun[|e.begun| - 1])
  {
    var last := |e.begun| - 1;
    if LexLe(v, e.begun[last]) {
      RestingReads(e, dims, v, i, n);
    } else if Reads(e, v, Reading(i), n).Passed? {
      ReadsOk(e, dims, v, i, n);
      var k :| 0 <= k < |e.begun| && |e.begun[k]| == |v| && LexLe(v, e.begun[k]);
      BegunUpToLast(e, dims, k);
      LexLeTrans(v, e.begun[k], e.begun[last]);
    }
  }

  // ------------------------------------------------------------------
  // The two loops, run without interference
  // ------------------------------------------------------------------

  ghost predicate Shows(words: seq<nat>, u: Vector) {
    |words| == |u| && forall j :: 0 <= j < |u| ==> words[j] == u[j] + 1
  }

  /** The contents of the words after every turn of the loop: each turn is one step of
      the protocol. */
  ghost predicate PostSteps(trace: seq<seq<nat>>, counts: Vector) {
    forall k :: TurnOk(trace, counts, k)
  }

  /** Turn k of the loop is the step of the protocol that writes the word before. */
  ghost predicate TurnOk(trace: seq<seq<nat>>, counts: Vector, k: int) {
    0 <= k < |trace| - 1 ==>
      && k < |counts| && |trace[k]| == |counts|
      && trace[k + 1] == Written(Entry(trace[k], [counts], |counts| - k)).words
  }

  lemma OneMoreTurn(trace: seq<seq<nat>>, counts: Vector, words: seq<nat>)
    requires trace != [] && PostSteps(trace, counts) && |trace| <= |counts| == |trace[|trace| - 1]|
    requires words == trace[|trace| - 1][|counts| - |trace| := counts[|counts| - |trace|] + 1]
    ensures PostSteps(trace + [words], counts)
  {
    var more := trace + [words];
    forall k ensures TurnOk(more, counts, k) {
      assert TurnOk(trace, counts, k);
      if k == |trace| - 1 {
        assert Written(Entry(trace[k], [counts], |counts| - k)).words == words;
      }
    }
  }

  /** The loop of GOMP_doacross_post, which writes the last word first. */
  method Post(words: array<nat>, counts: Vector) returns (ghost trace: seq<seq<nat>>)
    requires words.Length == |counts|
    modifies words
    ensures Shows(words[..], counts)
    ensures |trace| == |counts| + 1 && trace[0] == old(words[..]) && trace[|counts|] == words[..]
    ensures PostSteps(trace, counts)
  {
    var i := |counts|;
    trace := [words[..]];
    while i > 0
      invariant 0 <= i <= |counts| && |trace| == |counts| - i + 1
      invariant trace[0] == old(words[..]) && trace[|counts| - i] == words[..] && PostSteps(trace, counts)
      invariant forall j :: i <= j < |counts| ==> words[j] == counts[j] + 1
    {
      ghost var before := words[..];
      i := i - 1;
      if counts[i] + 1 != words[i] {
        words[i] := counts[i] + 1;
      }
      assert words[..] == before[i := counts[i] + 1];
      OneMoreTurn(trace, counts, words[..]);
      trace := trace + [words[..]];
    }
  }

  /** One pass of the outer loop of GOMP_doacross_wait. On an entry at rest it
      succeeds exactly when the posted vector is not before v, and on an entry
      nobody has posted to it fails. */
  method WaitPass(words: array<nat>, v: Vector) returns (done: bool)
    requires words.Length == |v| > 0
    ensures forall u: Vector :: Shows(words[..], u) ==> (done <==> LexLe(v, u))
    ensures words[0] == 0 ==> !done
  {
    var i := 0;
    while i < |v|
      invariant 0 <= i <= |v| && forall j :: 0 <= j < i ==> words[j] == v[j] + 1
    {
      var thisv, cur := v[i] + 1, words[i];
      if thisv != cur {
        forall u: Vector | Shows(words[..], u)
          ensures LexLe(v, u) <==> thisv < cur
        {
          assert words[..][i] == u[i] + 1;
          assert v[..i] == u[..i] by {
            forall j | 0 <= j < i ensures v[j] == u[j] { assert words[..][j] == u[j] + 1; }
          }
          LexAtFirst(v, u, i);
        }
        return thisv < cur;
      }
      i := i + 1;
    }
    forall u: Vector | Shows(words[..], u)
      ensures LexLe(v, u)
    {
      forall j | 0 <= j < |v| ensures v[j] == u[j] { assert words[..][j] == u[j] + 1; }
      assert v == u;
      LexLeRefl(v);
    }
    done := true;
  }
}
