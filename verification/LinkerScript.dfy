/** The linker scripts that tool/alignment writes: run by the linker of each
    architecture, they place every shared symbol at the same offset. */
module LinkerScript {
  import opened Arithmetic
  import opened Alignment

  /** The commands of a section description that move the location counter. */
  datatype Command<S> = Advance(n: int) | AlignTo(a: int) | Place(symbol: S, size: int)

  const SECTION_BASE := 0x1000

  function RunOne<S>(counter: int, cmd: Command<S>): int {
    match cmd
    case Advance(n) => counter + n
    case AlignTo(a) => if a > 0 then RoundUp(counter, a) else counter
    case Place(_, size) => counter + size
  }

  ghost function Run<S>(counter: int, cmds: seq<Command<S>>): int {
    if cmds == [] then counter else RunOne(Run(counter, cmds[..|cmds| - 1]), cmds[|cmds| - 1])
  }

  lemma {:induction false} RunAppend<S>(counter: int, a: seq<Command<S>>, b: seq<Command<S>>)
    ensures Run(counter, a + b) == Run(Run(counter, a), b)
    decreases |b|
  {
    if b == [] {
      assert a + b == a;
    } else {
      RunAppend(counter, a, b[..|b| - 1]);
      assert (a + b)[..|a + b| - 1] == a + b[..|b| - 1];
    }
  }

  /** The commands up to where the symbol itself goes. */
  function Opening<S>(v: Values, arch: Arch): seq<Command<S>> {
    (if !v.referenced.Get(arch) && v.before.Get(arch) != 0 then [Advance(v.before.Get(arch))] else []) +
    (if v.sizes.Get(arch) >= 0 then [AlignTo(v.alignments.Get(arch))] else [])
  }

  function Closing<S>(symbol: S, v: Values, arch: Arch): seq<Command<S>> {
    (if v.sizes.Get(arch) >= 0 then [Place(symbol, v.sizes.Get(arch))] else []) +
    (if v.after.Get(arch) != 0 then [Advance(v.after.Get(arch))] else [])
  }

  /** The section description of an architecture up to its k-th symbol. */
  ghost function Script<S>(symbols: seq<S>, vs: seq<Values>, arch: Arch, k: nat): seq<Command<S>>
    requires k <= |vs| == |symbols|
  {
    if k == 0 then [Advance(1), AlignTo(SECTION_BASE)]
    else Script(symbols, vs, arch, k - 1) + Opening(vs[k - 1], arch) + Closing(symbols[k - 1], vs[k - 1], arch)
  }

  /** The part of produceLinkerScript that writes one section. */
  method ProduceSection(sl: seq<Symbol>, arch: Arch) returns (output: seq<Command<Symbol>>)
    ensures output == Script(sl, ValuesOf(sl), arch, |sl|)
  {
    ghost var vs := ValuesOf(sl);
    output := [Advance(1)];
    output := output + [AlignTo(SECTION_BASE)];
    var k := 0;
    while k < |sl|
      invariant 0 <= k <= |sl| && output == Script(sl, vs, arch, k)
    {
      var cmds := SymbolCommands(sl[k], arch);
      assert output + cmds == output + Opening(vs[k], arch) + Closing(sl[k], vs[k], arch);
      output := output + cmds;
      k := k + 1;
    }
  }

  method SymbolCommands(symbol: Symbol, arch: Arch) returns (cmds: seq<Command<Symbol>>)
    ensures cmds == Opening(symbol.Value(), arch) + Closing(symbol, symbol.Value(), arch)
  {
    ghost var opening: seq<Command<Symbol>> := Opening(symbol.Value(), arch);
    cmds := [];
    if !symbol.isReferenced.Get(arch) {
      var paddingBefore := symbol.paddingBefore.Get(arch);
      if paddingBefore != 0 {
        cmds := [Advance(paddingBefore)];
      }
    }
    var placed := [];
    if symbol.sizes.Get(arch) >= 0 {
      cmds := cmds + [AlignTo(symbol.alignments.Get(arch))];
      placed := [Place(symbol, symbol.sizes.Get(arch))];
    }
    assert cmds == opening;
    cmds := cmds + placed;
    var paddingAfter := symbol.paddingAfter.Get(arch);
    if paddingAfter != 0 {
      cmds := cmds + [Advance(paddingAfter)];
      assert cmds == opening + (placed + [Advance(paddingAfter)]);
    }
  }

  // ------------------------------------------------------------------
  // The layout
  // ------------------------------------------------------------------

  lemma RunSingle<S>(counter: int, cmd: Command<S>)
    ensures Run(counter, [cmd]) == RunOne(counter, cmd)
  {
    assert [cmd][..0] == [];
  }

  /** A symbol's commands, run on any architecture from where the section has come to,
      open at the same place and end at the same place. */
  lemma SymbolRun<S>(x: S, v: Values, address: int, arch: Arch)
    requires SymbolOk(v) && Largest(v.alignments) >= 1 && SECTION_BASE % Largest(v.alignments) == 0
    ensures var w := Aligned(v, address);
      && Run(SECTION_BASE + address, Opening<S>(w, arch)) == SECTION_BASE + StartOf(v, address)
      && Run(SECTION_BASE + StartOf(v, address), Closing(x, w, arch))
        == SECTION_BASE + StartOf(v, address) + Largest(v.sizes)
  {
    RoundUpShifts(SECTION_BASE, address, Largest(v.alignments));
    OpeningRun<S>(v, address, arch);
    ClosingAt(x, v, address, arch);
  }

  lemma ClosingAt<S>(x: S, v: Values, address: int, arch: Arch)
    requires SymbolOk(v) && Largest(v.alignments) >= 1
    ensures Run(SECTION_BASE + StartOf(v, address), Closing(x, Aligned(v, address), arch))
      == SECTION_BASE + StartOf(v, address) + Largest(v.sizes)
  {
    assert ArchOk(v, arch);
    ClosingRun(x, Aligned(v, address), SECTION_BASE + StartOf(v, address), arch);
    AlignedPads(v, address, arch);
  }

  lemma OpeningRun<S>(v: Values, address: int, arch: Arch)
    requires SymbolOk(v) && Largest(v.alignments) >= 1
    ensures Run(SECTION_BASE + address, Opening<S>(Aligned(v, address), arch)) ==
      if v.referenced.Get(arch) then RoundUp(SECTION_BASE + address, Largest(v.alignments))
      else SECTION_BASE + StartOf(v, address)
  {
    var w, c := Aligned(v, address), SECTION_BASE + address;
    assert ArchOk(v, arch);
    AlignedPads(v, address, arch);
    var opening: seq<Command<S>> := Opening(w, arch);
    if v.referenced.Get(arch) {
      assert opening == [AlignTo(Largest(v.alignments))];
      RunSingle<S>(c, AlignTo(Largest(v.alignments)));
    } else {
      var pad := StartOf(v, address) - address;
      assert opening == if pad != 0 then [Advance(pad)] else [];
      RunSingle<S>(c, Advance(pad));
    }
  }

  lemma ClosingRun<S>(x: S, w: Values, c: int, arch: Arch)
    ensures Run(c, Closing(x, w, arch))
      == c + (if w.sizes.Get(arch) >= 0 then w.sizes.Get(arch) else 0) + w.after.Get(arch)
  {
    var p, q := w.sizes.Get(arch), w.after.Get(arch);
    var a: seq<Command<S>> := if p >= 0 then [Place(x, p)] else [];
    var b: seq<Command<S>> := if q != 0 then [Advance(q)] else [];
    RunAppend(c, a, b);
    RunSingle(c, Place(x, p));
    RunSingle<S>(Run(c, a), Advance(q));
  }

  /** Whatever the linker puts in front, if it is less than the base. */
  lemma SectionOpens<S>(c: int)
    requires 0 <= c < SECTION_BASE
    ensures Run<S>(c, [Advance(1), AlignTo(SECTION_BASE)]) == SECTION_BASE
  {
    var a: seq<Command<S>>, b: seq<Command<S>> := [Advance(1)], [AlignTo(SECTION_BASE)];
    assert [Advance(1), AlignTo(SECTION_BASE)] == a + b;
    RunAppend(c, a, b);
    RunSingle<S>(c, Advance(1));
    RunSingle<S>(c + 1, AlignTo(SECTION_BASE));
    RemainderIs(SECTION_BASE, SECTION_BASE, 1, 0);
    RoundUpUnique(c + 1, SECTION_BASE, RoundUp(c + 1, SECTION_BASE), SECTION_BASE);
  }

  ghost predicate Divides(vs: seq<Values>) {
    forall i :: 0 <= i < |vs| ==> Largest(vs[i].alignments) >= 1 && SECTION_BASE % Largest(vs[i].alignments) == 0
  }

  /** A symbol whose section has come to the address before it starts where the tool
      says and ends where it says. */
  lemma NextSymbol<S>(x: S, v: Values, w: Values, cmds: seq<Command<S>>, address: int, arch: Arch, c: int)
    requires SymbolOk(v) && Largest(v.alignments) >= 1 && SECTION_BASE % Largest(v.alignments) == 0
    requires w == Aligned(v, address) && Run(c, cmds) == SECTION_BASE + address
    ensures Run(c, cmds + Opening(w, arch)) == SECTION_BASE + StartOf(v, address)
    ensures Run(c, cmds + Opening(w, arch) + Closing(x, w, arch))
      == SECTION_BASE + StartOf(v, address) + Largest(v.sizes)
  {
    RunAppend(c, cmds, Opening(w, arch));
    RunAppend(c, cmds + Opening(w, arch), Closing(x, w, arch));
    SymbolRun(x, v, address, arch);
  }

  /** On every architecture the counter stands, after k symbols, at the same offset:
      the one the tool computed. */
  lemma {:induction false} CounterAt<S>(xs: seq<S>, vs: seq<Values>, ws: seq<Values>, arch: Arch, c: int, k: nat)
    requires AllAligned(vs, ws, |vs|) && Divides(vs) && 0 <= c < SECTION_BASE && k <= |vs| == |xs|
    ensures Run(c, Script(xs, ws, arch, k)) == SECTION_BASE + AddressAt(vs, k)
  {
    if k == 0 {
      SectionOpens<S>(c);
    } else {
      CounterAt(xs, vs, ws, arch, c, k - 1);
      CounterNext(xs, vs, ws, arch, c, k - 1);
    }
  }

  lemma CounterNext<S>(xs: seq<S>, vs: seq<Values>, ws: seq<Values>, arch: Arch, c: int, k: nat)
    requires AllAligned(vs, ws, |vs|) && Divides(vs) && k < |vs| == |xs|
    requires Run(c, Script(xs, ws, arch, k)) == SECTION_BASE + AddressAt(vs, k)
    ensures Largest(vs[k].alignments) >= 1
    ensures Run(c, Script(xs, ws, arch, k) + Opening(ws[k], arch)) == SECTION_BASE + StartOf(vs[k], AddressAt(vs, k))
    ensures Run(c, Script(xs, ws, arch, k + 1)) == SECTION_BASE + AddressAt(vs, k + 1)
  {
    assert AlignedAt(vs, ws, |vs|, k);
    NextSymbol(xs[k], vs[k], ws[k], Script(xs, ws, arch, k), AddressAt(vs, k), arch, c);
  }

  // ------------------------------------------------------------------
  // Where the symbols are placed
  // ------------------------------------------------------------------

  ghost predicate Places<S>(cmds: seq<Command<S>>, p: int, x: S) {
    0 <= p < |cmds| && cmds[p].Place? && cmds[p].symbol == x
  }

  /** The script places the symbol once, by its command p. */
  ghost predicate PlacedOnce<S>(cmds: seq<Command<S>>, p: int, x: S) {
    Places(cmds, p, x) && forall q :: Places(cmds, q, x) ==> q == p
  }

  ghost predicate NotPlaced<S>(cmds: seq<Command<S>>, x: S) {
    forall q :: !Places(cmds, q, x)
  }

  ghost predicate Distinct<S>(xs: seq<S>) {
    forall i, j :: 0 <= i < j < |xs| ==> xs[i] != xs[j]
  }

  lemma PlacesAppend<S>(a: seq<Command<S>>, b: seq<Command<S>>, x: S, q: int)
    ensures Places(a + b, q, x) <==> Places(a, q, x) || Places(b, q - |a|, x)
  {
  }

  lemma SymbolPlaces<S>(v: Values, arch: Arch, y: S, x: S, q: int)
    ensures !Places(Opening<S>(v, arch), q, x)
    ensures Places(Closing(y, v, arch), q, x) <==> q == 0 && x == y && v.sizes.Get(arch) >= 0
  {
  }

  /** The places of x in the script up to the k-th symbol. */
  lemma ScriptPlaces<S>(xs: seq<S>, vs: seq<Values>, arch: Arch, k: nat, x: S, q: int)
    requires 0 < k <= |vs| == |xs|
    ensures var cmds := Script(xs, vs, arch, k - 1);
      Places(Script(xs, vs, arch, k), q, x) <==>
        Places(cmds, q, x)
        || (q == |cmds + Opening(vs[k - 1], arch)| && x == xs[k - 1] && vs[k - 1].sizes.Get(arch) >= 0)
  {
    var cmds, o, c := Script(xs, vs, arch, k - 1), Opening<S>(vs[k - 1], arch), Closing(xs[k - 1], vs[k - 1], arch);
    PlacesAppend(cmds + o, c, x, q);
    PlacesAppend(cmds, o, x, q);
    SymbolPlaces(vs[k - 1], arch, xs[k - 1], x, q - |cmds|);
    SymbolPlaces(vs[k - 1], arch, xs[k - 1], x, q - |cmds + o|);
  }

  lemma {:induction false} NoneBefore<S>(xs: seq<S>, vs: seq<Values>, arch: Arch, k: nat, x: S)
    requires k <= |vs| == |xs| && x !in xs[..k]
    ensures NotPlaced(Script(xs, vs, arch, k), x)
  {
    if k > 0 {
      NoneBefore(xs, vs, arch, k - 1, x);
      forall q ensures !Places(Script(xs, vs, arch, k), q, x) {
        ScriptPlaces(xs, vs, arch, k, x, q);
        assert xs[k - 1] in xs[..k];
      }
    }
  }

  /** The n-th prefix of the script places symbol k once, after the commands before it. */
  lemma {:induction false} PlacedAt<S>(xs: seq<S>, vs: seq<Values>, arch: Arch, k: nat, n: nat)
    requires k < n <= |vs| == |xs| && Distinct(xs)
    ensures var cmds, before := Script(xs, vs, arch, n), Script(xs, vs, arch, k) + Opening(vs[k], arch);
      && before <= cmds
      && if vs[k].sizes.Get(arch) >= 0 then
           PlacedOnce(cmds, |before|, xs[k]) && cmds[|before|].size == vs[k].sizes.Get(arch)
         else NotPlaced(cmds, xs[k])
    decreases n
  {
    var cmds := Script(xs, vs, arch, n);
    if k == n - 1 {
      NoneBefore(xs, vs, arch, k, xs[k]);
    } else {
      PlacedAt(xs, vs, arch, k, n - 1);
    }
    forall q
      ensures Places(cmds, q, xs[k]) <==>
        Places(Script(xs, vs, arch, n - 1), q, xs[k])
        || (q == |Script(xs, vs, arch, k) + Opening(vs[k], arch)| && k == n - 1 && vs[k].sizes.Get(arch) >= 0)
    {
      ScriptPlaces(xs, vs, arch, n, xs[k], q);
    }
  }

  /** The offset of a symbol. */
  ghost function OffsetOf(vs: seq<Values>, k: nat): int
    requires k < |vs| && AllOk(vs)
  {
    SomeDefined(vs[k]);
    StartOf(vs[k], AddressAt(vs, k))
  }

  /** The finished script of an architecture that references symbol k places it once,
      where the counter has come to its offset; other architectures do not place it. */
  lemma SymbolPlaced<S>(xs: seq<S>, vs: seq<Values>, ws: seq<Values>, arch: Arch, c: int, k: nat) returns (p: int)
    requires AllAligned(vs, ws, |vs|) && Divides(vs) && 0 <= c < SECTION_BASE && k < |vs| == |xs| && Distinct(xs)
    ensures var cmds := Script(xs, ws, arch, |vs|);
      if vs[k].referenced.Get(arch) then
        && PlacedOnce(cmds, p, xs[k]) && cmds[p].size == vs[k].sizes.Get(arch)
        && Run(c, cmds[..p]) == SECTION_BASE + OffsetOf(vs, k)
      else NotPlaced(cmds, xs[k])
  {
    var before := Script(xs, ws, arch, k) + Opening(ws[k], arch);
    p := |before|;
    assert AlignedAt(vs, ws, |vs|, k);
    assert ArchOk(vs[k], arch);
    AlignedPads(vs[k], AddressAt(vs, k), arch);
    PlacedAt(xs, ws, arch, k, |vs|);
    assert Script(xs, ws, arch, |vs|)[..p] == before;
    CounterAt(xs, vs, ws, arch, c, k);
    CounterNext(xs, vs, ws, arch, c, k);
  }

  /** Every symbol is placed exactly once on each architecture that references it, at the
      same offset on any two of them, whatever the linker put at the start of the section
      there, and that offset is aligned to the largest requirement. */
  lemma SameOffsets<S>(xs: seq<S>, vs: seq<Values>, ws: seq<Values>, a: Arch, b: Arch, c: int, d: int, k: nat)
    returns (p: int, q: int)
    requires AllAligned(vs, ws, |vs|) && Divides(vs) && 0 <= c < SECTION_BASE && 0 <= d < SECTION_BASE
    requires k < |vs| == |xs| && Distinct(xs) && vs[k].referenced.Get(a) && vs[k].referenced.Get(b)
    ensures var x, y := Script(xs, ws, a, |vs|), Script(xs, ws, b, |vs|);
      && PlacedOnce(x, p, xs[k]) && PlacedOnce(y, q, xs[k]) && Run(c, x[..p]) == Run(d, y[..q])
      && Largest(vs[k].alignments) >= 1 && Run(c, x[..p]) % Largest(vs[k].alignments) == 0
  {
    p := SymbolPlaced(xs, vs, ws, a, c, k);
    q := SymbolPlaced(xs, vs, ws, b, d, k);
    SumAligned(SECTION_BASE, OffsetOf(vs, k), Largest(vs[k].alignments));
  }

  /** Symbols are packed: the first is at the base of the section. */
  lemma FirstPlaced<S>(xs: seq<S>, vs: seq<Values>, ws: seq<Values>, a: Arch, c: int) returns (p: int)
    requires AllAligned(vs, ws, |vs|) && Divides(vs) && 0 <= c < SECTION_BASE
    requires 0 < |vs| == |xs| && Distinct(xs) && vs[0].referenced.Get(a)
    ensures var x := Script(xs, ws, a, |vs|); PlacedOnce(x, p, xs[0]) && Run(c, x[..p]) == SECTION_BASE
  {
    p := SymbolPlaced(xs, vs, ws, a, c, 0);
    FirstOffset(vs);
  }

  /** Each other symbol is at the least aligned place from where the largest form of the
      one before it ends. */
  lemma Packed<S>(xs: seq<S>, vs: seq<Values>, ws: seq<Values>, a: Arch, b: Arch, c: int, k: nat)
    returns (p: int, q: int)
    requires AllAligned(vs, ws, |vs|) && Divides(vs) && 0 <= c < SECTION_BASE
    requires 0 < k < |vs| == |xs| && Distinct(xs) && vs[k].referenced.Get(a) && vs[k - 1].referenced.Get(b)
    ensures var x, y := Script(xs, ws, a, |vs|), Script(xs, ws, b, |vs|);
      && PlacedOnce(x, p, xs[k]) && PlacedOnce(y, q, xs[k - 1]) && Largest(vs[k].alignments) >= 1
      && IsRoundUp(Run(c, y[..q]) + Largest(vs[k - 1].sizes), Largest(vs[k].alignments), Run(c, x[..p]))
  {
    p := SymbolPlaced(xs, vs, ws, a, c, k);
    q := SymbolPlaced(xs, vs, ws, b, c, k - 1);
    NextOffset(vs, k, Run(c, Script(xs, ws, b, |vs|)[..q]) + Largest(vs[k - 1].sizes),
               Run(c, Script(xs, ws, a, |vs|)[..p]));
  }

  lemma FirstOffset(vs: seq<Values>)
    requires AllOk(vs) && vs != []
    ensures OffsetOf(vs, 0) == 0 && Largest(vs[0].alignments) >= 1
  {
    SomeDefined(vs[0]);
    var m := Largest(vs[0].alignments);
    RemainderIs(0, m, 0, 0);
    RoundUpUnique(0, m, OffsetOf(vs, 0), 0);
  }

  lemma NextOffset(vs: seq<Values>, k: nat, x: int, y: int)
    requires AllOk(vs) && Divides(vs) && 0 < k < |vs|
    requires x == SECTION_BASE + OffsetOf(vs, k - 1) + Largest(vs[k - 1].sizes) && y == SECTION_BASE + OffsetOf(vs, k)
    ensures Largest(vs[k].alignments) >= 1 && IsRoundUp(x, Largest(vs[k].alignments), y)
  {
    SumAligned(SECTION_BASE, OffsetOf(vs, k), Largest(vs[k].alignments));
  }

  // ------------------------------------------------------------------
  // Which alignments the scheme can keep
  // ------------------------------------------------------------------

  /** The counters of all architectures agree after every symbol. */
  ghost predicate Agrees(ws: seq<Values>) {
    forall a: Arch, b: Arch, k: nat :: k <= |ws| ==> CounterAfter(ws, a, k) == CounterAfter(ws, b, k)
  }

  /** Here the symbols are named by their positions. */
  ghost function CounterAfter(ws: seq<Values>, arch: Arch, k: nat): int
    requires k <= |ws|
  {
    Run(0, Script(Positions(|ws|), ws, arch, k))
  }

  ghost function Positions(n: nat): seq<nat> {
    seq(n, i requires 0 <= i < n => i)
  }

  ghost predicate AllUse(vs: seq<Values>, alignment: nat) {
    AllOk(vs) && forall i :: 0 <= i < |vs| ==> Largest(vs[i].alignments) == alignment
  }

  ghost predicate Keeps(alignment: nat) {
    forall vs: seq<Values>, ws: seq<Values> ::
      AllUse(vs, alignment) && AllAligned(vs, ws, |vs|) ==> Agrees(ws)
  }

  /** The scheme works for all lists of symbols of an alignment if and only if that
      alignment divides the base of the section. */
  lemma KeepsIff(alignment: nat)
    requires alignment >= 1
    ensures Keeps(alignment) <==> SECTION_BASE % alignment == 0
  {
    if SECTION_BASE % alignment == 0 {
      forall vs: seq<Values>, ws: seq<Values> | AllUse(vs, alignment) && AllAligned(vs, ws, |vs|)
        ensures Agrees(ws)
      {
        forall a: Arch, b: Arch, k: nat | k <= |ws|
          ensures CounterAfter(ws, a, k) == CounterAfter(ws, b, k)
        {
          CounterAt(Positions(|ws|), vs, ws, a, 0, k);
          CounterAt(Positions(|ws|), vs, ws, b, 0, k);
        }
      }
    } else {
      var vs, ws := BrokenLayout(alignment);
    }
  }

  /** One symbol that only one architecture defines already breaks the layout. */
  lemma BrokenLayout(alignment: nat) returns (vs: seq<Values>, ws: seq<Values>)
    requires alignment >= 1 && SECTION_BASE % alignment != 0
    ensures AllUse(vs, alignment) && AllAligned(vs, ws, |vs|) && !Agrees(ws)
  {
    var none := PerArch(-1, -1, -1);
    var v := Values(none.Set(X86, 0), none.Set(X86, 0), none.Set(X86, alignment), PerArch(true, false, false),
                    PerArch(0, 0, 0), PerArch(0, 0, 0));
    assert v.referenced.Get(X86);
    assert SymbolOk(v) by {
      forall a ensures ArchOk(v, a) { }
    }
    vs := [v];
    assert Largest(v.alignments) == alignment && Largest(v.sizes) == 0;
    ws := [Aligned(v, 0)];
    assert forall i :: AlignedAt(vs, ws, 1, i);
    FirstCounter(v, ws, X86);
    FirstCounter(v, ws, ARM);
    assert |ws| == 1;
    RemainderIs(0, alignment, 0, 0);
    RoundUpUnique(0, alignment, StartOf(v, 0), 0);
    assert RoundUp(SECTION_BASE, alignment) != SECTION_BASE;
  }

  lemma FirstCounter(v: Values, ws: seq<Values>, arch: Arch)
    requires SymbolOk(v) && Largest(v.alignments) >= 1 && Largest(v.sizes) == 0 && ws == [Aligned(v, 0)]
    ensures CounterAfter(ws, arch, 1) ==
      if v.referenced.Get(arch) then RoundUp(SECTION_BASE, Largest(v.alignments)) else SECTION_BASE + StartOf(v, 0)
  {
    var w, xs := ws[0], Positions(1);
    SectionOpens<nat>(0);
    var start := Script(xs, ws, arch, 0);
    RunAppend(0, start, Opening(w, arch));
    RunAppend(0, start + Opening(w, arch), Closing(xs[0], w, arch));
    OpeningRun<nat>(v, 0, arch);
    ClosingRun(xs[0], w, Run(0, start + Opening(w, arch)), arch);
    AlignedPads(v, 0, arch);
    assert ArchOk(v, arch);
  }
}
