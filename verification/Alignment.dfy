/** The symbol alignment tool, tool/alignment: the order of the symbols and the padding
    that is computed once for all architectures. */
module Alignment {
  import opened Arithmetic

  datatype Arch = X86 | ARM | POWER

  const ARCHS: seq<Arch> := [X86, ARM, POWER]

  /** A dictionary with one value for every architecture. */
  datatype PerArch<T> = PerArch(x86: T, arm: T, power: T) {
    function Get(a: Arch): T {
      match a
      case X86 => x86
      case ARM => arm
      case POWER => power
    }

    function Set(a: Arch, v: T): PerArch<T> {
      match a
      case X86 => this.(x86 := v)
      case ARM => this.(arm := v)
      case POWER => this.(power := v)
    }
  }

  /** The values of a symbol: -1 stands for an address, size or alignment that an
      architecture does not define. */
  datatype Values = Values(addresses: PerArch<int>, sizes: PerArch<int>, alignments: PerArch<int>,
                           referenced: PerArch<bool>, before: PerArch<int>, after: PerArch<int>)

  // ------------------------------------------------------------------
  // Rounding up
  // ------------------------------------------------------------------

  /** The least multiple of a from x on. */
  ghost predicate IsRoundUp(x: int, a: int, r: int)
    requires a > 0
  {
    x <= r < x + a && r % a == 0
  }

  function RoundUp(x: int, a: int): (r: int)
    requires a > 0
    ensures IsRoundUp(x, a, r)
  {
    var q := (x + a - 1) / a;
    RoundedUp(x, a, q);
    Times(q, a)
  }

  lemma RoundedUp(x: int, a: int, q: int)
    requires a > 0 && q == (x + a - 1) / a
    ensures x <= q * a < x + a && (q * a) % a == 0
  {
    QuotientIff(x + a - 1, a, q);
    TimesAdds(q, 1, a);
    RemainderIs(q * a, a, q, 0);
  }

  lemma RoundUpUnique(x: int, a: int, r: int, s: int)
    requires a > 0 && IsRoundUp(x, a, r) && IsRoundUp(x, a, s)
    ensures r == s
  {
    MultipleIs(r, a);
    MultipleIs(s, a);
    var i, j := r / a, s / a;
    if i < j {
      TimesMonotone(i + 1, j, a);
      TimesAdds(i, 1, a);
    } else if j < i {
      TimesMonotone(j + 1, i, a);
      TimesAdds(j, 1, a);
    }
  }

  lemma MultipleIs(x: int, a: int)
    requires a > 0 && x % a == 0
    ensures x == (x / a) * a
  {
  }

  lemma SumAligned(x: int, y: int, m: int)
    requires m > 0 && x % m == 0 && y % m == 0
    ensures (x + y) % m == 0
  {
    MultipleIs(x, m);
    MultipleIs(y, m);
    TimesAdds(x / m, y / m, m);
    RemainderIs(x + y, m, x / m + y / m, 0);
  }

  /** Rounding does not notice a shift by a multiple of the alignment. */
  lemma RoundUpShifts(base: int, x: int, a: int)
    requires a > 0 && base % a == 0
    ensures RoundUp(base + x, a) == base + RoundUp(x, a)
  {
    var r := RoundUp(x, a);
    SumAligned(base, r, a);
    RoundUpUnique(base + x, a, RoundUp(base + x, a), base + r);
  }

  // ------------------------------------------------------------------
  // Symbols
  // ------------------------------------------------------------------

  function Max(a: int, b: int): int {
    if a > b then a else b
  }

  function Largest(p: PerArch<int>): (m: int)
    ensures forall a :: p.Get(a) <= m
    ensures exists a :: p.Get(a) == m
  {
    assert p.Get(X86) == p.x86 && p.Get(ARM) == p.arm && p.Get(POWER) == p.power;
    Max(p.x86, Max(p.arm, p.power))
  }

  /** A symbol as it is read from the map files: exactly the referencing
      architectures define it, and no padding has been added. */
  ghost predicate SymbolOk(v: Values) {
    && (exists a :: v.referenced.Get(a))
    && forall a :: ArchOk(v, a)
  }

  ghost predicate ArchOk(v: Values, a: Arch) {
    && v.before.Get(a) == 0 && v.after.Get(a) == 0
    && (if v.referenced.Get(a) then v.addresses.Get(a) >= 0 && v.sizes.Get(a) >= 0 && v.alignments.Get(a) >= 1
        else v.addresses.Get(a) == -1 && v.sizes.Get(a) == -1 && v.alignments.Get(a) == -1)
  }

  class Symbol {
    const name: string
    var addresses: PerArch<int>
    var sizes: PerArch<int>
    var alignments: PerArch<int>
    var isReferenced: PerArch<bool>
    var paddingBefore: PerArch<int>
    var paddingAfter: PerArch<int>

    function Value(): Values
      reads this
    {
      Values(addresses, sizes, alignments, isReferenced, paddingBefore, paddingAfter)
    }

    /** A symbol first seen in the map file of one architecture. */
    constructor (name: string, address: nat, size: nat, alignment: nat, arch: Arch)
      requires alignment >= 1
      ensures this.name == name && SymbolOk(Value())
      ensures sizes.Get(arch) == size && alignments.Get(arch) == alignment && isReferenced.Get(arch)
    {
      this.name := name;
      var none := PerArch(-1, -1, -1);
      addresses, sizes, alignments := none.Set(arch, address), none.Set(arch, size), none.Set(arch, alignment);
      isReferenced := PerArch(false, false, false).Set(arch, true);
      paddingBefore, paddingAfter := PerArch(0, 0, 0), PerArch(0, 0, 0);
      new;
      assert isReferenced.Get(arch);
    }

    /** setLargestAlignment. */
    method SetLargestAlignment() returns (largest: int)
      requires SymbolOk(Value())
      modifies `alignments
      ensures largest == Largest(old(alignments)) >= 1
      ensures alignments == Raised(old(alignments), isReferenced)
    {
      SomeDefined(Value());
      largest := LargestOf(alignments);
      var i := 0;
      ghost var was := alignments;
      while i < 3
        invariant 0 <= i <= 3
        invariant forall a :: alignments.Get(a) == if isReferenced.Get(a) && Index(a) < i then largest else was.Get(a)
      {
        if isReferenced.Get(ARCHS[i]) {
          alignments := alignments.Set(ARCHS[i], largest);
        }
        i := i + 1;
      }
      SameEverywhere(alignments, Raised(was, isReferenced));
    }

    /** getLargetSizeVal; only a symbol without any size makes the source fail. */
    method LargestSize() returns (size: int)
      requires Largest(sizes) >= 0
      ensures size == Largest(sizes)
    {
      size := LargestOf(sizes);
    }
  }

  function Index(a: Arch): nat {
    match a
    case X86 => 0
    case ARM => 1
    case POWER => 2
  }

  /** The loop that looks for the largest value of a dictionary, starting from -1. */
  method LargestOf(p: PerArch<int>) returns (largest: int)
    requires Largest(p) >= 0
    ensures largest == Largest(p)
  {
    largest := -1;
    var i := 0;
    while i < 3
      invariant 0 <= i <= 3 && largest >= -1
      invariant forall a :: Index(a) < i ==> p.Get(a) <= largest
      invariant largest == -1 || exists a :: p.Get(a) == largest
    {
      if p.Get(ARCHS[i]) > largest {
        largest := p.Get(ARCHS[i]);
      }
      i := i + 1;
    }
    LargestIs(p, largest);
  }

  lemma LargestIs(p: PerArch<int>, m: int)
    requires forall a :: Index(a) < 3 ==> p.Get(a) <= m
    requires m == -1 || exists a :: p.Get(a) == m
    requires Largest(p) >= 0
    ensures Largest(p) == m
  {
    assert p.Get(X86) == p.x86 && p.Get(ARM) == p.arm && p.Get(POWER) == p.power;
    assert Index(X86) < 3 && Index(ARM) < 3 && Index(POWER) < 3;
  }

  lemma SomeDefined(v: Values)
    requires SymbolOk(v)
    ensures Largest(v.alignments) >= 1 && Largest(v.sizes) >= 0
  {
    var a :| v.referenced.Get(a);
    assert ArchOk(v, a);
  }

  function Raised(alignments: PerArch<int>, referenced: PerArch<bool>): PerArch<int> {
    var m := Largest(alignments);
    PerArch(if referenced.x86 then m else alignments.x86, if referenced.arm then m else alignments.arm,
            if referenced.power then m else alignments.power)
  }

  lemma SameEverywhere<T>(p: PerArch<T>, q: PerArch<T>)
    requires forall a :: p.Get(a) == q.Get(a)
    ensures p == q
  {
    assert p.Get(X86) == q.Get(X86) && p.Get(ARM) == q.Get(ARM) && p.Get(POWER) == q.Get(POWER);
  }

  // ------------------------------------------------------------------
  // Padding
  // ------------------------------------------------------------------

  function ForEach<T>(f: Arch -> T): (p: PerArch<T>)
    ensures forall a :: p.Get(a) == f(a)
  {
    PerArch(f(X86), f(ARM), f(POWER))
  }

  /** Where a symbol starts when the one before it ends at `address`. */
  function StartOf(v: Values, address: int): int
    requires Largest(v.alignments) >= 1
  {
    RoundUp(address, Largest(v.alignments))
  }

  /** The padding added before a symbol on the first i architectures. */
  function Before(v: Values, pad: int, i: nat): PerArch<int> {
    ForEach(a => v.before.Get(a) + if !v.referenced.Get(a) && Index(a) < i then pad else 0)
  }

  /** The padding added after it: as much as its size falls short of the largest. */
  function After(v: Values, size: int, i: nat): PerArch<int> {
    ForEach(a => v.after.Get(a) +
      if Index(a) >= i then 0 else if v.referenced.Get(a) then size - v.sizes.Get(a) else size)
  }

  /** The symbol with the alignment and padding that the tool gives it. */
  function Aligned(v: Values, address: int): Values
    requires Largest(v.alignments) >= 1
  {
    v.(alignments := Raised(v.alignments, v.referenced),
       before := Before(v, StartOf(v, address) - address, 3), after := After(v, Largest(v.sizes), 3))
  }

  ghost predicate AllOk(vs: seq<Values>) {
    forall i :: 0 <= i < |vs| ==> SymbolOk(vs[i])
  }

  /** Where the symbols before the k-th end. */
  ghost function AddressAt(vs: seq<Values>, k: nat): int
    requires k <= |vs| && AllOk(vs)
  {
    if k == 0 then 0
    else
      SomeDefined(vs[k - 1]);
      StartOf(vs[k - 1], AddressAt(vs, k - 1)) + Largest(vs[k - 1].sizes)
  }

  /** On every architecture the symbol, from its start on, and the padding after it
      take up the largest size; where it is not referenced, padding leads up to the start. */
  ghost predicate PaddedFor(v: Values, w: Values, a: Arch, address: int, next: int) {
    var start := next - Largest(v.sizes);
    && w.addresses.Get(a) == v.addresses.Get(a) && w.sizes.Get(a) == v.sizes.Get(a)
    && w.referenced.Get(a) == v.referenced.Get(a)
    && if v.referenced.Get(a) then
         && w.alignments.Get(a) == Largest(v.alignments)
         && w.before.Get(a) == 0 && w.sizes.Get(a) + w.after.Get(a) == Largest(v.sizes)
       else
         && w.alignments.Get(a) == v.alignments.Get(a)
         && address + w.before.Get(a) == start && start + w.after.Get(a) == next
  }

  /** The padding before a symbol: the loop of align that counts it up. */
  method PadBefore(address: int, alignment: int) returns (padBefore: int)
    requires alignment >= 1
    ensures address + padBefore == RoundUp(address, alignment)
  {
    padBefore := 0;
    while (address + padBefore) % alignment != 0
      invariant 0 <= padBefore <= RoundUp(address, alignment) - address
      decreases RoundUp(address, alignment) - address - padBefore
    {
      padBefore := padBefore + 1;
    }
    RoundUpUnique(address, alignment, RoundUp(address, alignment), address + padBefore);
  }

  /** One symbol in the loop of align; the result is where it ends. */
  method AlignSymbol(symbol: Symbol, address: int) returns (next: int)
    requires SymbolOk(symbol.Value())
    modifies symbol
    ensures Largest(old(symbol.alignments)) >= 1 && symbol.Value() == Aligned(old(symbol.Value()), address)
    ensures next == StartOf(old(symbol.Value()), address) + Largest(old(symbol.sizes))
    ensures IsRoundUp(address, Largest(old(symbol.alignments)), next - Largest(old(symbol.sizes)))
    ensures forall a :: PaddedFor(old(symbol.Value()), symbol.Value(), a, address, next)
  {
    ghost var v := symbol.Value();
    SomeDefined(v);
    var alignment := symbol.SetLargestAlignment();
    var padBefore := PadBefore(address, alignment);
    var largestSize := symbol.LargestSize();
    SameEverywhere(v.before, Before(v, padBefore, 0));
    SameEverywhere(v.after, After(v, largestSize, 0));
    var i := 0;
    while i < 3
      invariant 0 <= i <= 3
      invariant symbol.Value() == Aligned(v, address).(before := Before(v, padBefore, i),
        after := After(v, largestSize, i))
    {
      PadArch(symbol, i, padBefore, largestSize, v);
      i := i + 1;
    }
    next := address + padBefore + largestSize;
    forall a ensures PaddedFor(v, symbol.Value(), a, address, next) { AlignedPads(v, address, a); }
  }

  lemma AlignedPads(v: Values, address: int, a: Arch)
    requires SymbolOk(v) && Largest(v.alignments) >= 1
    ensures PaddedFor(v, Aligned(v, address), a, address, StartOf(v, address) + Largest(v.sizes))
  {
    assert ArchOk(v, a) && Index(a) < 3;
  }

  /** What the three loops of align over the architectures do for one of them. */
  method PadArch(symbol: Symbol, i: nat, padBefore: int, largestSize: int, ghost v: Values)
    requires i < 3 && symbol.isReferenced == v.referenced && symbol.sizes == v.sizes
    requires symbol.paddingBefore == Before(v, padBefore, i) && symbol.paddingAfter == After(v, largestSize, i)
    modifies symbol`paddingBefore, symbol`paddingAfter
    ensures symbol.paddingBefore == Before(v, padBefore, i + 1) && symbol.paddingAfter == After(v, largestSize, i + 1)
  {
    var arch := ARCHS[i];
    if !symbol.isReferenced.Get(arch) {
      symbol.paddingBefore := symbol.paddingBefore.Set(arch, symbol.paddingBefore.Get(arch) + padBefore);
    }
    var padAfter := if symbol.isReferenced.Get(arch) then largestSize - symbol.sizes.Get(arch) else largestSize;
    symbol.paddingAfter := symbol.paddingAfter.Set(arch, symbol.paddingAfter.Get(arch) + padAfter);
    SameEverywhere(symbol.paddingBefore, Before(v, padBefore, i + 1));
    SameEverywhere(symbol.paddingAfter, After(v, largestSize, i + 1));
  }

  ghost function ValuesOf(sl: seq<Symbol>): (vs: seq<Values>)
    reads sl
    ensures |vs| == |sl| && forall i :: 0 <= i < |vs| ==> vs[i] == sl[i].Value()
  {
    seq(|sl|, i requires 0 <= i < |sl| reads sl => sl[i].Value())
  }

  ghost predicate AlignedAt(vs: seq<Values>, ws: seq<Values>, n: nat, i: int)
    requires |vs| == |ws| && AllOk(vs)
  {
    0 <= i < |vs| ==>
      if i < n then Largest(vs[i].alignments) >= 1 && ws[i] == Aligned(vs[i], AddressAt(vs, i)) else ws[i] == vs[i]
  }

  /** The symbols ws are as align leaves vs after n of them. */
  ghost predicate AllAligned(vs: seq<Values>, ws: seq<Values>, n: nat) {
    |vs| == |ws| && AllOk(vs) && forall i :: AlignedAt(vs, ws, n, i)
  }

  lemma AlignedNext(vs: seq<Values>, ws: seq<Values>, n: nat)
    requires AllAligned(vs, ws, n) && n < |vs|
    ensures Largest(vs[n].alignments) >= 1 && ws[n] == vs[n]
    ensures AllAligned(vs, ws[n := Aligned(vs[n], AddressAt(vs, n))], n + 1)
  {
    SomeDefined(vs[n]);
    assert AlignedAt(vs, ws, n, n);
    var m := n + 1;
    var us := ws[n := Aligned(vs[n], AddressAt(vs, n))];
    forall i ensures AlignedAt(vs, us, m, i) {
      assert AlignedAt(vs, ws, n, i);
      if i != n { OtherAligned(vs, ws, us, n, i); }
    }
  }

  lemma OtherAligned(vs: seq<Values>, ws: seq<Values>, us: seq<Values>, n: nat, i: int)
    requires |vs| == |ws| == |us| && AllOk(vs) && i != n && AlignedAt(vs, ws, n, i)
    requires 0 <= i < |vs| ==> us[i] == ws[i]
    ensures AlignedAt(vs, us, n + 1, i)
  {
  }

  method Align(sl: seq<Symbol>)
    requires AllOk(ValuesOf(sl)) && forall i, j :: 0 <= i < j < |sl| ==> sl[i] != sl[j]
    modifies sl
    ensures AllAligned(old(ValuesOf(sl)), ValuesOf(sl), |sl|)
  {
    ghost var vs := ValuesOf(sl);
    var address, k := 0, 0;
    assert forall i :: AlignedAt(vs, vs, 0, i);
    while k < |sl|
      invariant 0 <= k <= |sl| && AllAligned(vs, ValuesOf(sl), k) && address == AddressAt(vs, k)
    {
      address := AlignNth(sl, k, address, vs);
      k := k + 1;
    }
  }

  method AlignNth(sl: seq<Symbol>, k: nat, address: int, ghost vs: seq<Values>) returns (next: int)
    requires k < |sl| && forall i, j :: 0 <= i < j < |sl| ==> sl[i] != sl[j]
    requires AllAligned(vs, ValuesOf(sl), k) && address == AddressAt(vs, k)
    modifies sl[k]
    ensures AllAligned(vs, ValuesOf(sl), k + 1) && next == AddressAt(vs, k + 1)
  {
    ghost var ws := ValuesOf(sl);
    AlignedNext(vs, ws, k);
    next := AlignSymbol(sl[k], address);
    assert ValuesOf(sl) == ws[k := sl[k].Value()];
  }

  // ------------------------------------------------------------------
  // Ordering
  // ------------------------------------------------------------------

  /** How many of the considered architectures define the symbol. */
  function Referencing(v: Values, considered: seq<Arch>): nat {
    if considered == [] then 0
    else Referencing(v, considered[..|considered| - 1]) +
         (if v.addresses.Get(considered[|considered| - 1]) == -1 then 0 else 1)
  }

  /** The symbols that `order` of the considered architectures define, in order. */
  ghost function Chosen(sl: seq<Symbol>, considered: seq<Arch>, order: nat): seq<Symbol>
    reads sl
  {
    if sl == [] then []
    else
      var last := sl[|sl| - 1];
      Chosen(sl[..|sl| - 1], considered, order)
        + (if Referencing(last.Value(), considered) == order then [last] else [])
  }

  /** res lists the symbols at the increasing positions ps, which are all those of
      symbols that `order` of the considered architectures define. */
  ghost predicate Selects(res: seq<Symbol>, sl: seq<Symbol>, considered: seq<Arch>, order: nat, ps: seq<nat>)
    reads sl
  {
    && |res| == |ps|
    && (forall i :: 0 <= i < |ps| ==> ps[i] < |sl| && res[i] == sl[ps[i]])
    && (forall i, j :: 0 <= i < j < |ps| ==> ps[i] < ps[j])
    && (forall k: nat :: k < |sl| ==> (k in ps <==> DefinedBy(sl[k].Value(), considered, order)))
  }

  /** Exactly `order` positions of the considered architectures define the symbol. */
  ghost predicate DefinedBy(v: Values, considered: seq<Arch>, order: nat) {
    |Definers(v, considered)| == order
  }

  ghost function Definers(v: Values, considered: seq<Arch>): set<nat> {
    set i: nat | i < |considered| && v.addresses.Get(considered[i]) != -1
  }

  lemma {:induction false} ReferencingCounts(v: Values, considered: seq<Arch>)
    ensures |Definers(v, considered)| == Referencing(v, considered)
    decreases |considered|
  {
    if considered == [] {
      assert Definers(v, []) == {};
    } else {
      var n := |considered| - 1;
      ReferencingCounts(v, considered[..n]);
      assert Definers(v, considered) ==
        Definers(v, considered[..n]) + if v.addresses.Get(considered[n]) == -1 then {} else {n};
    }
  }

  /** The chosen symbols are the ones so many architectures define, all of them and in
      their old order. */
  lemma {:induction false} ChosenSelects(sl: seq<Symbol>, considered: seq<Arch>, order: nat) returns (ps: seq<nat>)
    ensures Selects(Chosen(sl, considered, order), sl, considered, order, ps)
    decreases |sl|
  {
    if sl == [] {
      ps := [];
    } else {
      var n := |sl| - 1;
      ps := ChosenSelects(sl[..n], considered, order);
      ReferencingCounts(sl[n].Value(), considered);
      if DefinedBy(sl[n].Value(), considered, order) { ps := ps + [n]; }
    }
  }

  /** The symbols defined by n down to `order` architectures, in groups. */
  ghost function Grouped(sl: seq<Symbol>, considered: seq<Arch>, n: nat, order: nat): seq<Symbol>
    requires order <= n + 1
    reads sl
    decreases n + 1 - order
  {
    if order == n + 1 then [] else Grouped(sl, considered, n, order + 1) + Chosen(sl, considered, order)
  }

  /** orderSymbolList: the symbols most architectures share come first, and symbols
      shared by equally many keep their order. */
  method OrderSymbolList(sl: seq<Symbol>, considered: seq<Arch>) returns (res: seq<Symbol>)
    ensures res == Grouped(sl, considered, |considered|, 1)
  {
    res := [];
    var order := |considered|;
    while order > 0
      invariant 0 <= order <= |considered| && res == Grouped(sl, considered, |considered|, order + 1)
    {
      res := AppendChosen(res, sl, considered, order);
      order := order - 1;
    }
  }

  /** The inner loop of orderSymbolList. */
  method AppendChosen(before: seq<Symbol>, sl: seq<Symbol>, considered: seq<Arch>, order: nat)
    returns (res: seq<Symbol>)
    ensures res == before + Chosen(sl, considered, order)
  {
    res := before;
    var i := 0;
    while i < |sl|
      invariant 0 <= i <= |sl| && res == before + Chosen(sl[..i], considered, order)
    {
      var referencingArchs := CountReferencing(sl[i], considered);
      ChosenNext(sl, considered, order, i);
      if referencingArchs == order {
        res := res + [sl[i]];
      }
      i := i + 1;
    }
    assert sl[..i] == sl;
  }

  lemma ChosenNext(sl: seq<Symbol>, considered: seq<Arch>, order: nat, i: nat)
    requires i < |sl|
    ensures Chosen(sl[..i + 1], considered, order) == Chosen(sl[..i], considered, order)
      + if Referencing(sl[i].Value(), considered) == order then [sl[i]] else []
  {
    assert sl[..i + 1][..i] == sl[..i];
  }

  method CountReferencing(symbol: Symbol, considered: seq<Arch>) returns (n: nat)
    ensures n == Referencing(symbol.Value(), considered)
  {
    var missing, i := 0, 0;
    while i < |considered|
      invariant 0 <= i <= |considered| && i - missing == Referencing(symbol.Value(), considered[..i])
    {
      assert considered[..i + 1][..i] == considered[..i];
      if symbol.addresses.Get(considered[i]) == -1 {
        missing := missing + 1;
      }
      i := i + 1;
    }
    assert considered[..i] == considered;
    n := |considered| - missing;
  }

  lemma {:induction false} ChosenAppend(a: seq<Symbol>, b: seq<Symbol>, considered: seq<Arch>, order: nat)
    ensures Chosen(a + b, considered, order) == Chosen(a, considered, order) + Chosen(b, considered, order)
    decreases |b|
  {
    if b == [] {
      assert a + b == a;
    } else {
      ChosenAppend(a, b[..|b| - 1], considered, order);
      assert (a + b)[..|a + b| - 1] == a + b[..|b| - 1];
    }
  }

  lemma {:induction false} ChosenAgain(sl: seq<Symbol>, considered: seq<Arch>, k: nat, order: nat)
    ensures Chosen(Chosen(sl, considered, k), considered, order)
      == if k == order then Chosen(sl, considered, order) else []
    ensures forall i :: 0 <= i < |Chosen(sl, considered, k)| ==>
      Referencing(Chosen(sl, considered, k)[i].Value(), considered) == k
    decreases |sl|
  {
    if sl != [] {
      var rest, last := sl[..|sl| - 1], sl[|sl| - 1];
      ChosenAgain(rest, considered, k, order);
      var tail := if Referencing(last.Value(), considered) == k then [last] else [];
      ChosenAppend(Chosen(rest, considered, k), tail, considered, order);
      if tail != [] { assert tail[..0] == []; }
    }
  }

  ghost predicate ManyDefine(sl: seq<Symbol>, considered: seq<Arch>, order: nat)
    reads sl
  {
    forall i :: 0 <= i < |sl| ==> Referencing(sl[i].Value(), considered) >= order
  }

  ghost predicate Descending(sl: seq<Symbol>, considered: seq<Arch>)
    reads sl
  {
    forall i, j :: 0 <= i < j < |sl| ==>
      Referencing(sl[i].Value(), considered) >= Referencing(sl[j].Value(), considered)
  }

  lemma GroupedNext(sl: seq<Symbol>, considered: seq<Arch>, n: nat, order: nat, k: nat)
    requires order <= n
    ensures Chosen(Grouped(sl, considered, n, order), considered, k) ==
      Chosen(Grouped(sl, considered, n, order + 1), considered, k)
      + if k == order then Chosen(sl, considered, k) else []
  {
    ChosenAgain(sl, considered, order, k);
    ChosenAppend(Grouped(sl, considered, n, order + 1), Chosen(sl, considered, order), considered, k);
  }

  lemma {:induction false} GroupedChosen(sl: seq<Symbol>, considered: seq<Arch>, n: nat, order: nat, k: nat)
    requires order <= n + 1
    ensures Chosen(Grouped(sl, considered, n, order), considered, k)
      == if order <= k <= n then Chosen(sl, considered, k) else []
    decreases n + 1 - order
  {
    if order <= n {
      GroupedChosen(sl, considered, n, order + 1, k);
      GroupedNext(sl, considered, n, order, k);
    }
  }

  lemma {:induction false} GroupedDescends(sl: seq<Symbol>, considered: seq<Arch>, n: nat, order: nat)
    requires order <= n + 1
    ensures ManyDefine(Grouped(sl, considered, n, order), considered, order)
    ensures Descending(Grouped(sl, considered, n, order), considered)
    decreases n + 1 - order
  {
    if order <= n {
      GroupedDescends(sl, considered, n, order + 1);
      ChosenAgain(sl, considered, order, order);
      Descends(Grouped(sl, considered, n, order + 1), Chosen(sl, considered, order), considered, order);
    }
  }

  lemma Descends(front: seq<Symbol>, back: seq<Symbol>, considered: seq<Arch>, order: nat)
    requires ManyDefine(front, considered, order + 1) && Descending(front, considered)
    requires forall i :: 0 <= i < |back| ==> Referencing(back[i].Value(), considered) == order
    ensures ManyDefine(front + back, considered, order) && Descending(front + back, considered)
  {
    var res := front + back;
    assert forall i :: 0 <= i < |res| ==> res[i] == if i < |front| then front[i] else back[i - |front|];
  }

  /** The result of orderSymbolList holds, for every number of architectures, the
      symbols that many define, each once and in their old order; symbols that more
      architectures define come first, and undefined ones are dropped. */
  lemma GroupedOrdered(sl: seq<Symbol>, considered: seq<Arch>, n: nat, order: nat, k: nat)
    requires order <= n + 1
    ensures var res := Grouped(sl, considered, n, order);
      && Chosen(res, considered, k) == (if order <= k <= n then Chosen(sl, considered, k) else [])
      && ManyDefine(res, considered, order) && Descending(res, considered)
  {
    GroupedChosen(sl, considered, n, order, k);
    GroupedDescends(sl, considered, n, order);
  }
}
