/** The double-hashing table of lib/libopenpop/hashtab.h, updated in place. */
module HashTable {
  import opened FiniteSets
  import opened PrimeTable
  import opened PrimeSizes
  import opened Probing
  import opened HashSlots

  /** More elements than this ask for a size whose 32-bit probing wraps. */
  const MAX_ELEMENTS := 0x3fff_ffff

  class Htab {
    var entries: array<Slot>
    var sizePrimeIndex: nat
    var nElements: int
    var nDeleted: int
    ghost var contents: Contents

    ghost predicate Sized()
      reads this
    {
      sizePrimeIndex < 29 && entries.Length == PRIME_TAB[sizePrimeIndex].prime
    }

    /** The slots stand for `contents`, the counters count them, and one slot is empty. */
    ghost predicate Stands(s: seq<Slot>, m: Contents)
      reads this
    {
      && Sized() && |s| == entries.Length
      && SlotsOk(s, m)
      && nElements == |Occupied(s)| && nDeleted == |DeletedSlots(s)|
      && nElements < entries.Length
    }

    ghost predicate Valid()
      reads this, entries
    {
      Stands(entries[..], contents)
    }

    /** An element with address a may be stored in the slot. */
    ghost predicate Storable(slot: int, a: Addr)
      reads this, entries
    {
      && 0 <= slot < entries.Length
      && forall e: Elem :: e.addr == a ==> Stands(entries[..][slot := Full(e)], contents[a := e])
    }

    function HtabMod(hash: nat): (r: nat)
      requires Sized() && hash < TWO32
      reads this
      ensures r == hash % entries.Length
    {
      var p := PRIME_TAB[sizePrimeIndex];
      RowMods(sizePrimeIndex, hash);
      Mod1(hash, p.prime, p.inv, p.shift)
    }

    function HtabModM2(hash: nat): (r: nat)
      requires Sized() && hash < TWO32
      reads this
      ensures entries.Length > 2 && r == StepOf(hash, entries.Length) == 1 + hash % (entries.Length - 2)
    {
      var p := PRIME_TAB[sizePrimeIndex];
      RowMods(sizePrimeIndex, hash);
      1 + Mod1(hash, p.prime - 2, p.invM2, p.shift)
    }

    /** htab_create. */
    constructor (size: nat)
      requires size <= 0x7fff_ffff
      ensures Valid() && fresh(entries) && contents == map[] && LeastSize(entries.Length, size)
    {
      var i := HigherPrimeIndex(size);
      assert PRIME_TAB[28].prime == 0x7fff_ffff;
      GoodRows(i);
      LeastAt(i, size);
      SizesPrime(i);
      sizePrimeIndex := i;
      nElements, nDeleted, contents := 0, 0, map[];
      entries := new Slot[PRIME_TAB[i].prime](_ => Empty);
      new;
      assert Occupied(entries[..]) == {} && DeletedSlots(entries[..]) == {};
    }

    /** The first index and the step of a probing loop. */
    method Index(hash: nat) returns (index: nat)
      requires Sized() && hash < TWO32
      ensures entries.Length > 2 && index == Probe(hash, entries.Length, 0)
    {
      GoodRows(sizePrimeIndex);
      index := HtabMod(hash);
    }

    method Step(hash: nat) returns (hash2: nat)
      requires Sized() && hash < TWO32
      ensures entries.Length > 2 && hash2 == StepOf(hash, entries.Length)
    {
      hash2 := HtabModM2(hash);
    }

    /** One turn of a probing loop. */
    method NextIndex(index: nat, hash2: nat, ghost hash: nat, ghost j: nat) returns (next: nat)
      requires Sized() && entries.Length > 2 && hash2 == StepOf(hash, entries.Length)
      requires index == Probe(hash, entries.Length, j)
      ensures next == Probe(hash, entries.Length, j + 1)
    {
      BoundedSize(sizePrimeIndex);
      StepFits(entries.Length);
      next := Add32(index, hash2);
      if next >= entries.Length {
        next := next - entries.Length;
      }
    }

    /** The loop of htab_find, on a search path with an empty slot at turn `stop`. */
    method Seek(a: Addr, ghost stop: nat) returns (r: Slot, ghost j: nat)
      requires Sized() && entries.Length > 2 && entries[Probe(Hash(a), entries.Length, stop)] == Empty
      ensures Passed(entries[..], a, j) && r == entries[Probe(Hash(a), entries.Length, j)]
      ensures r == Empty || Holds(r, a)
    {
      var hash := Hash(a);
      ghost var s := entries[..];
      var index := Index(hash);
      r, j := entries[index], 0;
      if r == Empty || (r != Deleted && r.elem.addr == a) {
        return;
      }
      var hash2 := Step(hash);
      PassedStep(s, a, 0, stop);
      while true
        invariant 0 <= j < stop && index == Probe(hash, |s|, j) && Passed(s, a, j + 1)
        decreases stop - j
      {
        index := NextIndex(index, hash2, hash, j);
        j := j + 1;
        r := entries[index];
        if r == Empty || (r != Deleted && r.elem.addr == a) {
          return;
        }
        PassedStep(s, a, j, stop);
      }
    }

    /** htab_find. */
    method Find(a: Addr) returns (r: Slot)
      requires Valid()
      ensures r == if a in contents then Full(contents[a]) else Empty
    {
      ghost var stop := EmptySlotReached(entries[..], a);
      ghost var j;
      r, j := Seek(a, stop);
      Searched(entries[..], contents, a, j, r);
    }

    /** The loop of find_empty_slot_for_expand; a deleted slot would make the
        source abort. */
    method FindEmptySlot(a: Addr, ghost stop: nat) returns (index: nat, ghost j: nat)
      requires Sized() && entries.Length > 2 && entries[Probe(Hash(a), entries.Length, stop)] == Empty
      requires NoneDeleted(entries[..])
      ensures index < entries.Length && entries[index] == Empty
      ensures index == Probe(Hash(a), entries.Length, j) && NonEmptyBefore(entries[..], a, j)
    {
      var hash := Hash(a);
      ghost var s := entries[..];
      index := Index(hash);
      j := 0;
      if entries[index] == Empty {
        return;
      }
      var hash2 := Step(hash);
      while true
        invariant 0 <= j < stop && index == Probe(hash, |s|, j) && NonEmptyBefore(s, a, j + 1)
        decreases stop - j
      {
        index := NextIndex(index, hash2, hash, j);
        j := j + 1;
        if entries[index] == Empty {
          return;
        }
      }
    }

    /** Put an element of a new address in a table without deleted slots. */
    method Place(e: Elem)
      requires Plain() && |contents| < entries.Length && e.addr !in contents
      modifies entries, this`contents
      ensures Plain()
      ensures contents == old(contents)[e.addr := e]
    {
      ghost var s := entries[..];
      ElementsCount(s, contents);
      NoneDeletedCount(s);
      ghost var stop := EmptySlotReached(s, e.addr);
      ghost var j;
      var slot;
      slot, j := FindEmptySlot(e.addr, stop);
      assert Fits(s, contents, e.addr, slot);
      StoreKeeps(s, contents, slot, e);
      entries[slot] := Full(e);
      contents := contents[e.addr := e];
      assert entries[..] == s[slot := Full(e)];
    }

    /** The slots stand for `contents` and none is deleted. */
    ghost predicate Plain()
      reads this, entries
    {
      Sized() && SlotsOk(entries[..], contents) && NoneDeleted(entries[..])
    }

    /** The first p old entries have been moved. */
    ghost predicate Moving(s: seq<Slot>, m: Contents, p: nat)
      reads this, entries
    {
      Plain() && Moved(s, m, contents, p)
    }

    /** The loop of htab_expand over the old entries s. */
    method Transfer(s: seq<Slot>, ghost m: Contents)
      requires Agrees(s, m) && |m| <= entries.Length && Moving(s, m, 0)
      modifies entries, this`contents
      ensures Plain() && contents == m
    {
      var p := 0;
      while p < |s|
        invariant 0 <= p <= |s|
        invariant Plain()
        invariant Moved(s, m, contents, p)
      {
        TransferOne(s, p, m);
        p := p + 1;
      }
      MovedAll(s, m, contents);
    }

    method TransferOne(s: seq<Slot>, p: nat, ghost m: Contents)
      requires p < |s| && Agrees(s, m) && |m| <= entries.Length && Moving(s, m, p)
      modifies entries, this`contents
      ensures Moving(s, m, p + 1)
    {
      MovedStep(s, m, contents, p);
      var x := s[p];
      if x != Empty && x != Deleted {
        Place(x.elem);
      }
    }

    /** The size asked for by htab_expand. */
    function NewSize(): (n: int)
      requires Sized() && 0 <= nElements - nDeleted <= MAX_ELEMENTS
      reads this
      ensures 0 <= n <= 0x7fff_ffff && (nElements - nDeleted) * 2 <= n + 1
    {
      BoundedSize(sizePrimeIndex);
      var osize, elts := entries.Length, nElements - nDeleted;
      if Unfit(elts) then elts * 2 else osize - 1
    }

    /** The table without its deleted slots would be more than half full, or less than an
        eighth full and not small. */
    predicate Unfit(elts: nat)
      reads this
    {
      elts * 2 > entries.Length || (elts * 8 < entries.Length && entries.Length > 32)
    }

    method NewIndex() returns (i: nat)
      requires Sized() && 0 <= nElements - nDeleted <= MAX_ELEMENTS
      ensures i < 29 && 2 < PRIME_TAB[i].prime && (nElements - nDeleted) * 2 <= PRIME_TAB[i].prime + 1
      ensures if Unfit(nElements - nDeleted) then LeastSize(PRIME_TAB[i].prime, 2 * (nElements - nDeleted))
        else PRIME_TAB[i].prime == entries.Length
    {
      var nsize := NewSize();
      i := HigherPrimeIndex(nsize);
      SmallIndex(i, nsize);
      LeastAt(i, nsize);
      if nsize == entries.Length - 1 { SameSize(sizePrimeIndex, PRIME_TAB[i].prime); }
    }

    /** htab_expand: a table with the same elements, no deleted slots, and room for one
        more element; its size is twice their number, or as it was. */
    method Expand()
      requires Valid() && |contents| <= MAX_ELEMENTS
      modifies this
      ensures Valid() && contents == old(contents) && fresh(entries)
      ensures nDeleted == 0 && nElements * 2 <= entries.Length + 1
      ensures if old(Unfit(|contents|)) then LeastSize(entries.Length, 2 * |contents|)
        else entries.Length == old(entries.Length)
    {
      ghost var m := contents;
      ElementsCount(entries[..], m);
      var elts := nElements - nDeleted;
      var i := NewIndex();
      var old_ := entries[..];
      sizePrimeIndex := i;
      entries := new Slot[PRIME_TAB[i].prime](_ => Empty);
      contents := map[];
      SizesPrime(i);
      MovedNone(old_, m);
      Transfer(old_, m);
      ElementsCount(entries[..], contents);
      NoneDeletedCount(entries[..]);
      nElements, nDeleted := elts, 0;
    }

    /** The search of htab_find_slot: it stops at the address or at an empty slot,
        and remembers the first deleted slot it passed. */
    method SeekSlot(a: Addr, ghost stop: nat) returns (index: nat, first: int, ghost j: nat, ghost d: nat)
      requires Sized() && entries.Length > 2 && entries[Probe(Hash(a), entries.Length, stop)] == Empty
      ensures Passed(entries[..], a, j) && index == Probe(Hash(a), entries.Length, j)
      ensures entries[index] == Empty || Holds(entries[index], a)
      ensures -1 <= first < entries.Length
      ensures first >= 0 ==> d < j && first == Probe(Hash(a), entries.Length, d) && entries[first] == Deleted
    {
      var hash := Hash(a);
      ghost var s := entries[..];
      index := Index(hash);
      first, j, d := -1, 0, 0;
      var entry := entries[index];
      if entry == Empty || (entry != Deleted && entry.elem.addr == a) {
        return;
      } else if entry == Deleted {
        first := index;
      }
      var hash2 := Step(hash);
      PassedStep(s, a, 0, stop);
      while true
        invariant 0 <= j < stop && index == Probe(hash, |s|, j) && Passed(s, a, j + 1)
        invariant -1 <= first < |s|
        invariant first >= 0 ==> d <= j && first == Probe(hash, |s|, d) && s[first] == Deleted
        decreases stop - j
      {
        index := NextIndex(index, hash2, hash, j);
        j := j + 1;
        entry := entries[index];
        if entry == Empty || (entry != Deleted && entry.elem.addr == a) {
          return;
        } else if entry == Deleted && first < 0 {
          first, d := index, j;
        }
        PassedStep(s, a, j, stop);
      }
    }

    /** htab_find_slot with NO_INSERT; -1 stands for the null result. */
    method FindSlot(a: Addr) returns (slot: int)
      requires Valid()
      ensures slot == -1 || 0 <= slot < entries.Length
      ensures a in contents ==> slot != -1 && entries[slot] == Full(contents[a]) && contents[a].addr == a
      ensures a !in contents ==> slot == -1
    {
      ghost var stop := EmptySlotReached(entries[..], a);
      var index, first;
      ghost var j, d;
      index, first, j, d := SeekSlot(a, stop);
      Searched(entries[..], contents, a, j, entries[index]);
      assert Stored(entries[..], contents, a);
      slot := if entries[index] == Empty then -1 else index;
    }

    /** The start of htab_find_slot with INSERT: a table too full is rebuilt. */
    method MakeRoom()
      requires Valid() && |contents| <= MAX_ELEMENTS
      modifies this
      ensures Valid() && contents == old(contents) && nElements + 1 < entries.Length
      ensures entries == old(entries) || fresh(entries)
      ensures entries == old(entries) <==> old(nElements * 4 < entries.Length * 3)
    {
      if entries.Length * 3 <= nElements * 4 {
        Expand();
      }
      BoundedSize(sizePrimeIndex);
    }

    /** The end of htab_find_slot with INSERT: a deleted slot passed on the way is
        used before the empty one at the end. */
    method TakeSlot(index: nat, first: int) returns (slot: nat)
      requires Valid() && nElements + 1 < entries.Length && index < entries.Length
      requires entries[index] != Deleted && -1 <= first < entries.Length && (first >= 0 ==> entries[first] == Deleted)
      modifies this`nElements, this`nDeleted, entries
      ensures slot == (if entries[index] == Empty && first >= 0 then first else index) && slot < entries.Length
      ensures entries[..]
        == if old(entries[index]) == Empty && first >= 0 then old(entries[..])[first := Empty] else old(entries[..])
      ensures forall e: Elem ::
        && nElements == |Occupied(entries[..][slot := Full(e)])|
        && nDeleted == |DeletedSlots(entries[..][slot := Full(e)])|
      ensures nElements < entries.Length
    {
      ghost var s := entries[..];
      slot := index;
      if entries[index] == Empty {
        if first >= 0 {
          nDeleted := nDeleted - 1;
          entries[first] := Empty;
          slot := first;
        } else {
          nElements := nElements + 1;
        }
      }
      forall e: Elem
        ensures entries[..][slot := Full(e)] == s[slot := Full(e)]
        ensures nElements == |Occupied(s[slot := Full(e)])| && nDeleted == |DeletedSlots(s[slot := Full(e)])|
      {
        OccupiedAfter(s, slot, Full(e));
        DeletedAfter(s, slot, Full(e));
      }
    }

    /** htab_find_slot with INSERT: the slot of the address, or an empty one that
        will do for it and is already counted. */
    method FindSlotToInsert(a: Addr) returns (slot: int)
      requires Valid() && |contents| <= MAX_ELEMENTS
      modifies this, entries
      ensures contents == old(contents) && Storable(slot, a)
      ensures entries[slot] == if a in contents then Full(contents[a]) else Empty
      ensures entries == old(entries) || fresh(entries)
      ensures entries == old(entries) <==> old(nElements * 4 < entries.Length * 3)
    {
      MakeRoom();
      ghost var s := entries[..];
      ghost var stop := EmptySlotReached(s, a);
      var index, first;
      ghost var j, d;
      index, first, j, d := SeekSlot(a, stop);
      Searched(s, contents, a, j, s[index]);
      slot := TakeSlot(index, first);
      SlotWillDo(s, contents, a, slot, if s[index] == Empty && first >= 0 then d else j);
      forall e: Elem | e.addr == a
        ensures Stands(entries[..][slot := Full(e)], contents[a := e])
      {
        StoreKeeps(s, contents, slot, e);
        assert entries[..][slot := Full(e)] == s[slot := Full(e)];
      }
    }

    /** The caller's store through the returned slot. */
    method Store(slot: nat, e: Elem)
      requires Storable(slot, e.addr)
      modifies entries, this`contents
      ensures Valid() && contents == old(contents)[e.addr := e]
    {
      entries[slot] := Full(e);
      contents := contents[e.addr := e];
      assert entries[..] == old(entries[..])[slot := Full(e)];
    }

    /** htab_clear_slot on a slot that holds an element; elsewhere the source aborts. */
    method ClearSlot(slot: nat)
      requires Valid() && slot < entries.Length && entries[slot].Full?
      modifies this`nDeleted, this`contents, entries
      ensures Valid() && contents == old(contents) - {old(entries[slot].elem.addr)}
    {
      ghost var s := entries[..];
      ClearKeeps(s, contents, slot);
      OccupiedAfter(s, slot, Deleted);
      DeletedAfter(s, slot, Deleted);
      contents := contents - {entries[slot].elem.addr};
      entries[slot] := Deleted;
      nDeleted := nDeleted + 1;
      assert entries[..] == s[slot := Deleted];
    }

    /** One operation as the callers of the table use it. */
    method PerformOne(op: Op) returns (result: Slot)
      requires Valid() && |contents| <= MAX_ELEMENTS
      modifies this, entries
      ensures Valid() && (contents, result) == MeaningOne(old(contents), op)
      ensures entries == old(entries) || fresh(entries)
    {
      match op {
        case Search(a) =>
          result := Find(a);
        case Insert(e) =>
          var slot := FindSlotToInsert(e.addr);
          result := entries[slot];
          Store(slot, e);
        case Remove(a) =>
          var slot := FindSlot(a);
          if slot >= 0 {
            ClearSlot(slot);
          } else {
            assert contents - {a} == contents;
          }
          result := Empty;
      }
    }

    /** Any sequence of searches, insertions and removals, rehashing included,
        behaves as on a finite map. */
    method Perform(ops: seq<Op>) returns (results: seq<Slot>)
      requires Valid() && |contents| + |ops| <= MAX_ELEMENTS
      modifies this, entries
      ensures Valid() && (contents, results) == Meaning(old(contents), ops)
    {
      results := [];
      var i := 0;
      while i < |ops|
        invariant 0 <= i <= |ops| && Valid() && |contents| + |ops| - i <= MAX_ELEMENTS
        invariant entries == old(entries) || fresh(entries)
        invariant (contents, results) == Meaning(old(contents), ops[..i])
      {
        MeaningStep(old(contents), ops, i);
        GrowsByOne(contents, ops[i]);
        var result := PerformOne(ops[i]);
        results := results + [result];
        i := i + 1;
      }
      assert ops[..i] == ops;
    }
  }

  datatype Op = Search(a: Addr) | Insert(e: Elem) | Remove(a: Addr)

  /** What an operation leaves of a map, and what its caller sees. */
  ghost function MeaningOne(m: Contents, op: Op): (Contents, Slot) {
    match op
    case Search(a) => (m, if a in m then Full(m[a]) else Empty)
    case Insert(e) => (m[e.addr := e], if e.addr in m then Full(m[e.addr]) else Empty)
    case Remove(a) => (m - {a}, Empty)
  }

  ghost function Meaning(m: Contents, ops: seq<Op>): (Contents, seq<Slot>) {
    if ops == [] then (m, [])
    else
      var (n, rs) := Meaning(m, ops[..|ops| - 1]);
      var (n', r) := MeaningOne(n, ops[|ops| - 1]);
      (n', rs + [r])
  }

  lemma MeaningStep(m: Contents, ops: seq<Op>, i: nat)
    requires i < |ops|
    ensures var (n, rs) := Meaning(m, ops[..i]); var (n', r) := MeaningOne(n, ops[i]);
      Meaning(m, ops[..i + 1]) == (n', rs + [r])
  {
    assert ops[..i + 1][..i] == ops[..i];
  }

  lemma GrowsByOne(m: Contents, op: Op)
    ensures |MeaningOne(m, op).0| <= |m| + 1
  {
    match op {
      case Search(a) =>
      case Insert(e) =>
        assert m[e.addr := e].Keys == m.Keys + {e.addr};
      case Remove(a) =>
        assert (m - {a}).Keys == m.Keys - {a};
        SubsetSmaller(m.Keys - {a}, m.Keys);
    }
  }

  /** The slot found for an address, or the first deleted one before it, fits it. */
  lemma SlotWillDo(s: seq<Slot>, m: Contents, a: Addr, slot: int, j: nat)
    requires SlotsOk(s, m) && Passed(s, a, j) && slot == Probe(Hash(a), |s|, j)
    requires s[slot].Full? ==> Holds(s[slot], a)
    requires a in m ==> s[slot].Full?
    ensures Fits(s, m, a, slot)
  {
    assert NonEmptyBefore(s, a, j);
  }

  ghost predicate MovedSlot(s: seq<Slot>, n: Contents, p: int, i: int) {
    0 <= i < |s| && s[i].Full? ==> (s[i].elem.addr in n <==> i < p)
  }

  /** n holds exactly the elements of the first p slots of s. */
  ghost predicate Moved(s: seq<Slot>, m: Contents, n: Contents, p: nat) {
    && (forall a :: a in n ==> a in m && n[a] == m[a])
    && (forall i :: MovedSlot(s, n, p, i))
  }

  lemma MovedNone(s: seq<Slot>, m: Contents)
    ensures Moved(s, m, map[], 0)
  {
  }

  lemma MovedStep(s: seq<Slot>, m: Contents, n: Contents, p: nat)
    requires Agrees(s, m) && Moved(s, m, n, p) && p < |s|
    ensures s[p].Full? ==> s[p].elem.addr !in n && |n| < |m| && Moved(s, m, n[s[p].elem.addr := s[p].elem], p + 1)
    ensures !s[p].Full? ==> Moved(s, m, n, p + 1)
  {
    assert SlotOk(s, m, p) && MovedSlot(s, n, p, p);
    var q := p + 1;
    if s[p].Full? {
      var e := s[p].elem;
      var k: Contents := n[e.addr := e];
      SmallerMap(n, m, e.addr);
      forall i
        ensures MovedSlot(s, k, q, i)
      {
        assert Apart(s, i, p) && MovedSlot(s, n, p, i);
      }
    } else {
      forall i
        ensures MovedSlot(s, n, q, i)
      {
        assert MovedSlot(s, n, p, i);
      }
    }
  }

  lemma SmallerMap(n: Contents, m: Contents, a: Addr)
    requires (forall x :: x in n ==> x in m) && a in m && a !in n
    ensures |n| < |m|
  {
    assert n.Keys <= m.Keys - {a};
    SubsetSmaller(n.Keys, m.Keys - {a});
    assert |m.Keys - {a}| == |m.Keys| - 1;
  }

  lemma MovedAll(s: seq<Slot>, m: Contents, n: Contents)
    requires Agrees(s, m) && Moved(s, m, n, |s|)
    ensures n == m
  {
    forall a | a in m
      ensures a in n
    {
      assert Stored(s, m, a);
      var k :| 0 <= k < |s| && s[k] == Full(m[a]);
      assert MovedSlot(s, n, |s|, k);
    }
  }

  lemma SmallIndex(i: nat, n: nat)
    requires i < |PRIME_TAB| && n <= 0x7fff_ffff
    requires forall k :: 0 <= k < i ==> PRIME_TAB[k].prime < n
    ensures i < 29 && PRIME_TAB[i].prime > 2
  {
    assert PRIME_TAB[28].prime == 0x7fff_ffff;
    GoodRows(i);
  }

  lemma BoundedSize(i: nat)
    requires i < 29
    ensures 7 <= PRIME_TAB[i].prime <= 0x7fff_ffff
  {
    GoodRows(i);
    if i < 28 { RowsIncrease(i, 28); }
  }
}
