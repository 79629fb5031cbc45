/** The slots of a double-hashing table as a value, and what every update of one
    slot keeps. */
module HashSlots {
  import opened Bits
  import opened FiniteSets
  import opened PrimeTable
  import opened Probing

  /** A 64-bit address. */
  type Addr = a: nat | a < 0x1_0000_0000_0000_0000

  /** An element is identified by its address; `ref` tells elements apart. */
  datatype Elem = Elem(addr: Addr, ref: nat)

  datatype Slot = Empty | Deleted | Full(elem: Elem)

  type Contents = map<Addr, Elem>

  /** hash_pointer: the exclusive or of the two halves of the address. */
  function Hash(v: Addr): (h: nat)
    ensures h < TWO32
  {
    Powers();
    assert Pow2(32) == 2 * Pow2(31);
    BitXor(v % TWO32, v / TWO32, 32)
  }

  ghost predicate Holds(slot: Slot, a: Addr) {
    slot.Full? && slot.elem.addr == a
  }

  ghost predicate NonEmptyBefore(s: seq<Slot>, a: Addr, j: nat)
    requires |s| > 2
  {
    forall i: nat :: i < j ==> s[Probe(Hash(a), |s|, i)] != Empty
  }

  /** A search for the element in slot i meets no empty slot before it. */
  ghost predicate Reachable(s: seq<Slot>, i: nat)
    requires |s| > 2 && i < |s| && s[i].Full?
  {
    exists j: nat :: Probe(Hash(s[i].elem.addr), |s|, j) == i && NonEmptyBefore(s, s[i].elem.addr, j)
  }

  ghost function Occupied(s: seq<Slot>): set<nat> {
    set i: nat | i < |s| && s[i] != Empty
  }

  ghost function DeletedSlots(s: seq<Slot>): set<nat> {
    set i: nat | i < |s| && s[i] == Deleted
  }

  ghost predicate NoneDeleted(s: seq<Slot>) {
    forall i :: 0 <= i < |s| ==> s[i] != Deleted
  }

  ghost function FullSlots(s: seq<Slot>): set<nat> {
    set i: nat | i < |s| && s[i].Full?
  }

  ghost predicate Apart(s: seq<Slot>, i: int, j: int) {
    0 <= i < |s| && 0 <= j < |s| && i != j && s[i].Full? && s[j].Full? ==> s[i].elem.addr != s[j].elem.addr
  }

  ghost predicate SlotOk(s: seq<Slot>, m: Contents, i: int) {
    0 <= i < |s| && s[i].Full? ==> s[i].elem.addr in m && m[s[i].elem.addr] == s[i].elem
  }

  ghost predicate Stored(s: seq<Slot>, m: Contents, a: Addr) {
    a in m ==> m[a].addr == a && exists k :: 0 <= k < |s| && s[k] == Full(m[a])
  }

  /** The full slots hold exactly the elements of m, each once. */
  ghost predicate Agrees(s: seq<Slot>, m: Contents) {
    && (forall i :: SlotOk(s, m, i))
    && (forall a :: Stored(s, m, a))
    && (forall i, j :: Apart(s, i, j))
  }

  ghost predicate AllReachable(s: seq<Slot>)
    requires |s| > 2
  {
    forall i: nat {:trigger Reachable(s, i)} :: i < |s| && s[i].Full? ==> Reachable(s, i)
  }

  ghost predicate SlotsOk(s: seq<Slot>, m: Contents) {
    |s| > 2 && Prime(|s|) && AllReachable(s) && Agrees(s, m)
  }

  // ------------------------------------------------------------------
  // Searching
  // ------------------------------------------------------------------

  /** A table that is not fully occupied has an empty slot, so a search ends. */
  lemma EmptySlotReached(s: seq<Slot>, a: Addr) returns (j: nat)
    requires |s| > 2 && Prime(|s|) && |Occupied(s)| < |s|
    ensures j < |s| && s[Probe(Hash(a), |s|, j)] == Empty
  {
    assert Occupied(s) <= Below(|s|);
    assert Below(|s|) - Occupied(s) != {} by {
      assert |Below(|s|) - Occupied(s)| == |s| - |Occupied(s)|;
    }
    var e :| e in Below(|s|) - Occupied(s);
    j := ProbeReaches(Hash(a), |s|, e);
  }

  /** A search that meets an empty slot before the address proves it absent. */
  lemma MissedIsAbsent(s: seq<Slot>, m: Contents, a: Addr, j: nat)
    requires SlotsOk(s, m) && s[Probe(Hash(a), |s|, j)] == Empty
    requires forall i: nat :: i < j ==> !Holds(s[Probe(Hash(a), |s|, i)], a)
    ensures a !in m
  {
    assert Stored(s, m, a);
    forall k: nat | k < |s|
      ensures !Holds(s[k], a)
    {
      assert s[k].Full? ==> Reachable(s, k);
    }
  }

  lemma FoundIsPresent(s: seq<Slot>, m: Contents, a: Addr, i: nat)
    requires Agrees(s, m) && i < |s| && Holds(s[i], a)
    ensures a in m && s[i] == Full(m[a])
  {
    assert SlotOk(s, m, i);
  }

  /** The first j tries met neither an empty slot nor the address. */
  ghost predicate Passed(s: seq<Slot>, a: Addr, j: nat) {
    |s| > 2 && forall i: nat :: i < j ==> s[Probe(Hash(a), |s|, i)] != Empty && !Holds(s[Probe(Hash(a), |s|, i)], a)
  }

  /** A search goes on past another address or a deleted slot, and has not reached an empty slot yet. */
  lemma PassedStep(s: seq<Slot>, a: Addr, j: nat, stop: nat)
    requires Passed(s, a, j) && s[Probe(Hash(a), |s|, j)] != Empty && !Holds(s[Probe(Hash(a), |s|, j)], a)
    requires s[Probe(Hash(a), |s|, stop)] == Empty
    ensures Passed(s, a, j + 1) && j < stop
  {
  }

  /** A search that stops, at an empty slot or at the address, tells whether it is stored. */
  lemma Searched(s: seq<Slot>, m: Contents, a: Addr, j: nat, r: Slot)
    requires SlotsOk(s, m) && Passed(s, a, j) && r == s[Probe(Hash(a), |s|, j)]
    requires r == Empty || Holds(r, a)
    ensures r == if a in m then Full(m[a]) else Empty
  {
    if r == Empty {
      MissedIsAbsent(s, m, a, j);
    } else {
      FoundIsPresent(s, m, a, Probe(Hash(a), |s|, j));
    }
  }

  // ------------------------------------------------------------------
  // Updating one slot
  // ------------------------------------------------------------------

  /** Filling or deleting slot i makes no slot empty, so searches reach as far. */
  lemma StillReachable(s: seq<Slot>, i: nat, v: Slot, k: nat)
    requires |s| > 2 && i < |s| && v != Empty
    requires k < |s| && k != i && s[k].Full? && Reachable(s, k)
    ensures Reachable(s[i := v], k)
  {
    var t := s[i := v];
    var a := s[k].elem.addr;
    var j: nat :| Probe(Hash(a), |s|, j) == k && NonEmptyBefore(s, a, j);
    assert Probe(Hash(t[k].elem.addr), |t|, j) == k && NonEmptyBefore(t, t[k].elem.addr, j);
  }

  /** Slot i may take an element with address a: it is where a was found, or a
      is absent and slot i is on its search path. */
  ghost predicate Fits(s: seq<Slot>, m: Contents, a: Addr, i: nat)
    requires |s| > 2
  {
    && i < |s|
    && (s[i].Full? ==> s[i].elem.addr == a)
    && (a in m ==> s[i].Full?)
    && exists j: nat :: Probe(Hash(a), |s|, j) == i && NonEmptyBefore(s, a, j)
  }

  lemma StoreAgrees(s: seq<Slot>, m: Contents, i: nat, e: Elem)
    requires Agrees(s, m) && i < |s|
    requires s[i].Full? ==> s[i].elem.addr == e.addr
    requires e.addr in m ==> s[i].Full?
    ensures Agrees(s[i := Full(e)], m[e.addr := e])
  {
    var t := s[i := Full(e)];
    var n: Contents := m[e.addr := e];
    forall k
      ensures SlotOk(t, n, k)
    {
      assert SlotOk(s, m, k) && Apart(s, i, k);
    }
    forall a
      ensures Stored(t, n, a)
    {
      assert Stored(s, m, a) && SlotOk(s, m, i);
      if a == e.addr {
        assert t[i] == Full(e);
      } else if a in m {
        var k :| 0 <= k < |s| && s[k] == Full(m[a]);
        assert t[k] == Full(m[a]);
      }
    }
    forall j, k
      ensures Apart(t, j, k)
    {
      assert Apart(s, j, k) && Apart(s, i, j) && Apart(s, i, k) && SlotOk(s, m, j) && SlotOk(s, m, k);
    }
  }

  /** Storing an element in a slot that fits it updates the map at its address. */
  lemma StoreKeeps(s: seq<Slot>, m: Contents, i: nat, e: Elem)
    requires SlotsOk(s, m) && Fits(s, m, e.addr, i)
    ensures SlotsOk(s[i := Full(e)], m[e.addr := e])
  {
    var t := s[i := Full(e)];
    StoreAgrees(s, m, i, e);
    forall k: nat | k < |t| && t[k].Full?
      ensures Reachable(t, k)
    {
      if k == i {
        var j: nat :| Probe(Hash(e.addr), |s|, j) == i && NonEmptyBefore(s, e.addr, j);
        assert Probe(Hash(t[k].elem.addr), |t|, j) == k && NonEmptyBefore(t, t[k].elem.addr, j);
      } else {
        StillReachable(s, i, Full(e), k);
      }
    }
  }

  lemma ClearAgrees(s: seq<Slot>, m: Contents, i: nat)
    requires Agrees(s, m) && i < |s| && s[i].Full?
    ensures Agrees(s[i := Deleted], m - {s[i].elem.addr})
  {
    var t := s[i := Deleted];
    var n: Contents := m - {s[i].elem.addr};
    forall k
      ensures SlotOk(t, n, k)
    {
      assert SlotOk(s, m, k) && Apart(s, i, k);
    }
    forall a
      ensures Stored(t, n, a)
    {
      assert Stored(s, m, a);
      if a in n {
        var k :| 0 <= k < |s| && s[k] == Full(m[a]);
        assert t[k] == Full(m[a]);
      }
    }
    forall j, k
      ensures Apart(t, j, k)
    {
      assert Apart(s, j, k);
    }
  }

  /** Clearing a full slot removes its address from the map. */
  lemma ClearKeeps(s: seq<Slot>, m: Contents, i: nat)
    requires SlotsOk(s, m) && i < |s| && s[i].Full?
    ensures SlotsOk(s[i := Deleted], m - {s[i].elem.addr})
  {
    ClearAgrees(s, m, i);
    forall k: nat | k < |s| && k != i && s[k].Full?
      ensures Reachable(s[i := Deleted], k)
    {
      StillReachable(s, i, Deleted, k);
    }
  }

  // ------------------------------------------------------------------
  // Counting
  // ------------------------------------------------------------------

  lemma NoneDeletedCount(s: seq<Slot>)
    requires NoneDeleted(s)
    ensures DeletedSlots(s) == {}
  {
  }

  lemma SetSizes(d: set<nat>, i: nat)
    ensures |d + {i}| == |d| + if i in d then 0 else 1
    ensures |d - {i}| == |d| - if i in d then 1 else 0
  {
    if i in d { assert d + {i} == d; }
  }

  lemma OccupiedAfter(s: seq<Slot>, i: nat, v: Slot)
    requires i < |s| && v != Empty
    ensures |Occupied(s[i := v])| == |Occupied(s)| + (if s[i] == Empty then 1 else 0)
  {
    assert Occupied(s[i := v]) == Occupied(s) + {i};
    SetSizes(Occupied(s), i);
  }

  lemma DeletedAfter(s: seq<Slot>, i: nat, v: Slot)
    requires i < |s|
    ensures |DeletedSlots(s[i := v])| ==
            |DeletedSlots(s)| + (if v == Deleted then 1 else 0) - (if s[i] == Deleted then 1 else 0)
  {
    var d := DeletedSlots(s);
    SetSizes(d, i);
    if v == Deleted {
      assert DeletedSlots(s[i := v]) == d + {i};
    } else {
      assert DeletedSlots(s[i := v]) == d - {i};
    }
  }

  lemma {:induction false} ImageSize(s: seq<Slot>, idx: set<nat>)
    requires forall i :: i in idx ==> i < |s| && s[i].Full?
    requires forall i, j :: i in idx && j in idx && i != j ==> s[i].elem.addr != s[j].elem.addr
    ensures |set i | i in idx :: s[i].elem.addr| == |idx|
    decreases |idx|
  {
    var img := set i | i in idx :: s[i].elem.addr;
    if idx == {} {
      assert img == {};
    } else {
      var x :| x in idx;
      ImageSize(s, idx - {x});
      var rest := set i | i in idx - {x} :: s[i].elem.addr;
      assert img == rest + {s[x].elem.addr};
      assert s[x].elem.addr !in rest;
    }
  }

  /** htab_elements: occupied slots less deleted ones count the map. */
  lemma ElementsCount(s: seq<Slot>, m: Contents)
    requires Agrees(s, m)
    ensures |Occupied(s)| - |DeletedSlots(s)| == |m|
  {
    SlotKinds(s);
    forall i, j | i in FullSlots(s) && j in FullSlots(s) && i != j
      ensures s[i].elem.addr != s[j].elem.addr
    {
      assert Apart(s, i, j);
    }
    ImageSize(s, FullSlots(s));
    ImageIsKeys(s, m);
  }

  lemma SlotKinds(s: seq<Slot>)
    ensures |Occupied(s)| == |FullSlots(s)| + |DeletedSlots(s)|
  {
    assert Occupied(s) == FullSlots(s) + DeletedSlots(s);
    assert FullSlots(s) !! DeletedSlots(s);
  }

  lemma ImageIsKeys(s: seq<Slot>, m: Contents)
    requires Agrees(s, m)
    ensures (set i | i in FullSlots(s) :: s[i].elem.addr) == m.Keys
  {
    var img := set i | i in FullSlots(s) :: s[i].elem.addr;
    forall a | a in m
      ensures a in img
    {
      assert Stored(s, m, a);
      var k :| 0 <= k < |s| && s[k] == Full(m[a]);
      assert k in FullSlots(s);
    }
    forall i | i in FullSlots(s)
      ensures s[i].elem.addr in m
    {
      assert SlotOk(s, m, i);
    }
  }
}
