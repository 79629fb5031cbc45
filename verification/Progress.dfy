/** Rankings that show that a run must end. */
module Progress {
  import opened Arithmetic

  /** A rank for work still to be handed out, threads still going and pending steps,
      in this order of weight; the last two are at most n. */
  function Rank(work: nat, going: nat, pending: nat, n: nat): nat {
    Weighed(Weighed(work, going, n), pending, n)
  }

  function Weighed(a: nat, b: nat, n: nat): nat {
    a * (n + 1) + b
  }

  lemma WeighedDrops(a: nat, b: nat, c: nat, d: nat, n: nat)
    requires a < c && b <= n
    ensures Weighed(a, b, n) < Weighed(c, d, n)
  {
    TimesMonotone(a + 1, c, n + 1);
    TimesAdds(a, 1, n + 1);
  }

  lemma RankDrops(work: nat, going: nat, pending: nat, work': nat, going': nat, pending': nat, n: nat)
    requires going' <= n && pending' <= n
    requires work' < work || (work' == work && (going' < going || (going' == going && pending' < pending)))
    ensures Rank(work', going', pending', n) < Rank(work, going, pending, n)
  {
    if work' < work { WeighedDrops(work', going', work, going, n); }
    if work' < work || going' < going {
      WeighedDrops(Weighed(work', going', n), pending', Weighed(work, going, n), pending, n);
    }
  }

  function Sum(ws: seq<nat>): nat {
    if ws == [] then 0 else Sum(ws[..|ws| - 1]) + ws[|ws| - 1]
  }

  lemma {:induction false} SumAfter(ws: seq<nat>, i: nat, w: nat)
    requires i < |ws|
    ensures Sum(ws[i := w]) + ws[i] == Sum(ws) + w
    decreases |ws|
  {
    var k := |ws| - 1;
    if i < k {
      SumAfter(ws[..k], i, w);
      assert ws[i := w][..k] == ws[..k][i := w];
    } else {
      assert ws[i := w][..k] == ws[..k];
    }
  }

  lemma {:induction false} SumAtLeast(ws: seq<nat>, i: nat)
    requires i < |ws|
    ensures ws[i] <= Sum(ws)
    decreases |ws|
  {
    if i < |ws| - 1 { SumAtLeast(ws[..|ws| - 1], i); }
  }

  lemma {:induction false} SumAll(ws: seq<nat>, w: nat)
    requires forall i :: 0 <= i < |ws| ==> ws[i] == w
    ensures Sum(ws) == w * |ws|
    decreases |ws|
  {
    if ws != [] {
      SumAll(ws[..|ws| - 1], w);
      TimesAdds(|ws| - 1, 1, w);
    }
  }
}
