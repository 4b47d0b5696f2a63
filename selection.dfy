/**
 * Weighted provider selection: a walk over the cumulative weight
 * distribution. The random factor `Math.random() * totalWeight` is an
 * integer draw given by the caller.
 */
module Selection {
  import opened Types

  /** Sum of the weights, left to right. */
  function TotalWeight(ps: seq<Provider>): int
  {
    if ps == [] then 0 else ps[0].weight + TotalWeight(ps[1..])
  }

  /** Cumulative weight of the first k providers. */
  function Prefix(ps: seq<Provider>, k: nat): int
    requires k <= |ps|
  {
    TotalWeight(ps[..k])
  }

  lemma {:induction false} TotalWeightAppend(ps: seq<Provider>, p: Provider)
    ensures TotalWeight(ps + [p]) == TotalWeight(ps) + p.weight
  {
    if ps != [] {
      assert (ps + [p])[1..] == ps[1..] + [p];
      TotalWeightAppend(ps[1..], p);
    }
  }

  lemma PrefixNext(ps: seq<Provider>, k: nat)
    requires k < |ps|
    ensures Prefix(ps, k + 1) == Prefix(ps, k) + ps[k].weight
  {
    assert ps[..k + 1] == ps[..k] + [ps[k]];
    TotalWeightAppend(ps[..k], ps[k]);
  }

  lemma PrefixFirst(ps: seq<Provider>, k: nat)
    requires k < |ps|
    ensures Prefix(ps, k + 1) == ps[0].weight + Prefix(ps[1..], k)
  {
    assert ps[..k + 1][1..] == ps[1..][..k];
  }

  lemma PrefixAll(ps: seq<Provider>)
    ensures Prefix(ps, |ps|) == TotalWeight(ps)
  {
    assert ps[..|ps|] == ps;
  }

  /** With positive weights the cumulative distribution is strictly increasing. */
  lemma {:induction false} PrefixIncreasing(ps: seq<Provider>, a: nat, b: nat)
    requires PositiveWeights(ps)
    requires a < b <= |ps|
    ensures Prefix(ps, a) < Prefix(ps, b)
  {
    PrefixNext(ps, b - 1);
    if a < b - 1 {
      PrefixIncreasing(ps, a, b - 1);
    }
  }

  /**
   * Where the walk stops for draw r: the first index i whose cumulative
   * weight exceeds r, or |ps| when the walk runs off the end.
   */
  function WalkIndex(ps: seq<Provider>, r: int): (i: nat)
    ensures i <= |ps|
    ensures forall j :: 0 < j <= i ==> Prefix(ps, j) <= r
    ensures i < |ps| ==> r < Prefix(ps, i + 1)
  {
    if ps == [] then 0
    else if r < ps[0].weight then
      assert Prefix(ps, 1) == ps[0].weight by { PrefixFirst(ps, 0); }
      0
    else
      var i := 1 + WalkIndex(ps[1..], r - ps[0].weight);
      assert forall j :: 0 < j <= i ==> Prefix(ps, j) <= r by {
        forall j | 0 < j <= i ensures Prefix(ps, j) <= r {
          PrefixFirst(ps, j - 1);
        }
      }
      assert i < |ps| ==> r < Prefix(ps, i + 1) by {
        if i < |ps| { PrefixFirst(ps, i); }
      }
      i
  }

  /** WalkIndex is the only index with its two defining properties. */
  lemma WalkIndexIsFirst(ps: seq<Provider>, r: int, k: nat)
    requires k <= |ps|
    requires forall j :: 0 < j <= k ==> Prefix(ps, j) <= r
    requires k < |ps| ==> r < Prefix(ps, k + 1)
    ensures WalkIndex(ps, r) == k
  {
    var m := Min(WalkIndex(ps, r), k);
    if m < |ps| {
      // Both characterisations speak about the cumulative weight at m + 1.
      assert Prefix(ps, m + 1) == TotalWeight(ps[..m + 1]);
    }
  }

  /** The provider the selection returns, falling back to the first one. */
  function Select(ps: seq<Provider>, r: int): (p: Provider)
    requires |ps| > 0
    ensures p in ps
    ensures WalkIndex(ps, r) < |ps| ==> p == ps[WalkIndex(ps, r)]
    ensures (forall j :: 0 < j <= |ps| ==> Prefix(ps, j) <= r) ==> p == ps[0]
  {
    var i := WalkIndex(ps, r);
    if i < |ps| then ps[i] else ps[0]
  }

  /** The cumulative-weight walk with its fallback to the first provider. */
  method SelectProvider(providers: seq<Provider>, draw: int) returns (p: Provider)
    requires |providers| > 0
    ensures p == Select(providers, draw)
    ensures p in providers
  {
    var random := draw;
    for k := 0 to |providers|
      invariant random == draw - Prefix(providers, k)
      invariant forall j :: 0 < j <= k ==> Prefix(providers, j) <= draw
    {
      PrefixNext(providers, k);
      if random < providers[k].weight {
        WalkIndexIsFirst(providers, draw, k);
        return providers[k];
      }
      random := random - providers[k].weight;
    }
    WalkIndexIsFirst(providers, draw, |providers|);
    return providers[0];
  }

  /** A draw below the total weight always lands on a provider: the fallback is dead code. */
  lemma WalkStaysInRange(ps: seq<Provider>, r: int)
    requires |ps| > 0
    requires r < TotalWeight(ps)
    ensures WalkIndex(ps, r) < |ps|
    ensures Select(ps, r) == ps[WalkIndex(ps, r)]
  {
    PrefixAll(ps);
  }

  /**
   * With positive weights, provider i is chosen exactly by the draws in
   * [Prefix(i), Prefix(i + 1)), an interval of width equal to its weight.
   */
  lemma SelectedInterval(ps: seq<Provider>, i: nat, r: int)
    requires PositiveWeights(ps)
    requires i < |ps| && 0 <= r
    ensures WalkIndex(ps, r) == i <==> Prefix(ps, i) <= r < Prefix(ps, i + 1)
  {
    var k := WalkIndex(ps, r);
    assert k == i && i > 0 ==> Prefix(ps, i) <= r;
    if k + 1 < i {
      PrefixIncreasing(ps, k + 1, i);
    }
    assert k > i ==> Prefix(ps, i + 1) <= r;
  }

  /** The integers lo, lo + 1, ..., hi - 1. */
  function Interval(lo: int, hi: int): set<int>
  {
    set r | lo <= r < hi && InInterval(lo, hi, r)
  }

  /** The membership test of Interval, named so that its comprehension has a trigger. */
  predicate InInterval(lo: int, hi: int, r: int)
  {
    lo <= r < hi
  }

  lemma {:induction false} IntervalSize(lo: int, hi: int)
    requires lo <= hi
    ensures |Interval(lo, hi)| == hi - lo
    decreases hi - lo
  {
    if lo < hi {
      assert Interval(lo, hi) == Interval(lo, hi - 1) + {hi - 1};
      IntervalSize(lo, hi - 1);
    } else {
      assert Interval(lo, hi) == {};
    }
  }

  /** The draws in [0, total) that select provider i. */
  function DrawsSelecting(ps: seq<Provider>, i: nat): set<int>
  {
    set r | 0 <= r < TotalWeight(ps) && WalkIndex(ps, r) == i
  }

  /**
   * Of the TotalWeight(ps) equally likely draws, exactly ps[i].weight select
   * provider i: selection is proportional to weight.
   */
  lemma SelectionProportionalToWeight(ps: seq<Provider>, i: nat)
    requires PositiveWeights(ps)
    requires i < |ps|
    ensures |DrawsSelecting(ps, i)| == ps[i].weight
  {
    PrefixNext(ps, i);
    PrefixAll(ps);
    if i + 1 < |ps| {
      PrefixIncreasing(ps, i + 1, |ps|);
    }
    if 0 < i {
      PrefixIncreasing(ps, 0, i);
    }
    assert Prefix(ps, 0) == 0;
    assert DrawsSelecting(ps, i) == Interval(Prefix(ps, i), Prefix(ps, i + 1)) by {
      forall r | 0 <= r
        ensures WalkIndex(ps, r) == i <==> Prefix(ps, i) <= r < Prefix(ps, i + 1)
      {
        SelectedInterval(ps, i, r);
      }
    }
    IntervalSize(Prefix(ps, i), Prefix(ps, i + 1));
  }
}
