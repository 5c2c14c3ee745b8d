/**
 Start levels of a dependency graph (lifecycle/graph.go).

 `after[i]` lists the components that component `i` declared with After. Because a
 Ref can only name a component that was added earlier, every listed index is below `i`.
 */
module Levels {
  import opened Prelude

  type Graph = seq<seq<int>>

  /** Every edge points to an earlier component. */
  ghost predicate Forward(after: Graph) {
    forall i, k :: 0 <= i < |after| && 0 <= k < |after[i]| ==> 0 <= after[i][k] < i
  }

  /** The level the first `k` dependencies of `i` force on it. */
  function RankOver(after: Graph, i: nat, k: nat): (r: nat)
    requires Forward(after) && i < |after| && k <= |after[i]|
    decreases i, k
  {
    if k == 0 then 0
    else Max(RankOver(after, i, k - 1), Rank(after, after[i][k - 1]) + 1)
  }

  function Rank(after: Graph, i: nat): (r: nat)
    requires Forward(after) && i < |after|
    decreases i, |after[i]| + 1
  {
    RankOver(after, i, |after[i]|)
  }

  /** A dependency chain: each element is a direct dependency of the next one. */
  ghost predicate Chain(after: Graph, p: seq<int>) {
    && |p| > 0
    && (forall k :: 0 <= k < |p| ==> 0 <= p[k] < |after|)
    && (forall k :: 0 < k < |p| ==> p[k - 1] in after[p[k]])
  }

  lemma {:induction false} RankOverAbove(after: Graph, i: nat, k: nat, m: nat)
    requires Forward(after) && i < |after| && m < k <= |after[i]|
    ensures RankOver(after, i, k) >= Rank(after, after[i][m]) + 1
  {
    if m < k - 1 { RankOverAbove(after, i, k - 1, m); }
  }

  /** A component sits strictly above each of its dependencies. */
  lemma {:induction false} RankAboveDependency(after: Graph, i: nat, d: int)
    requires Forward(after) && i < |after| && d in after[i]
    ensures 0 <= d < i && Rank(after, d) < Rank(after, i)
  {
    var m :| 0 <= m < |after[i]| && after[i][m] == d;
    RankOverAbove(after, i, |after[i]|, m);
  }

  /** No dependency chain ending at `i` has more edges than Rank(i). */
  lemma {:induction false} NoLongerChain(after: Graph, p: seq<int>)
    requires Forward(after) && Chain(after, p)
    ensures |p| - 1 <= Rank(after, p[|p| - 1])
  {
    if |p| > 1 {
      var q := p[..|p| - 1];
      assert forall k :: 0 < k < |q| ==> q[k - 1] in after[q[k]] by {
        forall k | 0 < k < |q| ensures q[k - 1] in after[q[k]] { assert p[k - 1] in after[p[k]]; }
      }
      NoLongerChain(after, q);
      assert p[|p| - 2] in after[p[|p| - 1]];
      RankAboveDependency(after, p[|p| - 1], p[|p| - 2]);
    }
  }

  lemma {:induction false} RankOverAttained(after: Graph, i: nat, k: nat) returns (m: int)
    requires Forward(after) && i < |after| && k <= |after[i]| && RankOver(after, i, k) > 0
    ensures 0 <= m < k && RankOver(after, i, k) == Rank(after, after[i][m]) + 1
  {
    if RankOver(after, i, k) == Rank(after, after[i][k - 1]) + 1 {
      m := k - 1;
    } else {
      m := RankOverAttained(after, i, k - 1);
    }
  }

  /** Some dependency chain ending at `i` has exactly Rank(i) edges: with NoLongerChain,
      the rank is the length of the longest dependency chain. */
  lemma {:induction false} LongestChain(after: Graph, i: nat) returns (p: seq<int>)
    requires Forward(after) && i < |after|
    ensures Chain(after, p) && p[|p| - 1] == i && |p| - 1 == Rank(after, i)
    decreases i
  {
    if Rank(after, i) == 0 {
      p := [i];
    } else {
      var m := RankOverAttained(after, i, |after[i]|);
      var q := LongestChain(after, after[i][m]);
      p := q + [i];
    }
  }

  /** A layering that respects the edges. */
  ghost predicate Layering(after: Graph, f: seq<int>) {
    && |f| == |after|
    && (forall i :: 0 <= i < |f| ==> 0 <= f[i])
    && (forall i, d :: 0 <= i < |after| && d in after[i] && 0 <= d < |f| ==> f[d] < f[i])
  }

  /** Every layering that respects the edges puts each component at its rank or later. */
  lemma {:induction false} NoEarlierLayering(after: Graph, f: seq<int>, i: nat)
    requires Forward(after) && Layering(after, f) && i < |after|
    ensures Rank(after, i) <= f[i]
    decreases i
  {
    if Rank(after, i) > 0 {
      var m := RankOverAttained(after, i, |after[i]|);
      NoEarlierLayering(after, f, after[i][m]);
      assert after[i][m] in after[i];
    }
  }

  /** Highest rank among the first `m` components. */
  function Depth(after: Graph, m: nat): (d: nat)
    requires Forward(after) && m <= |after|
  {
    if m == 0 then 0
    else Max(Depth(after, m - 1), Rank(after, m - 1))
  }

  lemma {:induction false} DepthIsGreatestRank(after: Graph, m: nat)
    requires Forward(after) && m <= |after|
    ensures forall i :: 0 <= i < m ==> Rank(after, i) <= Depth(after, m)
    ensures m > 0 ==> exists i :: 0 <= i < m && Rank(after, i) == Depth(after, m)
  {
    if m > 0 {
      DepthIsGreatestRank(after, m - 1);
      assert Rank(after, m - 1) <= Depth(after, m);
    }
  }

  /** The components below `m` with rank `k`, in index order. */
  function Members(after: Graph, k: nat, m: nat): (s: seq<int>)
    requires Forward(after) && m <= |after|
  {
    if m == 0 then []
    else if Rank(after, m - 1) == k then Members(after, k, m - 1) + [m - 1]
    else Members(after, k, m - 1)
  }

  lemma {:induction false} MembersAscend(after: Graph, k: nat, m: nat)
    requires Forward(after) && m <= |after|
    ensures forall i :: i in Members(after, k, m) <==> 0 <= i < m && Rank(after, i) == k
    ensures forall a, b :: 0 <= a < b < |Members(after, k, m)| ==> Members(after, k, m)[a] < Members(after, k, m)[b]
  {
    if m > 0 {
      MembersAscend(after, k, m - 1);
      var s := Members(after, k, m - 1);
      assert forall a :: 0 <= a < |s| ==> s[a] in s;
    }
  }

  /** The value the source's levels must return. */
  function LevelsOf(after: Graph): (lv: seq<seq<int>>)
    requires Forward(after)
  {
    if |after| == 0 then []
    else seq(Depth(after, |after|) + 1, k requires 0 <= k => Members(after, k, |after|))
  }

  lemma {:induction false} RankStep(after: Graph, i: nat)
    requires Forward(after) && i < |after| && Rank(after, i) > 0
    ensures exists d :: 0 <= d < i && Rank(after, d) == Rank(after, i) - 1
  {
    var m := RankOverAttained(after, i, |after[i]|);
    assert Rank(after, after[i][m]) == Rank(after, i) - 1;
  }

  lemma {:induction false} EveryRankOccurs(after: Graph, i: nat, k: nat)
    requires Forward(after) && i < |after| && k <= Rank(after, i)
    ensures exists j :: 0 <= j < |after| && Rank(after, j) == k
    decreases i
  {
    if k < Rank(after, i) {
      RankStep(after, i);
      var d :| 0 <= d < i && Rank(after, d) == Rank(after, i) - 1;
      EveryRankOccurs(after, d, k);
    }
  }

  /** The levels partition the components into ascending, non-empty groups, component `i`
      in the group numbered by its longest dependency chain. */
  lemma {:induction false} LevelsPartition(after: Graph)
    requires Forward(after)
    ensures forall k, i :: 0 <= k < |LevelsOf(after)| ==>
                             (i in LevelsOf(after)[k] <==> 0 <= i < |after| && Rank(after, i) == k)
    ensures forall i :: 0 <= i < |after| ==> Rank(after, i) < |LevelsOf(after)|
    ensures forall k :: 0 <= k < |LevelsOf(after)| ==> LevelsOf(after)[k] != []
    ensures forall k, a, b :: 0 <= k < |LevelsOf(after)| && 0 <= a < b < |LevelsOf(after)[k]| ==>
                                LevelsOf(after)[k][a] < LevelsOf(after)[k][b]
  {
    var lv := LevelsOf(after);
    DepthIsGreatestRank(after, |after|);
    forall k | 0 <= k < |lv|
      ensures lv[k] == Members(after, k, |after|)
      ensures forall i :: i in lv[k] <==> 0 <= i < |after| && Rank(after, i) == k
      ensures forall a, b :: 0 <= a < b < |lv[k]| ==> lv[k][a] < lv[k][b]
    {
      MembersAscend(after, k, |after|);
    }
    forall k | 0 <= k < |lv| ensures lv[k] != [] {
      var top :| 0 <= top < |after| && Rank(after, top) == Depth(after, |after|);
      EveryRankOccurs(after, top, k);
      var j :| 0 <= j < |after| && Rank(after, j) == k;
      assert j in lv[k];
    }
  }

  /** Every layering that respects the edges uses at least as many levels. */
  lemma {:induction false} NoShallowerLayering(after: Graph, f: seq<int>)
    requires Forward(after) && Layering(after, f) && |after| > 0
    ensures exists i :: 0 <= i < |after| && f[i] >= |LevelsOf(after)| - 1
  {
    DepthIsGreatestRank(after, |after|);
    var top :| 0 <= top < |after| && Rank(after, top) == Depth(after, |after|);
    NoEarlierLayering(after, f, top);
  }

  /** levels: one forward pass computing each component's level, then bucketing. */
  method ComputeLevels(after: Graph) returns (out: seq<seq<int>>)
    requires Forward(after)
    ensures out == LevelsOf(after)
  {
    if |after| == 0 { return []; }
    var lvl := new int[|after|];
    var depth := 0;
    for i := 0 to |after|
      invariant forall j :: 0 <= j < i ==> lvl[j] == Rank(after, j)
      invariant depth == Depth(after, i)
    {
      var l := 0;
      for k := 0 to |after[i]|
        invariant l == RankOver(after, i, k)
        invariant forall j :: 0 <= j < i ==> lvl[j] == Rank(after, j)
      {
        var d := after[i][k];
        if lvl[d] + 1 > l { l := lvl[d] + 1; }
      }
      lvl[i] := l;
      depth := Max(depth, l);
    }
    DepthIsGreatestRank(after, |after|);
    var buckets := new seq<int>[depth + 1](_ => []);
    for i := 0 to |after|
      invariant forall j :: 0 <= j < |after| ==> lvl[j] == Rank(after, j) <= depth
      invariant forall k :: 0 <= k <= depth ==> buckets[k] == Members(after, k, i)
    {
      buckets[lvl[i]] := buckets[lvl[i]] + [i];
    }
    out := buckets[..];
  }
}
