/**
 * Walks over the topology of a weighted graph and what they cost. An edge from `u` to its
 * neighbour `v` costs `(value(v) + value(u)) / factor`, with factor sqrt(2) when `v` is one of
 * `u`'s diagonal neighbours and 2 otherwise; the two vertex values are added as Java `int`s.
 */
module Walks {
  import opened Doubles
  import opened Graph

  /** Java `int` addition: the mathematical sum wrapped into [-2^31, 2^31). */
  function AddInt32(a: int, b: int): (r: int)
    ensures -0x8000_0000 <= r < 0x8000_0000
    ensures (a + b - r) % 0x1_0000_0000 == 0
    ensures -0x8000_0000 <= a + b < 0x8000_0000 ==> r == a + b
  {
    (a + b + 0x8000_0000) % 0x1_0000_0000 - 0x8000_0000
  }

  /** The divisor of an edge weight: sqrt(2) for a diagonal neighbour, 2 otherwise. */
  function Factor(G: Topology, u: nat, v: int): real
    requires u < |G.diag|
  {
    if v in G.diag[u] then SQRT2 else 2.0
  }

  /** The weight of the edge from `u` to its neighbour `v`. */
  function EdgeWeight(G: Topology, u: nat, v: nat): (w: real)
    requires G.WellFormed() && u < G.Size() && v < G.Size()
    ensures w >= 0.0 <==> AddInt32(G.weight[v], G.weight[u]) >= 0
    ensures w == 0.0 <==> AddInt32(G.weight[v], G.weight[u]) == 0
  {
    AddInt32(G.weight[v], G.weight[u]) as real / Factor(G, u, v)
  }

  /**
   * An edge's weight is the halved sum of the two values for an orthogonal neighbour and the sum
   * divided by sqrt(2) for a diagonal one; it is the same in both directions when the diagonal
   * flag is.
   */
  lemma EdgeWeightSymmetric(G: Topology, u: nat, v: nat)
    requires G.WellFormed() && u < G.Size() && v < G.Size()
    requires v in G.diag[u] <==> u in G.diag[v]
    ensures EdgeWeight(G, u, v) == EdgeWeight(G, v, u)
    ensures v !in G.diag[u] ==> 2.0 * EdgeWeight(G, u, v) == AddInt32(G.weight[u], G.weight[v]) as real
    ensures v in G.diag[u] ==> SQRT2 * EdgeWeight(G, u, v) == AddInt32(G.weight[u], G.weight[v]) as real
  {
    assert AddInt32(G.weight[v], G.weight[u]) == AddInt32(G.weight[u], G.weight[v]);
  }

  /** Every id of `p` names a vertex. */
  ghost predicate InRange(G: Topology, p: seq<int>)
  {
    forall k :: 0 <= k < |p| ==> 0 <= p[k] < G.Size()
  }

  /** `p` is a non-empty sequence of vertices of `G`, each a neighbour of the one before. */
  ghost predicate IsWalk(G: Topology, p: seq<int>)
  {
    && G.WellFormed()
    && |p| >= 1
    && InRange(G, p)
    && (forall k :: 0 <= k < |p| - 1 ==> p[k + 1] in G.adj[p[k]])
  }

  ghost predicate IsWalkFromTo(G: Topology, p: seq<int>, s: int, t: int)
  {
    IsWalk(G, p) && p[0] == s && p[|p| - 1] == t
  }

  /** The summed edge weights along `p`. */
  ghost function Cost(G: Topology, p: seq<int>): real
    requires G.WellFormed() && InRange(G, p)
    decreases |p|
  {
    if |p| <= 1 then 0.0
    else Cost(G, p[..|p| - 1]) + EdgeWeight(G, p[|p| - 2], p[|p| - 1])
  }

  ghost predicate Reachable(G: Topology, s: int, t: int)
  {
    exists p :: IsWalkFromTo(G, p, s, t)
  }

  /** Every edge weighs at least zero. */
  ghost predicate NonNegative(G: Topology)
  {
    && G.WellFormed()
    && forall u, k :: 0 <= u < |G.adj| && 0 <= k < |G.adj[u]| ==> EdgeWeight(G, u, G.adj[u][k]) >= 0.0
  }

  /** `d` is the least cost of a walk from `s` to `t`. */
  ghost predicate IsShortest(G: Topology, s: int, t: int, d: real)
    requires G.WellFormed()
  {
    && (exists p :: IsWalkFromTo(G, p, s, t) && Cost(G, p) == d)
    && (forall p :: IsWalkFromTo(G, p, s, t) ==> d <= Cost(G, p))
  }

  /** Vertex values that are non-negative and small enough not to overflow give non-negative edges. */
  lemma NonNegativeValues(G: Topology)
    requires G.WellFormed()
    requires forall u :: 0 <= u < G.Size() ==> 0 <= G.weight[u] < 0x4000_0000
    ensures NonNegative(G)
  {
    forall u, k | 0 <= u < |G.adj| && 0 <= k < |G.adj[u]|
      ensures EdgeWeight(G, u, G.adj[u][k]) >= 0.0
    {
      var v := G.adj[u][k];
      assert AddInt32(G.weight[v], G.weight[u]) == G.weight[v] + G.weight[u];
    }
  }

  /** Extending a walk by one neighbour adds that edge's weight. */
  lemma CostAppend(G: Topology, p: seq<int>, v: int)
    requires G.WellFormed() && IsWalk(G, p) && 0 <= v < G.Size()
    ensures InRange(G, p + [v])
    ensures Cost(G, p + [v]) == Cost(G, p) + EdgeWeight(G, p[|p| - 1], v)
  {
    assert (p + [v])[..|p|] == p;
  }

  lemma WalkAppend(G: Topology, p: seq<int>, v: int)
    requires IsWalk(G, p) && 0 <= v < G.Size() && v in G.adj[p[|p| - 1]]
    ensures IsWalk(G, p + [v])
  {
  }

  /** A non-empty prefix of a walk is a walk. */
  lemma WalkPrefix(G: Topology, p: seq<int>, j: int)
    requires IsWalk(G, p) && 1 <= j <= |p|
    ensures IsWalk(G, p[..j])
  {
  }

  /** With non-negative edges no walk costs less than zero. */
  lemma {:induction false} CostNonNegative(G: Topology, p: seq<int>)
    requires NonNegative(G) && IsWalk(G, p)
    ensures Cost(G, p) >= 0.0
    decreases |p|
  {
    if |p| > 1 {
      WalkPrefix(G, p, |p| - 1);
      CostNonNegative(G, p[..|p| - 1]);
      assert p[|p| - 1] in G.adj[p[|p| - 2]];
    }
  }

  /** With non-negative edges a prefix of a walk costs no more than the walk. */
  lemma {:induction false} PrefixCost(G: Topology, p: seq<int>, j: int)
    requires NonNegative(G) && IsWalk(G, p) && 1 <= j <= |p|
    ensures InRange(G, p[..j])
    ensures Cost(G, p[..j]) <= Cost(G, p)
    decreases |p|
  {
    if j < |p| {
      var q := p[..|p| - 1];
      WalkPrefix(G, p, |p| - 1);
      PrefixCost(G, q, j);
      assert q[..j] == p[..j];
      assert p[|p| - 1] in G.adj[p[|p| - 2]];
    } else {
      assert p[..j] == p;
    }
  }

  /** Some walk from `s` to `v` costs exactly `d`. */
  ghost predicate Witnessed(G: Topology, s: int, v: int, d: real)
  {
    exists p :: IsWalkFromTo(G, p, s, v) && Cost(G, p) == d
  }

  /** Appending a neighbour to a witness walk of `u` witnesses `dist[u] + w` for the neighbour. */
  lemma ExtendWitness(G: Topology, s: int, u: nat, v: nat, d: real)
    requires G.WellFormed() && u < G.Size() && v < G.Size() && v in G.adj[u]
    requires Witnessed(G, s, u, d)
    ensures Witnessed(G, s, v, d + EdgeWeight(G, u, v))
  {
    var p :| IsWalkFromTo(G, p, s, u) && Cost(G, p) == d;
    WalkAppend(G, p, v);
    CostAppend(G, p, v);
    assert IsWalkFromTo(G, p + [v], s, v);
  }

  /** No id occurs twice. */
  ghost predicate Distinct(s: seq<int>)
  {
    forall i, j :: 0 <= i < j < |s| ==> s[i] != s[j]
  }

  /** Removing position `k` keeps a list without repeats and removes exactly `q[k]`. */
  lemma RemoveAt(q: seq<int>, k: nat)
    requires Distinct(q) && k < |q|
    ensures Distinct(q[..k] + q[k + 1..])
    ensures forall v :: v in q[..k] + q[k + 1..] <==> v in q && v != q[k]
  {
    var r := q[..k] + q[k + 1..];
    assert forall i :: 0 <= i < |r| ==> r[i] == if i < k then q[i] else q[i + 1];
    forall v | v in q && v != q[k]
      ensures v in r
    {
      var i :| 0 <= i < |q| && q[i] == v;
      if i < k {
        assert r[i] == v;
      } else {
        assert r[i - 1] == v;
      }
    }
  }
}
