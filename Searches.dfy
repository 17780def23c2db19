/**
 * What both searches need of the graph's vertex objects: the topology they show, read once
 * before a search, the removal of a vertex from a list, and the steps that frame a search in a
 * `PathFinderInstance` (clearing its fields and walking the predecessors back).
 */
module Searches {
  import opened Wrappers
  import opened Graph
  import opened Walks
  import opened PathFinder

  /** `List.remove(Object)`: drops the first occurrence of `x`, if any. */
  function Without<T(==)>(xs: seq<T>, x: T): (r: seq<T>)
  {
    if xs == [] then []
    else if xs[0] == x then xs[1..]
    else [xs[0]] + Without(xs[1..], x)
  }

  /** Removing the first occurrence of `x`, at position `k`, closes the gap it leaves. */
  lemma {:induction false} WithoutAt<T>(xs: seq<T>, x: T, k: nat)
    requires k < |xs| && xs[k] == x && x !in xs[..k]
    ensures Without(xs, x) == xs[..k] + xs[k + 1..]
  {
    if k > 0 {
      assert x !in xs[1..][..k - 1] by {
        assert xs[1..][..k - 1] == xs[..k][1..];
      }
      WithoutAt(xs[1..], x, k - 1);
      assert [xs[0]] + xs[1..][..k - 1] == xs[..k];
    }
  }

  /** Removing an element that does not occur changes nothing. */
  lemma {:induction false} WithoutAbsent<T>(xs: seq<T>, x: T)
    requires x !in xs
    ensures Without(xs, x) == xs
  {
    if xs != [] {
      WithoutAbsent(xs[1..], x);
    }
  }

  /**
   * `G` is the topology of the vertices `vs`, whose neighbour lists are `N` and whose diagonal
   * neighbour lists are `D`: ids are indices, every neighbour is stored at its id, and the diagonal
   * neighbours are a subsequence of the neighbours. None of this reads a mutable field.
   */
  ghost predicate Shows(vs: seq<Vertex>, N: seq<seq<Vertex>>, D: seq<seq<Vertex>>, G: Topology)
  {
    && G.WellFormed() && |G.weight| == |vs| && |N| == |vs| && |D| == |vs|
    && (forall i :: 0 <= i < |vs| ==> vs[i].n == i && G.weight[i] == vs[i].vtype.value)
    && (forall i :: 0 <= i < |vs| ==> G.adj[i] == IdsOf(N[i]) && G.diag[i] == IdsOf(D[i]))
    && (forall i :: 0 <= i < |vs| ==> IsSubsequence(D[i], N[i]))
    && (forall i, w {:trigger w in N[i]} :: 0 <= i < |vs| && w in N[i] ==> 0 <= w.n < |vs| && vs[w.n] == w)
    && (forall i, w {:trigger w in D[i]} :: 0 <= i < |vs| && w in D[i] ==> 0 <= w.n < |vs| && vs[w.n] == w)
  }

  /** The neighbour lists of `vs` are still `N` and `D`. */
  ghost predicate Keeps(vs: seq<Vertex>, N: seq<seq<Vertex>>, D: seq<seq<Vertex>>)
    reads vs`neighbors, vs`diagonalNeighbors
  {
    && |N| == |vs| && |D| == |vs|
    && forall i :: 0 <= i < |vs| ==> vs[i].neighbors == N[i] && vs[i].diagonalNeighbors == D[i]
  }

  /** A valid graph shows its own topology, with its current neighbour lists. */
  lemma GraphShows(g: WeightedGraph, N: seq<seq<Vertex>>, D: seq<seq<Vertex>>, G: Topology)
    requires g.Valid() && g.Models(G)
    requires |N| == |g.vertices| && forall i :: 0 <= i < |N| ==> N[i] == g.vertices[i].neighbors
    requires |D| == |g.vertices| && forall i :: 0 <= i < |D| ==> D[i] == g.vertices[i].diagonalNeighbors
    ensures Keeps(g.vertices, N, D) && Shows(g.vertices, N, D, G)
  {
    g.ModelsWellFormed(G);
    forall i, w | 0 <= i < |g.vertices| && w in N[i]
      ensures 0 <= w.n < |g.vertices| && g.vertices[w.n] == w
    {
      assert g.Holds(w);
    }
    forall i, w | 0 <= i < |g.vertices| && w in D[i]
      ensures 0 <= w.n < |g.vertices| && g.vertices[w.n] == w
    {
      assert g.Holds(w);
    }
  }

  lemma RestoredValid(g: WeightedGraph, N: seq<seq<Vertex>>, D: seq<seq<Vertex>>, G: Topology, pred: seq<int>)
    requires Shows(g.vertices, N, D, G) && Keeps(g.vertices, N, D) && LinkedBy(g.vertices, pred)
    ensures g.Valid() && g.Models(G)
  {
    var vs := g.vertices;
    forall i, w | 0 <= i < |vs| && w in vs[i].neighbors
      ensures g.Holds(w)
    {
      assert w in N[i];
    }
    forall i, w | 0 <= i < |vs| && w in vs[i].diagonalNeighbors
      ensures g.Holds(w)
    {
      assert w in D[i];
    }
    forall i | 0 <= i < |vs| && vs[i].previous != null
      ensures g.Holds(vs[i].previous)
    {
      assert pred[i] >= 0;
    }
  }

  /** The predecessor ids of a valid graph are the ids that link its vertices. */
  lemma RestoredPreds(g: WeightedGraph, pred: seq<int>)
    requires g.Valid() && LinkedBy(g.vertices, pred)
    ensures g.Preds() == pred
  {
    forall i | 0 <= i < |pred|
      ensures g.Preds()[i] == pred[i]
    {
      g.PredsLink(i);
      if pred[i] >= 0 {
        assert g.vertices[pred[i]].n == pred[i];
      }
    }
  }

  /** A neighbour of `u` is one of its diagonal neighbours exactly when its id is a diagonal id of `u`. */
  lemma DiagonalById(vs: seq<Vertex>, N: seq<seq<Vertex>>, D: seq<seq<Vertex>>, G: Topology, u: nat, w: Vertex)
    requires Shows(vs, N, D, G) && u < |vs| && w in N[u]
    ensures (w in D[u]) <==> (w.n in G.diag[u])
  {
    if w.n in G.diag[u] {
      var j :| 0 <= j < |G.diag[u]| && G.diag[u][j] == w.n;
      assert D[u][j] in D[u];
    }
  }

  /** With ids stored at their indices, a vertex is queued exactly when its id is. */
  lemma QueuedById(vs: seq<Vertex>, q: seq<int>, v: Vertex)
    requires (forall i :: 0 <= i < |vs| ==> vs[i].n == i) && (forall i :: 0 <= i < |q| ==> 0 <= q[i] < |vs|)
    requires 0 <= v.n < |vs| && vs[v.n] == v
    ensures v in VerticesAt(vs, q) <==> v.n in q
  {
    if v in VerticesAt(vs, q) {
      var i :| 0 <= i < |q| && VerticesAt(vs, q)[i] == v;
    }
    if v.n in q {
      var i :| 0 <= i < |q| && q[i] == v.n;
      assert VerticesAt(vs, q)[i] == v;
    }
  }

  /** `Q.remove(u)` for the vertex at position `k`, which occurs once, is `Extract`'s removal. */
  lemma QueueRemove(vs: seq<Vertex>, q: seq<int>, Q: seq<Vertex>, k: nat)
    requires (forall i :: 0 <= i < |vs| ==> vs[i].n == i) && (forall i :: 0 <= i < |q| ==> 0 <= q[i] < |vs|)
    requires Distinct(q) && k < |q| && Q == VerticesAt(vs, q)
    ensures Without(Q, Q[k]) == VerticesAt(vs, q[..k] + q[k + 1..])
    ensures |Without(Q, Q[k])| == |Q| - 1
  {
    assert Q[k] !in Q[..k] by {
      forall i | 0 <= i < k
        ensures Q[i] != Q[k]
      {
        assert q[i] != q[k] && vs[q[i]].n == q[i] && vs[q[k]].n == q[k];
      }
    }
    WithoutAt(Q, Q[k], k);
    var r := q[..k] + q[k + 1..];
    var R := Q[..k] + Q[k + 1..];
    forall i | 0 <= i < |r|
      ensures R[i] == vs[r[i]]
    {
      if i < k {
        assert R[i] == Q[i] && r[i] == q[i];
      } else {
        assert R[i] == Q[i + 1] && r[i] == q[i + 1];
      }
    }
  }

  /**
   * What the loop over the neighbours `nbrs` of `u`, whose diagonal neighbours are `diags`, needs
   * to know of `G`: each neighbour's id, value and diagonal flag.
   */
  ghost predicate ShowsAround(vs: seq<Vertex>, G: Topology, u: Vertex, nbrs: seq<Vertex>, diags: seq<Vertex>)
  {
    && G.WellFormed() && G.Size() == |vs| && 0 <= u.n < |vs| && vs[u.n] == u
    && G.adj[u.n] == IdsOf(nbrs) && G.weight[u.n] == u.vtype.value
    && forall w :: w in nbrs ==>
         && 0 <= w.n < |vs| && vs[w.n] == w && G.weight[w.n] == w.vtype.value
         && (w in diags <==> w.n in G.diag[u.n])
  }

  lemma ShowsAroundAll(vs: seq<Vertex>, N: seq<seq<Vertex>>, D: seq<seq<Vertex>>, G: Topology, u: Vertex)
    requires Shows(vs, N, D, G) && 0 <= u.n < |vs| && vs[u.n] == u
    ensures ShowsAround(vs, G, u, N[u.n], D[u.n])
  {
    forall w | w in N[u.n]
      ensures w in D[u.n] <==> w.n in G.diag[u.n]
    {
      DiagonalById(vs, N, D, G, u.n, w);
    }
  }

  /**
   * `delays.clear()` and `path.clear()`, with the turns the search recorded placed in `delays`
   * (the search itself reads neither field): the graph is left alone.
   */
  method Reset(p: PathFinderInstance, ghost G: Topology, delays: map<int, Vertex?>)
    requires p.graph.Valid() && p.graph.Models(G)
    modifies p`delays, p`path
    ensures p.delays == delays && p.path == []
    ensures p.graph.Valid() && p.graph.Models(G) && p.graph.Preds() == old(p.graph.Preds())
  {
    label before:
    p.delays := delays;
    p.path := [];
    p.graph.Unchanged@before();
    p.graph.SameTopology@before(G);
  }

  /**
   * `retrievePath` called on a graph that the search left valid with topology `G` and an empty
   * path: the graph stays so, and the walk follows the predecessors the search left.
   */
  method Retrieve(p: PathFinderInstance, ghost G: Topology, start: Vertex, end: Vertex) returns (outcome: Outcome<PathError>)
    requires p.graph.Valid() && p.graph.Models(G) && p.graph.Holds(start) && p.graph.Holds(end) && p.path == []
    modifies p`path
    ensures p.delays == old(p.delays)
    ensures p.graph.Valid() && p.graph.Models(G)
    ensures Chain(p.graph.Preds(), end.n, start.n, |p.graph.vertices|).Ok? ==> outcome.Pass?
    ensures outcome.Pass? ==> Traces(p.path, start, end)
  {
    label before:
    outcome := p.RetrievePath(start, end);
    p.graph.SameTopology@before(G);
  }
}
