/**
 * The weighted graph of a grid map: an append-only list of vertices, each with a type, an ordered
 * neighbour list, a list of diagonal neighbours, and the two fields a search overwrites.
 */
module Graph {
  import opened Doubles

  /** `WeightedGraph.Type`: a cell label, the weight a search adds, and a colour for display. */
  datatype VertexType = VertexType(name: string, value: int, color: string)

  /** `a` is obtained from `b` by deleting elements (order kept). */
  predicate IsSubsequence<T(==)>(a: seq<T>, b: seq<T>)
    decreases |b|
  {
    if a == [] then true
    else if b == [] then false
    else if a[0] == b[0] then IsSubsequence(a[1..], b[1..])
    else IsSubsequence(a, b[1..])
  }

  /** Appending to the longer sequence only keeps a subsequence a subsequence. */
  lemma {:induction false} SubsequenceExtendRight<T>(a: seq<T>, b: seq<T>, x: T)
    requires IsSubsequence(a, b)
    ensures IsSubsequence(a, b + [x])
    decreases |b|
  {
    if a != [] {
      assert (b + [x])[1..] == b[1..] + [x];
      if a[0] == b[0] {
        SubsequenceExtendRight(a[1..], b[1..], x);
      } else {
        SubsequenceExtendRight(a, b[1..], x);
      }
    }
  }

  /** Appending the same element to both keeps a subsequence a subsequence. */
  lemma {:induction false} SubsequenceExtendBoth<T>(a: seq<T>, b: seq<T>, x: T)
    requires IsSubsequence(a, b)
    ensures IsSubsequence(a + [x], b + [x])
    decreases |b|
  {
    if b == [] {
      assert a == [] && b + [x] == [x];
    } else if a == [] {
      assert (b + [x])[1..] == b[1..] + [x];
      if b[0] != x {
        SubsequenceExtendBoth(a, b[1..], x);
      }
    } else {
      assert (b + [x])[1..] == b[1..] + [x];
      assert (a + [x])[1..] == a[1..] + [x];
      if a[0] == b[0] {
        SubsequenceExtendBoth(a[1..], b[1..], x);
      } else {
        SubsequenceExtendBoth(a, b[1..], x);
      }
    }
  }

  /** Every element of a subsequence is an element of the whole. */
  lemma {:induction false} SubsequenceMembers<T>(a: seq<T>, b: seq<T>, x: T)
    requires IsSubsequence(a, b) && x in a
    ensures x in b
    decreases |b|
  {
    if a[0] == b[0] {
      if x != a[0] {
        SubsequenceMembers(a[1..], b[1..], x);
      }
    } else {
      SubsequenceMembers(a, b[1..], x);
    }
  }

  /** `WeightedGraph.Vertex`. `n` and `vtype` are final; the rest is updated in place. */
  class Vertex {
    const n: int
    const vtype: VertexType
    var neighbors: seq<Vertex>
    var diagonalNeighbors: seq<Vertex>
    var timeFromSource: Dist
    var previous: Vertex?

    /** The diagonal neighbours are the neighbours registered with `isDiagonal`, in order. */
    ghost predicate Valid()
      reads this
    {
      IsSubsequence(diagonalNeighbors, neighbors)
    }

    /** A new vertex has no neighbours; Java's field defaults give 0.0 and `null`. */
    constructor (n: int, vtype: VertexType)
      ensures this.n == n && this.vtype == vtype
      ensures neighbors == [] && diagonalNeighbors == []
      ensures timeFromSource == Fin(0.0) && previous == null
      ensures Valid()
    {
      this.n := n;
      this.vtype := vtype;
      neighbors := [];
      diagonalNeighbors := [];
      timeFromSource := Fin(0.0);
      previous := null;
    }

    method AddNeighbor(neighbor: Vertex, isDiagonal: bool)
      requires Valid()
      modifies this
      ensures Valid()
      ensures neighbors == old(neighbors) + [neighbor]
      ensures diagonalNeighbors == if isDiagonal then old(diagonalNeighbors) + [neighbor] else old(diagonalNeighbors)
      ensures timeFromSource == old(timeFromSource) && previous == old(previous)
    {
      if isDiagonal {
        SubsequenceExtendBoth(diagonalNeighbors, neighbors, neighbor);
      } else {
        SubsequenceExtendRight(diagonalNeighbors, neighbors, neighbor);
      }
      neighbors := neighbors + [neighbor];
      if isDiagonal {
        diagonalNeighbors := diagonalNeighbors + [neighbor];
      }
    }

    method SetTimeFromSource(t: Dist)
      modifies this`timeFromSource
      ensures timeFromSource == t
    {
      timeFromSource := t;
    }

    method SetPrevious(p: Vertex?)
      modifies this`previous
      ensures previous == p
    {
      previous := p;
    }
  }

  /** The ids of a list of vertices (`getN` of each, in order). */
  function IdsOf(vs: seq<Vertex>): (ids: seq<int>)
    ensures |ids| == |vs|
    ensures forall k :: 0 <= k < |vs| ==> ids[k] == vs[k].n
  {
    seq(|vs|, k requires 0 <= k < |vs| => vs[k].n)
  }

  /** The types of a list of vertices (`getType` of each, in order). */
  function TypesOf(vs: seq<Vertex>): (ts: seq<VertexType>)
    ensures |ts| == |vs|
    ensures forall k :: 0 <= k < |vs| ==> ts[k] == vs[k].vtype
  {
    seq(|vs|, k requires 0 <= k < |vs| => vs[k].vtype)
  }

  /** The distance (`getTimeFromSource`) of each of `vs`, in order. */
  function Times(vs: seq<Vertex>): (ds: seq<Dist>)
    reads vs
    ensures |ds| == |vs| && forall i :: 0 <= i < |vs| ==> ds[i] == vs[i].timeFromSource
  {
    seq(|vs|, i requires 0 <= i < |vs| reads vs => vs[i].timeFromSource)
  }

  /** The weights of a list of vertex types. */
  function Weights(ts: seq<VertexType>): (w: seq<int>)
    ensures |w| == |ts| && forall k :: 0 <= k < |ts| ==> w[k] == ts[k].value
  {
    seq(|ts|, k requires 0 <= k < |ts| => ts[k].value)
  }

  /** The vertices at the given indices of `vs`, in order. */
  function VerticesAt(vs: seq<Vertex>, ids: seq<int>): (r: seq<Vertex>)
    requires forall k :: 0 <= k < |ids| ==> 0 <= ids[k] < |vs|
    ensures |r| == |ids|
    ensures forall k :: 0 <= k < |ids| ==> r[k] == vs[ids[k]]
  {
    seq(|ids|, k requires 0 <= k < |ids| => vs[ids[k]])
  }

  lemma VerticesAtAppend(vs: seq<Vertex>, ids: seq<int>, i: int)
    requires forall k :: 0 <= k < |ids| ==> 0 <= ids[k] < |vs|
    requires 0 <= i < |vs|
    ensures VerticesAt(vs, ids + [i]) == VerticesAt(vs, ids) + [vs[i]]
  {
  }

  lemma IdsOfAppend(vs: seq<Vertex>, v: Vertex)
    ensures IdsOf(vs + [v]) == IdsOf(vs) + [v.n]
  {
  }

  /** The topology a search reads from a graph: weights, neighbour ids and diagonal-neighbour ids. */
  datatype Topology = Topology(weight: seq<int>, adj: seq<seq<int>>, diag: seq<seq<int>>)
  {
    function Size(): nat
    {
      |weight|
    }

    ghost predicate WellFormed()
    {
      && |adj| == |weight| && |diag| == |weight|
      && (forall u, k :: 0 <= u < |adj| && 0 <= k < |adj[u]| ==> 0 <= adj[u][k] < |weight|)
      && (forall u, k :: 0 <= u < |diag| && 0 <= k < |diag[u]| ==> 0 <= diag[u][k] < |weight|)
    }
  }

  /** The neighbour ids of each of `vs`, in order. */
  function NeighborIds(vs: seq<Vertex>): (adj: seq<seq<int>>)
    reads vs
    ensures |adj| == |vs| && forall i :: 0 <= i < |vs| ==> adj[i] == IdsOf(vs[i].neighbors)
  {
    if vs == [] then [] else NeighborIds(vs[..|vs| - 1]) + [IdsOf(vs[|vs| - 1].neighbors)]
  }

  /** The diagonal-neighbour ids of each of `vs`, in order. */
  function DiagonalIds(vs: seq<Vertex>): (diag: seq<seq<int>>)
    reads vs
    ensures |diag| == |vs| && forall i :: 0 <= i < |vs| ==> diag[i] == IdsOf(vs[i].diagonalNeighbors)
  {
    if vs == [] then [] else DiagonalIds(vs[..|vs| - 1]) + [IdsOf(vs[|vs| - 1].diagonalNeighbors)]
  }

  /** The id of each of `vs`'s predecessor, `-1` for `null`. */
  function PredIds(vs: seq<Vertex>): (p: seq<int>)
    reads vs
    ensures |p| == |vs|
    ensures forall i :: 0 <= i < |vs| ==> p[i] == if vs[i].previous == null then -1 else vs[i].previous.n
  {
    if vs == [] then [] else PredIds(vs[..|vs| - 1]) + [if vs[|vs| - 1].previous == null then -1 else vs[|vs| - 1].previous.n]
  }

  class WeightedGraph {
    var vertices: seq<Vertex>

    /** `vertices[i]` is the vertex with id `i`. */
    ghost predicate Holds(v: Vertex)
      reads this
    {
      0 <= v.n < |vertices| && vertices[v.n] == v
    }

    /**
     * Every vertex's id is its index; neighbours, diagonal neighbours and predecessors are
     * vertices of this graph; diagonal neighbours are a subsequence of the neighbours.
     */
    ghost predicate Valid()
      reads this, vertices
    {
      && (forall i :: 0 <= i < |vertices| ==> vertices[i].n == i)
      && (forall i :: 0 <= i < |vertices| ==> vertices[i].Valid())
      && (forall i, w :: 0 <= i < |vertices| && w in vertices[i].neighbors ==> Holds(w))
      && (forall i, w :: 0 <= i < |vertices| && w in vertices[i].diagonalNeighbors ==> Holds(w))
      && (forall i :: 0 <= i < |vertices| && vertices[i].previous != null ==> Holds(vertices[i].previous))
    }

    /** `G` is this graph's topology. */
    ghost predicate Models(G: Topology)
      reads this, vertices
    {
      && |G.weight| == |vertices| && |G.adj| == |vertices| && |G.diag| == |vertices|
      && (forall i :: 0 <= i < |vertices| ==> G.weight[i] == vertices[i].vtype.value)
      && (forall i :: 0 <= i < |vertices| ==> G.adj[i] == IdsOf(vertices[i].neighbors))
      && (forall i :: 0 <= i < |vertices| ==> G.diag[i] == IdsOf(vertices[i].diagonalNeighbors))
    }

    ghost function View(): (G: Topology)
      reads this, vertices
      ensures Models(G)
    {
      var vs := vertices;
      Topology(seq(|vs|, i requires 0 <= i < |vs| => vs[i].vtype.value), NeighborIds(vs), DiagonalIds(vs))
    }

    /** The topology of a valid graph only names vertices of the graph. */
    lemma ModelsWellFormed(G: Topology)
      requires Valid() && Models(G)
      ensures G.WellFormed()
    {
      forall u, k | 0 <= u < |G.adj| && 0 <= k < |G.adj[u]|
        ensures 0 <= G.adj[u][k] < |G.weight|
      {
        var w := vertices[u].neighbors[k];
        assert w in vertices[u].neighbors && Holds(w);
        assert G.adj[u][k] == IdsOf(vertices[u].neighbors)[k] == w.n;
      }
      forall u, k | 0 <= u < |G.diag| && 0 <= k < |G.diag[u]|
        ensures 0 <= G.diag[u][k] < |G.weight|
      {
        var w := vertices[u].diagonalNeighbors[k];
        assert w in vertices[u].diagonalNeighbors && Holds(w);
        assert G.diag[u][k] == IdsOf(vertices[u].diagonalNeighbors)[k] == w.n;
      }
    }

    /** The predecessor ids (`-1` for `null`). */
    ghost function Preds(): (p: seq<int>)
      reads this, vertices
      requires Valid()
      ensures |p| == |vertices|
      ensures forall i :: 0 <= i < |p| ==> -1 <= p[i] < |p|
    {
      PredIds(vertices)
    }

    /** Entry `i` of `Preds` names the predecessor of vertex `i`. */
    lemma PredsLink(i: int)
      requires Valid() && 0 <= i < |vertices|
      ensures Preds()[i] == -1 <==> vertices[i].previous == null
      ensures Preds()[i] >= 0 ==> vertices[i].previous == vertices[Preds()[i]]
    {
    }

    /** A heap change that leaves this graph and its vertices alone keeps it valid, with the same predecessors. */
    twostate lemma Unchanged()
      requires old(Valid()) && unchanged(this) && unchanged(vertices)
      ensures Valid() && Preds() == old(Preds())
    {
    }

    /** A heap change that leaves this graph and its vertices alone keeps its topology. */
    twostate lemma SameTopology(G: Topology)
      requires old(Models(G)) && unchanged(this) && unchanged(vertices)
      ensures Models(G)
    {
    }

    constructor ()
      ensures vertices == [] && Valid()
    {
      vertices := [];
    }

    /** `addVertex`: appends one fresh vertex whose id is the previous vertex count. */
    method AddVertex(t: VertexType)
      requires Valid()
      modifies this
      ensures Valid()
      ensures |vertices| == |old(vertices)| + 1
      ensures vertices[..|old(vertices)|] == old(vertices)
      ensures fresh(vertices[|old(vertices)|])
      ensures vertices[|old(vertices)|].n == |old(vertices)| && vertices[|old(vertices)|].vtype == t
      ensures vertices[|old(vertices)|].neighbors == [] && vertices[|old(vertices)|].diagonalNeighbors == []
      ensures vertices[|old(vertices)|].previous == null && vertices[|old(vertices)|].timeFromSource == Fin(0.0)
    {
      var v := new Vertex(|vertices|, t);
      vertices := vertices + [v];
      forall i, w | 0 <= i < |vertices| && w in vertices[i].neighbors
        ensures Holds(w)
      {
        assert i < |old(vertices)| && vertices[i] == old(vertices)[i];
        assert old(w in vertices[i].neighbors && Holds(w));
      }
      forall i, w | 0 <= i < |vertices| && w in vertices[i].diagonalNeighbors
        ensures Holds(w)
      {
        assert i < |old(vertices)| && vertices[i] == old(vertices)[i];
        assert old(w in vertices[i].diagonalNeighbors && Holds(w));
      }
    }
  }
}
