/**
 * The state of the neighbour wiring both readers perform on a grid of vertices: the links of
 * each cell id, the per-vertex facts a wiring loop keeps, and the graph it leaves.
 */
module WiringState {
  import opened Graph
  import opened Grids
  import opened Doubles

  /** `vs[k]` is the vertex with id `k`, as in the list `WeightedGraph.getVertices` returns. */
  predicate Numbered(vs: seq<Vertex>)
  {
    forall k :: 0 <= k < |vs| ==> vs[k].n == k
  }

  /** The two grids: a configuration file's, with eight neighbours a cell, and an image's, with four. */
  datatype Layout = FileLayout | ImageLayout

  /** The links of the cell with id `u`; a map without columns has no cells. */
  function LinksOf(layout: Layout, lines: int, columns: int, u: int): seq<Link>
  {
    if columns <= 0 then []
    else match layout
      case FileLayout => FileLinks(lines, columns, u / columns, u % columns)
      case ImageLayout => ImageLinks(lines, columns, u / columns, u % columns)
  }

  /** The predecessor field of each of `vs`, in order. */
  ghost function Prevs(vs: seq<Vertex>): (p: seq<Vertex?>)
    reads vs
    ensures |p| == |vs| && forall i :: 0 <= i < |vs| ==> p[i] == vs[i].previous
  {
    seq(|vs|, i requires 0 <= i < |vs| reads vs => vs[i].previous)
  }

  /**
   * The ids each vertex has once the wiring is done: `ids[i]`, followed by the targets of the
   * links of cell `i`, or of the diagonal ones among them.
   */
  function AfterWiring(layout: Layout, lines: int, columns: int, ids: seq<seq<int>>, diagonal: bool): (r: seq<seq<int>>)
    ensures |r| == |ids|
  {
    seq(|ids|, i requires 0 <= i < |ids| =>
      var links := LinksOf(layout, lines, columns, i);
      ids[i] + Targets(columns, if diagonal then Diagonals(links) else links))
  }

  /** Every neighbour and diagonal neighbour of `v` is one of `vs`. */
  ghost predicate Within(v: Vertex, vs: seq<Vertex>)
    reads v
  {
    && (forall w :: w in v.neighbors ==> w in vs)
    && (forall w :: w in v.diagonalNeighbors ==> w in vs)
  }

  /**
   * Vertex `v` is valid, keeps its neighbours within `vs`, has distance `t` and predecessor `p`,
   * and has the neighbour ids `adj` and diagonal-neighbour ids `diag`.
   */
  ghost predicate Holding(v: Vertex, vs: seq<Vertex>, t: Dist, p: Vertex?, adj: seq<int>, diag: seq<int>)
    reads v
  {
    && v.Valid() && Within(v, vs)
    && v.timeFromSource == t && v.previous == p
    && IdsOf(v.neighbors) == adj && IdsOf(v.diagonalNeighbors) == diag
  }

  /**
   * The state of a reader's `setNeighbors` loop after `done` cells: `vs` is the numbered vertex
   * list of the grid; every vertex holds the distance `time0` and predecessor `prev0` it started
   * with, and the first `done` have the neighbour ids `adjF` and diagonal-neighbour ids `diagF`
   * of the end, the others still those they started with, `adj0` and `diag0`.
   */
  ghost predicate Wired(vs: seq<Vertex>, adj0: seq<seq<int>>, diag0: seq<seq<int>>,
                         adjF: seq<seq<int>>, diagF: seq<seq<int>>, time0: seq<Dist>, prev0: seq<Vertex?>, done: int)
    reads vs
  {
    && Numbered(vs)
    && |adj0| == |vs| && |diag0| == |vs| && |adjF| == |vs| && |diagF| == |vs| && |time0| == |vs| && |prev0| == |vs|
    && forall i :: 0 <= i < |vs| ==>
      Holding(vs[i], vs, time0[i], prev0[i], if i < done then adjF[i] else adj0[i], if i < done then diagF[i] else diag0[i])
  }

  /** `Wired` from its parts. */
  lemma WiredOf(vs: seq<Vertex>, adj0: seq<seq<int>>, diag0: seq<seq<int>>,
                adjF: seq<seq<int>>, diagF: seq<seq<int>>, time0: seq<Dist>, prev0: seq<Vertex?>, done: int)
    requires Numbered(vs)
    requires |adj0| == |vs| && |diag0| == |vs| && |adjF| == |vs| && |diagF| == |vs| && |time0| == |vs| && |prev0| == |vs|
    requires forall i :: 0 <= i < |vs| ==>
      Holding(vs[i], vs, time0[i], prev0[i], if i < done then adjF[i] else adj0[i], if i < done then diagF[i] else diag0[i])
    ensures Wired(vs, adj0, diag0, adjF, diagF, time0, prev0, done)
  {
  }

  /**
   * A valid graph is in the loop's starting state, whatever ids it is to end
   * with; its predecessors are among its vertices.
   */
  lemma WiringStart(g: WeightedGraph, adjF: seq<seq<int>>, diagF: seq<seq<int>>)
    requires g.Valid()
    requires |adjF| == |g.vertices| && |diagF| == |g.vertices|
    ensures Wired(g.vertices, NeighborIds(g.vertices), DiagonalIds(g.vertices), adjF, diagF,
                   Times(g.vertices), Prevs(g.vertices), 0)
    ensures forall i :: 0 <= i < |g.vertices| && Prevs(g.vertices)[i] != null ==> g.Holds(Prevs(g.vertices)[i])
  {
    var vs := g.vertices;
    forall i | 0 <= i < |vs|
      ensures Within(vs[i], vs)
    {
      forall w | w in vs[i].neighbors
        ensures w in vs
      {
        assert g.Holds(w);
      }
      forall w | w in vs[i].diagonalNeighbors
        ensures w in vs
      {
        assert g.Holds(w);
      }
    }
  }

  /**
   * Once every cell is wired the graph is valid again, every distance and predecessor is the one
   * it started with, and every vertex has the ids it was to end with.
   */
  lemma WiringEnd(g: WeightedGraph, adj0: seq<seq<int>>, diag0: seq<seq<int>>,
                  adjF: seq<seq<int>>, diagF: seq<seq<int>>, time0: seq<Dist>, prev0: seq<Vertex?>)
    requires Wired(g.vertices, adj0, diag0, adjF, diagF, time0, prev0, |g.vertices|)
    requires forall i :: 0 <= i < |prev0| && prev0[i] != null ==> g.Holds(prev0[i])
    ensures g.Valid() && Times(g.vertices) == time0 && Prevs(g.vertices) == prev0
    ensures forall i :: 0 <= i < |g.vertices| ==>
      IdsOf(g.vertices[i].neighbors) == adjF[i] && IdsOf(g.vertices[i].diagonalNeighbors) == diagF[i]
  {
    var vs := g.vertices;
    forall i, w | 0 <= i < |vs| && (w in vs[i].neighbors || w in vs[i].diagonalNeighbors)
      ensures g.Holds(w)
    {
      assert w in vs;
      var k :| 0 <= k < |vs| && vs[k] == w;
    }
    forall i | 0 <= i < |vs| && vs[i].previous != null
      ensures g.Holds(vs[i].previous)
    {
      assert vs[i].previous == prev0[i];
    }
  }

  /** Vertices just created, without neighbours yet. */
  twostate predicate New(new added: seq<Vertex>)
    reads added
  {
    forall v :: v in added ==> fresh(v) && v.neighbors == [] && v.diagonalNeighbors == []
  }

  /**
   * A grid of vertices that had no neighbours, `adj0` and `diag0`, and now has, after them, the
   * targets of each cell's links as neighbours and the diagonal ones among them as diagonal
   * neighbours, has the grid's topology.
   */
  lemma WiredGrid(layout: Layout, g: WeightedGraph, lines: int, columns: int, adj0: seq<seq<int>>, diag0: seq<seq<int>>)
    requires |g.vertices| == GridSize(lines, columns)
    requires |adj0| == |g.vertices| && |diag0| == |g.vertices|
    requires forall i :: 0 <= i < |adj0| ==> adj0[i] == [] && diag0[i] == []
    requires forall i :: 0 <= i < |g.vertices| ==>
      && IdsOf(g.vertices[i].neighbors) == adj0[i] + Targets(columns, LinksOf(layout, lines, columns, i))
      && IdsOf(g.vertices[i].diagonalNeighbors) == diag0[i] + Targets(columns, Diagonals(LinksOf(layout, lines, columns, i)))
    ensures layout == FileLayout ==> g.Models(FileGrid(lines, columns, Weights(TypesOf(g.vertices))))
    ensures layout == ImageLayout ==> g.Models(ImageGrid(lines, columns, Weights(TypesOf(g.vertices))))
  {
    var vs := g.vertices;
    forall i | 0 <= i < |vs|
      ensures IdsOf(vs[i].neighbors) == Targets(columns, LinksOf(layout, lines, columns, i))
      ensures IdsOf(vs[i].diagonalNeighbors) == Targets(columns, Diagonals(LinksOf(layout, lines, columns, i)))
    {
      assert [] + Targets(columns, LinksOf(layout, lines, columns, i)) == Targets(columns, LinksOf(layout, lines, columns, i));
      assert [] + Targets(columns, Diagonals(LinksOf(layout, lines, columns, i)))
          == Targets(columns, Diagonals(LinksOf(layout, lines, columns, i)));
    }
    if layout == ImageLayout {
      forall i | 0 <= i < |vs|
        ensures IdsOf(vs[i].diagonalNeighbors) == []
      {
        ImageLinksStraight(lines, columns, i / columns, i % columns);
      }
    }
  }
}
