/**
 * The neighbour wiring both readers perform on a grid of vertices: one guarded `addNeighbor`
 * call at a time, the eight (file) or four (image) calls made for one cell, and one cell of a
 * reader's loop. Each is proved against the links of `Grids`, stated on vertex ids.
 */
module Wiring {
  import opened Graph
  import opened Grids
  import opened Doubles
  import opened WiringState

  /**
   * `if (cond) v.addNeighbor(vertices.get(x.row * columns + x.col), x.diagonal)`: when `cond`
   * holds, the vertex of cell `x` is appended to `v`'s neighbours, and to its diagonal
   * neighbours when the link is diagonal.
   */
  method AttachIf(cond: bool, v: Vertex, vs: seq<Vertex>, lines: int, columns: int, x: Link)
    requires |vs| == GridSize(lines, columns) && Numbered(vs)
    requires cond ==> InGrid(lines, columns, x.row, x.col)
    requires v.Valid() && Within(v, vs)
    modifies v
    ensures v.Valid() && Within(v, vs)
    ensures IdsOf(v.neighbors) == IdsOf(old(v.neighbors)) + Targets(columns, if cond then [x] else [])
    ensures IdsOf(v.diagonalNeighbors)
      == IdsOf(old(v.diagonalNeighbors)) + Targets(columns, Diagonals(if cond then [x] else []))
    ensures !(cond && x.diagonal) ==> v.diagonalNeighbors == old(v.diagonalNeighbors)
    ensures v.timeFromSource == old(v.timeFromSource) && v.previous == old(v.previous)
  {
    if cond {
      CellIdInRange(lines, columns, x.row, x.col);
      var w := vs[x.row * columns + x.col];
      v.AddNeighbor(w, x.diagonal);
      IdsOfAppend(old(v.neighbors), w);
      IdsOfAppend(old(v.diagonalNeighbors), w);
      assert [x][..0] == [];
    } else {
      assert IdsOf(v.neighbors) + [] == IdsOf(v.neighbors);
      assert IdsOf(v.diagonalNeighbors) + [] == IdsOf(v.diagonalNeighbors);
    }
  }

  /**
   * The body of the file reader's `setNeighbors` loop for cell (`line`, `col`): the eight guarded
   * `addNeighbor` calls append, as ids, exactly the cell's `FileLinks`, and the diagonal ones
   * among them to the diagonal neighbours.
   */
  method ConnectFileCell(v: Vertex, vs: seq<Vertex>, lines: int, columns: int, line: int, col: int)
    requires |vs| == GridSize(lines, columns) && Numbered(vs) && InGrid(lines, columns, line, col)
    requires v.Valid() && Within(v, vs)
    modifies v
    ensures v.Valid() && Within(v, vs)
    ensures IdsOf(v.neighbors) == IdsOf(old(v.neighbors)) + Targets(columns, FileLinks(lines, columns, line, col))
    ensures IdsOf(v.diagonalNeighbors)
      == IdsOf(old(v.diagonalNeighbors)) + Targets(columns, Diagonals(FileLinks(lines, columns, line, col)))
    ensures v.timeFromSource == old(v.timeFromSource) && v.previous == old(v.previous)
  {
    AttachIf(line < lines - 1 && col < columns - 1, v, vs, lines, columns, Link(line + 1, col + 1, true));
    AttachIf(line < lines - 1, v, vs, lines, columns, Link(line + 1, col, false));
    AttachIf(col > 0 && line < lines - 1, v, vs, lines, columns, Link(line + 1, col - 1, true));
    AttachIf(col < columns - 1, v, vs, lines, columns, Link(line, col + 1, false));
    AttachIf(col > 0, v, vs, lines, columns, Link(line, col - 1, false));
    AttachIf(line > 0 && col < columns - 1, v, vs, lines, columns, Link(line - 1, col + 1, true));
    AttachIf(line > 0 && col > 0, v, vs, lines, columns, Link(line - 1, col - 1, true));
    AttachIf(line > 0, v, vs, lines, columns, Link(line - 1, col, false));
    FileLinksPieces(lines, columns, line, col, old(IdsOf(v.neighbors)));
    FileDiagonalsPieces(lines, columns, line, col, old(IdsOf(v.diagonalNeighbors)));
  }

  /**
   * The body of the image reader's `setNeighbors` loop for cell (`line`, `col`): the four guarded
   * `addNeighbor` calls append, as ids, exactly the cell's `ImageLinks`, and no diagonal neighbour.
   */
  method ConnectImageCell(v: Vertex, vs: seq<Vertex>, lines: int, columns: int, line: int, col: int)
    requires |vs| == GridSize(lines, columns) && Numbered(vs) && InGrid(lines, columns, line, col)
    requires v.Valid() && Within(v, vs)
    modifies v
    ensures v.Valid() && Within(v, vs)
    ensures IdsOf(v.neighbors) == IdsOf(old(v.neighbors)) + Targets(columns, ImageLinks(lines, columns, line, col))
    ensures v.diagonalNeighbors == old(v.diagonalNeighbors)
    ensures v.timeFromSource == old(v.timeFromSource) && v.previous == old(v.previous)
  {
    AttachIf(line < lines - 1, v, vs, lines, columns, Link(line + 1, col, false));
    AttachIf(col < columns - 1, v, vs, lines, columns, Link(line, col + 1, false));
    AttachIf(col > 0, v, vs, lines, columns, Link(line, col - 1, false));
    AttachIf(line > 0, v, vs, lines, columns, Link(line - 1, col, false));
    ImageLinksPieces(lines, columns, line, col, old(IdsOf(v.neighbors)));
  }

  /**
   * The body of a reader's `setNeighbors` inner loop: `v = vertices.get(current)` for the cell
   * (`line`, `col`) with id `current`, and its guarded `addNeighbor` calls, eight for a
   * configuration file and four for an image. `Wired(...) == true` keeps the loop state one
   * proof goal instead of one goal per conjunct of its definition.
   */
  method WireCell(layout: Layout, vertices: seq<Vertex>, lines: int, columns: int, line: int, col: int, current: int,
                  ghost adj0: seq<seq<int>>, ghost diag0: seq<seq<int>>, ghost adjF: seq<seq<int>>, ghost diagF: seq<seq<int>>,
                  ghost time0: seq<Dist>, ghost prev0: seq<Vertex?>)
    requires InGrid(lines, columns, line, col) && current == line * columns + col
    requires |vertices| == GridSize(lines, columns) && 0 <= current < |vertices|
    requires Wired(vertices, adj0, diag0, adjF, diagF, time0, prev0, current) == true
    requires adjF[current] == adj0[current] + Targets(columns, LinksOf(layout, lines, columns, current))
    requires diagF[current] == diag0[current] + Targets(columns, Diagonals(LinksOf(layout, lines, columns, current)))
    modifies vertices[current]
    ensures Wired(vertices, adj0, diag0, adjF, diagF, time0, prev0, current + 1) == true
  {
    CellOfId(columns, line, col);
    var v := vertices[current];
    ghost var links := LinksOf(layout, lines, columns, current);
    assert Holding(v, vertices, time0[current], prev0[current], adj0[current], diag0[current]);
    if layout == FileLayout {
      assert links == FileLinks(lines, columns, line, col);
      ConnectFileCell(v, vertices, lines, columns, line, col);
    } else {
      assert links == ImageLinks(lines, columns, line, col);
      ConnectImageCell(v, vertices, lines, columns, line, col);
      ImageLinksStraight(lines, columns, line, col);
      assert diag0[current] + Targets(columns, Diagonals(links)) == diag0[current];
    }
    assert Holding(v, vertices, time0[current], prev0[current], adjF[current], diagF[current]);
    assert Wired(vertices, adj0, diag0, adjF, diagF, time0, prev0, current + 1) by {
      forall i | 0 <= i < |vertices|
        ensures Holding(vertices[i], vertices, time0[i], prev0[i],
          if i < current + 1 then adjF[i] else adj0[i], if i < current + 1 then diagF[i] else diag0[i])
      {
        if i != current {
          assert old(Holding(vertices[i], vertices, time0[i], prev0[i],
            if i < current then adjF[i] else adj0[i], if i < current then diagF[i] else diag0[i]));
          assert vertices[i] != v;
        }
      }
      WiredOf(vertices, adj0, diag0, adjF, diagF, time0, prev0, current + 1);
    }
  }

  /**
   * The inner loop of a reader's `setNeighbors`: the cells of row `line`, left to right, each
   * wired as `WireCell` does; `done` cells were wired before the row.
   */
  method WireRow(layout: Layout, vertices: seq<Vertex>, lines: int, columns: int, line: int,
                 ghost adj0: seq<seq<int>>, ghost diag0: seq<seq<int>>, ghost adjF: seq<seq<int>>, ghost diagF: seq<seq<int>>,
                 ghost time0: seq<Dist>, ghost prev0: seq<Vertex?>, ghost done: int)
    requires 0 <= line < lines && |vertices| == GridSize(lines, columns)
    requires adjF == AfterWiring(layout, lines, columns, adj0, false) && diagF == AfterWiring(layout, lines, columns, diag0, true)
    requires done == RowsBefore(line, columns) && Wired(vertices, adj0, diag0, adjF, diagF, time0, prev0, done) == true
    modifies vertices
    ensures Wired(vertices, adj0, diag0, adjF, diagF, time0, prev0, RowsBefore(line + 1, columns)) == true
  {
    RowsBeforeSize(line, columns);
    var col := 0;
    ghost var wired := done;
    while col < columns
      invariant 0 <= col && (col <= columns || col == 0)
      invariant wired == done + col
      invariant Wired(vertices, adj0, diag0, adjF, diagF, time0, prev0, wired) == true
    {
      var current := line * columns + col;
      CellIdInRange(lines, columns, line, col);
      assert current == wired;
      WireCell(layout, vertices, lines, columns, line, col, current, adj0, diag0, adjF, diagF, time0, prev0);
      col := col + 1;
      wired := wired + 1;
    }
  }

  /**
   * The outer loop of a reader's `setNeighbors`: the rows of the grid, top to bottom, each wired
   * as `WireRow` does.
   */
  method WireRows(layout: Layout, vertices: seq<Vertex>, lines: int, columns: int,
                  ghost adj0: seq<seq<int>>, ghost diag0: seq<seq<int>>, ghost adjF: seq<seq<int>>, ghost diagF: seq<seq<int>>,
                  ghost time0: seq<Dist>, ghost prev0: seq<Vertex?>)
    requires |vertices| == GridSize(lines, columns)
    requires adjF == AfterWiring(layout, lines, columns, adj0, false) && diagF == AfterWiring(layout, lines, columns, diag0, true)
    requires Wired(vertices, adj0, diag0, adjF, diagF, time0, prev0, 0) == true
    modifies vertices
    ensures Wired(vertices, adj0, diag0, adjF, diagF, time0, prev0, |vertices|) == true
  {
    var line := 0;
    while line < lines
      invariant 0 <= line && (line <= lines || line == 0)
      invariant Wired(vertices, adj0, diag0, adjF, diagF, time0, prev0, RowsBefore(line, columns)) == true
    {
      WireRow(layout, vertices, lines, columns, line, adj0, diag0, adjF, diagF, time0, prev0, RowsBefore(line, columns));
      line := line + 1;
    }
    assert RowsBefore(line, columns) == |vertices| by {
      RowsBeforeSize(line, columns);
      if lines > 0 {
        assert line == lines;
      }
    }
  }

  /**
   * The loops of a reader's `setNeighbors`: every cell of the grid, row by row, gets the
   * neighbours of its links after those it had, and the diagonal ones among them as diagonal
   * neighbours; distances and predecessors stay as they were.
   */
  method WireGrid(layout: Layout, g: WeightedGraph, lines: int, columns: int)
    requires g.Valid() && |g.vertices| == GridSize(lines, columns)
    modifies g.vertices
    ensures g.Valid()
    ensures forall i :: 0 <= i < |g.vertices| ==>
      && IdsOf(g.vertices[i].neighbors) == old(NeighborIds(g.vertices))[i] + Targets(columns, LinksOf(layout, lines, columns, i))
      && IdsOf(g.vertices[i].diagonalNeighbors)
         == old(DiagonalIds(g.vertices))[i] + Targets(columns, Diagonals(LinksOf(layout, lines, columns, i)))
    ensures Times(g.vertices) == old(Times(g.vertices)) && Prevs(g.vertices) == old(Prevs(g.vertices))
  {
    var vertices := g.vertices;
    ghost var adj0, diag0 := NeighborIds(vertices), DiagonalIds(vertices);
    ghost var time0, prev0 := Times(vertices), Prevs(vertices);
    ghost var adjF, diagF := AfterWiring(layout, lines, columns, adj0, false), AfterWiring(layout, lines, columns, diag0, true);
    WiringStart(g, adjF, diagF);
    WireRows(layout, vertices, lines, columns, adj0, diag0, adjF, diagF, time0, prev0);
    WiringEnd(g, adj0, diag0, adjF, diagF, time0, prev0);
  }
}
