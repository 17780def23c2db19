/**
 * The grids the two readers build. Cell (l, c) of a map with `lines` rows and `columns` columns
 * is the vertex with id `l * columns + c`. A configuration file gives every cell its in-bounds
 * neighbours at Chebyshev distance 1, the four diagonal ones flagged; an image gives every cell
 * its in-bounds neighbours at Manhattan distance 1, none flagged.
 */
module Grids {
  import opened Graph
  import opened Heuristics
  import opened Walks

  /** One `addNeighbor` call of a reader: the neighbour's cell and the `isDiagonal` flag. */
  datatype Link = Link(row: int, col: int, diagonal: bool)

  predicate InGrid(lines: int, columns: int, l: int, c: int)
  {
    0 <= l < lines && 0 <= c < columns
  }

  /** The number of vertices a reader creates for the map: none unless both sizes are positive. */
  function GridSize(lines: int, columns: int): nat
  {
    if lines <= 0 || columns <= 0 then 0 else lines * columns
  }

  /** The vertex id of cell (l, c). */
  function CellId(columns: int, l: int, c: int): int
  {
    l * columns + c
  }

  /** `setNeighbors` of the file reader: the links of cell (l, c), in the order they are added. */
  function FileLinks(lines: int, columns: int, l: int, c: int): (links: seq<Link>)
    ensures |links| <= 8
  {
    (if l < lines - 1 && c < columns - 1 then [Link(l + 1, c + 1, true)] else [])
    + (if l < lines - 1 then [Link(l + 1, c, false)] else [])
    + (if c > 0 && l < lines - 1 then [Link(l + 1, c - 1, true)] else [])
    + (if c < columns - 1 then [Link(l, c + 1, false)] else [])
    + (if c > 0 then [Link(l, c - 1, false)] else [])
    + (if l > 0 && c < columns - 1 then [Link(l - 1, c + 1, true)] else [])
    + (if l > 0 && c > 0 then [Link(l - 1, c - 1, true)] else [])
    + (if l > 0 then [Link(l - 1, c, false)] else [])
  }

  /** `setNeighbors` of the image reader: the links of cell (l, c), in the order they are added. */
  function ImageLinks(lines: int, columns: int, l: int, c: int): (links: seq<Link>)
    ensures |links| <= 4
  {
    (if l < lines - 1 then [Link(l + 1, c, false)] else [])
    + (if c < columns - 1 then [Link(l, c + 1, false)] else [])
    + (if c > 0 then [Link(l, c - 1, false)] else [])
    + (if l > 0 then [Link(l - 1, c, false)] else [])
  }

  /** The links added with the diagonal flag, in order. */
  function Diagonals(links: seq<Link>): (d: seq<Link>)
    ensures |d| <= |links|
  {
    if links == [] then []
    else Diagonals(links[..|links| - 1]) + if links[|links| - 1].diagonal then [links[|links| - 1]] else []
  }

  /** The diagonal links are exactly the links flagged diagonal. */
  lemma {:induction false} DiagonalsMembers(links: seq<Link>)
    ensures forall x :: x in Diagonals(links) <==> x in links && x.diagonal
    decreases |links|
  {
    if links != [] {
      var init := links[..|links| - 1];
      DiagonalsMembers(init);
      assert links == init + [links[|links| - 1]];
    }
  }

  /** The diagonal links of a concatenation are those of each part, in order. */
  lemma {:induction false} DiagonalsConcat(links: seq<Link>, more: seq<Link>)
    ensures Diagonals(links + more) == Diagonals(links) + Diagonals(more)
    decreases |more|
  {
    if more == [] {
      assert links + more == links;
    } else {
      var init := more[..|more| - 1];
      assert (links + more)[..|links + more| - 1] == links + init;
      DiagonalsConcat(links, init);
    }
  }

  /** The vertex ids of the linked cells, in order. */
  function Targets(columns: int, links: seq<Link>): (ids: seq<int>)
    ensures |ids| == |links|
    ensures forall k :: 0 <= k < |links| ==> ids[k] == CellId(columns, links[k].row, links[k].col)
  {
    seq(|links|, k requires 0 <= k < |links| => CellId(columns, links[k].row, links[k].col))
  }

  /** The cells of the rows before row `line`, counted row by row. */
  function RowsBefore(line: int, columns: int): int
    decreases line
  {
    if line <= 0 || columns <= 0 then 0 else RowsBefore(line - 1, columns) + columns
  }

  /** Counted row by row, the cells before row `line` are `GridSize(line, columns)`. */
  lemma {:induction false} RowsBeforeSize(line: int, columns: int)
    ensures RowsBefore(line, columns) == GridSize(line, columns)
    ensures line >= 0 && columns > 0 ==> RowsBefore(line, columns) == line * columns
    decreases line
  {
    if line > 0 && columns > 0 {
      RowsBeforeSize(line - 1, columns);
      assert line * columns == (line - 1) * columns + columns;
    }
  }

  /** A cell of the grid has an id below the vertex count. */
  lemma CellIdInRange(lines: int, columns: int, l: int, c: int)
    requires InGrid(lines, columns, l, c)
    ensures 0 <= CellId(columns, l, c) < GridSize(lines, columns)
  {
    ProductAtLeast(columns, l + 1);
    ProductAtLeast(columns, lines - l);
    assert lines * columns == (l + 1) * columns + (lines - l - 1) * columns;
    assert (lines - l - 1) * columns >= 0 by {
      if lines - l - 1 > 0 {
        ProductAtLeast(columns, lines - l - 1);
      }
    }
  }

  /** The row and column of a cell are recovered from its id. */
  lemma CellOfId(columns: int, l: int, c: int)
    requires 0 <= c < columns
    ensures CellId(columns, l, c) / columns == l && CellId(columns, l, c) % columns == c
  {
    DivisionUnique(CellId(columns, l, c), columns, l, c);
  }

  /** Every id of the grid is the id of the cell at its row and column. */
  lemma IdOfCell(lines: int, columns: int, v: int)
    requires 0 <= v < GridSize(lines, columns)
    ensures InGrid(lines, columns, v / columns, v % columns) && CellId(columns, v / columns, v % columns) == v
  {
  }

  /** Ids of grid cells are equal only for equal cells. */
  lemma CellIdInjective(columns: int, l: int, c: int, l2: int, c2: int)
    requires 0 <= c < columns && 0 <= c2 < columns && CellId(columns, l, c) == CellId(columns, l2, c2)
    ensures l == l2 && c == c2
  {
    CellOfId(columns, l, c);
    CellOfId(columns, l2, c2);
  }

  /**
   * A cell's file links are exactly its in-bounds cells at Chebyshev distance 1, each flagged
   * diagonal exactly when both coordinates differ.
   */
  lemma FileLinksExact(lines: int, columns: int, l: int, c: int, x: Link)
    requires InGrid(lines, columns, l, c)
    ensures x in FileLinks(lines, columns, l, c)
      <==> InGrid(lines, columns, x.row, x.col) && Chebyshev(l, c, x.row, x.col) == 1
           && x.diagonal == (x.row != l && x.col != c)
  {
  }

  /** A cell's image links are exactly its in-bounds cells at Manhattan distance 1, none flagged diagonal. */
  lemma ImageLinksExact(lines: int, columns: int, l: int, c: int, x: Link)
    requires InGrid(lines, columns, l, c)
    ensures x in ImageLinks(lines, columns, l, c)
      <==> InGrid(lines, columns, x.row, x.col) && Manhattan(l, c, x.row, x.col) == 1 && !x.diagonal
  {
  }

  /** No cell is linked twice. */
  lemma LinksDistinct(lines: int, columns: int, l: int, c: int)
    ensures forall i, j :: 0 <= i < j < |FileLinks(lines, columns, l, c)| ==>
      (FileLinks(lines, columns, l, c)[i].row, FileLinks(lines, columns, l, c)[i].col)
        != (FileLinks(lines, columns, l, c)[j].row, FileLinks(lines, columns, l, c)[j].col)
    ensures forall i, j :: 0 <= i < j < |ImageLinks(lines, columns, l, c)| ==>
      (ImageLinks(lines, columns, l, c)[i].row, ImageLinks(lines, columns, l, c)[i].col)
        != (ImageLinks(lines, columns, l, c)[j].row, ImageLinks(lines, columns, l, c)[j].col)
  {
  }

  /** The topology a configuration file yields: neighbours and diagonal neighbours from `FileLinks`. */
  ghost function FileGrid(lines: int, columns: int, weight: seq<int>): (G: Topology)
    requires |weight| == GridSize(lines, columns)
    ensures G.weight == weight && |G.adj| == |weight| && |G.diag| == |weight|
  {
    Topology(weight,
      seq(|weight|, u requires 0 <= u < |weight| => Targets(columns, FileLinks(lines, columns, u / columns, u % columns))),
      seq(|weight|, u requires 0 <= u < |weight| => Targets(columns, Diagonals(FileLinks(lines, columns, u / columns, u % columns)))))
  }

  /** The topology an image yields: neighbours from `ImageLinks` and no diagonal neighbours. */
  ghost function ImageGrid(lines: int, columns: int, weight: seq<int>): (G: Topology)
    requires |weight| == GridSize(lines, columns)
    ensures G.weight == weight && |G.adj| == |weight| && |G.diag| == |weight|
  {
    Topology(weight,
      seq(|weight|, u requires 0 <= u < |weight| => Targets(columns, ImageLinks(lines, columns, u / columns, u % columns))),
      seq(|weight|, u requires 0 <= u < |weight| => []))
  }

  /** `v` is among the targets of `links` exactly when its cell is linked, for links inside the grid. */
  lemma TargetsCell(lines: int, columns: int, links: seq<Link>, v: int)
    requires forall k :: 0 <= k < |links| ==> InGrid(lines, columns, links[k].row, links[k].col)
    requires 0 <= v < GridSize(lines, columns)
    ensures v in Targets(columns, links) <==> exists k :: 0 <= k < |links| && links[k].row == v / columns && links[k].col == v % columns
  {
    IdOfCell(lines, columns, v);
    if v in Targets(columns, links) {
      var k :| 0 <= k < |links| && Targets(columns, links)[k] == v;
      CellIdInjective(columns, links[k].row, links[k].col, v / columns, v % columns);
    }
  }

  /** The targets of links inside the grid are vertex ids. */
  lemma TargetsInRange(lines: int, columns: int, links: seq<Link>)
    requires forall k :: 0 <= k < |links| ==> InGrid(lines, columns, links[k].row, links[k].col)
    ensures forall k :: 0 <= k < |links| ==> 0 <= Targets(columns, links)[k] < GridSize(lines, columns)
  {
    forall k | 0 <= k < |links|
      ensures 0 <= Targets(columns, links)[k] < GridSize(lines, columns)
    {
      CellIdInRange(lines, columns, links[k].row, links[k].col);
    }
  }

  /** The file links of a cell, as ids, are the ids of the cells at Chebyshev distance 1. */
  lemma FileTargets(lines: int, columns: int, l: int, c: int, v: int)
    requires InGrid(lines, columns, l, c) && 0 <= v < GridSize(lines, columns)
    ensures v in Targets(columns, FileLinks(lines, columns, l, c)) <==> Chebyshev(l, c, v / columns, v % columns) == 1
  {
    var links := FileLinks(lines, columns, l, c);
    forall k | 0 <= k < |links|
      ensures InGrid(lines, columns, links[k].row, links[k].col)
    {
      FileLinksExact(lines, columns, l, c, links[k]);
    }
    TargetsCell(lines, columns, links, v);
    IdOfCell(lines, columns, v);
    var x := Link(v / columns, v % columns, v / columns != l && v % columns != c);
    FileLinksExact(lines, columns, l, c, x);
    if v in Targets(columns, links) {
      var k :| 0 <= k < |links| && links[k].row == v / columns && links[k].col == v % columns;
      FileLinksExact(lines, columns, l, c, links[k]);
    }
  }

  /** A cell's diagonal file links are its in-bounds cells at Chebyshev distance 1 differing in both coordinates. */
  lemma FileDiagonalsExact(lines: int, columns: int, l: int, c: int, x: Link)
    requires InGrid(lines, columns, l, c)
    ensures x in Diagonals(FileLinks(lines, columns, l, c))
      <==> InGrid(lines, columns, x.row, x.col) && Chebyshev(l, c, x.row, x.col) == 1
           && x.row != l && x.col != c && x.diagonal
  {
    DiagonalsMembers(FileLinks(lines, columns, l, c));
    FileLinksExact(lines, columns, l, c, x);
  }

  /** The diagonal file links of a cell, as ids, are those at Chebyshev distance 1 differing in both coordinates. */
  lemma FileDiagonalTargets(lines: int, columns: int, l: int, c: int, v: int)
    requires InGrid(lines, columns, l, c) && 0 <= v < GridSize(lines, columns)
    ensures v in Targets(columns, Diagonals(FileLinks(lines, columns, l, c)))
      <==> Chebyshev(l, c, v / columns, v % columns) == 1 && v / columns != l && v % columns != c
  {
    var diags := Diagonals(FileLinks(lines, columns, l, c));
    forall k | 0 <= k < |diags|
      ensures InGrid(lines, columns, diags[k].row, diags[k].col)
    {
      FileDiagonalsExact(lines, columns, l, c, diags[k]);
    }
    TargetsCell(lines, columns, diags, v);
    IdOfCell(lines, columns, v);
    FileDiagonalsExact(lines, columns, l, c, Link(v / columns, v % columns, true));
    if v in Targets(columns, diags) {
      var k :| 0 <= k < |diags| && diags[k].row == v / columns && diags[k].col == v % columns;
      FileDiagonalsExact(lines, columns, l, c, diags[k]);
    }
  }

  /**
   * In the file grid, `v` is a neighbour of `u` exactly when their cells are at Chebyshev distance
   * 1, and a diagonal neighbour exactly when, in addition, both coordinates differ.
   */
  lemma FileGridNeighbors(lines: int, columns: int, weight: seq<int>, u: int, v: int)
    requires |weight| == GridSize(lines, columns) && 0 <= u < |weight| && 0 <= v < |weight|
    ensures v in FileGrid(lines, columns, weight).adj[u]
      <==> Chebyshev(u / columns, u % columns, v / columns, v % columns) == 1
    ensures v in FileGrid(lines, columns, weight).diag[u]
      <==> v in FileGrid(lines, columns, weight).adj[u] && u / columns != v / columns && u % columns != v % columns
  {
    IdOfCell(lines, columns, u);
    FileTargets(lines, columns, u / columns, u % columns, v);
    FileDiagonalTargets(lines, columns, u / columns, u % columns, v);
  }

  /** In the image grid, `v` is a neighbour of `u` exactly when their cells are at Manhattan distance 1; nothing is diagonal. */
  lemma ImageGridNeighbors(lines: int, columns: int, weight: seq<int>, u: int, v: int)
    requires |weight| == GridSize(lines, columns) && 0 <= u < |weight| && 0 <= v < |weight|
    ensures v in ImageGrid(lines, columns, weight).adj[u]
      <==> Manhattan(u / columns, u % columns, v / columns, v % columns) == 1
    ensures ImageGrid(lines, columns, weight).diag[u] == []
  {
    var G := ImageGrid(lines, columns, weight);
    var l, c := u / columns, u % columns;
    IdOfCell(lines, columns, u);
    var links := ImageLinks(lines, columns, l, c);
    forall k | 0 <= k < |links|
      ensures InGrid(lines, columns, links[k].row, links[k].col)
    {
      ImageLinksExact(lines, columns, l, c, links[k]);
    }
    TargetsCell(lines, columns, links, v);
    IdOfCell(lines, columns, v);
    var x := Link(v / columns, v % columns, false);
    ImageLinksExact(lines, columns, l, c, x);
    if v in G.adj[u] {
      var k :| 0 <= k < |links| && links[k].row == v / columns && links[k].col == v % columns;
      ImageLinksExact(lines, columns, l, c, links[k]);
    }
    if Manhattan(l, c, v / columns, v % columns) == 1 {
      var k :| 0 <= k < |links| && links[k] == x;
    }
  }

  /** Distinct links inside the grid have distinct targets. */
  lemma TargetsDistinct(lines: int, columns: int, links: seq<Link>)
    requires forall k :: 0 <= k < |links| ==> InGrid(lines, columns, links[k].row, links[k].col)
    requires forall i, j :: 0 <= i < j < |links| ==> (links[i].row, links[i].col) != (links[j].row, links[j].col)
    ensures forall i, j :: 0 <= i < j < |links| ==> Targets(columns, links)[i] != Targets(columns, links)[j]
  {
    forall i, j | 0 <= i < j < |links|
      ensures Targets(columns, links)[i] != Targets(columns, links)[j]
    {
      if Targets(columns, links)[i] == Targets(columns, links)[j] {
        CellIdInjective(columns, links[i].row, links[i].col, links[j].row, links[j].col);
      }
    }
  }

  /** No vertex of either grid lists a neighbour twice; a file cell has at most 8 neighbours, an image cell at most 4. */
  lemma GridsDistinct(lines: int, columns: int, weight: seq<int>, u: int)
    requires |weight| == GridSize(lines, columns) && 0 <= u < |weight|
    ensures forall i, j :: 0 <= i < j < |FileGrid(lines, columns, weight).adj[u]| ==>
      FileGrid(lines, columns, weight).adj[u][i] != FileGrid(lines, columns, weight).adj[u][j]
    ensures forall i, j :: 0 <= i < j < |ImageGrid(lines, columns, weight).adj[u]| ==>
      ImageGrid(lines, columns, weight).adj[u][i] != ImageGrid(lines, columns, weight).adj[u][j]
    ensures |FileGrid(lines, columns, weight).adj[u]| <= 8 && |ImageGrid(lines, columns, weight).adj[u]| <= 4
  {
    var l, c := u / columns, u % columns;
    IdOfCell(lines, columns, u);
    LinksDistinct(lines, columns, l, c);
    var links := FileLinks(lines, columns, l, c);
    forall k | 0 <= k < |links|
      ensures InGrid(lines, columns, links[k].row, links[k].col)
    {
      FileLinksExact(lines, columns, l, c, links[k]);
    }
    TargetsDistinct(lines, columns, links);
    var image := ImageLinks(lines, columns, l, c);
    forall k | 0 <= k < |image|
      ensures InGrid(lines, columns, image[k].row, image[k].col)
    {
      ImageLinksExact(lines, columns, l, c, image[k]);
    }
    TargetsDistinct(lines, columns, image);
  }

  /**
   * The file grid is well formed and symmetric: neighbours and diagonal neighbours go both ways,
   * no vertex is its own neighbour, and every edge weighs the same in both directions.
   */
  lemma FileGridSymmetric(lines: int, columns: int, weight: seq<int>, u: int, v: int)
    requires |weight| == GridSize(lines, columns) && 0 <= u < |weight| && 0 <= v < |weight|
    ensures FileGrid(lines, columns, weight).WellFormed()
    ensures v in FileGrid(lines, columns, weight).adj[u] <==> u in FileGrid(lines, columns, weight).adj[v]
    ensures v in FileGrid(lines, columns, weight).diag[u] <==> u in FileGrid(lines, columns, weight).diag[v]
    ensures u !in FileGrid(lines, columns, weight).adj[u]
    ensures EdgeWeight(FileGrid(lines, columns, weight), u, v) == EdgeWeight(FileGrid(lines, columns, weight), v, u)
  {
    var G := FileGrid(lines, columns, weight);
    FileGridWellFormed(lines, columns, weight);
    FileGridNeighbors(lines, columns, weight, u, v);
    FileGridNeighbors(lines, columns, weight, v, u);
    FileGridNeighbors(lines, columns, weight, u, u);
    EstimateSymmetric(CHEBYSHEV, x => x, u / columns, u % columns, v / columns, v % columns);
    EdgeWeightSymmetric(G, u, v);
  }

  /** The file grid only names vertices of the grid. */
  lemma FileGridWellFormed(lines: int, columns: int, weight: seq<int>)
    requires |weight| == GridSize(lines, columns)
    ensures FileGrid(lines, columns, weight).WellFormed()
  {
    var G := FileGrid(lines, columns, weight);
    forall u | 0 <= u < |weight|
      ensures forall k :: 0 <= k < |G.adj[u]| ==> 0 <= G.adj[u][k] < |weight|
      ensures forall k :: 0 <= k < |G.diag[u]| ==> 0 <= G.diag[u][k] < |weight|
    {
      var l, c := u / columns, u % columns;
      IdOfCell(lines, columns, u);
      var links := FileLinks(lines, columns, l, c);
      forall k | 0 <= k < |links|
        ensures InGrid(lines, columns, links[k].row, links[k].col)
      {
        FileLinksExact(lines, columns, l, c, links[k]);
      }
      TargetsInRange(lines, columns, links);
      var diags := Diagonals(links);
      DiagonalsMembers(links);
      forall k | 0 <= k < |diags|
        ensures InGrid(lines, columns, diags[k].row, diags[k].col)
      {
        assert diags[k] in links;
      }
      TargetsInRange(lines, columns, diags);
    }
  }

  /** The image grid is well formed and symmetric, without self-loops, and its edges weigh the same both ways. */
  lemma ImageGridSymmetric(lines: int, columns: int, weight: seq<int>, u: int, v: int)
    requires |weight| == GridSize(lines, columns) && 0 <= u < |weight| && 0 <= v < |weight|
    ensures ImageGrid(lines, columns, weight).WellFormed()
    ensures v in ImageGrid(lines, columns, weight).adj[u] <==> u in ImageGrid(lines, columns, weight).adj[v]
    ensures u !in ImageGrid(lines, columns, weight).adj[u]
    ensures EdgeWeight(ImageGrid(lines, columns, weight), u, v) == EdgeWeight(ImageGrid(lines, columns, weight), v, u)
  {
    var G := ImageGrid(lines, columns, weight);
    forall w | 0 <= w < |weight|
      ensures forall k :: 0 <= k < |G.adj[w]| ==> 0 <= G.adj[w][k] < |weight|
    {
      var l, c := w / columns, w % columns;
      IdOfCell(lines, columns, w);
      var links := ImageLinks(lines, columns, l, c);
      forall k | 0 <= k < |links|
        ensures InGrid(lines, columns, links[k].row, links[k].col)
      {
        ImageLinksExact(lines, columns, l, c, links[k]);
      }
      TargetsInRange(lines, columns, links);
    }
    ImageGridNeighbors(lines, columns, weight, u, v);
    ImageGridNeighbors(lines, columns, weight, v, u);
    ImageGridNeighbors(lines, columns, weight, u, u);
    EstimateSymmetric(MANHATTAN, x => x, u / columns, u % columns, v / columns, v % columns);
    EdgeWeightSymmetric(G, u, v);
  }

  /** Appending links appends their targets. */
  lemma TargetsConcat(columns: int, links: seq<Link>, more: seq<Link>)
    ensures Targets(columns, links + more) == Targets(columns, links) + Targets(columns, more)
  {
  }

  /** Appending links to a prefix, as targets after `base`, appends their targets at the end. */
  lemma TargetsStep(columns: int, base: seq<int>, links: seq<Link>, more: seq<Link>)
    ensures base + Targets(columns, links + more) == base + Targets(columns, links) + Targets(columns, more)
  {
    TargetsConcat(columns, links, more);
  }

  /** Appending links to a prefix, as diagonal targets after `base`, appends their diagonal targets at the end. */
  lemma DiagonalsStep(columns: int, base: seq<int>, links: seq<Link>, more: seq<Link>)
    ensures base + Targets(columns, Diagonals(links + more))
      == base + Targets(columns, Diagonals(links)) + Targets(columns, Diagonals(more))
  {
    DiagonalsConcat(links, more);
    TargetsConcat(columns, Diagonals(links), Diagonals(more));
  }

  /**
   * The targets of a file cell's links, after `base`, are those of its eight guarded links
   * appended one at a time: what eight conditional `addNeighbor` calls build.
   */
  lemma FileLinksPieces(lines: int, columns: int, l: int, c: int, base: seq<int>)
    ensures base + Targets(columns, FileLinks(lines, columns, l, c))
      == base
      + Targets(columns, if l < lines - 1 && c < columns - 1 then [Link(l + 1, c + 1, true)] else [])
      + Targets(columns, if l < lines - 1 then [Link(l + 1, c, false)] else [])
      + Targets(columns, if c > 0 && l < lines - 1 then [Link(l + 1, c - 1, true)] else [])
      + Targets(columns, if c < columns - 1 then [Link(l, c + 1, false)] else [])
      + Targets(columns, if c > 0 then [Link(l, c - 1, false)] else [])
      + Targets(columns, if l > 0 && c < columns - 1 then [Link(l - 1, c + 1, true)] else [])
      + Targets(columns, if l > 0 && c > 0 then [Link(l - 1, c - 1, true)] else [])
      + Targets(columns, if l > 0 then [Link(l - 1, c, false)] else [])
  {
    var w1 := if l < lines - 1 && c < columns - 1 then [Link(l + 1, c + 1, true)] else [];
    var w2 := if l < lines - 1 then [Link(l + 1, c, false)] else [];
    var w3 := if c > 0 && l < lines - 1 then [Link(l + 1, c - 1, true)] else [];
    var w4 := if c < columns - 1 then [Link(l, c + 1, false)] else [];
    var w5 := if c > 0 then [Link(l, c - 1, false)] else [];
    var w6 := if l > 0 && c < columns - 1 then [Link(l - 1, c + 1, true)] else [];
    var w7 := if l > 0 && c > 0 then [Link(l - 1, c - 1, true)] else [];
    var w8 := if l > 0 then [Link(l - 1, c, false)] else [];
    assert base + Targets(columns, w1) == base + Targets(columns, [] + w1);
    TargetsStep(columns, base, [] + w1, w2);
    TargetsStep(columns, base, [] + w1 + w2, w3);
    TargetsStep(columns, base, [] + w1 + w2 + w3, w4);
    TargetsStep(columns, base, [] + w1 + w2 + w3 + w4, w5);
    TargetsStep(columns, base, [] + w1 + w2 + w3 + w4 + w5, w6);
    TargetsStep(columns, base, [] + w1 + w2 + w3 + w4 + w5 + w6, w7);
    TargetsStep(columns, base, [] + w1 + w2 + w3 + w4 + w5 + w6 + w7, w8);
    assert [] + w1 == w1;
  }

  /** The diagonal targets of a file cell's links, after `base`, are those of its eight guarded links appended one at a time. */
  lemma FileDiagonalsPieces(lines: int, columns: int, l: int, c: int, base: seq<int>)
    ensures base + Targets(columns, Diagonals(FileLinks(lines, columns, l, c)))
      == base
      + Targets(columns, Diagonals(if l < lines - 1 && c < columns - 1 then [Link(l + 1, c + 1, true)] else []))
      + Targets(columns, Diagonals(if l < lines - 1 then [Link(l + 1, c, false)] else []))
      + Targets(columns, Diagonals(if c > 0 && l < lines - 1 then [Link(l + 1, c - 1, true)] else []))
      + Targets(columns, Diagonals(if c < columns - 1 then [Link(l, c + 1, false)] else []))
      + Targets(columns, Diagonals(if c > 0 then [Link(l, c - 1, false)] else []))
      + Targets(columns, Diagonals(if l > 0 && c < columns - 1 then [Link(l - 1, c + 1, true)] else []))
      + Targets(columns, Diagonals(if l > 0 && c > 0 then [Link(l - 1, c - 1, true)] else []))
      + Targets(columns, Diagonals(if l > 0 then [Link(l - 1, c, false)] else []))
  {
    var w1 := if l < lines - 1 && c < columns - 1 then [Link(l + 1, c + 1, true)] else [];
    var w2 := if l < lines - 1 then [Link(l + 1, c, false)] else [];
    var w3 := if c > 0 && l < lines - 1 then [Link(l + 1, c - 1, true)] else [];
    var w4 := if c < columns - 1 then [Link(l, c + 1, false)] else [];
    var w5 := if c > 0 then [Link(l, c - 1, false)] else [];
    var w6 := if l > 0 && c < columns - 1 then [Link(l - 1, c + 1, true)] else [];
    var w7 := if l > 0 && c > 0 then [Link(l - 1, c - 1, true)] else [];
    var w8 := if l > 0 then [Link(l - 1, c, false)] else [];
    assert base + Targets(columns, Diagonals(w1)) == base + Targets(columns, Diagonals([] + w1));
    DiagonalsStep(columns, base, [] + w1, w2);
    DiagonalsStep(columns, base, [] + w1 + w2, w3);
    DiagonalsStep(columns, base, [] + w1 + w2 + w3, w4);
    DiagonalsStep(columns, base, [] + w1 + w2 + w3 + w4, w5);
    DiagonalsStep(columns, base, [] + w1 + w2 + w3 + w4 + w5, w6);
    DiagonalsStep(columns, base, [] + w1 + w2 + w3 + w4 + w5 + w6, w7);
    DiagonalsStep(columns, base, [] + w1 + w2 + w3 + w4 + w5 + w6 + w7, w8);
    assert [] + w1 == w1;
  }

  /** The targets of an image cell's links, after `base`, are those of its four guarded links appended one at a time. */
  lemma ImageLinksPieces(lines: int, columns: int, l: int, c: int, base: seq<int>)
    ensures base + Targets(columns, ImageLinks(lines, columns, l, c))
      == base
      + Targets(columns, if l < lines - 1 then [Link(l + 1, c, false)] else [])
      + Targets(columns, if c < columns - 1 then [Link(l, c + 1, false)] else [])
      + Targets(columns, if c > 0 then [Link(l, c - 1, false)] else [])
      + Targets(columns, if l > 0 then [Link(l - 1, c, false)] else [])
  {
    var w1 := if l < lines - 1 then [Link(l + 1, c, false)] else [];
    var w2 := if c < columns - 1 then [Link(l, c + 1, false)] else [];
    var w3 := if c > 0 then [Link(l, c - 1, false)] else [];
    var w4 := if l > 0 then [Link(l - 1, c, false)] else [];
    assert base + Targets(columns, w1) == base + Targets(columns, [] + w1);
    TargetsStep(columns, base, [] + w1, w2);
    TargetsStep(columns, base, [] + w1 + w2, w3);
    TargetsStep(columns, base, [] + w1 + w2 + w3, w4);
    assert [] + w1 == w1;
  }

  /** No link of an image cell is diagonal. */
  lemma ImageLinksStraight(lines: int, columns: int, l: int, c: int)
    ensures Diagonals(ImageLinks(lines, columns, l, c)) == []
  {
    var w1 := if l < lines - 1 then [Link(l + 1, c, false)] else [];
    var w2 := if c < columns - 1 then [Link(l, c + 1, false)] else [];
    var w3 := if c > 0 then [Link(l, c - 1, false)] else [];
    var w4 := if l > 0 then [Link(l - 1, c, false)] else [];
    DiagonalsConcat(w1 + w2 + w3, w4);
    DiagonalsConcat(w1 + w2, w3);
    DiagonalsConcat(w1, w2);
  }
}
