/**
 * `GraphImageReader`: reads an image into a fresh `WeightedGraph` with one vertex per pixel,
 * row by row, and a 4-connected grid of neighbours; the start and end vertices are the first
 * and the last pixel. Decoding a pixel's colour into a vertex type is a parameter, `pixel`.
 */
module ImageReaders {
  import opened Wrappers
  import opened Graph
  import opened Grids
  import opened WiringState
  import opened Wiring

  /** The exception `read` throws when the image has no pixel: `getFirst` of an empty list. */
  datatype ImageError = NoSuchElement

  /** The types of the pixels of row `y`, left to right. */
  function Row(pixel: (int, int) -> VertexType, y: int, width: int): (ts: seq<VertexType>)
    ensures |ts| == if width <= 0 then 0 else width
    ensures forall x :: 0 <= x < |ts| ==> ts[x] == pixel(x, y)
    decreases width
  {
    if width <= 0 then [] else Row(pixel, y, width - 1) + [pixel(width - 1, y)]
  }

  /** The types of the pixels of the first `height` rows, row by row. */
  function Pixels(pixel: (int, int) -> VertexType, height: int, width: int): (ts: seq<VertexType>)
    ensures |ts| == RowsBefore(height, width)
    decreases height
  {
    if height <= 0 then [] else Pixels(pixel, height - 1, width) + Row(pixel, height - 1, width)
  }

  /** The cells of an image of `height` rows are its pixels: cell `i` is pixel `(i % width, i / width)`. */
  lemma {:induction false} PixelsAt(pixel: (int, int) -> VertexType, height: int, width: int)
    ensures |Pixels(pixel, height, width)| == GridSize(height, width)
    ensures forall i :: 0 <= i < |Pixels(pixel, height, width)| ==>
      Pixels(pixel, height, width)[i] == pixel(i % width, i / width)
    decreases height
  {
    RowsBeforeSize(height, width);
    if height > 0 && width > 0 {
      PixelsAt(pixel, height - 1, width);
      var before := Pixels(pixel, height - 1, width);
      RowsBeforeSize(height - 1, width);
      forall i | |before| <= i < |Pixels(pixel, height, width)|
        ensures Pixels(pixel, height, width)[i] == pixel(i % width, i / width)
      {
        CellOfId(width, height - 1, i - |before|);
      }
    }
  }

  /** The first cell of an image with pixels is its top-left pixel, and the last its bottom-right one. */
  lemma FirstLastPixels(pixel: (int, int) -> VertexType, height: int, width: int)
    requires GridSize(height, width) > 0
    ensures |Pixels(pixel, height, width)| == GridSize(height, width)
    ensures Pixels(pixel, height, width)[0] == pixel(0, 0)
    ensures Pixels(pixel, height, width)[GridSize(height, width) - 1] == pixel(width - 1, height - 1)
  {
    PixelsAt(pixel, height, width);
    assert GridSize(height, width) - 1 == CellId(width, height - 1, width - 1);
    CellOfId(width, height - 1, width - 1);
  }

  /**
   * The inner loop of `setVertices`: one vertex per pixel of a row, appended left to right with
   * the types `row` its pixels decode to.
   */
  method AppendRow(g: WeightedGraph, row: seq<VertexType>) returns (ghost added: seq<Vertex>)
    requires g.Valid()
    modifies g
    ensures g.Valid()
    ensures TypesOf(g.vertices) == TypesOf(old(g.vertices)) + row
    ensures g.vertices == old(g.vertices) + added && New(added)
  {
    ghost var before := g.vertices;
    added := [];
    var x := 0;
    while x < |row|
      invariant g.Valid() && 0 <= x <= |row|
      invariant TypesOf(g.vertices) == TypesOf(before) + row[..x]
      invariant g.vertices == before + added && New(added)
    {
      ghost var previous := g.vertices;
      g.AddVertex(row[x]);
      added := added + [g.vertices[|previous|]];
      assert TypesOf(g.vertices) == TypesOf(previous) + [row[x]];
      assert row[..x + 1] == row[..x] + [row[x]];
      x := x + 1;
    }
    assert row[..x] == row;
  }

  /** `acc` followed by the types of the pixels of rows `y` to `height - 1`, row by row. */
  function RowsFrom(pixel: (int, int) -> VertexType, y: int, height: int, width: int, acc: seq<VertexType>): seq<VertexType>
    decreases height - y
  {
    if y >= height then acc else RowsFrom(pixel, y + 1, height, width, acc + Row(pixel, y, width))
  }

  /** Appending the rows from `y` on to the first `y` rows gives all the rows of the image. */
  lemma {:induction false} RowsFromPixels(pixel: (int, int) -> VertexType, y: int, height: int, width: int, acc: seq<VertexType>)
    requires 0 <= y && (y <= height || y == 0)
    ensures RowsFrom(pixel, y, height, width, acc + Pixels(pixel, y, width)) == acc + Pixels(pixel, height, width)
    decreases height - y
  {
    if y < height {
      var before, row := Pixels(pixel, y, width), Row(pixel, y, width);
      assert Pixels(pixel, y + 1, width) == before + row;
      assert acc + before + row == acc + (before + row);
      RowsFromPixels(pixel, y + 1, height, width, acc);
    }
  }

  /** The outer loop of `setVertices`: the rows of the image, top to bottom, each appended as `AppendRow` does. */
  method AppendRows(g: WeightedGraph, pixel: (int, int) -> VertexType, height: int, width: int) returns (ghost added: seq<Vertex>)
    requires g.Valid()
    modifies g
    ensures g.Valid()
    ensures TypesOf(g.vertices) == RowsFrom(pixel, 0, height, width, TypesOf(old(g.vertices)))
    ensures g.vertices == old(g.vertices) + added && New(added)
  {
    ghost var before := g.vertices;
    added := [];
    var y := 0;
    while y < height
      invariant g.Valid()
      invariant RowsFrom(pixel, y, height, width, TypesOf(g.vertices)) == RowsFrom(pixel, 0, height, width, TypesOf(before))
      invariant g.vertices == before + added && New(added)
    {
      ghost var more := AppendRow(g, Row(pixel, y, width));
      added := added + more;
      y := y + 1;
    }
  }

  class GraphImageReader {
    var weightedGraph: WeightedGraph?
    var start: Vertex?
    var end: Vertex?
    var lines: int
    var columns: int

    /** `new GraphImageReader(path)`: nothing read yet. */
    constructor()
      ensures weightedGraph == null && start == null && end == null
      ensures lines == 0 && columns == 0
    {
      weightedGraph := null;
      start := null;
      end := null;
      lines := 0;
      columns := 0;
    }

    /** `setVertices(image)`: a vertex per pixel, row by row, with the type its colour decodes to. */
    method SetVertices(pixel: (int, int) -> VertexType) returns (ghost added: seq<Vertex>)
      requires weightedGraph != null && weightedGraph.Valid()
      modifies weightedGraph
      ensures weightedGraph.Valid()
      ensures TypesOf(weightedGraph.vertices) == TypesOf(old(weightedGraph.vertices)) + Pixels(pixel, lines, columns)
      ensures weightedGraph.vertices == old(weightedGraph.vertices) + added && New(added)
    {
      added := AppendRows(weightedGraph, pixel, lines, columns);
      assert TypesOf(old(weightedGraph.vertices)) + Pixels(pixel, 0, columns) == TypesOf(old(weightedGraph.vertices));
      RowsFromPixels(pixel, 0, lines, columns, TypesOf(old(weightedGraph.vertices)));
    }

    /**
     * `setNeighbors`: every vertex of the grid gets, after the neighbours it had, those of its
     * cell's `ImageLinks`, none of them diagonal.
     */
    method SetNeighbors()
      requires weightedGraph != null && weightedGraph.Valid()
      requires |weightedGraph.vertices| == GridSize(lines, columns)
      modifies weightedGraph.vertices
      ensures weightedGraph.Valid()
      ensures forall i :: 0 <= i < |weightedGraph.vertices| ==>
        && IdsOf(weightedGraph.vertices[i].neighbors)
           == old(NeighborIds(weightedGraph.vertices))[i] + Targets(columns, LinksOf(ImageLayout, lines, columns, i))
        && IdsOf(weightedGraph.vertices[i].diagonalNeighbors)
           == old(DiagonalIds(weightedGraph.vertices))[i] + Targets(columns, Diagonals(LinksOf(ImageLayout, lines, columns, i)))
      ensures Times(weightedGraph.vertices) == old(Times(weightedGraph.vertices))
      ensures Prevs(weightedGraph.vertices) == old(Prevs(weightedGraph.vertices))
    {
      WireGrid(ImageLayout, weightedGraph, lines, columns);
    }

    /** `setNeighbors` on a grid of vertices without neighbours: the graph it leaves is the image grid. */
    method Connect(ghost cells: seq<VertexType>)
      requires weightedGraph != null && weightedGraph.Valid()
      requires TypesOf(weightedGraph.vertices) == cells && |cells| == GridSize(lines, columns)
      requires forall i :: 0 <= i < |weightedGraph.vertices| ==>
        weightedGraph.vertices[i].neighbors == [] && weightedGraph.vertices[i].diagonalNeighbors == []
      modifies weightedGraph.vertices
      ensures Built(cells)
    {
      ghost var adj0, diag0 := NeighborIds(weightedGraph.vertices), DiagonalIds(weightedGraph.vertices);
      SetNeighbors();
      WiredGrid(ImageLayout, weightedGraph, lines, columns, adj0, diag0);
    }

    /**
     * `read` of an image `height` pixels high and `width` wide: a fresh graph of its pixels with
     * the 4-connected grid topology, the first pixel as start and the last as end; an image
     * without pixels throws when `read` asks for the first vertex.
     */
    method Read(height: int, width: int, pixel: (int, int) -> VertexType) returns (r: Outcome<ImageError>)
      modifies this`lines, this`columns, this`weightedGraph, this`start, this`end
      ensures lines == height && columns == width
      ensures weightedGraph != null && fresh(weightedGraph) && |weightedGraph.vertices| == GridSize(height, width)
      ensures Built(Pixels(pixel, height, width))
      ensures r.Pass? <==> GridSize(height, width) > 0
      ensures r.Pass? ==> start == weightedGraph.vertices[0] && end == weightedGraph.vertices[GridSize(height, width) - 1]
      ensures r.Fail? ==> r.error == NoSuchElement && start == old(start) && end == old(end)
    {
      lines := height;
      columns := width;
      BuildGraph(pixel);
      assert |weightedGraph.vertices| == GridSize(height, width);
      r := SetEnds();
    }

    /** The last statements of `read`: the first and the last vertex of the graph as start and end. */
    method SetEnds() returns (r: Outcome<ImageError>)
      requires weightedGraph != null
      modifies this`start, this`end
      ensures r.Pass? <==> |weightedGraph.vertices| > 0
      ensures r.Pass? ==> start == weightedGraph.vertices[0] && end == weightedGraph.vertices[|weightedGraph.vertices| - 1]
      ensures r.Fail? ==> r.error == NoSuchElement && start == old(start) && end == old(end)
    {
      var vertices := weightedGraph.vertices;
      if |vertices| == 0 {
        return Fail(NoSuchElement);
      }
      start := vertices[0];
      end := vertices[|vertices| - 1];
      r := Pass;
    }

    /** The middle statements of `read`: a new graph, `setVertices(image)` and `setNeighbors()`. */
    method BuildGraph(pixel: (int, int) -> VertexType)
      modifies this`weightedGraph
      ensures weightedGraph != null && fresh(weightedGraph)
      ensures Built(Pixels(pixel, lines, columns))
    {
      weightedGraph := new WeightedGraph();
      assert TypesOf(weightedGraph.vertices) == [];
      ghost var added := SetVertices(pixel);
      RowsBeforeSize(lines, columns);
      forall i | 0 <= i < |weightedGraph.vertices|
        ensures weightedGraph.vertices[i].neighbors == [] && weightedGraph.vertices[i].diagonalNeighbors == []
      {
        assert weightedGraph.vertices[i] in added;
      }
      Connect(Pixels(pixel, lines, columns));
    }

    /** The graph of the image: valid, one vertex per pixel with its type, and the 4-connected grid's neighbours. */
    ghost predicate Built(cells: seq<VertexType>)
      reads this`weightedGraph, this`lines, this`columns, weightedGraph
      reads if weightedGraph == null then {} else set v | v in weightedGraph.vertices
    {
      && weightedGraph != null && weightedGraph.Valid()
      && TypesOf(weightedGraph.vertices) == cells && |cells| == GridSize(lines, columns)
      && weightedGraph.Models(ImageGrid(lines, columns, Weights(cells)))
    }
  }
}
