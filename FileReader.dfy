/**
 * `GraphFileReader`: reads a map configuration file through a scanner into a fresh
 * `WeightedGraph` with an 8-connected grid of vertices, and the start and end vertices.
 * Each method is proved against the format functions of `FileFormat`, and `Read` against
 * `ParseFile` and the grid topology `FileGrid`.
 */
module FileReaders {
  import opened Wrappers
  import opened JavaText
  import opened Graph
  import opened Grids
  import opened FileFormat
  import opened WiringState
  import opened Wiring

  method AppendRow(g: WeightedGraph, token: string, types: map<char, VertexType>, columns: int) returns (r: Outcome<ReadError>, ghost added: seq<Vertex>)
    requires g.Valid()
    modifies g
    ensures g.Valid()
    ensures var cells := RowCells(token, types, columns, 0, TypesOf(old(g.vertices)));
      && (r.Pass? <==> cells.Ok?)
      && (r.Fail? ==> r.error == cells.error)
      && (r.Pass? ==> TypesOf(g.vertices) == cells.value)
    ensures g.vertices == old(g.vertices) + added && New(added)
  {
    ghost var before := g.vertices;
    added := [];
    var col := 0;
    while col < columns
      invariant g.Valid() && 0 <= col
      invariant RowCells(token, types, columns, col, TypesOf(g.vertices)) == RowCells(token, types, columns, 0, TypesOf(before))
      invariant g.vertices == before + added && New(added)
    {
      if col >= |token| {
        return Fail(ShortRow(token, col)), added;
      }
      if token[col] !in types {
        return Fail(UnknownType(token[col])), added;
      }
      ghost var previous := g.vertices;
      g.AddVertex(types[token[col]]);
      added := added + [g.vertices[|previous|]];
      assert TypesOf(g.vertices) == TypesOf(previous) + [types[token[col]]];
      col := col + 1;
    }
    r := Pass;
  }

  /**
   * One turn of the outer loop of `setVertices`, reading with the scanner at `cur`: the next
   * row token, appended as `AppendRow` does; `next` is where the scanner stops.
   */
  method AppendLine(g: WeightedGraph, input: seq<string>, cur: Cursor, types: map<char, VertexType>, rows: int, columns: int)
    returns (r: Outcome<ReadError>, next: Cursor, ghost added: seq<Vertex>)
    requires g.Valid() && Positioned(input, cur) && rows > 0
    modifies g
    ensures g.Valid() && Positioned(input, next)
    ensures var grid := ReadGrid(input, cur, types, rows, columns, TypesOf(old(g.vertices)));
      && (r.Fail? ==> grid == Err(r.error))
      && (r.Pass? ==> grid == ReadGrid(input, next, types, rows - 1, columns, TypesOf(g.vertices)))
    ensures g.vertices == old(g.vertices) + added && New(added)
  {
    var token := NextToken(input, cur);
    if token.Err? {
      return Fail(token.error), cur, [];
    }
    next := token.value.next;
    r, added := AppendRow(g, token.value.value, types, columns);
  }

  /**
   * The outer loop of `setVertices`, reading with the scanner at `cur`: `rows` row tokens, each
   * appended as `AppendRow` does; `next` is where the scanner stops.
   */
  method AppendRows(g: WeightedGraph, input: seq<string>, cur: Cursor, types: map<char, VertexType>, rows: int, columns: int)
    returns (r: Outcome<ReadError>, next: Cursor, ghost added: seq<Vertex>)
    requires g.Valid() && Positioned(input, cur)
    modifies g
    ensures g.Valid() && Positioned(input, next)
    ensures var grid := ReadGrid(input, cur, types, rows, columns, TypesOf(old(g.vertices)));
      && (r.Pass? <==> grid.Ok?)
      && (r.Fail? ==> r.error == grid.error)
      && (r.Pass? ==> next == grid.value.next && TypesOf(g.vertices) == grid.value.value)
    ensures g.vertices == old(g.vertices) + added && New(added)
  {
    ghost var before := g.vertices;
    ghost var grid := ReadGrid(input, cur, types, rows, columns, TypesOf(before));
    added := [];
    next := cur;
    var line := 0;
    while line < rows
      invariant g.Valid() && Positioned(input, next)
      invariant ReadGrid(input, next, types, rows - line, columns, TypesOf(g.vertices)) == grid
      invariant g.vertices == before + added && New(added)
    {
      ghost var more;
      r, next, more := AppendLine(g, input, next, types, rows - line, columns);
      added := added + more;
      if r.Fail? {
        assert grid == Err(r.error);
        return;
      }
      line := line + 1;
    }
    assert grid == Ok(Scan(TypesOf(g.vertices), next));
    r := Pass;
  }

  class GraphFileReader {
    /** The file's lines, each ended by a line separator. */
    const input: seq<string>
    /** The scanner's position in `input`. */
    var cursor: Cursor
    var weightedGraph: WeightedGraph?
    var start: Vertex?
    var end: Vertex?
    var lines: int
    var columns: int

    /** A reader at the start of the file, with nothing read yet. */
    constructor (input: seq<string>)
      ensures this.input == input && cursor == Cursor(0, 0) && Positioned(input, cursor)
      ensures weightedGraph == null && start == null && end == null
      ensures lines == 0 && columns == 0
    {
      this.input := input;
      cursor := Cursor(0, 0);
      weightedGraph := null;
      start := null;
      end := null;
      lines := 0;
      columns := 0;
    }

    /** `scanner.nextLine()`. */
    method ScanLine() returns (r: Result<string, ReadError>)
      requires Positioned(input, cursor)
      modifies this`cursor
      ensures Positioned(input, cursor)
      ensures r == ValueOf(NextLine(input, old(cursor)))
      ensures cursor == if r.Ok? then NextLine(input, old(cursor)).value.next else old(cursor)
    {
      if cursor.row == |input| {
        r := Err(NoSuchElement);
      } else {
        r := Ok(input[cursor.row][cursor.col..]);
        cursor := Cursor(cursor.row + 1, 0);
      }
    }

    /** `skip(n)`: `n` lines, or `NoSuchElement` at the end of the file. */
    method Skip(n: int) returns (r: Outcome<ReadError>)
      requires Positioned(input, cursor)
      modifies this`cursor
      ensures Positioned(input, cursor)
      ensures r.Pass? <==> SkipLines(input, old(cursor), n).Ok?
      ensures r.Pass? ==> cursor == SkipLines(input, old(cursor), n).value
      ensures r.Fail? ==> r.error == SkipLines(input, old(cursor), n).error
    {
      var k := n;
      while k > 0
        invariant Positioned(input, cursor)
        invariant SkipLines(input, cursor, k) == SkipLines(input, old(cursor), n)
      {
        var line := ScanLine();
        if line.Err? {
          return Fail(line.error);
        }
        k := k - 1;
      }
      return Pass;
    }

    /** `retrieveInt(key)`: the `key=<int>` line. */
    method RetrieveInt(key: string) returns (r: Result<int, ReadError>)
      requires Positioned(input, cursor)
      modifies this`cursor
      ensures Positioned(input, cursor)
      ensures r == ValueOf(ReadInt(input, old(cursor), key))
      ensures r.Ok? ==> cursor == ReadInt(input, old(cursor), key).value.next
    {
      var line := ScanLine();
      if line.Err? {
        return Err(line.error);
      }
      var args := Split(line.value, '=');
      if args == [] {
        return Err(MissingKey);
      }
      var keyFound := args[0];
      var value := if |args| > 1 then Some(args[1]) else None;
      if keyFound != key {
        return Err(IncorrectKey(keyFound));
      }
      if value.None? {
        return Err(NoValue(keyFound));
      }
      match ParseInt(value.value)
      case Some(n) => r := Ok(n);
      case None => r := Err(NumberFormat(value.value));
    }

    /** `retrieveTypes`: the type declarations up to `==Graph==`, keyed by the first character of their name. */
    method RetrieveTypes() returns (r: Result<map<char, VertexType>, ReadError>)
      requires Positioned(input, cursor)
      modifies this`cursor
      ensures Positioned(input, cursor)
      ensures r == ValueOf(ReadTypes(input, old(cursor), map[]))
      ensures r.Ok? ==> cursor == ReadTypes(input, old(cursor), map[]).value.next
    {
      var types: map<char, VertexType> := map[];
      while true
        invariant Positioned(input, cursor)
        invariant ReadTypes(input, cursor, types) == ReadTypes(input, old(cursor), map[])
        decreases |input| - cursor.row
      {
        var line := ScanLine();
        if line.Err? {
          return Err(line.error);
        }
        if line.value == GRAPH_HEADER {
          break;
        }
        var args := Split(line.value, '=');
        if args == [] {
          return Err(MissingKey);
        }
        var typeName := args[0];
        var value := if |args| > 1 then Some(args[1]) else None;
        if value.None? {
          return Err(NoValue(typeName));
        }
        var color := ScanLine();
        if color.Err? {
          return Err(color.error);
        }
        if typeName == [] {
          return Err(EmptyTypeName);
        }
        match ParseInt(value.value)
        case None =>
          return Err(NumberFormat(value.value));
        case Some(w) =>
          types := types[typeName[0] := VertexType(typeName, w, color.value)];
      }
      r := Ok(types);
    }

    /**
     * `setVertices(types)`: one token per line, one vertex per column of it, appended row by row
     * with the type its character names.
     */
    method SetVertices(types: map<char, VertexType>) returns (r: Outcome<ReadError>)
      requires weightedGraph != null && weightedGraph.Valid() && Positioned(input, cursor)
      modifies this`cursor, weightedGraph
      ensures weightedGraph.Valid() && Positioned(input, cursor)
      ensures var g := ReadGrid(input, old(cursor), types, lines, columns, TypesOf(old(weightedGraph.vertices)));
        && (r.Pass? <==> g.Ok?)
        && (r.Fail? ==> r.error == g.error)
        && (r.Pass? ==> cursor == g.value.next && TypesOf(weightedGraph.vertices) == g.value.value)
      ensures |weightedGraph.vertices| >= |old(weightedGraph.vertices)|
      ensures weightedGraph.vertices == old(weightedGraph.vertices) + weightedGraph.vertices[|old(weightedGraph.vertices)|..]
      ensures forall i :: |old(weightedGraph.vertices)| <= i < |weightedGraph.vertices| ==>
        fresh(weightedGraph.vertices[i]) && weightedGraph.vertices[i].neighbors == [] && weightedGraph.vertices[i].diagonalNeighbors == []
    {
      var next;
      ghost var added;
      r, next, added := AppendRows(weightedGraph, input, cursor, types, lines, columns);
      assert weightedGraph.vertices[|old(weightedGraph.vertices)|..] == added;
      forall i | |old(weightedGraph.vertices)| <= i < |weightedGraph.vertices|
        ensures fresh(weightedGraph.vertices[i])
        ensures weightedGraph.vertices[i].neighbors == [] && weightedGraph.vertices[i].diagonalNeighbors == []
      {
        assert weightedGraph.vertices[i] in added;
      }
      cursor := next;
    }

    /**
     * `setNeighbors`: every vertex of the grid gets, after the neighbours it had, those of its
     * cell's `FileLinks`, and the diagonal ones among them as diagonal neighbours.
     */
    method SetNeighbors()
      requires weightedGraph != null && weightedGraph.Valid()
      requires |weightedGraph.vertices| == GridSize(lines, columns)
      modifies weightedGraph.vertices
      ensures weightedGraph.Valid()
      ensures forall i :: 0 <= i < |weightedGraph.vertices| ==>
        && IdsOf(weightedGraph.vertices[i].neighbors)
           == old(NeighborIds(weightedGraph.vertices))[i] + Targets(columns, LinksOf(FileLayout, lines, columns, i))
        && IdsOf(weightedGraph.vertices[i].diagonalNeighbors)
           == old(DiagonalIds(weightedGraph.vertices))[i] + Targets(columns, Diagonals(LinksOf(FileLayout, lines, columns, i)))
      ensures Times(weightedGraph.vertices) == old(Times(weightedGraph.vertices))
      ensures Prevs(weightedGraph.vertices) == old(Prevs(weightedGraph.vertices))
    {
      WireGrid(FileLayout, weightedGraph, lines, columns);
    }

    /** `retrieveVertex(G, columns, key)`: the `key=x,y` line, and the vertex of `G` at `x * columns + y`. */
    method RetrieveVertex(g: WeightedGraph, columns: int, key: string) returns (r: Result<Vertex, ReadError>)
      requires Positioned(input, cursor)
      modifies this`cursor
      ensures Positioned(input, cursor)
      ensures var v := ReadVertex(input, old(cursor), key, columns, |g.vertices|);
        && (r.Ok? <==> v.Ok?)
        && (r.Err? ==> r.error == v.error)
        && (r.Ok? ==> r.value == g.vertices[v.value.value] && cursor == v.value.next)
    {
      var line := ScanLine();
      if line.Err? {
        return Err(line.error);
      }
      var args := Split(line.value, '=');
      if args == [] {
        return Err(MissingKey);
      }
      var keyFound := args[0];
      var value := if |args| > 1 then Some(args[1]) else None;
      if keyFound != key {
        return Err(IncorrectKey(keyFound));
      }
      if value.None? {
        return Err(NoValue(keyFound));
      }
      var points := Split(value.value, ',');
      if points == [] {
        return Err(MissingCoordinate);
      }
      var x := ParseInt(points[0]);
      if x.None? {
        return Err(NumberFormat(points[0]));
      }
      if |points| < 2 {
        return Err(MissingCoordinate);
      }
      var y := ParseInt(points[1]);
      if y.None? {
        return Err(NumberFormat(points[1]));
      }
      var index := WrappedCellId(columns, x.value, y.value);
      if !(0 <= index < |g.vertices|) {
        return Err(NoSuchVertex(index));
      }
      r := Ok(g.vertices[index]);
    }

    /** The first statements of `read`: `skip(2)`, then `nlines` and `ncol` into `lines` and `columns`. */
    method ReadSize() returns (r: Outcome<ReadError>)
      requires Positioned(input, cursor)
      modifies this`cursor, this`lines, this`columns
      ensures Positioned(input, cursor)
      ensures var s := ParseSize(input, old(cursor));
        && (r.Pass? <==> s.Ok?)
        && (r.Fail? ==> r.error == s.error)
        && (r.Pass? ==> (lines, columns) == s.value.value && cursor == s.value.next)
    {
      r := Skip(2);
      if r.Fail? {
        return;
      }
      var nlines := RetrieveInt("nlines");
      if nlines.Err? {
        return Fail(nlines.error);
      }
      lines := nlines.value;
      var ncol := RetrieveInt("ncol");
      if ncol.Err? {
        return Fail(ncol.error);
      }
      columns := ncol.value;
    }

    /** The statements of `read` before the graph: the size, `skip(1)` and `retrieveTypes`. */
    method ReadHeader() returns (r: Result<map<char, VertexType>, ReadError>)
      requires Positioned(input, cursor)
      modifies this`cursor, this`lines, this`columns
      ensures Positioned(input, cursor)
      ensures var h := ParseHeader(input, old(cursor));
        && (r.Ok? <==> h.Ok?)
        && (r.Err? ==> r.error == h.error)
        && (r.Ok? ==> (lines, columns, r.value) == h.value.value && cursor == h.value.next)
    {
      var size := ReadSize();
      if size.Fail? {
        return Err(size.error);
      }
      var skipped := Skip(1);
      if skipped.Fail? {
        return Err(skipped.error);
      }
      r := RetrieveTypes();
    }

    /** The last statements of `read`: `skip(2)`, then the `Start` and `Finish` vertices of the graph. */
    method ReadEnds() returns (r: Outcome<ReadError>)
      requires weightedGraph != null && Positioned(input, cursor)
      modifies this`cursor, this`start, this`end
      ensures Positioned(input, cursor)
      ensures var e := ParseEnds(input, old(cursor), columns, |weightedGraph.vertices|);
        && (r.Pass? <==> e.Ok?)
        && (r.Fail? ==> r.error == e.error)
        && (r.Pass? ==> Ends(e.value.value.0, e.value.value.1))
    {
      var skipped := Skip(2);
      if skipped.Fail? {
        return skipped;
      }
      var first := RetrieveVertex(weightedGraph, columns, "Start");
      if first.Err? {
        return Fail(first.error);
      }
      start := first.value;
      var last := RetrieveVertex(weightedGraph, columns, "Finish");
      if last.Err? {
        return Fail(last.error);
      }
      end := last.value;
      r := Pass;
    }

    /**
     * The middle statements of `read`: a new graph, `setVertices(types)` and `setNeighbors()`,
     * which give the graph the grid's cells and its 8-connected topology.
     */
    method BuildGraph(types: map<char, VertexType>) returns (r: Outcome<ReadError>)
      requires Positioned(input, cursor)
      modifies this`cursor, this`weightedGraph
      ensures Positioned(input, cursor)
      ensures var g := ReadGrid(input, old(cursor), types, lines, columns, []);
        && (r.Pass? <==> g.Ok?)
        && (r.Fail? ==> r.error == g.error)
        && (r.Pass? ==> cursor == g.value.next && Built(g.value.value))
    {
      weightedGraph := new WeightedGraph();
      assert TypesOf(weightedGraph.vertices) == [];
      r := SetVertices(types);
      if r.Pass? {
        Connect(TypesOf(weightedGraph.vertices));
      }
    }

    /** `setNeighbors` on a grid of vertices without neighbours: the graph it leaves is the file grid. */
    method Connect(ghost cells: seq<VertexType>)
      requires weightedGraph != null && weightedGraph.Valid()
      requires TypesOf(weightedGraph.vertices) == cells && |cells| == GridSize(lines, columns)
      requires forall i :: 0 <= i < |weightedGraph.vertices| ==>
        weightedGraph.vertices[i].neighbors == [] && weightedGraph.vertices[i].diagonalNeighbors == []
      modifies weightedGraph.vertices
      ensures Built(cells)
    {
      ghost var adj0, diag0 := NeighborIds(weightedGraph.vertices), DiagonalIds(weightedGraph.vertices);
      SetNeighbors();
      WiredGrid(FileLayout, weightedGraph, lines, columns, adj0, diag0);
    }

    /**
     * `read`: the sections of the file in order, into a fresh graph whose vertices have the cell
     * types row by row and the 8-connected grid topology, and the start and end vertices the
     * file names; or the first exception a section throws.
     */
    method Read() returns (r: Outcome<ReadError>)
      requires Positioned(input, cursor)
      modifies this
      ensures r.Pass? <==> ParseFile(input, old(cursor)).Ok?
      ensures r.Fail? ==> r.error == ParseFile(input, old(cursor)).error
      ensures r.Pass? ==> Loaded(ParseFile(input, old(cursor)).value)
    {
      var types := ReadHeader();
      if types.Err? {
        r := Fail(types.error);
      } else {
        r := ReadBody(types.value);
      }
    }

    /** The statements of `read` after the header: the graph, then the start and end vertices. */
    method ReadBody(types: map<char, VertexType>) returns (r: Outcome<ReadError>)
      requires Positioned(input, cursor)
      modifies this`cursor, this`weightedGraph, this`start, this`end
      ensures var m := ParseBody(input, old(cursor), lines, columns, types);
        && (r.Pass? <==> m.Ok?)
        && (r.Fail? ==> r.error == m.error)
        && (r.Pass? ==> Loaded(m.value))
    {
      ghost var grid := ReadGrid(input, cursor, types, lines, columns, []);
      r := BuildGraph(types);
      if r.Pass? {
        ghost var cells := grid.value.value;
        assert Built(cells) && |weightedGraph.vertices| == |cells|;
        r := ReadEnds();
        assert Built(cells);
        if r.Pass? {
          ghost var ends := ParseEnds(input, grid.value.next, columns, |cells|).value.value;
          assert ParseBody(input, old(cursor), lines, columns, types) == Ok(FileMap(lines, columns, cells, ends.0, ends.1));
        }
      }
    }

    /** The graph of the map: valid, one vertex per cell with the cell's type, and the 8-connected grid's neighbours. */
    ghost predicate Built(cells: seq<VertexType>)
      reads this`weightedGraph, this`lines, this`columns, weightedGraph
      reads if weightedGraph == null then {} else set v | v in weightedGraph.vertices
    {
      && weightedGraph != null && weightedGraph.Valid()
      && TypesOf(weightedGraph.vertices) == cells && |cells| == GridSize(lines, columns)
      && weightedGraph.Models(FileGrid(lines, columns, Weights(cells)))
    }

    /** What a successful `read` leaves: the map's size, its graph, and the start and end vertices. */
    ghost predicate Loaded(m: FileMap)
      reads this, weightedGraph, if weightedGraph == null then {} else set v | v in weightedGraph.vertices
    {
      lines == m.lines && columns == m.columns && Built(m.cells) && Ends(m.start, m.end)
    }

    /** The start and end vertices are the graph's vertices with ids `s` and `e`. */
    ghost predicate Ends(s: int, e: int)
      reads this`weightedGraph, this`start, this`end, weightedGraph
    {
      && weightedGraph != null
      && 0 <= s < |weightedGraph.vertices| && start == weightedGraph.vertices[s]
      && 0 <= e < |weightedGraph.vertices| && end == weightedGraph.vertices[e]
    }
  }
}
