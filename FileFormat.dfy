/**
 * The text format of a map configuration file, as `GraphFileReader` reads it with a
 * `java.util.Scanner`: two skipped lines, `nlines=<int>`, `ncol=<int>`, one skipped line, the
 * types (a `name=weight` line and a colour line each, keyed by the name's first character) up
 * to `==Graph==`, one whitespace-separated token of cell characters per row, two skipped lines,
 * then `Start=<x>,<y>` and `Finish=<x>,<y>`. The input is a list of lines, each ended by a line
 * separator, and the scanner's position is a line and an offset in it.
 */
module FileFormat {
  import opened Wrappers
  import opened JavaText
  import opened Graph
  import opened Grids

  /** The exceptions reading can throw. */
  datatype ReadError =
    | NoSuchElement                      // `nextLine` or `next` past the end of the input
    | MissingKey                         // `args[0]` of a line that splits into nothing
    | IncorrectKey(found: string)        // "Incorrect key found"
    | NoValue(found: string)             // "No value found after"
    | NumberFormat(text: string)         // `Integer.parseInt`
    | EmptyTypeName                      // `typeName.charAt(0)` of an empty name
    | ShortRow(row: string, col: int)    // `c.charAt(col)` past the end of a grid row
    | UnknownType(symbol: char)          // a grid character no type was declared for
    | MissingCoordinate                  // `points[0]` or `points[1]` missing
    | NoSuchVertex(index: int)           // `getVertices().get(index)` out of range

  /** The scanner's position: a line and an offset in it. */
  datatype Cursor = Cursor(row: nat, col: nat)

  /** A value read and the position after it. */
  datatype Scan<+T> = Scan(value: T, next: Cursor)

  /** The value read, without the position. */
  function ValueOf<T>(r: Result<Scan<T>, ReadError>): Result<T, ReadError>
  {
    match r
    case Ok(s) => Ok(s.value)
    case Err(e) => Err(e)
  }

  /** The position is inside a line, or at the very end of the input. */
  predicate Positioned(input: seq<string>, cur: Cursor)
  {
    && cur.row <= |input|
    && (cur.row < |input| ==> cur.col <= |input[cur.row]|)
    && (cur.row == |input| ==> cur.col == 0)
  }

  /** `nextLine`: the rest of the current line; the position moves to the start of the next line. */
  function NextLine(input: seq<string>, cur: Cursor): (r: Result<Scan<string>, ReadError>)
    requires Positioned(input, cur)
    ensures r.Err? <==> cur.row == |input|
    ensures r.Err? ==> r.error == NoSuchElement
    ensures r.Ok? ==> r.value.next == Cursor(cur.row + 1, 0) && Positioned(input, r.value.next)
    ensures r.Ok? ==> r.value.value == input[cur.row][cur.col..]
  {
    if cur.row == |input| then Err(NoSuchElement)
    else Ok(Scan(input[cur.row][cur.col..], Cursor(cur.row + 1, 0)))
  }

  /** The end of the token of `line` that starts at `i`: the next whitespace or the end of the line. */
  function TokenEnd(line: string, i: nat): (e: nat)
    requires i <= |line|
    ensures i <= e <= |line|
    ensures forall k :: i <= k < e ==> !IsWhitespace(line[k])
    ensures e < |line| ==> IsWhitespace(line[e])
    decreases |line| - i
  {
    if i == |line| || IsWhitespace(line[i]) then i else TokenEnd(line, i + 1)
  }

  /**
   * `next`: skips whitespace and line separators, then reads up to the next whitespace; the
   * position stays just after the token, in its line.
   */
  function NextToken(input: seq<string>, cur: Cursor): (r: Result<Scan<string>, ReadError>)
    requires Positioned(input, cur)
    ensures r.Err? ==> r.error == NoSuchElement
    ensures r.Ok? ==> Positioned(input, r.value.next) && r.value.next.row >= cur.row && r.value.next.row < |input|
    ensures r.Ok? ==> |r.value.value| >= 1 && forall k :: 0 <= k < |r.value.value| ==> !IsWhitespace(r.value.value[k])
    decreases |input| - cur.row, if cur.row < |input| then |input[cur.row]| - cur.col else 0
  {
    if cur.row == |input| then Err(NoSuchElement)
    else if cur.col == |input[cur.row]| then NextToken(input, Cursor(cur.row + 1, 0))
    else if IsWhitespace(input[cur.row][cur.col]) then NextToken(input, Cursor(cur.row, cur.col + 1))
    else
      var e := TokenEnd(input[cur.row], cur.col);
      Ok(Scan(input[cur.row][cur.col..e], Cursor(cur.row, e)))
  }

  /** `skip(n)`: `n` calls of `nextLine`. */
  function SkipLines(input: seq<string>, cur: Cursor, n: int): (r: Result<Cursor, ReadError>)
    requires Positioned(input, cur)
    ensures r.Ok? ==> Positioned(input, r.value)
    ensures r.Ok? <==> n <= 0 || cur.row + n <= |input|
    ensures r.Ok? ==> r.value == if n <= 0 then cur else Cursor(cur.row + n, 0)
    ensures r.Err? ==> r.error == NoSuchElement
    decreases n
  {
    if n <= 0 then Ok(cur)
    else
      var s :- NextLine(input, cur);
      SkipLines(input, s.next, n - 1)
  }

  /**
   * The `key=value` check of `retrieveInt` and `retrieveVertex`: the first `=`-separated field
   * must be `key`, and the second is the value.
   */
  function KeyValue(line: string, key: string): (r: Result<string, ReadError>)
    ensures r.Ok? ==> '=' in line && '=' !in r.value
  {
    var args := Split(line, '=');
    if args == [] then Err(MissingKey)
    else if args[0] != key then Err(IncorrectKey(args[0]))
    else if |args| < 2 then Err(NoValue(args[0]))
    else Ok(args[1])
  }

  /** The line `retrieveInt(key)` reads and the value it returns. */
  function KeyInt(line: string, key: string): (r: Result<int, ReadError>)
    ensures r.Ok? ==> INT_MIN <= r.value <= INT_MAX
  {
    var value :- KeyValue(line, key);
    match ParseInt(value)
    case Some(n) => Ok(n)
    case None => Err(NumberFormat(value))
  }

  /** `retrieveInt(key)`: reads one line and parses it. */
  function ReadInt(input: seq<string>, cur: Cursor, key: string): (r: Result<Scan<int>, ReadError>)
    requires Positioned(input, cur)
    ensures r.Ok? ==> r.value.next == Cursor(cur.row + 1, 0) && Positioned(input, r.value.next)
  {
    var s :- NextLine(input, cur);
    var n :- KeyInt(s.value, key);
    Ok(Scan(n, s.next))
  }

  /** The `name=weight` line of a type: the name and the weight text, or why it is rejected. */
  function TypeHeader(line: string): (r: Result<(string, string), ReadError>)
    ensures r.Ok? ==> '=' in line && '=' !in r.value.0 && '=' !in r.value.1
  {
    var args := Split(line, '=');
    if args == [] then Err(MissingKey)
    else if |args| < 2 then Err(NoValue(args[0]))
    else Ok((args[0], args[1]))
  }

  /** The `==Graph==` line that ends the types. */
  const GRAPH_HEADER: string := "==Graph=="

  /**
   * `retrieveTypes`: pairs of lines up to `==Graph==`, each adding (or replacing) the type keyed
   * by the first character of its name to `acc`.
   */
  function ReadTypes(input: seq<string>, cur: Cursor, acc: map<char, VertexType>): (r: Result<Scan<map<char, VertexType>>, ReadError>)
    requires Positioned(input, cur)
    ensures r.Ok? ==> Positioned(input, r.value.next) && r.value.next.row > cur.row
    ensures r.Ok? ==> acc.Keys <= r.value.value.Keys
    decreases |input| - cur.row
  {
    var s :- NextLine(input, cur);
    if s.value == GRAPH_HEADER then Ok(Scan(acc, s.next))
    else
      var header :- TypeHeader(s.value);
      var color :- NextLine(input, s.next);
      var (name, value) := header;
      if name == [] then Err(EmptyTypeName)
      else
        match ParseInt(value)
        case None => Err(NumberFormat(value))
        case Some(w) => ReadTypes(input, color.next, acc[name[0] := VertexType(name, w, color.value)])
  }

  /**
   * The inner loop of `setVertices` for one row token: the types of its characters from column
   * `col` on, appended to `acc`.
   */
  function RowCells(token: string, types: map<char, VertexType>, columns: int, col: nat, acc: seq<VertexType>): (r: Result<seq<VertexType>, ReadError>)
    ensures r.Ok? ==> |r.value| == |acc| + (if col < columns then columns - col else 0)
    ensures r.Ok? ==> r.value[..|acc|] == acc
    decreases columns - col
  {
    if col >= columns then Ok(acc)
    else if col >= |token| then Err(ShortRow(token, col))
    else if token[col] !in types then Err(UnknownType(token[col]))
    else RowCells(token, types, columns, col + 1, acc + [types[token[col]]])
  }

  /** `setVertices`: `rows` more rows, one token each, their cell types appended to `acc`. */
  function ReadGrid(input: seq<string>, cur: Cursor, types: map<char, VertexType>, rows: int, columns: int, acc: seq<VertexType>)
    : (r: Result<Scan<seq<VertexType>>, ReadError>)
    requires Positioned(input, cur)
    ensures r.Ok? ==> Positioned(input, r.value.next)
    ensures r.Ok? ==> |r.value.value| == |acc| + GridSize(rows, columns)
    ensures r.Ok? ==> r.value.value[..|acc|] == acc
    decreases rows
  {
    if rows <= 0 then Ok(Scan(acc, cur))
    else
      var token :- NextToken(input, cur);
      var cells :- RowCells(token.value, types, columns, 0, acc);
      var r := ReadGrid(input, token.next, types, rows - 1, columns, cells);
      assert r.Ok? ==> GridSize(rows, columns) == GridSize(rows - 1, columns) + (if columns > 0 then columns else 0) by {
        if columns > 0 && rows > 1 {
          assert rows * columns == (rows - 1) * columns + columns;
        }
      }
      assert r.Ok? ==> r.value.value[..|acc|] == r.value.value[..|cells|][..|acc|];
      r
  }

  /** The list index `x * columns + y` that `retrieveVertex` computes, in Java `int` arithmetic. */
  function WrappedCellId(columns: int, x: int, y: int): int
  {
    Int32(Int32(x * columns) + y)
  }

  /**
   * `retrieveVertex(G, columns, key)`: the `key=x,y` line, and the index `x * columns + y` in
   * Java `int` arithmetic, which must name one of the `count` vertices.
   */
  function KeyVertex(line: string, key: string, columns: int, count: int): (r: Result<int, ReadError>)
    ensures r.Ok? ==> 0 <= r.value < count
  {
    var value :- KeyValue(line, key);
    var points := Split(value, ',');
    if points == [] then Err(MissingCoordinate)
    else match ParseInt(points[0])
      case None => Err(NumberFormat(points[0]))
      case Some(x) =>
        if |points| < 2 then Err(MissingCoordinate)
        else match ParseInt(points[1])
          case None => Err(NumberFormat(points[1]))
          case Some(y) =>
            var index := WrappedCellId(columns, x, y);
            if 0 <= index < count then Ok(index) else Err(NoSuchVertex(index))
  }

  /** `retrieveVertex` reading one line. */
  function ReadVertex(input: seq<string>, cur: Cursor, key: string, columns: int, count: int): (r: Result<Scan<int>, ReadError>)
    requires Positioned(input, cur)
    ensures r.Ok? ==> r.value.next == Cursor(cur.row + 1, 0) && Positioned(input, r.value.next)
    ensures r.Ok? ==> 0 <= r.value.value < count
  {
    var s :- NextLine(input, cur);
    var index :- KeyVertex(s.value, key, columns, count);
    Ok(Scan(index, s.next))
  }

  /** What a configuration file describes: its size, its cells' types row by row, and the start and end ids. */
  datatype FileMap = FileMap(lines: int, columns: int, cells: seq<VertexType>, start: int, end: int)

  /** The first sections `read` consumes: two skipped lines, then `nlines` and `ncol`. */
  function ParseSize(input: seq<string>, cur: Cursor): (r: Result<Scan<(int, int)>, ReadError>)
    requires Positioned(input, cur)
    ensures r.Ok? ==> Positioned(input, r.value.next)
    ensures r.Ok? ==> INT_MIN <= r.value.value.0 <= INT_MAX && INT_MIN <= r.value.value.1 <= INT_MAX
  {
    var c1 :- SkipLines(input, cur, 2);
    var lines :- ReadInt(input, c1, "nlines");
    var columns :- ReadInt(input, lines.next, "ncol");
    Ok(Scan((lines.value, columns.value), columns.next))
  }

  /** The sections before the grid: the size, one skipped line and the types. */
  function ParseHeader(input: seq<string>, cur: Cursor): (r: Result<Scan<(int, int, map<char, VertexType>)>, ReadError>)
    requires Positioned(input, cur)
    ensures r.Ok? ==> Positioned(input, r.value.next)
    ensures r.Ok? ==> INT_MIN <= r.value.value.0 <= INT_MAX && INT_MIN <= r.value.value.1 <= INT_MAX
  {
    var size :- ParseSize(input, cur);
    var c2 :- SkipLines(input, size.next, 1);
    var types :- ReadTypes(input, c2, map[]);
    Ok(Scan((size.value.0, size.value.1, types.value), types.next))
  }

  /** The last sections `read` consumes: two skipped lines, then the start and end vertex ids. */
  function ParseEnds(input: seq<string>, cur: Cursor, columns: int, count: int): (r: Result<Scan<(int, int)>, ReadError>)
    requires Positioned(input, cur)
    ensures r.Ok? ==> Positioned(input, r.value.next)
    ensures r.Ok? ==> 0 <= r.value.value.0 < count && 0 <= r.value.value.1 < count
  {
    var c3 :- SkipLines(input, cur, 2);
    var start :- ReadVertex(input, c3, "Start", columns, count);
    var end :- ReadVertex(input, start.next, "Finish", columns, count);
    Ok(Scan((start.value, end.value), end.next))
  }

  /** The grid and the start and end sections, after the header gave the size and the types. */
  function ParseBody(input: seq<string>, cur: Cursor, lines: int, columns: int, types: map<char, VertexType>): (r: Result<FileMap, ReadError>)
    requires Positioned(input, cur)
    ensures r.Ok? ==> r.value.lines == lines && r.value.columns == columns
    ensures r.Ok? ==> |r.value.cells| == GridSize(lines, columns)
    ensures r.Ok? ==> 0 <= r.value.start < |r.value.cells| && 0 <= r.value.end < |r.value.cells|
  {
    var grid :- ReadGrid(input, cur, types, lines, columns, []);
    var ends :- ParseEnds(input, grid.next, columns, |grid.value|);
    Ok(FileMap(lines, columns, grid.value, ends.value.0, ends.value.1))
  }

  /** The value `read` leaves in its fields, or the first exception it throws. */
  function ParseFile(input: seq<string>, cur: Cursor): (r: Result<FileMap, ReadError>)
    requires Positioned(input, cur)
    ensures r.Ok? ==> |r.value.cells| == GridSize(r.value.lines, r.value.columns)
    ensures r.Ok? ==> 0 <= r.value.start < |r.value.cells| && 0 <= r.value.end < |r.value.cells|
    ensures r.Ok? ==> INT_MIN <= r.value.lines <= INT_MAX && INT_MIN <= r.value.columns <= INT_MAX
  {
    var header :- ParseHeader(input, cur);
    var (lines, columns, types) := header.value;
    ParseBody(input, header.next, lines, columns, types)
  }
}
