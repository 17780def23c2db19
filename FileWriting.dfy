/**
 * Configuration files written from a description of a map, and the proof that `read` recovers
 * the map from them: its size, its declared types, the type of every cell and the two end points.
 */
module FileWriting {
  import opened Wrappers
  import opened JavaText
  import opened Graph
  import opened Grids
  import opened FileFormat
  import Heuristics

  /** The line `key=value`. */
  function KeyLine(key: string, value: string): string
  {
    key + "=" + value
  }

  /** The line `key=x,y` of an end point. */
  function PointLine(key: string, p: (int, int)): string
  {
    KeyLine(key, IntToString(p.0) + "," + IntToString(p.1))
  }

  /** The two lines of each type, `name=weight` and then its colour, in order. */
  function TypeLines(ts: seq<VertexType>): (ls: seq<string>)
    ensures |ls| == 2 * |ts|
  {
    if ts == [] then [] else [KeyLine(ts[0].name, IntToString(ts[0].value)), ts[0].color] + TypeLines(ts[1..])
  }

  /** Every declared type has a name to take its symbol from. */
  predicate Named(ts: seq<VertexType>)
  {
    forall k :: 0 <= k < |ts| ==> ts[k].name != []
  }

  /** Every declared type can be written as a `name=weight` line: no `=` in its name, a Java `int` weight. */
  predicate Writable(ts: seq<VertexType>)
  {
    forall k :: 0 <= k < |ts| ==> '=' !in ts[k].name && INT_MIN <= ts[k].value <= INT_MAX
  }

  /**
   * The symbols the declarations `ts` define on top of `acc`: each type under the first character
   * of its name, a later declaration of the same symbol replacing an earlier one.
   */
  function Declared(acc: map<char, VertexType>, ts: seq<VertexType>): map<char, VertexType>
    requires Named(ts)
    decreases |ts|
  {
    if ts == [] then acc else Declared(acc[ts[0].name[0] := ts[0]], ts[1..])
  }

  /** The types of the symbols of `token`, in order. */
  function Symbols(token: string, m: map<char, VertexType>): (ts: seq<VertexType>)
    requires forall k :: 0 <= k < |token| ==> token[k] in m
    ensures |ts| == |token| && forall k :: 0 <= k < |token| ==> ts[k] == m[token[k]]
  {
    seq(|token|, k requires 0 <= k < |token| => m[token[k]])
  }

  /** Every row has `columns` symbols, none of them whitespace, each declared in `m`. */
  predicate Rows(rows: seq<string>, columns: int, m: map<char, VertexType>)
  {
    forall l :: 0 <= l < |rows| ==>
      && |rows[l]| == columns
      && forall c :: 0 <= c < columns ==> !IsWhitespace(rows[l][c]) && rows[l][c] in m
  }

  /** The types of the cells of `rows`, row after row. */
  function GridCells(rows: seq<string>, columns: int, m: map<char, VertexType>): seq<VertexType>
    requires Rows(rows, columns, m)
  {
    if rows == [] then [] else Symbols(rows[0], m) + GridCells(rows[1..], columns, m)
  }

  /**
   * A map to write: the two lines before the size, the size, the line before the types, the types,
   * the rows of the grid, the line after the grid, and the start and end cells as (line, column).
   */
  datatype MapFile = MapFile(
    head: seq<string>, lines: int, columns: int, typesHead: string, types: seq<VertexType>,
    rows: seq<string>, pathHead: string, start: (int, int), finish: (int, int))

  /** The lines before the grid: the head, the size, the line before the types, the types and `==Graph==`. */
  function Preamble(f: MapFile): seq<string>
  {
    f.head + [KeyLine("nlines", IntToString(f.lines)), KeyLine("ncol", IntToString(f.columns)), f.typesHead]
    + TypeLines(f.types) + [GRAPH_HEADER]
  }

  /** The lines after the grid: the line before the end points, then the start and the end. */
  function Closing(f: MapFile): seq<string>
  {
    [f.pathHead, PointLine("Start", f.start), PointLine("Finish", f.finish)]
  }

  /** The lines of the configuration file of `f`. */
  function Render(f: MapFile): seq<string>
  {
    Preamble(f) + f.rows + Closing(f)
  }

  /** `p` is a cell of the map. */
  predicate InMap(f: MapFile, p: (int, int))
  {
    0 <= p.0 < f.lines && 0 <= p.1 < f.columns
  }

  /**
   * What the file of `f` needs to describe `f`: two head lines; as many rows as lines, at least
   * one, with at least one column and at most `Integer.MAX_VALUE` cells; type names that are not
   * empty and hold no `=`, with Java `int` weights; rows of declared, non-blank symbols; end
   * points inside the map.
   */
  predicate WellFormed(f: MapFile)
  {
    && |f.head| == 2
    && f.lines == |f.rows| && f.lines >= 1 && f.columns >= 1 && f.lines * f.columns <= INT_MAX
    && Named(f.types) && Writable(f.types)
    && Rows(f.rows, f.columns, Declared(map[], f.types))
    && InMap(f, f.start) && InMap(f, f.finish)
  }

  /** The cell types `f` describes, row after row. */
  function Cells(f: MapFile): seq<VertexType>
    requires WellFormed(f)
  {
    GridCells(f.rows, f.columns, Declared(map[], f.types))
  }

  /** A printed Java `int` is not empty, holds no `=` or `,`, and ends with a digit. */
  lemma IntToStringShape(n: int)
    ensures IntToString(n) != [] && '=' !in IntToString(n) && ',' !in IntToString(n)
    ensures IsDigit(IntToString(n)[|IntToString(n)| - 1])
  {
    var m: nat := if n < 0 then -n else n;
    NatToStringDigits(m);
    var d := NatToString(m);
    assert forall k :: 0 <= k < |d| ==> d[k] != '=' && d[k] != ',';
    if n < 0 {
      assert IntToString(n) == "-" + d;
      assert IntToString(n)[|IntToString(n)| - 1] == d[|d| - 1];
    }
  }

  /** `retrieveInt(key)` reads `n` back from the line `key=n`. */
  lemma KeyIntLine(key: string, n: int)
    requires '=' !in key && INT_MIN <= n <= INT_MAX
    ensures KeyInt(KeyLine(key, IntToString(n)), key) == Ok(n)
  {
    IntToStringShape(n);
    SplitPair(key, '=', IntToString(n));
    ParseIntToString(n);
  }

  /**
   * `retrieveVertex(G, columns, key)` reads the index `x * columns + y` from the line `key=x,y` when
   * that index names one of the `count` vertices and `count` is a Java `int`.
   */
  lemma KeyVertexLine(key: string, p: (int, int), columns: int, count: int)
    requires '=' !in key && 0 <= p.0 && 0 <= p.1 < columns && count <= INT_MAX
    requires CellId(columns, p.0, p.1) < count
    ensures KeyVertex(PointLine(key, p), key, columns, count) == Ok(CellId(columns, p.0, p.1))
  {
    CellIdFits(columns, p.0, p.1, count);
    PointLineValue(key, p.0, p.1);
    KeyVertexPoint(PointLine(key, p), key, p.0, p.1, columns, count);
  }

  /** The line `key=x,y` has the key `key` and the value `x,y`. */
  lemma PointLineValue(key: string, x: int, y: int)
    requires '=' !in key
    ensures KeyValue(PointLine(key, (x, y)), key) == Ok(IntToString(x) + "," + IntToString(y))
  {
    IntToStringShape(x);
    IntToStringShape(y);
    var value := IntToString(x) + "," + IntToString(y);
    assert '=' !in value;
    SplitPair(key, '=', value);
  }

  /** A line whose value is `x,y`, naming a cell among the vertices, gives that cell. */
  lemma KeyVertexPoint(line: string, key: string, x: int, y: int, columns: int, count: int)
    requires 0 <= x <= INT_MAX && 0 <= y <= INT_MAX && 0 <= WrappedCellId(columns, x, y) < count
    requires KeyValue(line, key) == Ok(IntToString(x) + "," + IntToString(y))
    ensures KeyVertex(line, key, columns, count) == Ok(WrappedCellId(columns, x, y))
  {
    PointValue(x, y);
    KeyVertexOf(line, key, IntToString(x) + "," + IntToString(y), IntToString(x), IntToString(y), x, y, columns, count);
  }

  /** A `key=x,y` line whose parts parse to a cell among the vertices gives that cell. */
  lemma KeyVertexOf(line: string, key: string, value: string, xs: string, ys: string, x: int, y: int, columns: int, count: int)
    requires KeyValue(line, key) == Ok(value) && Split(value, ',') == [xs, ys]
    requires ParseInt(xs) == Some(x) && ParseInt(ys) == Some(y) && 0 <= WrappedCellId(columns, x, y) < count
    ensures KeyVertex(line, key, columns, count) == Ok(WrappedCellId(columns, x, y))
  {
  }

  /** A cell id below a vertex count within Java `int` is computed without wrap-around. */
  lemma CellIdFits(columns: int, x: int, y: int, count: int)
    requires 0 <= x && 0 <= y < columns && CellId(columns, x, y) < count <= INT_MAX
    ensures x <= INT_MAX && y <= INT_MAX && WrappedCellId(columns, x, y) == CellId(columns, x, y)
  {
    Heuristics.ProductAtLeast(x, columns);
  }

  /** The `x,y` value of a point splits into its two coordinates, which parse back. */
  lemma PointValue(x: int, y: int)
    requires 0 <= x <= INT_MAX && 0 <= y <= INT_MAX
    ensures var value := IntToString(x) + "," + IntToString(y);
      && Split(value, ',') == [IntToString(x), IntToString(y)]
      && ParseInt(IntToString(x)) == Some(x) && ParseInt(IntToString(y)) == Some(y)
  {
    IntToStringShape(x);
    IntToStringShape(y);
    SplitPair(IntToString(x), ',', IntToString(y));
    ParseIntToString(x);
    ParseIntToString(y);
  }

  /** The line a scanner at the start of line `r` reads is that whole line. */
  lemma NextLineAt(input: seq<string>, r: nat)
    requires r < |input|
    ensures NextLine(input, Cursor(r, 0)) == Ok(Scan(input[r], Cursor(r + 1, 0)))
  {
    assert input[r][0..] == input[r];
  }

  /** Skipping two lines from the end of line `r` goes to the start of line `r + 2`. */
  lemma SkipTwo(input: seq<string>, r: nat, col: int, next: nat)
    requires next == r + 2 && next <= |input| && |input[r]| == col
    ensures SkipLines(input, Cursor(r, col), 2) == Ok(Cursor(next, 0))
  {
  }

  /** The `name=weight` line of a declaration is not `==Graph==` and gives back the name and the weight. */
  lemma TypeLine(t: VertexType)
    requires t.name != [] && '=' !in t.name && INT_MIN <= t.value <= INT_MAX
    ensures KeyLine(t.name, IntToString(t.value)) != GRAPH_HEADER
    ensures TypeHeader(KeyLine(t.name, IntToString(t.value))) == Ok((t.name, IntToString(t.value)))
    ensures ParseInt(IntToString(t.value)) == Some(t.value)
  {
    assert KeyLine(t.name, IntToString(t.value))[0] == t.name[0] != '=';
    IntToStringShape(t.value);
    SplitPair(t.name, '=', IntToString(t.value));
    ParseIntToString(t.value);
  }

  /** `retrieveTypes` reads the first declaration of `ts` from line `r` and the line after it, and goes on at the next. */
  lemma ReadTypeLines(input: seq<string>, r: nat, ts: seq<VertexType>, acc: map<char, VertexType>)
    requires ts != [] && Declares(input, r, ts)
    ensures ReadTypes(input, Cursor(r, 0), acc) == ReadTypes(input, Cursor(r + 2, 0), acc[ts[0].name[0] := ts[0]])
  {
    TypeLine(ts[0]);
    NextLineAt(input, r);
    NextLineAt(input, r + 1);
  }

  /** The lines of the first declaration of `ts`, and those of the others after them. */
  lemma TypeLinesSplit(ts: seq<VertexType>)
    requires ts != []
    ensures TypeLines(ts)[0] == KeyLine(ts[0].name, IntToString(ts[0].value)) && TypeLines(ts)[1] == ts[0].color
    ensures TypeLines(ts)[2..] == TypeLines(ts[1..])
  {
  }

  /** The first declaration of `ts` in its two lines, and the others after them. */
  lemma TypeLinesAt(input: seq<string>, r: nat, end: nat, ts: seq<VertexType>)
    requires ts != [] && end == r + 2 * |ts| && end <= |input| && input[r..end] == TypeLines(ts)
    ensures input[r] == KeyLine(ts[0].name, IntToString(ts[0].value)) && input[r + 1] == ts[0].color
    ensures input[r + 2..end] == TypeLines(ts[1..])
  {
    TypeLinesSplit(ts);
    assert input[r] == input[r..end][0] && input[r + 1] == input[r..end][1];
    assert input[r + 2..end] == input[r..end][2..];
  }

  /** `retrieveTypes` stops at the `==Graph==` line. */
  lemma ReadTypesEnd(input: seq<string>, r: nat, next: nat, acc: map<char, VertexType>)
    requires r < |input| && next == r + 1 && input[r] == GRAPH_HEADER
    ensures ReadTypes(input, Cursor(r, 0), acc) == Ok(Scan(acc, Cursor(next, 0)))
  {
    NextLineAt(input, r);
  }

  /**
   * From line `r` on, `input` holds the declarations of `ts`, two lines each, then `==Graph==`;
   * each name is not empty and holds no `=`, and each weight is a Java `int`.
   */
  predicate Declares(input: seq<string>, r: nat, ts: seq<VertexType>)
    decreases |ts|
  {
    if ts == [] then r < |input| && input[r] == GRAPH_HEADER
    else
      && ts[0].name != [] && '=' !in ts[0].name && INT_MIN <= ts[0].value <= INT_MAX
      && r + 1 < |input|
      && input[r] == KeyLine(ts[0].name, IntToString(ts[0].value)) && input[r + 1] == ts[0].color
      && Declares(input, r + 2, ts[1..])
  }

  /** The type lines of `ts` followed by `==Graph==` declare `ts`. */
  lemma {:induction false} DeclaresLines(input: seq<string>, r: nat, end: nat, ts: seq<VertexType>)
    requires Named(ts) && Writable(ts) && end == r + 2 * |ts| && end < |input| && input[r..end] == TypeLines(ts)
    requires input[end] == GRAPH_HEADER
    ensures Declares(input, r, ts)
    decreases |ts|
  {
    if ts != [] {
      TypeLinesAt(input, r, end, ts);
      assert Named(ts[1..]) && Writable(ts[1..]);
      DeclaresLines(input, r + 2, end, ts[1..]);
    }
  }

  /**
   * `retrieveTypes` from line `r` goes through the declarations of `ts` to line `end`, the one
   * after them, having added them to `acc`.
   */
  lemma {:induction false} ReadDeclarations(input: seq<string>, r: nat, end: nat, ts: seq<VertexType>, acc: map<char, VertexType>)
    requires Named(ts) && end == r + 2 * |ts| && end < |input| && Declares(input, r, ts)
    ensures ReadTypes(input, Cursor(r, 0), acc) == ReadTypes(input, Cursor(end, 0), Declared(acc, ts))
    decreases |ts|
  {
    if ts != [] {
      ReadDeclarations(input, r + 2, end, ts[1..], acc[ts[0].name[0] := ts[0]]);
      ReadTypeLines(input, r, ts, acc);
    }
  }

  /** `next` reads the whole of a non-blank line from its start, or from the end of the line before. */
  lemma NextTokenLine(input: seq<string>, r: nat)
    requires r < |input| && input[r] != [] && forall c :: 0 <= c < |input[r]| ==> !IsWhitespace(input[r][c])
    ensures NextToken(input, Cursor(r, 0)) == Ok(Scan(input[r], Cursor(r, |input[r]|)))
    ensures r > 0 ==> NextToken(input, Cursor(r - 1, |input[r - 1]|)) == Ok(Scan(input[r], Cursor(r, |input[r]|)))
  {
    assert TokenEnd(input[r], 0) == |input[r]|;
    assert input[r][0..|input[r]|] == input[r];
  }

  /** The inner loop of `setVertices` appends the types of a row's symbols from column `col` on. */
  lemma {:induction false} RowCellsOf(token: string, m: map<char, VertexType>, col: nat, acc: seq<VertexType>)
    requires col <= |token| && forall k :: 0 <= k < |token| ==> token[k] in m
    ensures RowCells(token, m, |token|, col, acc) == Ok(acc + Symbols(token[col..], m))
    decreases |token| - col
  {
    if col < |token| {
      RowCellsOf(token, m, col + 1, acc + [m[token[col]]]);
      assert acc + [m[token[col]]] + Symbols(token[col + 1..], m) == acc + Symbols(token[col..], m);
    } else {
      assert acc + Symbols(token[col..], m) == acc;
    }
  }

  /** The inner loop of `setVertices` appends the types of all of a row's symbols. */
  lemma RowCellsAll(token: string, m: map<char, VertexType>, acc: seq<VertexType>)
    requires forall k :: 0 <= k < |token| ==> token[k] in m
    ensures RowCells(token, m, |token|, 0, acc) == Ok(acc + Symbols(token, m))
  {
    RowCellsOf(token, m, 0, acc);
    assert token[0..] == token;
  }

  /**
   * `setVertices` reads the rows from row `k` on, found from line `r`, and appends their cell
   * types to `acc`; row `k` is on line `l`, and reading starts at line `r` for the first row and
   * at the end of the line before for the others, and stops at the end of the last row.
   */
  lemma {:induction false} ReadGridRows(input: seq<string>, r: nat, rows: seq<string>, columns: int,
                                        m: map<char, VertexType>, k: nat, l: nat, cur: Cursor, acc: seq<VertexType>)
    requires Rows(rows, columns, m) && columns >= 1 && 1 <= |rows| && k <= |rows| && l == r + k
    requires r + |rows| <= |input| && forall i :: r <= i < r + |rows| ==> input[i] == rows[i - r]
    requires cur == if k == 0 then Cursor(r, 0) else Cursor(l - 1, columns)
    ensures ReadGrid(input, cur, m, |rows| - k, columns, acc)
      == Ok(Scan(acc + GridCells(rows[k..], columns, m), Cursor(r + |rows| - 1, columns)))
    decreases |rows| - k
  {
    if k == |rows| {
      assert acc + GridCells(rows[k..], columns, m) == acc;
    } else {
      RowAt(input, r, rows, columns, m, k, l);
      ReadGridRows(input, r, rows, columns, m, k + 1, l + 1, Cursor(l, columns), acc + Symbols(rows[k], m));
      ReadGridStep(input, r, rows, columns, m, k, l, cur, acc, Cursor(r + |rows| - 1, columns));
    }
  }

  /**
   * Row `k`, on line `l`, is read by one turn of `setVertices`, which goes on from the end of
   * that line: what the turns after it read, the turns from it on read after row `k`'s cells.
   */
  lemma ReadGridStep(input: seq<string>, r: nat, rows: seq<string>, columns: int,
                     m: map<char, VertexType>, k: nat, l: nat, cur: Cursor, acc: seq<VertexType>, last: Cursor)
    requires Rows(rows, columns, m) && columns >= 1 && k < |rows| && l == r + k
    requires r + |rows| <= |input| && forall i :: r <= i < r + |rows| ==> input[i] == rows[i - r]
    requires cur == if k == 0 then Cursor(r, 0) else Cursor(l - 1, columns)
    requires l < |input| && |input[l]| == columns
    requires ReadGrid(input, Cursor(l, columns), m, |rows| - (k + 1), columns, acc + Symbols(rows[k], m))
      == Ok(Scan(acc + Symbols(rows[k], m) + GridCells(rows[k + 1..], columns, m), last))
    ensures ReadGrid(input, cur, m, |rows| - k, columns, acc) == Ok(Scan(acc + GridCells(rows[k..], columns, m), last))
  {
    RowAt(input, r, rows, columns, m, k, l);
    NextTokenLine(input, l);
    ReadGridRow(input, cur, l, m, |rows| - k, columns, acc);
    GridCellsFrom(rows, columns, m, k, acc);
  }

  /** Row `k` is written on line `l`, a full line of symbols, after a full row when it is not the first. */
  lemma RowAt(input: seq<string>, r: nat, rows: seq<string>, columns: int, m: map<char, VertexType>, k: nat, l: nat)
    requires Rows(rows, columns, m) && columns >= 1 && k < |rows| && l == r + k
    requires r + |rows| <= |input| && forall i :: r <= i < r + |rows| ==> input[i] == rows[i - r]
    ensures l < |input| && input[l] == rows[k] && |input[l]| == columns && input[l] != []
    ensures forall c :: 0 <= c < |input[l]| ==> !IsWhitespace(input[l][c]) && input[l][c] in m
    ensures k > 0 ==> |input[l - 1]| == columns
  {
    assert input[l] == rows[l - r];
    if k > 0 {
      assert input[l - 1] == rows[k - 1];
    }
  }

  /** The cells of the rows from row `k` on are those of row `k`, then those of the rows after it. */
  lemma GridCellsFrom(rows: seq<string>, columns: int, m: map<char, VertexType>, k: nat, acc: seq<VertexType>)
    requires Rows(rows, columns, m) && k < |rows|
    ensures acc + Symbols(rows[k], m) + GridCells(rows[k + 1..], columns, m) == acc + GridCells(rows[k..], columns, m)
  {
    assert rows[k..][0] == rows[k] && rows[k..][1..] == rows[k + 1..];
  }

  /** One turn of `setVertices`: the token on line `l` is a row, whose cells are appended. */
  lemma ReadGridRow(input: seq<string>, cur: Cursor, l: nat, m: map<char, VertexType>, n: int, columns: int, acc: seq<VertexType>)
    requires Positioned(input, cur) && n >= 1 && l < |input| && |input[l]| == columns
    requires forall c :: 0 <= c < |input[l]| ==> input[l][c] in m
    requires NextToken(input, cur) == Ok(Scan(input[l], Cursor(l, columns)))
    ensures ReadGrid(input, cur, m, n, columns, acc)
      == ReadGrid(input, Cursor(l, columns), m, n - 1, columns, acc + Symbols(input[l], m))
  {
    RowCellsAll(input[l], m, acc);
  }

  /** There are `columns` cells a row. */
  lemma {:induction false} GridCellsLength(rows: seq<string>, columns: int, m: map<char, VertexType>)
    requires Rows(rows, columns, m)
    ensures |GridCells(rows, columns, m)| == |rows| * columns
    decreases |rows|
  {
    if rows != [] {
      GridCellsLength(rows[1..], columns, m);
      assert |rows| * columns == (|rows| - 1) * columns + columns;
    }
  }

  /** Cell (l, c) has the type of symbol `c` of row `l`. */
  lemma {:induction false} GridCellAt(rows: seq<string>, columns: int, m: map<char, VertexType>, l: nat, c: nat)
    requires Rows(rows, columns, m) && l < |rows| && c < columns
    ensures CellId(columns, l, c) < |GridCells(rows, columns, m)|
    ensures GridCells(rows, columns, m)[CellId(columns, l, c)] == m[rows[l][c]]
    decreases l
  {
    if l > 0 {
      GridCellAt(rows[1..], columns, m, l - 1, c);
      assert l * columns == (l - 1) * columns + columns;
    }
  }

  /** There are `columns` cells a row, and cell (l, c) has the type of symbol `c` of row `l`. */
  lemma GridCellsAt(rows: seq<string>, columns: int, m: map<char, VertexType>)
    requires Rows(rows, columns, m) && columns >= 1
    ensures |GridCells(rows, columns, m)| == |rows| * columns
    ensures forall l, c :: 0 <= l < |rows| && 0 <= c < columns ==>
      && 0 <= CellId(columns, l, c) < |GridCells(rows, columns, m)|
      && GridCells(rows, columns, m)[CellId(columns, l, c)] == m[rows[l][c]]
  {
    GridCellsLength(rows, columns, m);
    forall l, c | 0 <= l < |rows| && 0 <= c < columns
      ensures 0 <= CellId(columns, l, c) < |GridCells(rows, columns, m)|
      ensures GridCells(rows, columns, m)[CellId(columns, l, c)] == m[rows[l][c]]
    {
      CellIdInRange(|rows|, columns, l, c);
      GridCellAt(rows, columns, m, l, c);
    }
  }

  /** Line at which the grid of `f` starts in its file. */
  function GridLine(f: MapFile): nat
  {
    6 + 2 * |f.types|
  }

  /** Where each part of `Preamble(f)` lies, with `T` type declarations. */
  lemma PreambleLayout(f: MapFile)
    requires |f.head| == 2
    ensures var lines, T := Preamble(f), |f.types|;
      && |lines| == GridLine(f)
      && lines[2] == KeyLine("nlines", IntToString(f.lines))
      && lines[3] == KeyLine("ncol", IntToString(f.columns))
      && lines[5..5 + 2 * T] == TypeLines(f.types)
      && lines[5 + 2 * T] == GRAPH_HEADER
  {
    var size := f.head + [KeyLine("nlines", IntToString(f.lines)), KeyLine("ncol", IntToString(f.columns)), f.typesHead];
    assert Preamble(f) == size + TypeLines(f.types) + [GRAPH_HEADER];
    assert (size + TypeLines(f.types))[5..] == TypeLines(f.types);
  }

  /** Where each part of `Render(f)` lies, with `L` rows. */
  lemma RenderLayout(f: MapFile)
    ensures var input, G, L := Render(f), |Preamble(f)|, |f.rows|;
      && |input| == G + L + 3
      && input[..G] == Preamble(f)
      && input[G..G + L] == f.rows
      && input[G + L + 1] == PointLine("Start", f.start)
      && input[G + L + 2] == PointLine("Finish", f.finish)
  {
    var grid := Preamble(f) + f.rows;
    assert Render(f) == grid + Closing(f);
    assert Render(f)[..|Preamble(f)|] == grid[..|Preamble(f)|];
    assert Render(f)[|Preamble(f)|..|grid|] == grid[|Preamble(f)|..];
  }

  /** `retrieveTypes` reads every declaration of `ts`, from line `r` on, up to the `==Graph==` line `last`. */
  lemma TypesRead(input: seq<string>, r: nat, last: nat, next: nat, ts: seq<VertexType>)
    requires Named(ts) && last == r + 2 * |ts| && next == last + 1 && last < |input|
    requires Declares(input, r, ts) && input[last] == GRAPH_HEADER
    ensures ReadTypes(input, Cursor(r, 0), map[]) == Ok(Scan(Declared(map[], ts), Cursor(next, 0)))
  {
    ReadDeclarations(input, r, last, ts, map[]);
    ReadTypesEnd(input, last, next, Declared(map[], ts));
  }

  /** `read` skips two lines and finds the size on lines 2 and 3. */
  lemma SizeLines(input: seq<string>, lines: int, columns: int)
    requires 3 < |input| && KeyInt(input[2], "nlines") == Ok(lines) && KeyInt(input[3], "ncol") == Ok(columns)
    ensures ParseSize(input, Cursor(0, 0)) == Ok(Scan((lines, columns), Cursor(4, 0)))
  {
    NextLineAt(input, 2);
    NextLineAt(input, 3);
  }

  /** `read` goes on from the size to the types, declared after the line it skips. */
  lemma HeaderLines(input: seq<string>, lines: int, columns: int, m: map<char, VertexType>, next: Cursor)
    requires 5 <= |input| && ParseSize(input, Cursor(0, 0)) == Ok(Scan((lines, columns), Cursor(4, 0)))
    requires ReadTypes(input, Cursor(5, 0), map[]) == Ok(Scan(m, next))
    ensures ParseHeader(input, Cursor(0, 0)) == Ok(Scan((lines, columns, m), next))
  {
  }

  /** The size, the declarations and the `==Graph==` line of `Render(f)`. */
  lemma HeaderLayout(f: MapFile)
    requires |f.head| == 2
    ensures 5 + 2 * |f.types| < |Render(f)|
    ensures Render(f)[2] == KeyLine("nlines", IntToString(f.lines))
    ensures Render(f)[3] == KeyLine("ncol", IntToString(f.columns))
    ensures Render(f)[5..5 + 2 * |f.types|] == TypeLines(f.types)
    ensures Render(f)[5 + 2 * |f.types|] == GRAPH_HEADER
  {
    var input, P, T := Render(f), Preamble(f), |f.types|;
    RenderLayout(f);
    PreambleLayout(f);
    assert input[5..5 + 2 * T] == P[5..5 + 2 * T];
  }

  /** The rows of `Render(f)`, after its preamble. */
  lemma RowsLayout(f: MapFile)
    requires |f.head| == 2 && f.lines == |f.rows|
    ensures 6 + 2 * |f.types| + f.lines <= |Render(f)|
    ensures Render(f)[6 + 2 * |f.types|..6 + 2 * |f.types| + f.lines] == f.rows
  {
    RenderLayout(f);
    PreambleLayout(f);
  }

  /** The end points of `Render(f)`, on its last two lines. */
  lemma EndsLayout(f: MapFile)
    requires |f.head| == 2 && f.lines == |f.rows|
    ensures 6 + 2 * |f.types| + f.lines + 2 < |Render(f)|
    ensures Render(f)[6 + 2 * |f.types| + f.lines + 1] == PointLine("Start", f.start)
    ensures Render(f)[6 + 2 * |f.types| + f.lines + 2] == PointLine("Finish", f.finish)
  {
    RenderLayout(f);
    PreambleLayout(f);
  }

  /** `read` finds the size written on lines 2 and 3. */
  lemma SizeRead(input: seq<string>, lines: int, columns: int)
    requires 3 < |input| && INT_MIN <= lines <= INT_MAX && INT_MIN <= columns <= INT_MAX
    requires input[2] == KeyLine("nlines", IntToString(lines)) && input[3] == KeyLine("ncol", IntToString(columns))
    ensures ParseSize(input, Cursor(0, 0)) == Ok(Scan((lines, columns), Cursor(4, 0)))
  {
    KeyIntLine("nlines", lines);
    KeyIntLine("ncol", columns);
    SizeLines(input, lines, columns);
  }

  /** `retrieveTypes` reads the declarations written from line 5 on, up to the `==Graph==` line `last`. */
  lemma TypesReadAt(input: seq<string>, last: nat, grid: nat, ts: seq<VertexType>)
    requires Named(ts) && Writable(ts) && last == 5 + 2 * |ts| && grid == last + 1 && last < |input|
    requires input[5..last] == TypeLines(ts) && input[last] == GRAPH_HEADER
    ensures ReadTypes(input, Cursor(5, 0), map[]) == Ok(Scan(Declared(map[], ts), Cursor(grid, 0)))
  {
    DeclaresLines(input, 5, last, ts);
    TypesRead(input, 5, last, grid, ts);
  }

  /** Line `l` of a slice from line `from` is line `from + l` of `input`. */
  lemma LinesOf(input: seq<string>, from: nat, end: nat, lines: seq<string>)
    requires from <= end <= |input| && input[from..end] == lines
    ensures forall l :: from <= l < end ==> input[l] == lines[l - from]
  {
    forall l | from <= l < end
      ensures input[l] == lines[l - from]
    {
      assert input[l] == input[from..end][l - from];
    }
  }

  /** All the rows are the rows from the first on, and their cells follow no others. */
  lemma AllRows(rows: seq<string>, columns: int, m: map<char, VertexType>)
    requires Rows(rows, columns, m)
    ensures rows[0..] == rows && [] + GridCells(rows, columns, m) == GridCells(rows, columns, m)
  {
  }

  /** `setVertices` reads the rows written from line `grid` to line `last`, up to the end of the last one. */
  lemma GridReadAt(input: seq<string>, grid: nat, end: nat, last: nat, lines: int, rows: seq<string>, columns: int,
                   m: map<char, VertexType>)
    requires Rows(rows, columns, m) && columns >= 1 && lines == |rows| >= 1
    requires end == grid + lines && last == end - 1 && end <= |input| && input[grid..end] == rows
    ensures |input[last]| == columns
    ensures ReadGrid(input, Cursor(grid, 0), m, lines, columns, []) == Ok(Scan(GridCells(rows, columns, m), Cursor(last, columns)))
  {
    LinesOf(input, grid, end, rows);
    AllRows(rows, columns, m);
    ReadGridRows(input, grid, rows, columns, m, 0, grid, Cursor(grid, 0), []);
  }

  /**
   * `read` skips the end of the row `last` and the line after it, then finds the start and end
   * points on the next two lines.
   */
  lemma EndsLines(input: seq<string>, last: nat, startLine: nat, finishLine: nat, next: nat,
                  columns: int, count: int, p: (int, int), q: (int, int))
    requires startLine == last + 2 && finishLine == last + 3 && next == last + 4
    requires finishLine < |input| && |input[last]| == columns
    requires KeyVertex(input[startLine], "Start", columns, count) == Ok(CellId(columns, p.0, p.1))
    requires KeyVertex(input[finishLine], "Finish", columns, count) == Ok(CellId(columns, q.0, q.1))
    ensures ParseEnds(input, Cursor(last, columns), columns, count)
      == Ok(Scan((CellId(columns, p.0, p.1), CellId(columns, q.0, q.1)), Cursor(next, 0)))
  {
    SkipTwo(input, last, columns, startLine);
    NextLineAt(input, startLine);
    NextLineAt(input, finishLine);
  }

  /** The id `x * columns + y` of a point inside the map is one of its cells'. */
  lemma PointId(lines: int, columns: int, p: (int, int))
    requires 0 <= p.0 < lines && 0 <= p.1 < columns
    ensures 0 <= CellId(columns, p.0, p.1) < lines * columns
  {
    CellIdInRange(lines, columns, p.0, p.1);
  }

  /** `read` finds the size and the declared types of `f` before its grid. */
  lemma HeaderWritten(f: MapFile)
    requires |f.head| == 2 && Named(f.types) && Writable(f.types)
    requires INT_MIN <= f.lines <= INT_MAX && INT_MIN <= f.columns <= INT_MAX
    ensures ParseHeader(Render(f), Cursor(0, 0))
      == Ok(Scan((f.lines, f.columns, Declared(map[], f.types)), Cursor(6 + 2 * |f.types|, 0)))
  {
    HeaderLayout(f);
    SizeRead(Render(f), f.lines, f.columns);
    TypesReadAt(Render(f), 5 + 2 * |f.types|, 6 + 2 * |f.types|, f.types);
    HeaderLines(Render(f), f.lines, f.columns, Declared(map[], f.types), Cursor(6 + 2 * |f.types|, 0));
  }

  /**
   * `read` reads a grid of `lines` rows from line `grid` on, then skips two lines and finds the
   * end points on the next two, among the grid's cells.
   */
  lemma BodyRead(input: seq<string>, grid: nat, end: nat, last: nat, startLine: nat, finishLine: nat, next: nat,
                 lines: int, rows: seq<string>, columns: int, m: map<char, VertexType>, count: int, p: (int, int), q: (int, int))
    requires Rows(rows, columns, m) && columns >= 1 && lines == |rows| >= 1
    requires end == grid + lines && last == end - 1 && end <= |input| && input[grid..end] == rows
    requires startLine == last + 2 && finishLine == last + 3 && next == last + 4 && finishLine < |input|
    requires count == |GridCells(rows, columns, m)|
    requires KeyVertex(input[startLine], "Start", columns, count) == Ok(CellId(columns, p.0, p.1))
    requires KeyVertex(input[finishLine], "Finish", columns, count) == Ok(CellId(columns, q.0, q.1))
    ensures ParseBody(input, Cursor(grid, 0), lines, columns, m)
      == Ok(FileMap(lines, columns, GridCells(rows, columns, m), CellId(columns, p.0, p.1), CellId(columns, q.0, q.1)))
  {
    GridReadAt(input, grid, end, last, lines, rows, columns, m);
    EndsLines(input, last, startLine, finishLine, next, columns, count, p, q);
  }

  /**
   * The cells of `f` are its rows' cells one after the other: `lines * columns` of them, the one
   * with id `CellId(columns, l, c)` the type declared last for the symbol in row `l`, column `c`.
   */
  lemma CellsWritten(f: MapFile)
    requires WellFormed(f)
    ensures |Cells(f)| == f.lines * f.columns
    ensures forall l, c :: 0 <= l < f.lines && 0 <= c < f.columns ==>
      0 <= CellId(f.columns, l, c) < |Cells(f)| && Cells(f)[CellId(f.columns, l, c)] == Declared(map[], f.types)[f.rows[l][c]]
  {
    GridCellsAt(f.rows, f.columns, Declared(map[], f.types));
  }

  /** `read` reads the grid of `f` and then its end points, once it has its size and types. */
  lemma BodyWritten(f: MapFile)
    requires |f.head| == 2 && f.lines == |f.rows| >= 1 && f.columns >= 1 && f.lines * f.columns <= INT_MAX
    requires Named(f.types) && Rows(f.rows, f.columns, Declared(map[], f.types))
    requires InMap(f, f.start) && InMap(f, f.finish)
    ensures var m := Declared(map[], f.types);
      ParseBody(Render(f), Cursor(6 + 2 * |f.types|, 0), f.lines, f.columns, m)
        == Ok(FileMap(f.lines, f.columns, GridCells(f.rows, f.columns, m),
                      CellId(f.columns, f.start.0, f.start.1), CellId(f.columns, f.finish.0, f.finish.1)))
  {
    var m := Declared(map[], f.types);
    var count := |GridCells(f.rows, f.columns, m)|;
    GridCellsLength(f.rows, f.columns, m);
    PointId(f.lines, f.columns, f.start);
    PointId(f.lines, f.columns, f.finish);
    KeyVertexLine("Start", f.start, f.columns, count);
    KeyVertexLine("Finish", f.finish, f.columns, count);
    RowsLayout(f);
    EndsLayout(f);
    var grid := 6 + 2 * |f.types|;
    BodyRead(Render(f), grid, grid + f.lines, grid + f.lines - 1, grid + f.lines + 1, grid + f.lines + 2, grid + f.lines + 3,
             f.lines, f.rows, f.columns, m, count, f.start, f.finish);
  }

  /**
   * `read` recovers the map from its file: the size, the cells of its rows, and the ids
   * `x * columns + y` of the two end points.
   */
  lemma ReadWritten(f: MapFile)
    requires WellFormed(f)
    ensures ParseFile(Render(f), Cursor(0, 0))
      == Ok(FileMap(f.lines, f.columns, Cells(f), CellId(f.columns, f.start.0, f.start.1), CellId(f.columns, f.finish.0, f.finish.1)))
  {
    HeaderWritten(f);
    BodyWritten(f);
  }
}
