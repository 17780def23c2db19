/**
 * The launcher's option types and field values: `Field.Type` with its flag, the map types and
 * path finders it is valid for, and its resolution from a command-line flag; the field classes
 * `TimeField`, `PointField`, `HeuristicField`, `ColorField` and `BooleanValueField` with their
 * validity tests.
 */
module Fields {
  import opened Wrappers
  import opened JavaText
  import opened Heuristics
  import opened Launcher

  /** `Field.Type`, in declaration order. */
  datatype FieldType =
    | START | END | HEURISTIC | TIME | DELAY | START_VERTEX_COLOR | END_VERTEX_COLOR
    | PREVIOUS_PATH_COLOR | CURRENT_VERTEX_COLOR | PATH_COLOR | SHOW_ANIMATION | VERBOSE
  {
    /** `getArg`: the command-line flag. */
    function Arg(): string
    {
      match this
      case START => "--start"
      case END => "--end"
      case HEURISTIC => "--heuristic"
      case TIME => "--time"
      case DELAY => "--delay"
      case START_VERTEX_COLOR => "--start-color"
      case END_VERTEX_COLOR => "--end-color"
      case PREVIOUS_PATH_COLOR => "--previous-color"
      case CURRENT_VERTEX_COLOR => "--current-color"
      case PATH_COLOR => "--path-color"
      case SHOW_ANIMATION => "--no-animation"
      case VERBOSE => "--verbose"
    }

    /** `ordinal`: the position in declaration order. */
    function Ordinal(): nat
    {
      match this
      case START => 0
      case END => 1
      case HEURISTIC => 2
      case TIME => 3
      case DELAY => 4
      case START_VERTEX_COLOR => 5
      case END_VERTEX_COLOR => 6
      case PREVIOUS_PATH_COLOR => 7
      case CURRENT_VERTEX_COLOR => 8
      case PATH_COLOR => 9
      case SHOW_ANIMATION => 10
      case VERBOSE => 11
    }

    /** The map types the constant is declared with. */
    function DeclaredMapTypes(): seq<MapArgument>
    {
      if this == START || this == END then [IMAGE] else ALL_MAP_TYPES
    }

    /** The path finders the constant is declared with; none for most options. */
    function DeclaredPathFinders(): seq<PathFinderArgument>
    {
      if this == HEURISTIC then [A_STAR] else []
    }

    /** `getTypes`. */
    function MapTypes(): set<MapArgument>
    {
      set t | t in DeclaredMapTypes()
    }

    /** `getPathFinders`: an option declared without path finders allows all of them. */
    function PathFinders(): set<PathFinderArgument>
    {
      if DeclaredPathFinders() == [] then set p | p in ALL_PATH_FINDERS
      else set p | p in DeclaredPathFinders()
    }
  }

  /** `Type.values()`. */
  const ALL_TYPES: seq<FieldType> := [
    START, END, HEURISTIC, TIME, DELAY, START_VERTEX_COLOR, END_VERTEX_COLOR,
    PREVIOUS_PATH_COLOR, CURRENT_VERTEX_COLOR, PATH_COLOR, SHOW_ANIMATION, VERBOSE
  ]

  /** `ALL_TYPES` lists every constant at its ordinal. */
  lemma OrdinalIndex(t: FieldType)
    ensures t.Ordinal() < |ALL_TYPES| && ALL_TYPES[t.Ordinal()] == t
  {
    match t
    case START =>
    case END =>
    case HEURISTIC =>
    case TIME =>
    case DELAY =>
    case START_VERTEX_COLOR =>
    case END_VERTEX_COLOR =>
    case PREVIOUS_PATH_COLOR =>
    case CURRENT_VERTEX_COLOR =>
    case PATH_COLOR =>
    case SHOW_ANIMATION =>
    case VERBOSE =>
  }

  /** The three `IllegalArgumentException`s of `Type.of`, without the list of valid values. */
  datatype OptionError =
    | InvalidForMapType(arg: string, mapType: MapArgument)
    | InvalidForPathFinder(arg: string, pathFinder: PathFinderArgument)
    | UnknownOption(arg: string)

  /**
   * `Type.of(arg, type, pathFinder)`: the option whose flag equals `arg` ignoring case, provided
   * it is valid for the map type and then for the path finder.
   */
  function TypeOf(arg: string, mapType: MapArgument, pathFinder: PathFinderArgument): (r: Result<FieldType, OptionError>)
    ensures r.Ok? ==> EqualsIgnoreCase(r.value.Arg(), arg)
    ensures r.Ok? ==> mapType in r.value.MapTypes() && pathFinder in r.value.PathFinders()
    ensures r == Err(UnknownOption(arg)) <==> forall t: FieldType :: !EqualsIgnoreCase(t.Arg(), arg)
    ensures r.Err? && r.error.InvalidForMapType? ==> r.error == InvalidForMapType(arg, mapType)
    ensures r.Err? && r.error.InvalidForPathFinder? ==> r.error == InvalidForPathFinder(arg, pathFinder)
  {
    match FirstMatch(ALL_TYPES, (t: FieldType) => t.Arg(), arg)
    case None =>
      forall t: FieldType
        ensures !EqualsIgnoreCase(t.Arg(), arg)
      {
        OrdinalIndex(t);
      }
      Err(UnknownOption(arg))
    case Some(t) =>
      if mapType !in t.MapTypes() then Err(InvalidForMapType(arg, mapType))
      else if pathFinder !in t.PathFinders() then Err(InvalidForPathFinder(arg, pathFinder))
      else Ok(t)
  }

  /** No two flags are equal ignoring case, so at most one option matches an argument. */
  lemma FlagsDistinct(t: FieldType, u: FieldType)
    requires t != u
    ensures !EqualsIgnoreCase(t.Arg(), u.Arg())
  {
    var a, b := t.Arg(), u.Arg();
    // Only "--start"/"--delay" and "--heuristic"/"--end-color" share a length; their third characters differ.
    if |a| == |b| {
      assert ToLower(a[2]) != ToLower(b[2]);
    }
  }

  /**
   * The flag of an option, in any case, resolves to that option when the option is valid for the
   * map type and the path finder; otherwise the map-type check fails first, then the path-finder check.
   */
  lemma TypeOfArg(t: FieldType, arg: string, mapType: MapArgument, pathFinder: PathFinderArgument)
    requires EqualsIgnoreCase(arg, t.Arg())
    ensures mapType !in t.MapTypes() ==> TypeOf(arg, mapType, pathFinder) == Err(InvalidForMapType(arg, mapType))
    ensures mapType in t.MapTypes() && pathFinder !in t.PathFinders()
      ==> TypeOf(arg, mapType, pathFinder) == Err(InvalidForPathFinder(arg, pathFinder))
    ensures mapType in t.MapTypes() && pathFinder in t.PathFinders() ==> TypeOf(arg, mapType, pathFinder) == Ok(t)
  {
    var m := FirstMatch(ALL_TYPES, (t: FieldType) => t.Arg(), arg);
    EqualsIgnoreCaseEquivalence(arg, t.Arg(), t.Arg());
    OrdinalIndex(t);
    var u := m.value;
    EqualsIgnoreCaseEquivalence(u.Arg(), arg, t.Arg());
    if u != t {
      FlagsDistinct(u, t);
    }
  }

  /** `--start` and `--end` are image options, `--heuristic` is an A* option; the rest suit every map and path finder. */
  lemma OptionScopes(t: FieldType)
    ensures t.MapTypes() == if t == START || t == END then {IMAGE} else {IMAGE, CONFIG}
    ensures t.PathFinders() == if t == HEURISTIC then {A_STAR} else {DIJKSTRA, A_STAR}
  {
    assert ALL_MAP_TYPES == [IMAGE, CONFIG] && ALL_PATH_FINDERS == [DIJKSTRA, A_STAR];
  }

  /**
   * A configuration value: `TimeField`, `PointField`, `HeuristicField`, `ColorField` or
   * `BooleanValueField`, each holding the final `value` that `getValue` returns.
   */
  datatype Field =
    | TimeField(time: int, min: int, max: int)
    | PointField(point: int)
    | HeuristicField(mapType: MapArgument, heuristic: Heuristic)
    | ColorField(color: string)
    | BooleanValueField(flag: bool)

  /** `HeuristicField.auto`: Manhattan for images, Chebyshev for configuration files. */
  function Auto(mapType: MapArgument): (h: Heuristic)
    ensures h == MANHATTAN <==> mapType == IMAGE
  {
    match mapType
    case IMAGE => MANHATTAN
    case CONFIG => CHEBYSHEV
  }

  /** `new HeuristicField(mapType)`: the field holding the automatic choice. */
  function AutoHeuristicField(mapType: MapArgument): (f: Field)
    ensures f.HeuristicField? && f.mapType == mapType
  {
    HeuristicField(mapType, Auto(mapType))
  }

  /** `new TimeField(value, min, max)` from text: `None` where `Integer.parseInt` throws. */
  function TimeFieldOf(value: string, min: int, max: int): (f: Option<Field>)
    ensures f.Some? ==> f.value.TimeField? && f.value.min == min && f.value.max == max
    ensures f.Some? <==> ParseInt(value).Some?
  {
    match ParseInt(value)
    case Some(n) => Some(TimeField(n, min, max))
    case None => None
  }

  /** `new PointField(value)`: `None` where `Integer.parseInt` throws. */
  function PointFieldOf(value: string): (f: Option<Field>)
    ensures f.Some? ==> f.value.PointField?
    ensures f.Some? <==> ParseInt(value).Some?
  {
    match ParseInt(value)
    case Some(n) => Some(PointField(n))
    case None => None
  }

  /**
   * `isValueValid`. Whether `Color.decode` accepts a colour is not modelled: `decodes` stands for
   * it, and a boolean is always valid.
   */
  predicate IsValueValid(f: Field, decodes: string -> bool)
  {
    match f
    case TimeField(v, min, max) => v >= min && v <= max
    case PointField(v) => v >= 0
    case HeuristicField(mapType, h) =>
      (match mapType
       case IMAGE => h == MANHATTAN
       case CONFIG => h == CHEBYSHEV || h == EUCLIDEAN || h == OCTILE)
    case ColorField(c) => decodes(c)
    case BooleanValueField(_) => true
  }

  /** A heuristic suits image maps exactly when it is Manhattan, and configuration maps exactly when it is not. */
  lemma HeuristicValidity(h: Heuristic, decodes: string -> bool)
    ensures IsValueValid(HeuristicField(IMAGE, h), decodes) <==> h == MANHATTAN
    ensures IsValueValid(HeuristicField(CONFIG, h), decodes) <==> h != MANHATTAN
    ensures !(IsValueValid(HeuristicField(IMAGE, h), decodes) && IsValueValid(HeuristicField(CONFIG, h), decodes))
  {
  }

  /** The automatic heuristic is valid for its map type. */
  lemma AutoValid(mapType: MapArgument, decodes: string -> bool)
    ensures IsValueValid(AutoHeuristicField(mapType), decodes)
  {
  }

  /**
   * A time is valid exactly within its bounds, both included: the bounds themselves are valid
   * when `min <= max`, and nothing is valid when `min > max`.
   */
  lemma TimeValidity(v: int, min: int, max: int, decodes: string -> bool)
    ensures IsValueValid(TimeField(v, min, max), decodes) <==> min <= v <= max
    ensures min <= max ==> IsValueValid(TimeField(min, min, max), decodes) && IsValueValid(TimeField(max, min, max), decodes)
    ensures min > max ==> !IsValueValid(TimeField(v, min, max), decodes)
  {
  }

  /** A point is valid exactly when it is not negative, however large. */
  lemma PointValidity(v: int, decodes: string -> bool)
    ensures IsValueValid(PointField(v), decodes) <==> v >= 0
    ensures IsValueValid(PointField(0), decodes)
  {
  }

  /** The text constructors agree with the int constructors on printed Java `int`s. */
  lemma ParsedFields(n: int, min: int, max: int)
    requires INT_MIN <= n <= INT_MAX
    ensures TimeFieldOf(IntToString(n), min, max) == Some(TimeField(n, min, max))
    ensures PointFieldOf(IntToString(n)) == Some(PointField(n))
  {
    ParseIntToString(n);
  }
}
