/**
 * The two enumerations of the command-line launcher: the map type (`image` or `config`) and the
 * path finder (`dijkstra` or `a-star`), each resolved from its argument ignoring case by a
 * first-match scan over the constants in declaration order.
 */
module Launcher {
  import opened Wrappers
  import opened JavaText

  /** `Launcher.MapArgument`. */
  datatype MapArgument = IMAGE | CONFIG
  {
    /** `getArg`. */
    function Arg(): string
    {
      match this
      case IMAGE => "image"
      case CONFIG => "config"
    }
  }

  /** `Launcher.PathFinderArgument`. */
  datatype PathFinderArgument = DIJKSTRA | A_STAR
  {
    /** `getArg`. */
    function Arg(): string
    {
      match this
      case DIJKSTRA => "dijkstra"
      case A_STAR => "a-star"
    }
  }

  /** `MapArgument.values()` and `ALL_MAP_TYPES`, in declaration order. */
  const ALL_MAP_TYPES: seq<MapArgument> := [IMAGE, CONFIG]

  /** `PathFinderArgument.values()` and `ALL_PATH_FINDERS`, in declaration order. */
  const ALL_PATH_FINDERS: seq<PathFinderArgument> := [DIJKSTRA, A_STAR]

  /**
   * The first of `ts` whose name equals `arg` ignoring case: the loop of the `of` methods, with
   * `None` where the loop ends without returning.
   */
  function FirstMatch<T>(ts: seq<T>, name: T -> string, arg: string): (r: Option<T>)
    ensures r.Some? ==> r.value in ts && EqualsIgnoreCase(name(r.value), arg)
    ensures r.Some? ==> exists i :: 0 <= i < |ts| && ts[i] == r.value
                                 && (forall j :: 0 <= j < i ==> !EqualsIgnoreCase(name(ts[j]), arg))
    ensures r.None? <==> forall i :: 0 <= i < |ts| ==> !EqualsIgnoreCase(name(ts[i]), arg)
  {
    if ts == [] then None
    else if EqualsIgnoreCase(name(ts[0]), arg) then Some(ts[0])
    else
      FirstMatch(ts[1..], name, arg)
  }

  /** `MapArgument.of(arg)`: the map type named `arg` ignoring case, or the error message it throws. */
  function MapArgumentOf(arg: string): (r: Result<MapArgument, string>)
    ensures r.Ok? ==> EqualsIgnoreCase(r.value.Arg(), arg)
    ensures r.Err? <==> forall t: MapArgument :: !EqualsIgnoreCase(t.Arg(), arg)
    ensures r.Err? ==> r.error == "unknown map type argument '" + arg + "'"
  {
    match FirstMatch(ALL_MAP_TYPES, (t: MapArgument) => t.Arg(), arg)
    case Some(t) => Ok(t)
    case None =>
      assert ALL_MAP_TYPES[0] == IMAGE && ALL_MAP_TYPES[1] == CONFIG;
      Err("unknown map type argument '" + arg + "'")
  }

  /** `PathFinderArgument.of(arg)`: the path finder named `arg` ignoring case, or the error message it throws. */
  function PathFinderArgumentOf(arg: string): (r: Result<PathFinderArgument, string>)
    ensures r.Ok? ==> EqualsIgnoreCase(r.value.Arg(), arg)
    ensures r.Err? <==> forall t: PathFinderArgument :: !EqualsIgnoreCase(t.Arg(), arg)
    ensures r.Err? ==> r.error == "unknown pathfinder argument '" + arg + "'"
  {
    match FirstMatch(ALL_PATH_FINDERS, (t: PathFinderArgument) => t.Arg(), arg)
    case Some(t) => Ok(t)
    case None =>
      assert ALL_PATH_FINDERS[0] == DIJKSTRA && ALL_PATH_FINDERS[1] == A_STAR;
      Err("unknown pathfinder argument '" + arg + "'")
  }

  /** Each map type is resolved from its own argument, in any case. */
  lemma MapArgumentOfArg(t: MapArgument, arg: string)
    requires EqualsIgnoreCase(arg, t.Arg())
    ensures MapArgumentOf(arg) == Ok(t)
  {
    var r := MapArgumentOf(arg);
    EqualsIgnoreCaseEquivalence(r.value.Arg(), arg, t.Arg());
    assert r.value.Arg()[0] == t.Arg()[0];
  }

  /** Each path finder is resolved from its own argument, in any case. */
  lemma PathFinderArgumentOfArg(t: PathFinderArgument, arg: string)
    requires EqualsIgnoreCase(arg, t.Arg())
    ensures PathFinderArgumentOf(arg) == Ok(t)
  {
    var r := PathFinderArgumentOf(arg);
    EqualsIgnoreCaseEquivalence(r.value.Arg(), arg, t.Arg());
    assert r.value.Arg()[0] == t.Arg()[0];
  }
}
