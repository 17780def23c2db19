/**
 * The launcher's configuration: a map from option type to field value, filled with nine
 * defaults on construction and updated in place by `set`.
 */
module Configurations {
  import opened Wrappers
  import opened Launcher
  import opened Fields

  const DEFAULT_DELAY: Field := TimeField(2000, 0, 10_000)
  const DEFAULT_TIMER: Field := TimeField(10, 1, 20_000)
  const DEFAULT_PATH_COLOR: Field := ColorField("#FF19A7")
  const DEFAULT_CURRENT_VERTEX_COLOR: Field := ColorField("#8E09DB")
  const DEFAULT_PREVIOUS_PATH_COLOR: Field := ColorField("#FF9C19")
  const DEFAULT_START_VERTEX_COLOR: Field := ColorField("#FF194F")
  const DEFAULT_END_VERTEX_COLOR: Field := ColorField("#19A3FF")
  const DEFAULT_SHOW_ANIMATION: Field := BooleanValueField(true)
  const DEFAULT_VERBOSE: Field := BooleanValueField(false)

  /**
   * `initDefault`: the nine defaulted options, and no entry for the start, the end or the
   * heuristic.
   */
  function InitDefault(): (m: map<FieldType, Field>)
    ensures m.Keys == {DELAY, TIME, PATH_COLOR, CURRENT_VERTEX_COLOR, PREVIOUS_PATH_COLOR,
                       START_VERTEX_COLOR, END_VERTEX_COLOR, SHOW_ANIMATION, VERBOSE}
    ensures START !in m && END !in m && HEURISTIC !in m
    ensures m[DELAY].TimeField? && m[TIME].TimeField?
  {
    map[DELAY := DEFAULT_DELAY]
      [TIME := DEFAULT_TIMER]
      [PATH_COLOR := DEFAULT_PATH_COLOR]
      [CURRENT_VERTEX_COLOR := DEFAULT_CURRENT_VERTEX_COLOR]
      [PREVIOUS_PATH_COLOR := DEFAULT_PREVIOUS_PATH_COLOR]
      [START_VERTEX_COLOR := DEFAULT_START_VERTEX_COLOR]
      [END_VERTEX_COLOR := DEFAULT_END_VERTEX_COLOR]
      [SHOW_ANIMATION := DEFAULT_SHOW_ANIMATION]
      [VERBOSE := DEFAULT_VERBOSE]
  }

  /** Every option suits every map type and path finder except the three without a default. */
  lemma DefaultsAreGeneral(t: FieldType)
    requires t in InitDefault()
    ensures t.MapTypes() == {IMAGE, CONFIG} && t.PathFinders() == {DIJKSTRA, A_STAR}
  {
    OptionScopes(t);
  }

  /** The default delay and timer lie within their own bounds; the booleans are valid too. */
  lemma DefaultsValid(decodes: string -> bool)
    ensures IsValueValid(InitDefault()[DELAY], decodes) && IsValueValid(InitDefault()[TIME], decodes)
    ensures IsValueValid(InitDefault()[SHOW_ANIMATION], decodes) && IsValueValid(InitDefault()[VERBOSE], decodes)
    ensures InitDefault()[SHOW_ANIMATION] == BooleanValueField(true) && InitDefault()[VERBOSE] == BooleanValueField(false)
  {
  }

  /** `Configuration`. */
  class Configuration {
    var values: map<FieldType, Field>

    /** A fresh configuration holds exactly the defaults. */
    constructor ()
      ensures values == InitDefault()
    {
      values := InitDefault();
    }

    /** `set`: replaces the entry of `t`, or adds one; every other entry stays. */
    method Set(t: FieldType, value: Field)
      modifies this
      ensures values == old(values)[t := value]
      ensures t in values && values[t] == value
      ensures forall k :: k != t ==> (k in values <==> k in old(values))
      ensures forall k :: k != t && k in values ==> values[k] == old(values)[k]
    {
      // `put` replaces an existing entry and adds a missing one alike
      values := values[t := value];
    }

    /** `get`: the entry of `t`, `None` standing for `null` where there is none. */
    method Get(t: FieldType) returns (r: Option<Field>)
      ensures r.Some? <==> t in values
      ensures r.Some? ==> r.value == values[t]
    {
      if t in values {
        r := Some(values[t]);
      } else {
        r := None;
      }
    }
  }

  /** Setting an entry to the value it already has, or setting it twice, changes nothing more. */
  lemma SetIdempotent(m: map<FieldType, Field>, t: FieldType, value: Field)
    ensures m[t := value][t := value] == m[t := value]
    ensures t in m && m[t] == value ==> m[t := value] == m
  {
  }
}
