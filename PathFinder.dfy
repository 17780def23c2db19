/**
 * What the two searches share (`PathFinderInstance`): the graph, the trace of vertices selected at
 * each step (`delays`), the path, and `retrievePath`, which walks the predecessor links from `end`
 * back to `start` and appends every vertex it meets, so that the path is stored end first.
 *
 * Java's walk stops only at `start`; a missing predecessor makes it fail and a cycle of
 * predecessors that avoids `start` makes it run forever. The model stops after as many steps as
 * there are vertices and reports `Cycle`; `CycleIsForever` shows that a walk still short of
 * `start` after that many steps never reaches it nor a missing predecessor.
 */
module PathFinder {
  import opened Wrappers
  import opened Graph

  datatype PathError = NullPredecessor | Cycle

  /** Predecessor ids as `Preds` gives them: `-1` for none, otherwise a vertex id. */
  ghost predicate PredsInRange(pred: seq<int>)
  {
    forall i :: 0 <= i < |pred| ==> -1 <= pred[i] < |pred|
  }

  function Prepend<T, E>(xs: seq<T>, r: Result<seq<T>, E>): Result<seq<T>, E>
  {
    match r
    case Ok(p) => Ok(xs + p)
    case Err(e) => Err(e)
  }

  /**
   * `p` is the walk `retrievePath` appends, starting at `v`: each element is the predecessor of
   * the one before, and `start` occurs only as the last element.
   */
  ghost predicate IsChain(pred: seq<int>, p: seq<int>, v: int, start: int)
  {
    && |p| >= 1 && p[0] == v && p[|p| - 1] == start
    && (forall k :: 0 <= k < |p| ==> 0 <= p[k] < |pred|)
    && (forall k :: 0 <= k < |p| - 1 ==> p[k] != start && p[k + 1] == pred[p[k]])
  }

  /** `path` runs from `end` back to `start`, each vertex followed by its predecessor, `start` only last. */
  ghost predicate Traces(path: seq<Vertex>, start: Vertex, end: Vertex)
    reads path
  {
    && |path| > 0 && path[0] == end && path[|path| - 1] == start
    && (forall k :: 0 <= k < |path| - 1 ==> path[k] != start && path[k + 1] == path[k].previous)
  }

  /** A path from a vertex to itself is that vertex alone. */
  lemma TracesSelf(path: seq<Vertex>, start: Vertex)
    requires Traces(path, start, start)
    ensures path == [start]
  {
  }

  /** The predecessor walk from `v` to `start` allowed `fuel` steps. */
  function Chain(pred: seq<int>, v: int, start: int, fuel: nat): (r: Result<seq<int>, PathError>)
    requires PredsInRange(pred) && 0 <= v < |pred|
    ensures r.Ok? ==> forall k :: 0 <= k < |r.value| ==> 0 <= r.value[k] < |pred|
    decreases fuel
  {
    if v == start then Ok([v])
    else if fuel == 0 then Err(Cycle)
    else if pred[v] < 0 then Err(NullPredecessor)
    else Prepend([v], Chain(pred, pred[v], start, fuel - 1))
  }

  /** What `Chain` finds is a chain: each element's predecessor follows it, `start` only at the end. */
  lemma {:induction false} ChainSound(pred: seq<int>, v: int, start: int, fuel: nat)
    requires PredsInRange(pred) && 0 <= v < |pred|
    ensures var r := Chain(pred, v, start, fuel); r.Ok? ==> IsChain(pred, r.value, v, start) && |r.value| <= fuel + 1
    decreases fuel
  {
    if v != start && fuel > 0 && pred[v] >= 0 {
      ChainSound(pred, pred[v], start, fuel - 1);
    }
  }

  /** The walk stops without reaching `start`: out of steps, or at a vertex without predecessor. */
  lemma ChainStops(pred: seq<int>, v: int, start: int, fuel: nat)
    requires PredsInRange(pred) && 0 <= v < |pred| && v != start
    ensures fuel == 0 ==> Chain(pred, v, start, fuel) == Err(Cycle)
    ensures fuel > 0 && pred[v] < 0 ==> Chain(pred, v, start, fuel) == Err(NullPredecessor)
  {
  }

  /** Every chain from `v` to `start` is the one `Chain` finds, given fuel for its length. */
  lemma {:induction false} ChainComplete(pred: seq<int>, p: seq<int>, v: int, start: int, fuel: nat)
    requires PredsInRange(pred) && IsChain(pred, p, v, start) && |p| <= fuel + 1
    ensures 0 <= v < |pred|
    ensures Chain(pred, v, start, fuel) == Ok(p)
    decreases |p|
  {
    if |p| == 1 {
      assert p == [v];
    } else {
      assert pred[v] == p[1];
      assert IsChain(pred, p[1..], p[1], start);
      ChainComplete(pred, p[1..], p[1], start, fuel - 1);
      assert p == [v] + p[1..];
    }
  }

  /** `pred` applied `k` times to `v`; a missing predecessor (`-1`) stays missing. */
  function Follow(pred: seq<int>, v: int, k: nat): (w: int)
    requires PredsInRange(pred) && -1 <= v < |pred|
    ensures -1 <= w < |pred|
    decreases k
  {
    if k == 0 || v < 0 then v else Follow(pred, pred[v], k - 1)
  }

  lemma {:induction false} FollowAdd(pred: seq<int>, v: int, i: nat, d: nat)
    requires PredsInRange(pred) && -1 <= v < |pred|
    ensures Follow(pred, v, i + d) == Follow(pred, Follow(pred, v, i), d)
    decreases i
  {
    if i > 0 && v >= 0 {
      FollowAdd(pred, pred[v], i - 1, d);
    } else if v < 0 {
      FollowMissing(pred, i + d);
      FollowMissing(pred, d);
    }
  }

  lemma {:induction false} FollowMissing(pred: seq<int>, k: nat)
    requires PredsInRange(pred)
    ensures Follow(pred, -1, k) == -1
  {
  }

  /** The first `f + 1` vertices of the walk from `v` exist and none is `start`. */
  ghost predicate Avoids(pred: seq<int>, v: int, start: int, f: nat)
    requires PredsInRange(pred) && -1 <= v < |pred|
  {
    forall k :: 0 <= k <= f ==> Follow(pred, v, k) >= 0 && Follow(pred, v, k) != start
  }

  /** `Chain` runs out of steps exactly when the walk avoids `start` and missing predecessors. */
  lemma {:induction false} CycleIffAvoids(pred: seq<int>, v: int, start: int, f: nat)
    requires PredsInRange(pred) && 0 <= v < |pred|
    ensures Chain(pred, v, start, f) == Err(Cycle) <==> Avoids(pred, v, start, f)
    decreases f
  {
    if v != start && f > 0 && pred[v] >= 0 {
      CycleIffAvoids(pred, pred[v], start, f - 1);
      if Avoids(pred, v, start, f) {
        forall k | 0 <= k <= f - 1
          ensures Follow(pred, pred[v], k) >= 0 && Follow(pred, pred[v], k) != start
        {
          assert Follow(pred, v, k + 1) == Follow(pred, pred[v], k);
        }
      }
      if Avoids(pred, pred[v], start, f - 1) {
        forall k | 0 <= k <= f
          ensures Follow(pred, v, k) >= 0 && Follow(pred, v, k) != start
        {
          if k > 0 {
            assert Follow(pred, v, k) == Follow(pred, pred[v], k - 1);
          }
        }
      }
    } else if v != start && f > 0 {
      assert Follow(pred, v, 1) == -1;
    } else {
      assert Follow(pred, v, 0) == v;
    }
  }

  /** A sequence of distinct ids below `n` has at most `n` elements. */
  lemma {:induction false} DistinctBound(s: seq<int>, n: nat)
    requires forall k :: 0 <= k < |s| ==> 0 <= s[k] < n
    requires forall j, k :: 0 <= j < k < |s| ==> s[j] != s[k]
    ensures |s| <= n
    decreases n
  {
    if |s| > 0 {
      assert 0 <= s[0] < n;
      if i :| 0 <= i < |s| && s[i] == n - 1 {
        var t := s[..i] + s[i + 1..];
        assert forall k :: 0 <= k < |t| ==> t[k] == if k < i then s[k] else s[k + 1];
        DistinctBound(t, n - 1);
      } else {
        DistinctBound(s, n - 1);
      }
    }
  }

  /** Among the first `n + 1` vertices of a walk over `n` vertices two coincide. */
  lemma Pigeonhole(pred: seq<int>, v: int, start: int)
    requires PredsInRange(pred) && 0 <= v < |pred| && Avoids(pred, v, start, |pred|)
    ensures exists i, j :: 0 <= i < j <= |pred| && Follow(pred, v, i) == Follow(pred, v, j)
  {
    var n := |pred|;
    var c := seq(n + 1, k requires 0 <= k <= n => Follow(pred, v, k));
    if forall i, j :: 0 <= i < j <= n ==> Follow(pred, v, i) != Follow(pred, v, j) {
      DistinctBound(c, n);
    }
  }

  /** Once the walk repeats a vertex, every later vertex is one it met before the repeat. */
  lemma {:induction false} Periodic(pred: seq<int>, v: int, i: nat, j: nat, k: nat)
    requires PredsInRange(pred) && 0 <= v < |pred| && i < j
    requires Follow(pred, v, i) == Follow(pred, v, j)
    ensures exists m :: 0 <= m < j && Follow(pred, v, k) == Follow(pred, v, m)
    decreases k
  {
    if k >= j {
      FollowAdd(pred, v, j, k - j);
      FollowAdd(pred, v, i, k - j);
      Periodic(pred, v, i, j, i + (k - j));
    } else {
      assert Follow(pred, v, k) == Follow(pred, v, k);
    }
  }

  /**
   * A walk that is still short of `start` after as many steps as there are vertices never reaches
   * `start` nor a missing predecessor, however many steps it is given: Java's loop runs forever.
   */
  lemma CycleIsForever(pred: seq<int>, v: int, start: int, f: nat)
    requires PredsInRange(pred) && 0 <= v < |pred|
    requires Chain(pred, v, start, |pred|) == Err(Cycle)
    ensures Chain(pred, v, start, f) == Err(Cycle)
  {
    CycleIffAvoids(pred, v, start, |pred|);
    Pigeonhole(pred, v, start);
    var i, j :| 0 <= i < j <= |pred| && Follow(pred, v, i) == Follow(pred, v, j);
    forall k | 0 <= k <= f
      ensures Follow(pred, v, k) >= 0 && Follow(pred, v, k) != start
    {
      Periodic(pred, v, i, j, k);
    }
    CycleIffAvoids(pred, v, start, f);
  }

  /** `PathFinderInstance`: the graph a search runs on, its trace and its path. */
  class PathFinderInstance {
    const graph: WeightedGraph
    var delays: map<int, Vertex?>
    var path: seq<Vertex>

    constructor (graph: WeightedGraph)
      ensures this.graph == graph
      ensures delays == map[] && path == []
    {
      this.graph := graph;
      delays := map[];
      path := [];
    }

    /**
     * `retrievePath`: appends `end`, its predecessor, and so on up to `start`, which is appended
     * last. The path is never reversed; emptying it first is the caller's job.
     */
    method RetrievePath(start: Vertex, end: Vertex) returns (outcome: Outcome<PathError>)
      requires graph.Valid() && graph.Holds(start) && graph.Holds(end)
      modifies this`path
      ensures graph.Valid() && graph.Preds() == old(graph.Preds()) && delays == old(delays)
      ensures |path| >= |old(path)| && path[..|old(path)|] == old(path)
      ensures var c := Chain(graph.Preds(), end.n, start.n, |graph.vertices|);
        && (c.Ok? ==> outcome.Pass? && path == old(path) + VerticesAt(graph.vertices, c.value))
        && (c.Err? ==> outcome == Fail(c.error))
      ensures outcome.Pass? ==>
        && |path| > |old(path)|
        && path[|old(path)|] == end && path[|path| - 1] == start
        && (forall k :: |old(path)| <= k < |path| - 1 ==> path[k] != start && path[k + 1] == path[k].previous)
    {
      label pre:
      var vs := graph.vertices;
      ghost var pred := graph.Preds();
      GraphLinked(graph);
      var added;
      ghost var ids;
      added, outcome, ids := WalkPredecessors(vs, pred, start, end);
      if outcome.Pass? {
        ChainSound(pred, end.n, start.n, |vs|);
        ChainVertices(vs, pred, ids, start, end);
        LinksShift(path, added, start);
      }
      path := path + added;
      graph.Unchanged@pre();
    }
  }

  /** `pred` holds the predecessor ids of the vertices `vs`, each stored at its own id. */
  ghost predicate LinkedBy(vs: seq<Vertex>, pred: seq<int>)
    reads vs`previous
  {
    && |pred| == |vs|
    && (forall i :: 0 <= i < |vs| ==> vs[i].n == i)
    && (forall i :: 0 <= i < |vs| ==> -1 <= pred[i] < |vs|)
    && (forall i {:trigger pred[i]} :: 0 <= i < |vs| ==> (pred[i] == -1 <==> vs[i].previous == null))
    && (forall i {:trigger vs[i].previous} :: 0 <= i < |vs| && pred[i] >= 0 ==> vs[i].previous == vs[pred[i]])
  }

  /** A valid graph's vertices are linked by its `Preds`. */
  lemma GraphLinked(g: WeightedGraph)
    requires g.Valid()
    ensures LinkedBy(g.vertices, g.Preds())
  {
    forall i | 0 <= i < |g.vertices|
      ensures (g.Preds()[i] == -1 <==> g.vertices[i].previous == null)
      ensures g.Preds()[i] >= 0 ==> g.vertices[i].previous == g.vertices[g.Preds()[i]]
    {
      g.PredsLink(i);
    }
  }

  /**
   * The loop of `retrievePath`: the vertices it meets from `end` on, with their ids, and how it
   * ends. It stops at `start` (appended too), at a missing predecessor (after appending the vertex
   * that lacks one), or after as many steps as there are vertices.
   */
  method WalkPredecessors(vs: seq<Vertex>, ghost pred: seq<int>, start: Vertex, end: Vertex)
    returns (added: seq<Vertex>, outcome: Outcome<PathError>, ghost ids: seq<int>)
    requires LinkedBy(vs, pred) && 0 <= start.n < |vs| && vs[start.n] == start && 0 <= end.n < |vs| && vs[end.n] == end
    ensures forall k :: 0 <= k < |ids| ==> 0 <= ids[k] < |vs|
    ensures added == VerticesAt(vs, ids)
    ensures outcome.Pass? ==> Chain(pred, end.n, start.n, |vs|) == Ok(ids)
    ensures outcome.Fail? ==> Chain(pred, end.n, start.n, |vs|) == Err(outcome.error)
  {
    ghost var n := |vs|;
    ids := [];
    var s: Vertex := end;
    var steps := 0;
    added := [];
    outcome := Pass;
    PrependNothing(Chain(pred, end.n, start.n, n));
    while s != start
      invariant 0 <= steps <= n && 0 <= s.n < n && vs[s.n] == s
      invariant forall k :: 0 <= k < |ids| ==> 0 <= ids[k] < n
      invariant added == VerticesAt(vs, ids)
      invariant Chain(pred, end.n, start.n, n) == Prepend(ids, Chain(pred, s.n, start.n, n - steps))
      decreases n - steps
    {
      if steps == |vs| {
        ChainStops(pred, s.n, start.n, n - steps);
        return added, Fail(Cycle), ids;
      }
      if s.previous == null {
        ChainStops(pred, s.n, start.n, n - steps);
        VerticesAtAppend(vs, ids, s.n);
        return added + [s], Fail(NullPredecessor), ids + [s.n];
      }
      ChainStep(pred, end.n, ids, s.n, start.n, n, steps);
      VerticesAtAppend(vs, ids, s.n);
      added := added + [s];
      ids := ids + [s.n];
      s := s.previous;
      steps := steps + 1;
    }
    ChainEnd(pred, end.n, ids, start.n, n, steps);
    VerticesAtAppend(vs, ids, start.n);
    added := added + [start];
    ids := ids + [start.n];
  }

  /**
   * A predecessor chain read back as vertices: it starts at `end`, ends at `start`, and each
   * vertex is followed by its `previous`.
   */
  lemma ChainVertices(vs: seq<Vertex>, pred: seq<int>, ids: seq<int>, start: Vertex, end: Vertex)
    requires LinkedBy(vs, pred) && IsChain(pred, ids, end.n, start.n)
    requires 0 <= start.n < |vs| && vs[start.n] == start && 0 <= end.n < |vs| && vs[end.n] == end
    ensures var added := VerticesAt(vs, ids);
      && added[0] == end && added[|added| - 1] == start
      && forall k :: 0 <= k < |added| - 1 ==> added[k] != start && added[k + 1] == added[k].previous
  {
  }

  /** One step of the walk: `v` joins the ids walked and the walk continues at its predecessor. */
  lemma ChainStep(pred: seq<int>, e: int, ids: seq<int>, v: int, start: int, n: nat, steps: nat)
    requires PredsInRange(pred) && 0 <= e < |pred| && 0 <= v < |pred|
    requires v != start && steps < n && pred[v] >= 0
    requires Chain(pred, e, start, n) == Prepend(ids, Chain(pred, v, start, n - steps))
    ensures Chain(pred, e, start, n) == Prepend(ids + [v], Chain(pred, pred[v], start, n - steps - 1))
  {
    PrependAppend(ids, v, Chain(pred, pred[v], start, n - steps - 1));
  }

  /** The walk has reached `start`: the ids walked, then `start`, are the chain. */
  lemma ChainEnd(pred: seq<int>, e: int, ids: seq<int>, start: int, n: nat, steps: nat)
    requires PredsInRange(pred) && 0 <= e < |pred| && 0 <= start < |pred| && steps <= n
    requires Chain(pred, e, start, n) == Prepend(ids, Chain(pred, start, start, n - steps))
    ensures Chain(pred, e, start, n) == Ok(ids + [start])
  {
  }

  /** Facts about the appended part of a path carry over to the whole path. */
  lemma LinksShift(before: seq<Vertex>, added: seq<Vertex>, start: Vertex)
    requires forall k :: 0 <= k < |added| - 1 ==> added[k] != start && added[k + 1] == added[k].previous
    ensures forall k :: |before| <= k < |before + added| - 1 ==>
      (before + added)[k] != start && (before + added)[k + 1] == (before + added)[k].previous
  {
    forall k | |before| <= k < |before + added| - 1
      ensures (before + added)[k] != start && (before + added)[k + 1] == (before + added)[k].previous
    {
      assert (before + added)[k] == added[k - |before|];
      assert (before + added)[k + 1] == added[k + 1 - |before|];
    }
  }

  lemma PrependNothing<E>(r: Result<seq<int>, E>)
    ensures Prepend([], r) == r
  {
    if r.Ok? {
      assert [] + r.value == r.value;
    }
  }

  lemma PrependAppend(xs: seq<int>, x: int, r: Result<seq<int>, PathError>)
    ensures Prepend(xs, Prepend([x], r)) == Prepend(xs + [x], r)
  {
    if r.Ok? {
      assert xs + ([x] + r.value) == (xs + [x]) + r.value;
    }
  }
}
