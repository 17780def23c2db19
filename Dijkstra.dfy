/**
 * `DijkstraInstance`: the imperative search over the vertex objects. Each step is proved to keep
 * the vertices' `timeFromSource` and `previous` fields equal to a `DijkstraSpec.State`, so what is
 * proved of that state holds of the objects.
 */
module Dijkstra {
  import opened Wrappers
  import opened Doubles
  import opened Graph
  import opened Walks
  import opened PathFinder
  import opened DijkstraSpec
  import opened Searches

  /**
   * How `searchPath` fails. Java throws a `NullPointerException` when `findMin` finds nothing while
   * `end` is still queued, and `retrievePath` throws one on a missing predecessor or runs forever
   * on a cycle of predecessors.
   */
  datatype SearchError = Unreachable | BrokenPath(cause: PathError)

  /**
   * `findMin`: scans `Q` keeping the first vertex whose time is strictly below the least time seen
   * so far, starting from infinity; `null` when every time is infinite.
   */
  method FindMin(Q: seq<Vertex>) returns (min: Vertex?, ghost k: int)
    ensures min == null <==> forall i :: 0 <= i < |Q| ==> Q[i].timeFromSource.Inf?
    ensures min != null ==> IsFirstMin(Times(Q), k) && min == Q[k]
  {
    var distanceMin := Inf;
    min := null;
    k := -1;
    var i := 0;
    while i < |Q|
      invariant 0 <= i <= |Q|
      invariant min == null <==> forall j :: 0 <= j < i ==> Q[j].timeFromSource.Inf?
      invariant min == null ==> distanceMin == Inf
      invariant min != null ==> 0 <= k < i && min == Q[k] && distanceMin == Q[k].timeFromSource && distanceMin.Fin?
      invariant min != null ==> forall j :: 0 <= j < i ==> AtMost(distanceMin, Q[j].timeFromSource)
      invariant min != null ==> forall j :: 0 <= j < k ==> Below(distanceMin, Q[j].timeFromSource)
    {
      if Below(Q[i].timeFromSource, distanceMin) {
        distanceMin := Q[i].timeFromSource;
        min := Q[i];
        k := i;
      }
      i := i + 1;
    }
  }

  /** The vertices `vs` hold the distances and the predecessor links of `S`. */
  ghost predicate Mirrors(vs: seq<Vertex>, S: State)
    reads vs
  {
    && |S.dist| == |vs|
    && (forall i {:trigger S.dist[i]} :: 0 <= i < |vs| ==> vs[i].timeFromSource == S.dist[i])
    && LinkedBy(vs, S.pred)
  }

  /** Vertices whose lists and links are as shown and mirrored make the graph valid again, with the same topology. */
  lemma GraphRestored(g: WeightedGraph, N: seq<seq<Vertex>>, D: seq<seq<Vertex>>, G: Topology, S: State)
    requires Shows(g.vertices, N, D, G) && Keeps(g.vertices, N, D) && Mirrors(g.vertices, S)
    ensures g.Valid() && g.Models(G) && g.Preds() == S.pred
  {
    RestoredValid(g, N, D, G, S.pred);
    RestoredPreds(g, S.pred);
  }

  /** The queue `Q` lists, in order, the vertices whose ids `S.q` lists. */
  lemma QueueTimes(vs: seq<Vertex>, S: State, Q: seq<Vertex>)
    requires Mirrors(vs, S) && (forall i :: 0 <= i < |S.q| ==> 0 <= S.q[i] < |vs|)
    requires Q == VerticesAt(vs, S.q)
    ensures Times(Q) == QDist(S)
  {
  }

  /**
   * One turn of the loop of `searchPath` over the neighbours of `u`: when `neighbor`'s time exceeds
   * `u`'s time plus the edge weight, `neighbor` takes that sum as its time and `u` as its predecessor.
   */
  method RelaxNeighbor(vs: seq<Vertex>, ghost G: Topology, ghost R: State, u: Vertex, neighbor: Vertex)
    requires G.WellFormed() && G.Size() == |vs| && Mirrors(vs, R) && |R.pred| == |vs|
    requires 0 <= u.n < |vs| && vs[u.n] == u && 0 <= neighbor.n < |vs| && vs[neighbor.n] == neighbor
    requires G.weight[u.n] == u.vtype.value && G.weight[neighbor.n] == neighbor.vtype.value
    requires neighbor in u.diagonalNeighbors <==> neighbor.n in G.diag[u.n]
    modifies neighbor`timeFromSource, neighbor`previous
    ensures Mirrors(vs, RelaxStep(G, R, u.n, neighbor.n))
  {
    var neighborTime := neighbor.timeFromSource;
    var currentTime := u.timeFromSource;
    var factor := if neighbor in u.diagonalNeighbors then SQRT2 else 2.0;
    var weight := AddInt32(neighbor.vtype.value, u.vtype.value) as real / factor;
    assert weight == EdgeWeight(G, u.n, neighbor.n);
    if Below(Plus(currentTime, weight), neighborTime) {
      neighbor.SetTimeFromSource(Plus(currentTime, weight));
      neighbor.SetPrevious(u);
      ghost var R' := RelaxStep(G, R, u.n, neighbor.n);
      forall i | 0 <= i < |vs|
        ensures vs[i].timeFromSource == R'.dist[i] && (R'.pred[i] == -1 <==> vs[i].previous == null)
        ensures R'.pred[i] >= 0 ==> vs[i].previous == vs[R'.pred[i]]
      {
        if i != neighbor.n {
          assert vs[i] != neighbor;
        }
      }
    }
  }

  /** Turn `k` of the loop over the neighbours `nbrs` of `u`: relaxing `nbrs[k]` is one `RelaxStep`. */
  method RelaxTurn(vs: seq<Vertex>, ghost G: Topology, ghost R: State, u: Vertex, nbrs: seq<Vertex>, ghost diags: seq<Vertex>, k: nat, neighbor: Vertex)
    returns (ghost R': State)
    requires ShowsAround(vs, G, u, nbrs, diags) && u.diagonalNeighbors == diags && k < |nbrs| && nbrs[k] == neighbor
    requires |R.pred| == |vs| && Mirrors(vs, R)
    modifies neighbor`timeFromSource, neighbor`previous
    ensures R' == RelaxStep(G, R, u.n, G.adj[u.n][k]) && Mirrors(vs, R')
  {
    assert neighbor in nbrs && neighbor.n == G.adj[u.n][k];
    RelaxNeighbor(vs, G, R, u, neighbor);
    R' := RelaxStep(G, R, u.n, neighbor.n);
  }

  /** The loop of `searchPath` over the neighbours of `u`, in list order. */
  method Relax(vs: seq<Vertex>, ghost G: Topology, ghost S: State, u: Vertex)
    requires ShowsAround(vs, G, u, u.neighbors, u.diagonalNeighbors) && Mirrors(vs, S) && |S.pred| == |vs|
    modifies vs
    ensures Mirrors(vs, RelaxRest(G, S, u.n, 0))
    ensures forall i :: 0 <= i < |vs| ==>
      vs[i].neighbors == old(vs[i].neighbors) && vs[i].diagonalNeighbors == old(vs[i].diagonalNeighbors)
  {
    var neighbors := u.neighbors;
    ghost var diags := u.diagonalNeighbors;
    var k := 0;
    ghost var R := S;
    while k < |neighbors|
      invariant k <= |neighbors|
      invariant forall i :: 0 <= i < |vs| ==>
        vs[i].neighbors == old(vs[i].neighbors) && vs[i].diagonalNeighbors == old(vs[i].diagonalNeighbors)
      invariant u.diagonalNeighbors == diags
      invariant |R.pred| == |vs| && Mirrors(vs, R) && RelaxRest(G, R, u.n, k) == RelaxRest(G, S, u.n, 0)
    {
      var neighbor := neighbors[k];
      R := RelaxTurn(vs, G, R, u, neighbors, diags, k, neighbor);
      k := k + 1;
    }
  }

  /**
   * The initialisation loop of `searchPath`: every vertex gets time infinity and no predecessor
   * and is queued in graph order; then `start` gets time 0.
   */
  method Initialize(vs: seq<Vertex>, ghost N: seq<seq<Vertex>>, ghost D: seq<seq<Vertex>>, start: Vertex)
    returns (Q: seq<Vertex>)
    requires Keeps(vs, N, D) && (forall i :: 0 <= i < |vs| ==> vs[i].n == i)
    requires 0 <= start.n < |vs| && vs[start.n] == start
    modifies vs
    ensures Keeps(vs, N, D) && Mirrors(vs, Init(|vs|, start.n))
    ensures Q == vs && Q == VerticesAt(vs, Init(|vs|, start.n).q)
  {
    Q := [];
    var j := 0;
    while j < |vs|
      invariant 0 <= j <= |vs| && Q == vs[..j] && Keeps(vs, N, D)
      invariant forall i :: 0 <= i < j ==> vs[i].timeFromSource == Inf && vs[i].previous == null
    {
      vs[j].SetTimeFromSource(Inf);
      vs[j].SetPrevious(null);
      Q := Q + [vs[j]];
      j := j + 1;
    }
    start.SetTimeFromSource(Fin(0.0));
  }

  /**
   * `Q.remove(u)` for the vertex `u` that `findMin` found at position `k` of `Q`, then the relaxation
   * of `u`'s neighbours: the vertices end up holding the state after the whole turn.
   */
  method Settle(vs: seq<Vertex>, ghost N: seq<seq<Vertex>>, ghost D: seq<seq<Vertex>>, ghost G: Topology,
                ghost S: State, Q: seq<Vertex>, u: Vertex, ghost k: nat)
    returns (Q': seq<Vertex>, ghost S': State)
    requires Shows(vs, N, D, G) && Keeps(vs, N, D) && Sized(G, S) && Distinct(S.q) && Mirrors(vs, S)
    requires Q == VerticesAt(vs, S.q) && k < |Q| && u == Q[k]
    modifies vs
    ensures S' == Turn(G, S, k)
    ensures Keeps(vs, N, D) && Mirrors(vs, S') && Q' == VerticesAt(vs, S'.q) && |Q'| == |Q| - 1
  {
    QueueRemove(vs, S.q, Q, k);
    Q' := Without(Q, u);
    ghost var E := Extract(S, k);
    ShowsAroundAll(vs, N, D, G, u);
    Relax(vs, G, E, u);
    RelaxRestFrom(G, E, u.n, 0);
    S' := Turn(G, S, k);
  }

  /** `delays` after the turns that extracted `trace`: turn `i` maps to the vertex it extracted. */
  function Delays(vs: seq<Vertex>, trace: seq<int>): (d: map<int, Vertex?>)
    requires forall i :: 0 <= i < |trace| ==> 0 <= trace[i] < |vs|
    ensures forall i :: i in d <==> 0 <= i < |trace|
    ensures forall i :: 0 <= i < |trace| ==> d[i] == vs[trace[i]]
  {
    map i | 0 <= i < |trace| :: vs[trace[i]]
  }

  /** `delays.put(i, u)` at the next turn extends the trace by `u`. */
  lemma DelaysAppend(vs: seq<Vertex>, trace: seq<int>, v: int)
    requires forall i :: 0 <= i < |trace| ==> 0 <= trace[i] < |vs|
    requires 0 <= v < |vs|
    ensures Delays(vs, trace)[|trace| := vs[v]] == Delays(vs, trace + [v])
  {
  }

  /** `delays` has one entry per turn, so as many entries as vertices extracted. */
  lemma {:induction false} DelaysSize(vs: seq<Vertex>, trace: seq<int>)
    requires forall i :: 0 <= i < |trace| ==> 0 <= trace[i] < |vs|
    ensures |Delays(vs, trace)| == |trace|
    decreases |trace|
  {
    if trace != [] {
      var t := trace[..|trace| - 1];
      assert trace == t + [trace[|trace| - 1]];
      DelaysSize(vs, t);
      DelaysAppend(vs, t, trace[|trace| - 1]);
      assert |trace| - 1 !in Delays(vs, t);
    }
  }

  /**
   * When the search ends because `end` has left `Q`, `delays` maps turns `0` to `i - 1` to distinct
   * vertices, the first being `start` and the last `end`.
   */
  lemma DelaysFacts(vs: seq<Vertex>, trace: seq<int>, s: int, e: int)
    requires forall i :: 0 <= i < |vs| ==> vs[i].n == i
    requires forall i :: 0 <= i < |trace| ==> 0 <= trace[i] < |vs|
    requires Distinct(trace) && |trace| > 0 && trace[0] == s && trace[|trace| - 1] == e
    ensures var d := Delays(vs, trace);
      && 0 < |d| <= |vs| && (forall j :: j in d <==> 0 <= j < |d|)
      && d[0] == vs[s] && d[|d| - 1] == vs[e]
      && (forall j, l :: 0 <= j < l < |d| ==> d[j] != d[l])
  {
    DelaysSize(vs, trace);
    DistinctBound(trace, |vs|);
    var d := Delays(vs, trace);
    forall j, l | 0 <= j < l < |d|
      ensures d[j] != d[l]
    {
      assert d[j].n == trace[j] && d[l].n == trace[l];
    }
  }

  /**
   * The vertices mirror a state in which `end` was extracted last: `end`'s `timeFromSource` is the
   * cost of a walk from `start`, the least one when no weight is negative, and `delays` lists
   * distinct vertices from `start` to `end`.
   */
  lemma Reached(vs: seq<Vertex>, G: Topology, s: int, S: State, delays: map<int, Vertex?>, end: Vertex)
    requires forall i :: 0 <= i < |S.trace| ==> 0 <= S.trace[i] < |vs|
    requires Mirrors(vs, S) && 0 <= end.n < |vs| && vs[end.n] == end && delays == Delays(vs, S.trace)
    requires S.dist[end.n].Fin? && Witnessed(G, s, end.n, S.dist[end.n].r)
    requires NonNegative(G) ==> IsShortest(G, s, end.n, S.dist[end.n].r)
    requires |S.trace| > 0 && S.trace[0] == s && S.trace[|S.trace| - 1] == end.n && Distinct(S.trace)
    ensures end.timeFromSource.Fin? && Witnessed(G, s, end.n, end.timeFromSource.r)
    ensures NonNegative(G) ==> IsShortest(G, s, end.n, end.timeFromSource.r)
    ensures Recorded(delays, |vs|, vs[s], end)
  {
    DelaysFacts(vs, S.trace, s, end.n);
  }

  /**
   * `delays` as a search that extracted `end` leaves it: the turns are numbered from 0 without
   * gaps, there are at most `size` of them, the first is `start`, the last `end`, and no vertex is
   * selected twice.
   */
  ghost predicate Recorded(delays: map<int, Vertex?>, size: int, start: Vertex?, end: Vertex?)
  {
    && 0 < |delays| <= size && (forall j :: j in delays <==> 0 <= j < |delays|)
    && delays[0] == start && delays[|delays| - 1] == end
    && (forall j, l :: 0 <= j < l < |delays| ==> delays[j] != delays[l])
  }

  /**
   * One turn of the main loop of `searchPath`: `findMin`; then, unless it returned `null`,
   * `delays.put(i, u)` and `Settle`. When `findMin` returns `null` the Java code puts `null` into
   * `delays` and goes on to dereference it: every queued vertex then has an infinite time.
   */
  method Round(vs: seq<Vertex>, ghost N: seq<seq<Vertex>>, ghost D: seq<seq<Vertex>>, ghost G: Topology,
               ghost S: State, Q: seq<Vertex>, delays: map<int, Vertex?>, i: int)
    returns (u: Vertex?, Q': seq<Vertex>, delays': map<int, Vertex?>, ghost S': State, ghost k: nat)
    requires Shows(vs, N, D, G) && Keeps(vs, N, D) && Sized(G, S) && Distinct(S.q) && Mirrors(vs, S)
    requires Q == VerticesAt(vs, S.q) && i == |S.trace| && delays == Delays(vs, S.trace)
    modifies vs
    ensures Keeps(vs, N, D) && Mirrors(vs, S')
    ensures u == null ==> S' == S && delays' == delays[i := null] && forall j :: 0 <= j < |S.q| ==> S.dist[S.q[j]].Inf?
    ensures u != null ==>
      && k < |S.q| && IsFirstMin(QDist(S), k) && u.n == S.q[k] && S' == Turn(G, S, k)
      && Q' == VerticesAt(vs, S'.q) && |Q'| < |Q| && delays' == Delays(vs, S'.trace)
  {
    QueueTimes(vs, S, Q);
    var min, j := FindMin(Q);
    u := min;
    if u == null {
      return u, Q, delays[i := null], S, 0;
    }
    k := j;
    DelaysAppend(vs, S.trace, u.n);
    delays' := delays[i := u];
    Q', S' := Settle(vs, N, D, G, S, Q, u, k);
  }

  /**
   * One turn of the main loop of `searchPath` while `end` is queued, after `i` turns: either
   * `findMin` returns `null`, all queued vertices being unreachable, or the vertices mirror
   * the state after `i + 1` turns.
   */
  method Step(vs: seq<Vertex>, ghost N: seq<seq<Vertex>>, ghost D: seq<seq<Vertex>>, ghost G: Topology,
              ghost s: int, Q: seq<Vertex>, delays: map<int, Vertex?>, i: nat, end: Vertex)
    returns (u: Vertex?, Q': seq<Vertex>, delays': map<int, Vertex?>, ghost S': State)
    requires Shows(vs, N, D, G) && Keeps(vs, N, D) && 0 <= s < |vs| && 0 <= end.n < |vs| && vs[end.n] == end
    requires Mirrors(vs, Turns(G, s, i)) && Q == VerticesAt(vs, Turns(G, s, i).q) && end in Q
    requires i == |Turns(G, s, i).trace| && delays == Delays(vs, Turns(G, s, i).trace)
    modifies vs
    ensures Keeps(vs, N, D) && Mirrors(vs, S')
    ensures u == null ==> S' == Turns(G, s, i) && end.n in S'.q && forall j :: 0 <= j < |S'.q| ==> S'.dist[S'.q[j]].Inf?
    ensures u != null ==>
      && S' == Turns(G, s, i + 1) && Q' == VerticesAt(vs, S'.q) && |Q'| < |Q|
      && i + 1 == |S'.trace| && delays' == Delays(vs, S'.trace)
      && (end.n in S'.trace ==> S'.trace[|S'.trace| - 1] == end.n)
  {
    ghost var T := Turns(G, s, i);
    ghost var k;
    TurnsDistinct(G, s, i);
    u, Q', delays', S', k := Round(vs, N, D, G, T, Q, delays, i);
    QueuedById(vs, T.q, end);
    TurnsQueued(G, s, i, T, end.n);
    if u != null {
      TurnsNext(G, s, i, k);
    }
  }

  /** Once `end` has left `Q` it has been extracted, and only in the last turn. */
  lemma LeftQueue(vs: seq<Vertex>, G: Topology, s: int, n: nat, S: State, Q: seq<Vertex>, end: Vertex)
    requires (forall i :: 0 <= i < |vs| ==> vs[i].n == i) && G.WellFormed() && G.Size() == |vs| && 0 <= s < |vs|
    requires S == Turns(G, s, n) && 0 <= end.n < |vs| && vs[end.n] == end
    requires (forall i :: 0 <= i < |S.q| ==> 0 <= S.q[i] < |vs|) && Q == VerticesAt(vs, S.q) && end !in Q
    requires end.n in S.trace ==> S.trace[|S.trace| - 1] == end.n
    ensures end.n in S.trace && S.trace[|S.trace| - 1] == end.n
  {
    QueuedById(vs, S.q, end);
    TurnsExtracted(G, s, n, S, end.n);
  }

  /**
   * The main loop of `searchPath`, on the vertices mirroring the state after the initialisation:
   * it ends either with `end` extracted in its last turn or with `findMin` returning `null` while
   * `end` is still queued (`found` false). The vertices then mirror the state after `n` turns.
   */
  method MainLoop(vs: seq<Vertex>, ghost N: seq<seq<Vertex>>, ghost D: seq<seq<Vertex>>, ghost G: Topology,
                  ghost s: int, Q0: seq<Vertex>, end: Vertex)
    returns (found: bool, delays: map<int, Vertex?>, ghost S: State, ghost n: nat)
    requires Shows(vs, N, D, G) && Keeps(vs, N, D) && 0 <= s < |vs| && 0 <= end.n < |vs| && vs[end.n] == end
    requires Mirrors(vs, Turns(G, s, 0)) && Q0 == VerticesAt(vs, Turns(G, s, 0).q)
    modifies vs
    ensures Keeps(vs, N, D) && Mirrors(vs, S) && S == Turns(G, s, n)
    ensures found ==> end.n in S.trace && S.trace[|S.trace| - 1] == end.n && delays == Delays(vs, S.trace)
    ensures !found ==> end.n in S.q && forall j :: 0 <= j < |S.q| ==> S.dist[S.q[j]].Inf?
  {
    delays := map[];
    var Q := Q0;
    S := Turns(G, s, 0);
    var i := 0;
    while end in Q
      invariant Keeps(vs, N, D) && Mirrors(vs, S) && S == Turns(G, s, i)
      invariant Q == VerticesAt(vs, S.q) && i == |S.trace| && delays == Delays(vs, S.trace)
      invariant end.n in S.trace ==> S.trace[|S.trace| - 1] == end.n
      decreases |Q|
    {
      var u;
      u, Q, delays, S := Step(vs, N, D, G, s, Q, delays, i, end);
      if u == null {
        return false, delays, S, i;
      }
      i := i + 1;
    }
    LeftQueue(vs, G, s, i, S, Q, end);
    found, n := true, i;
  }

  /**
   * The body of `searchPath` from the initialisation of the vertices to the end of the main loop,
   * and what it leaves in `delays`.
   */
  method Search(vs: seq<Vertex>, ghost N: seq<seq<Vertex>>, ghost D: seq<seq<Vertex>>, ghost G: Topology,
                start: Vertex, end: Vertex)
    returns (found: bool, delays: map<int, Vertex?>, ghost S: State)
    requires Shows(vs, N, D, G) && Keeps(vs, N, D)
    requires 0 <= start.n < |vs| && vs[start.n] == start && 0 <= end.n < |vs| && vs[end.n] == end
    modifies vs
    ensures Keeps(vs, N, D) && Mirrors(vs, S)
    ensures !found ==> !Reachable(G, start.n, end.n)
    ensures found ==> end.timeFromSource.Fin? && Reachable(G, start.n, end.n)
    ensures found ==> Witnessed(G, start.n, end.n, end.timeFromSource.r)
    ensures found && NonNegative(G) ==> IsShortest(G, start.n, end.n, end.timeFromSource.r)
    ensures found && NonNegative(G) ==> PredsInRange(S.pred) && Chain(S.pred, end.n, start.n, |vs|).Ok?
    ensures found ==> Recorded(delays, |vs|, start, end)
  {
    ghost var s := start.n;
    var Q := Initialize(vs, N, D, start);
    ghost var n;
    found, delays, S, n := MainLoop(vs, N, D, G, s, Q, end);
    if found {
      TurnsFinished(G, s, n, S, end.n);
      Reached(vs, G, s, S, delays, end);
    } else {
      TurnsStuck(G, s, n, S, end.n);
    }
  }

  /**
   * The body of `searchPath` up to `retrievePath`, on the graph's own vertices: the topology is
   * read once, the search runs, and the graph comes out valid with the same topology.
   */
  method Run(g: WeightedGraph, ghost G: Topology, start: Vertex, end: Vertex) returns (found: bool, delays: map<int, Vertex?>)
    requires g.Valid() && g.Models(G) && g.Holds(start) && g.Holds(end)
    modifies g.vertices
    ensures g.Valid() && g.Models(G)
    ensures !found ==> !Reachable(G, start.n, end.n)
    ensures found ==> end.timeFromSource.Fin? && Witnessed(G, start.n, end.n, end.timeFromSource.r)
    ensures found && NonNegative(G) ==> IsShortest(G, start.n, end.n, end.timeFromSource.r)
    ensures found && NonNegative(G) ==> Chain(g.Preds(), end.n, start.n, |g.vertices|).Ok?
    ensures found ==> Recorded(delays, |g.vertices|, start, end)
  {
    var vs := g.vertices;
    ghost var N := seq(|vs|, j requires 0 <= j < |vs| reads vs => vs[j].neighbors);
    ghost var D := seq(|vs|, j requires 0 <= j < |vs| reads vs => vs[j].diagonalNeighbors);
    GraphShows(g, N, D, G);
    ghost var S;
    found, delays, S := Search(vs, N, D, G, start, end);
    GraphRestored(g, N, D, G, S);
  }

  /**
   * What `searchPath` leaves in the instance once the search has ended: `delays` holds the turns
   * the search recorded, `path` was cleared, and when `end` was extracted `retrievePath` follows
   * the predecessors back from it. The graph keeps its topology throughout.
   */
  method Conclude(p: PathFinderInstance, ghost G: Topology, start: Vertex, end: Vertex, found: bool, delays: map<int, Vertex?>)
    returns (r: Result<real, SearchError>)
    requires p.graph.Valid() && p.graph.Models(G) && p.graph.Holds(start) && p.graph.Holds(end)
    requires found ==> end.timeFromSource.Fin? && Witnessed(G, start.n, end.n, end.timeFromSource.r)
    requires found && NonNegative(G) ==> IsShortest(G, start.n, end.n, end.timeFromSource.r)
    requires found && NonNegative(G) ==> Chain(p.graph.Preds(), end.n, start.n, |p.graph.vertices|).Ok?
    modifies p`delays, p`path
    ensures p.delays == delays
    ensures p.graph.Valid() && p.graph.Models(G)
    ensures !found <==> r == Err(Unreachable)
    ensures r.Ok? ==> Witnessed(G, start.n, end.n, r.value)
    ensures r.Ok? && NonNegative(G) ==> IsShortest(G, start.n, end.n, r.value)
    ensures found && NonNegative(G) ==> r.Ok?
    ensures r.Ok? ==> Traces(p.path, start, end)
  {
    Reset(p, G, delays);
    if !found {
      return Err(Unreachable);
    }
    var outcome := Retrieve(p, G, start, end);
    if outcome.Fail? {
      return Err(BrokenPath(outcome.error));
    }
    r := Ok(end.timeFromSource.r);
  }

  /**
   * `searchPath` on the instance `p` whose graph has topology `G`: searches, records the turns in
   * `delays`, then follows the predecessors back from `end`.
   */
  method SearchOn(p: PathFinderInstance, ghost G: Topology, start: Vertex, end: Vertex) returns (r: Result<real, SearchError>)
    requires p.graph.Valid() && p.graph.Models(G) && p.graph.Holds(start) && p.graph.Holds(end)
    modifies p`delays, p`path, p.graph.vertices
    ensures p.graph.Valid() && p.graph.Models(G)
    ensures r == Err(Unreachable) <==> !Reachable(G, start.n, end.n)
    ensures r.Ok? ==> Witnessed(G, start.n, end.n, r.value)
    ensures r.Ok? && NonNegative(G) ==> IsShortest(G, start.n, end.n, r.value)
    ensures NonNegative(G) ==> r.Ok? || r == Err(Unreachable)
    ensures r.Ok? ==> Traces(p.path, start, end)
    ensures r.Ok? ==> Recorded(p.delays, |p.graph.vertices|, start, end)
  {
    var found, delays := Run(p.graph, G, start, end);
    r := Conclude(p, G, start, end, found, delays);
  }

  /** `DijkstraInstance`: a `PathFinderInstance` whose search is Dijkstra's algorithm. */
  class DijkstraInstance {
    const base: PathFinderInstance

    constructor (graph: WeightedGraph)
      ensures fresh(base) && base.graph == graph && base.delays == map[] && base.path == []
    {
      base := new PathFinderInstance(graph);
    }

    /**
     * `searchPath`: clears `delays` and `path`, resets every vertex, then repeatedly extracts the
     * queued vertex of least time and relaxes its neighbours until `end` has been extracted, and
     * finally follows the predecessors back from `end`. The Java code dereferences the `null` that
     * `findMin` returns once only unreachable vertices are queued (`Unreachable`), and its path
     * walk fails on a missing or cyclic predecessor link (`BrokenPath`).
     */
    method SearchPath(start: Vertex, end: Vertex) returns (r: Result<real, SearchError>)
      requires base.graph.Valid() && base.graph.Holds(start) && base.graph.Holds(end)
      modifies base`delays, base`path, base.graph.vertices
      ensures base.graph.Valid() && base.graph.Models(old(base.graph.View()))
      ensures r == Err(Unreachable) <==> !Reachable(old(base.graph.View()), start.n, end.n)
      ensures r.Ok? ==> Witnessed(old(base.graph.View()), start.n, end.n, r.value)
      ensures r.Ok? && NonNegative(old(base.graph.View())) ==> IsShortest(old(base.graph.View()), start.n, end.n, r.value)
      ensures NonNegative(old(base.graph.View())) ==> r.Ok? || r == Err(Unreachable)
      ensures r.Ok? ==> Traces(base.path, start, end)
      ensures r.Ok? ==> Recorded(base.delays, |base.graph.vertices|, start, end)
    {
      r := SearchOn(base, base.graph.View(), start, end);
    }
  }
}
