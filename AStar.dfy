/**
 * `AStarInstance`: the imperative search over the vertex objects, with its `open` list, its
 * f-score map and the snapshots it puts into `delays`. Each step is proved to keep the vertices'
 * `timeFromSource` and `previous` fields, the f-score map and `open` equal to an
 * `AStarSpec.AState`, so what is proved of that state holds of the objects.
 */
module AStar {
  import opened Wrappers
  import opened Doubles
  import opened Graph
  import opened Walks
  import opened Heuristics
  import opened PathFinder
  import opened Searches
  import opened AStarSpec

  /**
   * How `searchPath` fails. Java throws an `ArithmeticException` when `mapSize` is 0, a
   * `NullPointerException` when `findMinF` finds nothing while `end` is not yet in `open`, and
   * `retrievePath` throws one on a missing predecessor or runs forever on a cycle of predecessors.
   * `OutOfFuel` is the model's own: the Java loop is not known to end, so the model stops after a
   * given number of turns.
   */
  datatype SearchError = DivisionByZero | Unreachable | BrokenPath(cause: PathError) | OutOfFuel

  /** What the estimates read: the heuristic, `Math.sqrt`, `mapSize` and `end`'s coordinates `ex`, `ey`. */
  datatype Goal = Goal(heuristic: Heuristic, sqrt: real -> real, mapSize: int, ex: int, ey: int)

  /** `hs` holds, for every vertex, the estimate the neighbour loop computes for it towards `goal`. */
  ghost predicate Aims(hs: seq<real>, goal: Goal, n: nat)
  {
    && goal.mapSize != 0 && |hs| == n
    && forall v :: 0 <= v < n ==>
         hs[v] == Estimate(goal.heuristic, goal.sqrt, JavaRem(v, goal.mapSize), JavaDiv(v, goal.mapSize), goal.ex, goal.ey)
  }

  /** The estimates towards the vertex `e` are those the neighbour loop computes with `e`'s coordinates. */
  lemma EstimatesAim(h: Heuristic, sqrt: real -> real, mapSize: int, e: int, n: nat)
    requires mapSize != 0
    ensures Aims(Estimates(h, sqrt, mapSize, e, n), Goal(h, sqrt, mapSize, JavaRem(e, mapSize), JavaDiv(e, mapSize)), n)
  {
  }

  /** The f-score of each vertex of `open`, in order. */
  function Scores(open: seq<Vertex>, f: map<Vertex, Dist>): (ds: seq<Dist>)
    requires forall v :: v in open ==> v in f
    ensures |ds| == |open| && forall i :: 0 <= i < |open| ==> ds[i] == f[open[i]]
  {
    seq(|open|, i requires 0 <= i < |open| => f[open[i]])
  }

  /**
   * `findMinF`: scans `open` keeping the first vertex whose f-score is strictly below the least
   * seen so far, starting from infinity; `null` when every f-score is infinite.
   */
  method FindMinF(open: seq<Vertex>, f: map<Vertex, Dist>) returns (min: Vertex?, ghost k: int)
    requires forall v :: v in open ==> v in f
    ensures min == null <==> forall i :: 0 <= i < |open| ==> f[open[i]].Inf?
    ensures min != null ==> IsFirstMin(Scores(open, f), k) && min == open[k]
  {
    var distanceMin := Inf;
    min := null;
    k := -1;
    var i := 0;
    while i < |open|
      invariant 0 <= i <= |open|
      invariant min == null <==> forall j :: 0 <= j < i ==> f[open[j]].Inf?
      invariant min == null ==> distanceMin == Inf
      invariant min != null ==> 0 <= k < i && min == open[k] && distanceMin == f[open[k]] && distanceMin.Fin?
      invariant min != null ==> forall j :: 0 <= j < i ==> AtMost(distanceMin, f[open[j]])
      invariant min != null ==> forall j :: 0 <= j < k ==> Below(distanceMin, f[open[j]])
    {
      if Below(f[open[i]], distanceMin) {
        distanceMin := f[open[i]];
        min := open[i];
        k := i;
      }
      i := i + 1;
    }
  }

  /** The vertices `vs` hold the distances and predecessor links of `S`, and `f` maps each of them to its f-score in `S`. */
  ghost predicate Mirrors(vs: seq<Vertex>, S: AState, f: map<Vertex, Dist>)
    reads vs`timeFromSource, vs`previous
  {
    && |S.dist| == |vs| && |S.f| == |vs|
    && (forall i {:trigger S.dist[i]} :: 0 <= i < |vs| ==> vs[i].timeFromSource == S.dist[i])
    && (forall i :: 0 <= i < |vs| ==> vs[i] in f)
    && (forall i {:trigger S.f[i]} :: 0 <= i < |vs| ==> f[vs[i]] == S.f[i])
    && LinkedBy(vs, S.pred)
  }

  /**
   * `c` is the copy `temp` made when the vertex `t.id` was selected: a vertex outside the graph
   * with that id and type and the predecessor `t.prev` the vertex had then.
   */
  ghost predicate Copies(vs: seq<Vertex>, c: Vertex, t: Snap)
    reads c`previous
  {
    && 0 <= t.id < |vs| && -1 <= t.prev < |vs| && c !in vs
    && c.n == t.id && c.vtype == vs[t.id].vtype
    && c.previous == (if t.prev == -1 then null else vs[t.prev])
  }

  /** `snaps[j]` is the copy made at turn `j`. */
  ghost predicate Snapshots(vs: seq<Vertex>, snaps: seq<Vertex>, trace: seq<Snap>)
    reads snaps`previous
  {
    |snaps| == |trace| && forall j :: 0 <= j < |snaps| ==> Copies(vs, snaps[j], trace[j])
  }

  /** `delays` after the turns that made the copies `snaps`: turn `j` maps to `snaps[j]`. */
  function Delays(snaps: seq<Vertex>): (d: map<int, Vertex?>)
    ensures forall j :: j in d <==> 0 <= j < |snaps|
    ensures forall j :: 0 <= j < |snaps| ==> d[j] == snaps[j]
  {
    map j | 0 <= j < |snaps| :: snaps[j]
  }

  /**
   * The body of the `if` of the neighbour loop: `neighbor` takes `u` as predecessor, time `t` and
   * f-score `score`, and joins `open` unless it is there already.
   */
  method Improve(vs: seq<Vertex>, ghost R: AState, u: Vertex, neighbor: Vertex, t: Dist, score: Dist,
                 open: seq<Vertex>, f: map<Vertex, Dist>)
    returns (open': seq<Vertex>, f': map<Vertex, Dist>, ghost R': AState)
    requires Mirrors(vs, R, f) && |R.pred| == |vs| && forall i :: 0 <= i < |R.open| ==> 0 <= R.open[i] < |vs|
    requires open == VerticesAt(vs, R.open)
    requires 0 <= u.n < |vs| && vs[u.n] == u && 0 <= neighbor.n < |vs| && vs[neighbor.n] == neighbor
    modifies neighbor`timeFromSource, neighbor`previous
    ensures R' == R.(pred := R.pred[neighbor.n := u.n], dist := R.dist[neighbor.n := t], f := R.f[neighbor.n := score],
                     open := if neighbor.n in R.open then R.open else R.open + [neighbor.n])
    ensures Mirrors(vs, R', f') && open' == VerticesAt(vs, R'.open)
  {
    assert LinkedBy(vs, R.pred);
    QueuedById(vs, R.open, neighbor);
    neighbor.SetPrevious(u);
    neighbor.SetTimeFromSource(t);
    f' := f[neighbor := score];
    open' := open;
    if neighbor !in open {
      VerticesAtAppend(vs, R.open, neighbor.n);
      open' := open + [neighbor];
    }
    R' := R.(pred := R.pred[neighbor.n := u.n], dist := R.dist[neighbor.n := t], f := R.f[neighbor.n := score],
             open := if neighbor.n in R.open then R.open else R.open + [neighbor.n]);
    forall i | 0 <= i < |vs|
      ensures vs[i].timeFromSource == R'.dist[i] && vs[i] in f' && f'[vs[i]] == R'.f[i]
      ensures (R'.pred[i] == -1 <==> vs[i].previous == null)
      ensures R'.pred[i] >= 0 ==> vs[i].previous == vs[R'.pred[i]]
    {
      if i != neighbor.n {
        assert vs[i] != neighbor;
      }
    }
  }

  /**
   * One turn of the loop of `searchPath` over the neighbours of `u`: when `neighbor`'s time exceeds
   * `u`'s time plus the edge weight, `neighbor` takes `u` as predecessor, that sum as time and the
   * sum plus its estimate as f-score, and joins `open` unless it is there already.
   */
  method RelaxNeighbor(vs: seq<Vertex>, ghost G: Topology, ghost hs: seq<real>, ghost R: AState, goal: Goal,
                       u: Vertex, neighbor: Vertex, open: seq<Vertex>, f: map<Vertex, Dist>)
    returns (open': seq<Vertex>, f': map<Vertex, Dist>)
    requires Sized(G, hs, R) && G.Size() == |vs| && Aims(hs, goal, |vs|)
    requires Mirrors(vs, R, f) && open == VerticesAt(vs, R.open)
    requires 0 <= u.n < |vs| && vs[u.n] == u && 0 <= neighbor.n < |vs| && vs[neighbor.n] == neighbor
    requires G.weight[u.n] == u.vtype.value && G.weight[neighbor.n] == neighbor.vtype.value
    requires neighbor in u.diagonalNeighbors <==> neighbor.n in G.diag[u.n]
    modifies neighbor`timeFromSource, neighbor`previous
    ensures Mirrors(vs, Relax(G, hs, R, u.n, neighbor.n), f')
    ensures open' == VerticesAt(vs, Relax(G, hs, R, u.n, neighbor.n).open)
  {
    var nx := JavaRem(neighbor.n, goal.mapSize);
    var ny := JavaDiv(neighbor.n, goal.mapSize);
    var dist := Estimate(goal.heuristic, goal.sqrt, nx, ny, goal.ex, goal.ey);
    var factor := if neighbor in u.diagonalNeighbors then SQRT2 else 2.0;
    var weight := AddInt32(neighbor.vtype.value, u.vtype.value) as real / factor;
    assert weight == EdgeWeight(G, u.n, neighbor.n);
    assert dist == hs[neighbor.n];
    var tentative := Plus(u.timeFromSource, weight);
    if Below(tentative, neighbor.timeFromSource) {
      ghost var R';
      open', f', R' := Improve(vs, R, u, neighbor, tentative, Plus(tentative, dist), open, f);
    } else {
      open', f' := open, f;
    }
  }

  /** Turn `k` of the loop over the neighbours `nbrs` of `u`: relaxing `nbrs[k]` is one `Relax`. */
  method RelaxTurn(vs: seq<Vertex>, ghost G: Topology, ghost hs: seq<real>, ghost R: AState, goal: Goal,
                   u: Vertex, nbrs: seq<Vertex>, ghost diags: seq<Vertex>, k: nat, neighbor: Vertex,
                   open: seq<Vertex>, f: map<Vertex, Dist>)
    returns (open': seq<Vertex>, f': map<Vertex, Dist>, ghost R': AState)
    requires ShowsAround(vs, G, u, nbrs, diags) && u.diagonalNeighbors == diags && k < |nbrs| && nbrs[k] == neighbor
    requires Sized(G, hs, R) && Aims(hs, goal, |vs|) && Mirrors(vs, R, f) && open == VerticesAt(vs, R.open)
    modifies neighbor`timeFromSource, neighbor`previous
    ensures R' == Relax(G, hs, R, u.n, G.adj[u.n][k]) && Mirrors(vs, R', f') && open' == VerticesAt(vs, R'.open)
  {
    assert neighbor in nbrs && neighbor.n == G.adj[u.n][k];
    open', f' := RelaxNeighbor(vs, G, hs, R, goal, u, neighbor, open, f);
    R' := Relax(G, hs, R, u.n, neighbor.n);
  }

  /** The loop of `searchPath` over the neighbours of `u`, in list order. */
  method RelaxAll(vs: seq<Vertex>, ghost G: Topology, ghost hs: seq<real>, ghost E: AState, goal: Goal,
                  u: Vertex, open: seq<Vertex>, f: map<Vertex, Dist>)
    returns (open': seq<Vertex>, f': map<Vertex, Dist>)
    requires ShowsAround(vs, G, u, u.neighbors, u.diagonalNeighbors)
    requires Sized(G, hs, E) && Aims(hs, goal, |vs|) && Mirrors(vs, E, f) && open == VerticesAt(vs, E.open)
    modifies vs`timeFromSource, vs`previous
    ensures Mirrors(vs, RelaxRest(G, hs, E, u.n, 0), f')
    ensures open' == VerticesAt(vs, RelaxRest(G, hs, E, u.n, 0).open)
  {
    var neighbors := u.neighbors;
    ghost var diags := u.diagonalNeighbors;
    var k := 0;
    ghost var R := E;
    open', f' := open, f;
    while k < |neighbors|
      invariant k <= |neighbors|
      invariant Sized(G, hs, R) && RelaxRest(G, hs, R, u.n, k) == RelaxRest(G, hs, E, u.n, 0)
      invariant Mirrors(vs, R, f') && open' == VerticesAt(vs, R.open)
    {
      var neighbor := neighbors[k];
      open', f', R := RelaxTurn(vs, G, hs, R, goal, u, neighbors, diags, k, neighbor, open', f');
      k := k + 1;
    }
  }

  /** The loop of the initialisation of `searchPath`: every vertex gets f-score and time infinity. */
  method ClearScores(vs: seq<Vertex>) returns (f: map<Vertex, Dist>)
    modifies vs`timeFromSource
    ensures forall i :: 0 <= i < |vs| ==> vs[i].timeFromSource == Inf && vs[i] in f && f[vs[i]] == Inf
  {
    f := map[];
    var j := 0;
    while j < |vs|
      invariant 0 <= j <= |vs|
      invariant forall i :: 0 <= i < j ==> vs[i].timeFromSource == Inf && vs[i] in f && f[vs[i]] == Inf
    {
      f := f[vs[j] := Inf];
      vs[j].SetTimeFromSource(Inf);
      j := j + 1;
    }
  }

  /**
   * The initialisation of `searchPath`: `open` holds `start` alone; every vertex gets f-score and
   * time infinity, its predecessor being left as it was; then `start` gets time 0 and its estimate
   * as f-score.
   */
  method Initialize(vs: seq<Vertex>, ghost N: seq<seq<Vertex>>, ghost D: seq<seq<Vertex>>, ghost G: Topology,
                    ghost hs: seq<real>, ghost pred: seq<int>, goal: Goal, start: Vertex)
    returns (open: seq<Vertex>, f: map<Vertex, Dist>)
    requires G.WellFormed() && G.Size() == |vs| && Keeps(vs, N, D) && Aims(hs, goal, |vs|) && LinkedBy(vs, pred)
    requires 0 <= start.n < |vs| && vs[start.n] == start
    modifies vs`timeFromSource
    ensures Keeps(vs, N, D) && Mirrors(vs, Init(G, hs, pred, start.n), f)
    ensures open == [start] && open == VerticesAt(vs, Init(G, hs, pred, start.n).open)
  {
    open := [start];
    f := ClearScores(vs);
    start.SetTimeFromSource(Fin(0.0));
    var sx := JavaRem(start.n, goal.mapSize);
    var sy := JavaDiv(start.n, goal.mapSize);
    f := f[start := Fin(Estimate(goal.heuristic, goal.sqrt, sx, sy, goal.ex, goal.ey))];
    ghost var S := Init(G, hs, pred, start.n);
    forall i | 0 <= i < |vs|
      ensures vs[i].timeFromSource == S.dist[i] && vs[i] in f && f[vs[i]] == S.f[i]
    {
      if i != start.n {
        assert vs[i] != start;
      }
    }
  }

  /**
   * `temp`, a new vertex with the id and type of the selected vertex `open[k]` and its current
   * predecessor, goes into `delays` at turn `i`.
   */
  method Snapshot(vs: seq<Vertex>, ghost S: AState, ghost snaps: seq<Vertex>, delays: map<int, Vertex?>, i: int, u: Vertex, ghost k: nat)
    returns (delays': map<int, Vertex?>, ghost snaps': seq<Vertex>)
    requires LinkedBy(vs, S.pred) && k < |S.open| && 0 <= S.open[k] < |vs| && u == vs[S.open[k]]
    requires Snapshots(vs, snaps, S.trace) && delays == Delays(snaps) && i == |snaps|
    ensures Snapshots(vs, snaps', S.trace + [Snap(S.open[k], S.pred[S.open[k]])]) && delays' == Delays(snaps')
    ensures |snaps'| == |snaps| + 1 && snaps'[..|snaps|] == snaps && fresh(snaps'[|snaps|])
  {
    var temp := new Vertex(u.n, u.vtype);
    temp.SetPrevious(u.previous);
    delays' := delays[i := temp];
    snaps' := snaps + [temp];
    assert delays' == Delays(snaps');
  }

  /** `u`, at position `k` of `open`, leaves `open`, and its neighbours are relaxed: the rest of a turn after the snapshot. */
  method Expand(vs: seq<Vertex>, ghost N: seq<seq<Vertex>>, ghost D: seq<seq<Vertex>>, ghost G: Topology,
                ghost hs: seq<real>, goal: Goal, ghost S: AState, open: seq<Vertex>, f: map<Vertex, Dist>, u: Vertex, ghost k: nat,
                ghost snaps: seq<Vertex>, ghost trace: seq<Snap>)
    returns (open': seq<Vertex>, f': map<Vertex, Dist>)
    requires Shows(vs, N, D, G) && Keeps(vs, N, D) && Sized(G, hs, S) && Aims(hs, goal, |vs|) && Distinct(S.open)
    requires Mirrors(vs, S, f) && open == VerticesAt(vs, S.open) && k < |open| && u == open[k]
    requires Snapshots(vs, snaps, trace)
    modifies vs`timeFromSource, vs`previous
    ensures Mirrors(vs, Turn(G, hs, S, k), f') && open' == VerticesAt(vs, Turn(G, hs, S, k).open)
    ensures Keeps(vs, N, D) && Snapshots(vs, snaps, trace)
  {
    QueueRemove(vs, S.open, open, k);
    open' := Without(open, u);
    ghost var E := Select(S, k);
    SelectSized(G, hs, S, k);
    ShowsAroundAll(vs, N, D, G, u);
    open', f' := RelaxAll(vs, G, hs, E, goal, u, open', f);
  }

  /**
   * The body of a turn once `findMinF` has found `u` at position `k` of `open`: the copy `temp`
   * of `u` goes into `delays` at turn `i`, `u` leaves `open`, and its neighbours are relaxed.
   */
  method Settle(vs: seq<Vertex>, ghost N: seq<seq<Vertex>>, ghost D: seq<seq<Vertex>>, ghost G: Topology,
                ghost hs: seq<real>, goal: Goal, ghost S: AState, open: seq<Vertex>, f: map<Vertex, Dist>,
                ghost snaps: seq<Vertex>, delays: map<int, Vertex?>, i: int, u: Vertex, ghost k: nat)
    returns (open': seq<Vertex>, f': map<Vertex, Dist>, delays': map<int, Vertex?>, ghost snaps': seq<Vertex>, ghost S': AState)
    requires Shows(vs, N, D, G) && Keeps(vs, N, D) && Sized(G, hs, S) && Aims(hs, goal, |vs|) && Distinct(S.open)
    requires Mirrors(vs, S, f) && open == VerticesAt(vs, S.open) && k < |open| && u == open[k]
    requires Snapshots(vs, snaps, S.trace) && delays == Delays(snaps) && i == |snaps|
    modifies vs`timeFromSource, vs`previous
    ensures S' == Turn(G, hs, S, k)
    ensures Keeps(vs, N, D) && Mirrors(vs, S', f') && open' == VerticesAt(vs, S'.open)
    ensures Snapshots(vs, snaps', S'.trace) && delays' == Delays(snaps')
  {
    delays', snaps' := Snapshot(vs, S, snaps, delays, i, u, k);
    open', f' := Expand(vs, N, D, G, hs, goal, S, open, f, u, k, snaps', S.trace + [Snap(S.open[k], S.pred[S.open[k]])]);
    S' := Turn(G, hs, S, k);
  }

  /** `open` and `f` show the f-scores of the state's `open`, the list `findMinF` scans. */
  lemma ScoresMirror(vs: seq<Vertex>, S: AState, f: map<Vertex, Dist>, open: seq<Vertex>)
    requires Mirrors(vs, S, f) && (forall i :: 0 <= i < |S.open| ==> 0 <= S.open[i] < |vs|)
    requires open == VerticesAt(vs, S.open)
    ensures forall v :: v in open ==> v in f
    ensures Scores(open, f) == FScores(S)
  {
    forall v | v in open
      ensures v in f
    {
      var i :| 0 <= i < |open| && open[i] == v;
      assert v == vs[S.open[i]];
    }
    forall i | 0 <= i < |open|
      ensures Scores(open, f)[i] == FScores(S)[i]
    {
      assert f[vs[S.open[i]]] == S.f[S.open[i]];
    }
  }

  /**
   * One turn of the main loop: `findMinF`; then, unless it returned `null`, the snapshot, the
   * removal from `open` and the relaxation of the neighbours. The vertices then mirror `Next`.
   */
  method Round(vs: seq<Vertex>, ghost N: seq<seq<Vertex>>, ghost D: seq<seq<Vertex>>, ghost G: Topology,
               ghost hs: seq<real>, goal: Goal, ghost S: AState, open: seq<Vertex>, f: map<Vertex, Dist>,
               ghost snaps: seq<Vertex>, delays: map<int, Vertex?>, i: int)
    returns (u: Vertex?, open': seq<Vertex>, f': map<Vertex, Dist>, delays': map<int, Vertex?>, ghost snaps': seq<Vertex>, ghost S': AState)
    requires Shows(vs, N, D, G) && Keeps(vs, N, D) && Sized(G, hs, S) && Aims(hs, goal, |vs|) && Distinct(S.open)
    requires Mirrors(vs, S, f) && open == VerticesAt(vs, S.open)
    requires Snapshots(vs, snaps, S.trace) && delays == Delays(snaps) && i == |snaps|
    modifies vs`timeFromSource, vs`previous
    ensures S' == Next(G, hs, S)
    ensures Keeps(vs, N, D) && Mirrors(vs, S', f') && open' == VerticesAt(vs, S'.open)
    ensures Snapshots(vs, snaps', S'.trace) && delays' == Delays(snaps')
    ensures u == null <==> FirstMin(FScores(S)) == -1
    ensures u == null ==> snaps' == snaps
  {
    ScoresMirror(vs, S, f, open);
    var min, j := FindMinF(open, f);
    u := min;
    if u == null {
      return u, open, f, delays, snaps, S;
    }
    FirstMinUnique(FScores(S), j, FirstMin(FScores(S)));
    open', f', delays', snaps', S' := Settle(vs, N, D, G, hs, goal, S, open, f, snaps, delays, i, u, j);
  }

  /**
   * The invariant of the main loop after `i` turns, towards `end` with the estimates `hs` of `goal`:
   * the state is `Turns` of the state after the initialisation, each turn was taken with `end`
   * outside `open`, and the vertices, `open`, `f` and `delays` mirror the state.
   */
  ghost predicate Progress(vs: seq<Vertex>, N: seq<seq<Vertex>>, D: seq<seq<Vertex>>, G: Topology, hs: seq<real>,
                           goal: Goal, pred: seq<int>, s: nat, end: Vertex, S: AState, f: map<Vertex, Dist>,
                           open: seq<Vertex>, snaps: seq<Vertex>, delays: map<int, Vertex?>, i: nat)
    reads vs`timeFromSource, vs`previous, vs`neighbors, vs`diagonalNeighbors, snaps`previous
  {
    && Shows(vs, N, D, G) && Aims(hs, goal, |vs|) && |pred| == |vs| && PredsInRange(pred) && s < |vs|
    && 0 <= end.n < |vs| && vs[end.n] == end
    && S == Turns(G, hs, pred, s, i) && Running(G, hs, pred, s, end.n, i)
    && Keeps(vs, N, D) && Mirrors(vs, S, f) && open == VerticesAt(vs, S.open)
    && Snapshots(vs, snaps, S.trace) && delays == Delays(snaps) && i == |snaps|
  }

  /** The vertices as the initialisation leaves them keep the invariant of the main loop. */
  lemma ProgressInit(vs: seq<Vertex>, N: seq<seq<Vertex>>, D: seq<seq<Vertex>>, G: Topology, hs: seq<real>,
                     goal: Goal, pred: seq<int>, s: nat, end: Vertex, f0: map<Vertex, Dist>, open0: seq<Vertex>)
    requires Shows(vs, N, D, G) && Keeps(vs, N, D) && Aims(hs, goal, |vs|) && LinkedBy(vs, pred) && s < |vs|
    requires 0 <= end.n < |vs| && vs[end.n] == end
    requires Mirrors(vs, Turns(G, hs, pred, s, 0), f0) && open0 == VerticesAt(vs, Turns(G, hs, pred, s, 0).open)
    ensures Progress(vs, N, D, G, hs, goal, pred, s, end, Turns(G, hs, pred, s, 0), f0, open0, [], map[], 0)
  {
    assert Delays([]) == map[];
  }

  /** When `start` is `end`, the invariant only holds before the first turn, with `end` in `open`. */
  lemma StartQueued(vs: seq<Vertex>, N: seq<seq<Vertex>>, D: seq<seq<Vertex>>, G: Topology, hs: seq<real>,
                    goal: Goal, pred: seq<int>, s: nat, end: Vertex, S: AState, f: map<Vertex, Dist>,
                    open: seq<Vertex>, snaps: seq<Vertex>, delays: map<int, Vertex?>, i: nat)
    requires Progress(vs, N, D, G, hs, goal, pred, s, end, S, f, open, snaps, delays, i)
    ensures s == end.n ==> i == 0 && end in open
  {
    RunningStart(G, hs, pred, s, end.n, i);
    if s == end.n {
      assert open[0] == vs[s];
    }
  }

  /**
   * One turn of the main loop while `end` is not in `open`, after `i` turns: either `findMinF`
   * returns `null`, nothing changes and `end` is unreachable, or the invariant holds after
   * `i + 1` turns.
   */
  method Step(vs: seq<Vertex>, ghost N: seq<seq<Vertex>>, ghost D: seq<seq<Vertex>>, ghost G: Topology,
              ghost hs: seq<real>, goal: Goal, ghost pred: seq<int>, ghost s: nat, ghost S: AState,
              open: seq<Vertex>, f: map<Vertex, Dist>, ghost snaps: seq<Vertex>, delays: map<int, Vertex?>,
              i: nat, end: Vertex)
    returns (u: Vertex?, open': seq<Vertex>, f': map<Vertex, Dist>, delays': map<int, Vertex?>, ghost snaps': seq<Vertex>, ghost S': AState)
    requires Progress(vs, N, D, G, hs, goal, pred, s, end, S, f, open, snaps, delays, i) && end !in open
    modifies vs`timeFromSource, vs`previous
    ensures u != null ==> Progress(vs, N, D, G, hs, goal, pred, s, end, S', f', open', snaps', delays', i + 1)
    ensures u == null ==> Progress(vs, N, D, G, hs, goal, pred, s, end, S', f', open', snaps', delays', i)
    ensures u == null ==> !Reachable(G, s, end.n) && open' == open
  {
    RunningBetween(G, hs, pred, s, end.n, i);
    QueuedById(vs, S.open, end);
    TurnsNext(G, hs, pred, s, i);
    u, open', f', delays', snaps', S' := Round(vs, N, D, G, hs, goal, S, open, f, snaps, delays, i);
    if u == null {
      Stuck(G, hs, s, end.n, S);
    }
  }

  /** `delays` has one entry per snapshot. */
  lemma {:induction false} DelaysSize(snaps: seq<Vertex>)
    ensures |Delays(snaps)| == |snaps|
    decreases |snaps|
  {
    if snaps != [] {
      var t := snaps[..|snaps| - 1];
      DelaysSize(t);
      assert Delays(snaps) == Delays(t)[|t| := snaps[|t|]];
      assert |t| !in Delays(t);
    }
  }

  /**
   * `delays` as `searchPath` leaves it: the turns are numbered from 0 without gaps, each mapped to a
   * vertex outside the graph `vs` that carries the id of one of its vertices; the first turn
   * selected `start`, and the copy of every other vertex carries a predecessor.
   */
  ghost predicate Logged(delays: map<int, Vertex?>, vs: seq<Vertex>, start: Vertex)
    reads delays.Values
  {
    && (forall j :: j in delays <==> 0 <= j < |delays|)
    && (forall j :: j in delays ==> delays[j] != null && delays[j] !in vs && 0 <= delays[j].n < |vs|)
    && (0 in delays ==> delays[0].n == start.n)
    && (forall j :: j in delays && delays[j].n != start.n ==> delays[j].previous != null)
  }

  /** The snapshots of a run that keeps the invariant are logged as `Logged` says. */
  lemma SnapshotsLogged(vs: seq<Vertex>, G: Topology, hs: seq<real>, s: int, e: int, S: AState, snaps: seq<Vertex>, start: Vertex)
    requires Between(G, hs, s, e, S) && Snapshots(vs, snaps, S.trace) && 0 <= s < |vs| && start == vs[s] && start.n == s
    ensures Logged(Delays(snaps), vs, start) && |Delays(snaps)| == |snaps|
  {
    DelaysSize(snaps);
    var d := Delays(snaps);
    forall j | j in d && d[j] != null && d[j].n != start.n
      ensures d[j].previous != null
    {
      assert Copies(vs, snaps[j], S.trace[j]);
    }
  }

  /**
   * What the state in which the main loop stops gives: `delays` is logged as `Logged` says; when
   * `end` is in `open`, its time is the cost of a walk from `s`, and with no edge weighing less
   * than zero the predecessors lead back from it to `s`; and when `s` is `end` no turn was taken
   * and its time is 0.
   */
  lemma LoopExit(vs: seq<Vertex>, N: seq<seq<Vertex>>, D: seq<seq<Vertex>>, G: Topology, hs: seq<real>,
                 goal: Goal, pred: seq<int>, s: nat, end: Vertex, S: AState, f: map<Vertex, Dist>,
                 open: seq<Vertex>, snaps: seq<Vertex>, delays: map<int, Vertex?>, n: nat)
    requires Progress(vs, N, D, G, hs, goal, pred, s, end, S, f, open, snaps, delays, n)
    ensures Logged(delays, vs, vs[s]) && |delays| == n
    ensures end in open ==> end.timeFromSource.Fin? && Witnessed(G, s, end.n, end.timeFromSource.r)
    ensures end in open && NonNegative(G) ==> PredsInRange(S.pred) && Chain(S.pred, end.n, s, |vs|).Ok?
    ensures s == end.n ==> n == 0 && end in open && end.timeFromSource == Fin(0.0)
  {
    RunningBetween(G, hs, pred, s, end.n, n);
    SnapshotsLogged(vs, G, hs, s, end.n, S, snaps, vs[s]);
    StartQueued(vs, N, D, G, hs, goal, pred, s, end, S, f, open, snaps, delays, n);
    QueuedById(vs, S.open, end);
    if end in open {
      Found(G, hs, s, end.n, S);
      if NonNegative(G) {
        RunningDescends(G, hs, pred, s, end.n, n);
        DescendsChain(G, hs, s, S, end.n);
      }
    }
  }

  /**
   * The main loop of `searchPath`, on the vertices mirroring the state after the initialisation:
   * it ends with `end` in `open`, with `findMinF` returning `null` (`Unreachable`), or after
   * `fuel` turns (`OutOfFuel`). The vertices then mirror the state after `n` turns.
   */
  method MainLoop(vs: seq<Vertex>, ghost N: seq<seq<Vertex>>, ghost D: seq<seq<Vertex>>, ghost G: Topology,
                  ghost hs: seq<real>, goal: Goal, ghost pred: seq<int>, ghost s: nat, ghost S0: AState,
                  open0: seq<Vertex>, f0: map<Vertex, Dist>, end: Vertex, fuel: nat)
    returns (outcome: Outcome<SearchError>, open: seq<Vertex>, f: map<Vertex, Dist>, delays: map<int, Vertex?>,
             ghost snaps: seq<Vertex>, ghost S: AState, ghost n: nat)
    requires Progress(vs, N, D, G, hs, goal, pred, s, end, S0, f0, open0, [], map[], 0)
    modifies vs`timeFromSource, vs`previous
    ensures Progress(vs, N, D, G, hs, goal, pred, s, end, S, f, open, snaps, delays, n) && n <= fuel
    ensures outcome.Pass? <==> end in open
    ensures outcome == Fail(Unreachable) ==> !Reachable(G, s, end.n)
    ensures outcome.Fail? ==> outcome.error == Unreachable || outcome.error == OutOfFuel
    ensures outcome == Fail(OutOfFuel) ==> n == fuel
  {
    open, f, delays, snaps, S := open0, f0, map[], [], S0;
    outcome := Pass;
    var i: nat := 0;
    while end !in open
      invariant i <= fuel && outcome == Pass
      invariant Progress(vs, N, D, G, hs, goal, pred, s, end, S, f, open, snaps, delays, i)
      decreases fuel - i
    {
      if i == fuel {
        outcome := Fail(OutOfFuel);
        break;
      }
      var u;
      u, open, f, delays, snaps, S := Step(vs, N, D, G, hs, goal, pred, s, S, open, f, snaps, delays, i, end);
      if u == null {
        outcome := Fail(Unreachable);
        break;
      }
      i := i + 1;
    }
    n := i;
  }

  /**
   * The body of `searchPath` from the initialisation to the end of the main loop, on the vertices
   * `vs` showing the topology `G`: a search that passes leaves `end` with the cost of a walk from
   * `start`; one that fails does so because `end` is unreachable or the fuel ran out; `delays` is
   * logged as `Logged` says; and when `start` is `end` no turn is taken.
   */
  method Search(vs: seq<Vertex>, ghost N: seq<seq<Vertex>>, ghost D: seq<seq<Vertex>>, ghost G: Topology,
                goal: Goal, ghost hs: seq<real>, ghost pred: seq<int>, start: Vertex, end: Vertex, fuel: nat)
    returns (outcome: Outcome<SearchError>, delays: map<int, Vertex?>, ghost S: AState)
    requires Shows(vs, N, D, G) && Keeps(vs, N, D) && Aims(hs, goal, |vs|) && LinkedBy(vs, pred)
    requires 0 <= start.n < |vs| && vs[start.n] == start && 0 <= end.n < |vs| && vs[end.n] == end
    modifies vs`timeFromSource, vs`previous
    ensures Keeps(vs, N, D) && LinkedBy(vs, S.pred)
    ensures outcome.Pass? ==> end.timeFromSource.Fin? && Witnessed(G, start.n, end.n, end.timeFromSource.r)
    ensures outcome.Pass? && NonNegative(G) ==> PredsInRange(S.pred) && Chain(S.pred, end.n, start.n, |vs|).Ok?
    ensures outcome == Fail(Unreachable) ==> !Reachable(G, start.n, end.n)
    ensures outcome.Fail? ==> outcome.error == Unreachable || outcome.error == OutOfFuel
    ensures Logged(delays, vs, start) && |delays| <= fuel
    ensures outcome == Fail(OutOfFuel) ==> |delays| == fuel
    ensures start == end ==> outcome == Pass && delays == map[] && end.timeFromSource == Fin(0.0)
  {
    ghost var s := start.n;
    var open, f := Initialize(vs, N, D, G, hs, pred, goal, start);
    ProgressInit(vs, N, D, G, hs, goal, pred, s, end, f, open);
    ghost var snaps, n;
    outcome, open, f, delays, snaps, S, n := MainLoop(vs, N, D, G, hs, goal, pred, s, Turns(G, hs, pred, s, 0), open, f, end, fuel);
    LoopExit(vs, N, D, G, hs, goal, pred, s, end, S, f, open, snaps, delays, n);
    if n == 0 {
      assert delays == map[];
    }
  }

  /**
   * The body of `searchPath` up to `retrievePath`, on the graph's own vertices: the topology is
   * read once, the search runs, and the graph comes out valid with the same topology.
   */
  method Run(g: WeightedGraph, ghost G: Topology, goal: Goal, ghost hs: seq<real>, start: Vertex, end: Vertex, fuel: nat)
    returns (outcome: Outcome<SearchError>, delays: map<int, Vertex?>)
    requires g.Valid() && g.Models(G) && g.Holds(start) && g.Holds(end) && Aims(hs, goal, |g.vertices|)
    modifies g.vertices
    ensures g.Valid() && g.Models(G)
    ensures outcome.Pass? ==> end.timeFromSource.Fin? && Witnessed(G, start.n, end.n, end.timeFromSource.r)
    ensures outcome.Pass? && NonNegative(G) ==> Chain(g.Preds(), end.n, start.n, |g.vertices|).Ok?
    ensures outcome == Fail(Unreachable) ==> !Reachable(G, start.n, end.n)
    ensures outcome.Fail? ==> outcome.error == Unreachable || outcome.error == OutOfFuel
    ensures Logged(delays, g.vertices, start) && |delays| <= fuel
    ensures outcome == Fail(OutOfFuel) ==> |delays| == fuel
    ensures start == end ==> outcome == Pass && delays == map[] && end.timeFromSource == Fin(0.0)
  {
    var vs := g.vertices;
    ghost var N := seq(|vs|, j requires 0 <= j < |vs| reads vs => vs[j].neighbors);
    ghost var D := seq(|vs|, j requires 0 <= j < |vs| reads vs => vs[j].diagonalNeighbors);
    GraphShows(g, N, D, G);
    GraphLinked(g);
    ghost var S;
    outcome, delays, S := Search(vs, N, D, G, goal, hs, g.Preds(), start, end, fuel);
    RestoredValid(g, N, D, G, S.pred);
    RestoredPreds(g, S.pred);
  }

  /**
   * What `searchPath` leaves in the instance once the main loop has ended: `delays` holds the
   * turns taken, `path` was cleared, and when the loop passed `retrievePath` follows the
   * predecessors back from `end`. The graph keeps its topology throughout.
   */
  method Conclude(p: PathFinderInstance, ghost G: Topology, start: Vertex, end: Vertex,
                  outcome: Outcome<SearchError>, delays: map<int, Vertex?>)
    returns (r: Result<real, SearchError>)
    requires p.graph.Valid() && p.graph.Models(G) && p.graph.Holds(start) && p.graph.Holds(end)
    requires outcome.Pass? ==> end.timeFromSource.Fin? && Witnessed(G, start.n, end.n, end.timeFromSource.r)
    requires start == end ==> outcome == Pass && end.timeFromSource == Fin(0.0)
    requires outcome.Pass? && NonNegative(G) ==> Chain(p.graph.Preds(), end.n, start.n, |p.graph.vertices|).Ok?
    requires Logged(delays, p.graph.vertices, start)
    modifies p`delays, p`path
    ensures p.delays == delays && Logged(p.delays, p.graph.vertices, start)
    ensures p.graph.Valid() && p.graph.Models(G)
    ensures outcome.Fail? ==> r == Err(outcome.error) && p.path == []
    ensures r.Ok? ==> Witnessed(G, start.n, end.n, r.value) && Traces(p.path, start, end)
    ensures r.Err? && outcome.Pass? ==> r.error.BrokenPath?
    ensures outcome.Pass? && NonNegative(G) ==> r.Ok?
    ensures start == end ==> r == Ok(0.0) && p.path == [start]
  {
    Reset(p, G, delays);
    if outcome.Fail? {
      return Err(outcome.error);
    }
    r := TraceBack(p, G, start, end);
  }

  /**
   * `retrievePath` once the loop has found `end`, then `end`'s time as the result: the walk back
   * fails only on a broken predecessor link, which no edge weighing less than zero rules out.
   */
  method TraceBack(p: PathFinderInstance, ghost G: Topology, start: Vertex, end: Vertex) returns (r: Result<real, SearchError>)
    requires p.graph.Valid() && p.graph.Models(G) && p.graph.Holds(start) && p.graph.Holds(end) && p.path == []
    requires end.timeFromSource.Fin? && Witnessed(G, start.n, end.n, end.timeFromSource.r)
    requires start == end ==> end.timeFromSource == Fin(0.0)
    requires NonNegative(G) ==> Chain(p.graph.Preds(), end.n, start.n, |p.graph.vertices|).Ok?
    modifies p`path
    ensures p.delays == old(p.delays) && p.graph.Valid() && p.graph.Models(G)
    ensures r.Ok? ==> Witnessed(G, start.n, end.n, r.value) && Traces(p.path, start, end)
    ensures r.Err? ==> r.error.BrokenPath?
    ensures NonNegative(G) ==> r.Ok?
    ensures start == end ==> r == Ok(0.0) && p.path == [start]
  {
    var retrieved := Retrieve(p, G, start, end);
    if retrieved.Fail? {
      return Err(BrokenPath(retrieved.error));
    }
    r := Ok(end.timeFromSource.r);
    if start == end {
      TracesSelf(p.path, start);
    }
  }

  /**
   * `searchPath` on the instance `p` whose graph has topology `G`, with the heuristic `h`, `Math.sqrt`
   * given as `sqrt`, and `mapSize`: `end`'s coordinates are its id modulo and divided by `mapSize`,
   * which throws when `mapSize` is 0 once `delays` and `path` have been cleared.
   */
  method SearchOn(p: PathFinderInstance, ghost G: Topology, h: Heuristic, sqrt: real -> real, mapSize: int,
                  start: Vertex, end: Vertex, fuel: nat)
    returns (r: Result<real, SearchError>)
    requires p.graph.Valid() && p.graph.Models(G) && p.graph.Holds(start) && p.graph.Holds(end)
    modifies p`delays, p`path, p.graph.vertices
    ensures p.graph.Valid() && p.graph.Models(G)
    ensures r == Err(DivisionByZero) <==> mapSize == 0
    ensures mapSize == 0 ==> p.delays == map[] && p.path == []
    ensures r == Err(Unreachable) ==> !Reachable(G, start.n, end.n)
    ensures r.Ok? ==> Witnessed(G, start.n, end.n, r.value) && Traces(p.path, start, end)
    ensures mapSize != 0 ==> Logged(p.delays, p.graph.vertices, start) && |p.delays| <= fuel
    ensures r == Err(OutOfFuel) ==> |p.delays| == fuel
    ensures NonNegative(G) ==> !(r.Err? && r.error.BrokenPath?)
    ensures mapSize != 0 && start == end ==> r == Ok(0.0) && p.delays == map[] && p.path == [start]
  {
    if mapSize == 0 {
      Reset(p, G, map[]);
      return Err(DivisionByZero);
    }
    r := SearchToward(p, G, h, sqrt, mapSize, start, end, fuel);
  }

  /** `searchPath` once `end`'s coordinates are known, that is, when `mapSize` is not 0. */
  method SearchToward(p: PathFinderInstance, ghost G: Topology, h: Heuristic, sqrt: real -> real, mapSize: int,
                      start: Vertex, end: Vertex, fuel: nat)
    returns (r: Result<real, SearchError>)
    requires p.graph.Valid() && p.graph.Models(G) && p.graph.Holds(start) && p.graph.Holds(end) && mapSize != 0
    modifies p`delays, p`path, p.graph.vertices
    ensures p.graph.Valid() && p.graph.Models(G)
    ensures r != Err(DivisionByZero)
    ensures r == Err(Unreachable) ==> !Reachable(G, start.n, end.n)
    ensures r.Ok? ==> Witnessed(G, start.n, end.n, r.value) && Traces(p.path, start, end)
    ensures Logged(p.delays, p.graph.vertices, start) && |p.delays| <= fuel
    ensures r == Err(OutOfFuel) ==> |p.delays| == fuel
    ensures NonNegative(G) ==> !(r.Err? && r.error.BrokenPath?)
    ensures start == end ==> r == Ok(0.0) && p.delays == map[] && p.path == [start]
  {
    var outcome, delays := Explore(p.graph, G, h, sqrt, mapSize, start, end, fuel);
    r := Conclude(p, G, start, end, outcome, delays);
  }

  /**
   * The main loop of `searchPath` toward `end`, with the estimates the heuristic gives from `end`'s
   * coordinates, its id modulo and divided by `mapSize`.
   */
  method Explore(g: WeightedGraph, ghost G: Topology, h: Heuristic, sqrt: real -> real, mapSize: int,
                 start: Vertex, end: Vertex, fuel: nat)
    returns (outcome: Outcome<SearchError>, delays: map<int, Vertex?>)
    requires g.Valid() && g.Models(G) && g.Holds(start) && g.Holds(end) && mapSize != 0
    modifies g.vertices
    ensures g.Valid() && g.Models(G)
    ensures outcome.Pass? ==> end.timeFromSource.Fin? && Witnessed(G, start.n, end.n, end.timeFromSource.r)
    ensures outcome.Pass? && NonNegative(G) ==> Chain(g.Preds(), end.n, start.n, |g.vertices|).Ok?
    ensures outcome == Fail(Unreachable) ==> !Reachable(G, start.n, end.n)
    ensures outcome.Fail? ==> outcome.error == Unreachable || outcome.error == OutOfFuel
    ensures Logged(delays, g.vertices, start) && |delays| <= fuel
    ensures outcome == Fail(OutOfFuel) ==> |delays| == fuel
    ensures start == end ==> outcome == Pass && delays == map[] && end.timeFromSource == Fin(0.0)
  {
    var goal := Goal(h, sqrt, mapSize, JavaRem(end.n, mapSize), JavaDiv(end.n, mapSize));
    ghost var hs := Estimates(h, sqrt, mapSize, end.n, |g.vertices|);
    EstimatesAim(h, sqrt, mapSize, end.n, |g.vertices|);
    outcome, delays := Run(g, G, goal, hs, start, end, fuel);
  }

  /** `AStarInstance`: a `PathFinderInstance` whose search is A*, with its map size and heuristic. */
  class AStarInstance {
    const base: PathFinderInstance
    const mapSize: int
    const heuristic: Heuristic
    /** `Math.sqrt`, which only the Euclidean heuristic calls; octile and the diagonal edge weights use `SQRT2`. */
    const sqrt: real -> real

    constructor (graph: WeightedGraph, mapSize: int, heuristic: Heuristic, sqrt: real -> real)
      ensures fresh(base) && base.graph == graph && base.delays == map[] && base.path == []
      ensures this.mapSize == mapSize && this.heuristic == heuristic && this.sqrt == sqrt
    {
      base := new PathFinderInstance(graph);
      this.mapSize := mapSize;
      this.heuristic := heuristic;
      this.sqrt := sqrt;
    }

    /**
     * `searchPath`: clears `delays` and `path`, computes `end`'s coordinates, gives `start` time 0
     * and every other vertex time and f-score infinity, then repeatedly moves the vertex of least
     * f-score out of `open` and relaxes its neighbours until `end` is in `open`, and finally follows
     * the predecessors back from `end`. The Java code divides by `mapSize` (`DivisionByZero`),
     * dereferences the `null` that `findMinF` returns once `open` is empty (`Unreachable`), and its
     * path walk fails on a missing or cyclic predecessor link (`BrokenPath`); the model stops after
     * `fuel` turns (`OutOfFuel`).
     */
    method SearchPath(start: Vertex, end: Vertex, fuel: nat) returns (r: Result<real, SearchError>)
      requires base.graph.Valid() && base.graph.Holds(start) && base.graph.Holds(end)
      modifies base`delays, base`path, base.graph.vertices
      ensures base.graph.Valid() && base.graph.Models(old(base.graph.View()))
      ensures r == Err(DivisionByZero) <==> mapSize == 0
      ensures mapSize == 0 ==> base.delays == map[] && base.path == []
      ensures r == Err(Unreachable) ==> !Reachable(old(base.graph.View()), start.n, end.n)
      ensures r.Ok? ==> Witnessed(old(base.graph.View()), start.n, end.n, r.value) && Traces(base.path, start, end)
      ensures mapSize != 0 ==> Logged(base.delays, base.graph.vertices, start) && |base.delays| <= fuel
      ensures r == Err(OutOfFuel) ==> |base.delays| == fuel
      ensures NonNegative(old(base.graph.View())) ==> !(r.Err? && r.error.BrokenPath?)
      ensures mapSize != 0 && start == end ==> r == Ok(0.0) && base.delays == map[] && base.path == [start]
    {
      r := SearchOn(base, base.graph.View(), heuristic, sqrt, mapSize, start, end, fuel);
    }
  }
}
