/**
 * The search of `AStarInstance` on values: every vertex's distance (`timeFromSource`), f-score
 * and predecessor, the ids in `open` (in list order) and what `delays` records at each turn. The
 * invariant `Between` holds at every test of the Java loop condition; it needs neither a
 * consistent heuristic nor non-negative edges, and it says nothing of optimality.
 */
module AStarSpec {
  import opened Doubles
  import opened Graph
  import opened Walks
  import opened Heuristics
  import opened Wrappers
  import opened PathFinder

  /** What `delays` records at a turn: the id of the selected vertex and of its predecessor then (`-1` for `null`). */
  datatype Snap = Snap(id: int, prev: int)

  datatype AState = AState(dist: seq<Dist>, f: seq<Dist>, pred: seq<int>, open: seq<int>, trace: seq<Snap>)

  /**
   * `h` from every vertex to `e`, each id `v` decoded into the grid point
   * (`v % mapSize`, `v / mapSize`) with Java's operators.
   */
  function Estimates(k: Heuristic, sqrt: real -> real, mapSize: int, e: int, n: nat): (hs: seq<real>)
    requires mapSize != 0
    ensures |hs| == n
  {
    seq(n, v => Estimate(k, sqrt, JavaRem(v, mapSize), JavaDiv(v, mapSize), JavaRem(e, mapSize), JavaDiv(e, mapSize)))
  }

  /** One estimate, distance, f-score and predecessor per vertex. */
  ghost predicate Shaped(G: Topology, hs: seq<real>, S: AState)
  {
    && G.WellFormed() && |hs| == G.Size()
    && |S.dist| == G.Size() && |S.f| == G.Size() && |S.pred| == G.Size()
  }

  /** Sizes, and every id the state holds names a vertex (or is `-1` for a missing predecessor). */
  ghost predicate Sized(G: Topology, hs: seq<real>, S: AState)
  {
    && Shaped(G, hs, S)
    && (forall v :: 0 <= v < G.Size() ==> -1 <= S.pred[v] < G.Size())
    && (forall i :: 0 <= i < |S.open| ==> 0 <= S.open[i] < G.Size())
    && (forall i :: 0 <= i < |S.trace| ==> 0 <= S.trace[i].id < G.Size() && -1 <= S.trace[i].prev < G.Size())
  }

  /**
   * The state after the initialisation: `open` holds `s` alone, `s` has distance 0 and f-score
   * `hs[s]`, every other vertex infinity for both, and the predecessors are left as they were.
   */
  function Init(G: Topology, hs: seq<real>, pred: seq<int>, s: nat): (S: AState)
    requires G.WellFormed() && |hs| == G.Size() && |pred| == G.Size() && s < G.Size()
    requires forall v :: 0 <= v < G.Size() ==> -1 <= pred[v] < G.Size()
    ensures Sized(G, hs, S) && S.open == [s] && S.trace == [] && S.pred == pred
    ensures forall v :: 0 <= v < G.Size() ==> S.dist[v] == (if v == s then Fin(0.0) else Inf)
    ensures forall v :: 0 <= v < G.Size() ==> S.f[v] == (if v == s then Fin(hs[s]) else Inf)
  {
    var n := G.Size();
    AState(seq(n, v => if v == s then Fin(0.0) else Inf), seq(n, v => if v == s then Fin(hs[s]) else Inf), pred, [s], [])
  }

  /** The f-scores of the vertices in `open`, in `open`'s order: what `findMinF` scans. */
  function FScores(S: AState): (fs: seq<Dist>)
    requires forall i :: 0 <= i < |S.open| ==> 0 <= S.open[i] < |S.f|
    ensures |fs| == |S.open| && forall i :: 0 <= i < |S.open| ==> fs[i] == S.f[S.open[i]]
  {
    seq(|S.open|, i requires 0 <= i < |S.open| => S.f[S.open[i]])
  }

  /**
   * One turn of the loop over `u`'s neighbours: when `dist[u]` plus the edge weight is strictly
   * below `dist[v]`, `v` takes `u` as predecessor, that sum as distance and the sum plus `hs[v]`
   * as f-score, and is appended to `open` unless it is there already.
   */
  function Relax(G: Topology, hs: seq<real>, S: AState, u: nat, v: nat): (r: AState)
    requires Shaped(G, hs, S) && u < G.Size() && v < G.Size()
    ensures Shaped(G, hs, r) && r.trace == S.trace && (Sized(G, hs, S) ==> Sized(G, hs, r))
  {
    var tentative := Plus(S.dist[u], EdgeWeight(G, u, v));
    if Below(tentative, S.dist[v]) then
      S.(pred := S.pred[v := u], dist := S.dist[v := tentative], f := S.f[v := Plus(tentative, hs[v])],
         open := if v in S.open then S.open else S.open + [v])
    else S
  }

  /** The turns of the loop over `u`'s neighbours from the `k`-th on, in list order. */
  function RelaxRest(G: Topology, hs: seq<real>, S: AState, u: nat, k: nat): (r: AState)
    requires Shaped(G, hs, S) && u < G.Size() && k <= |G.adj[u]|
    ensures Shaped(G, hs, r) && r.trace == S.trace && (Sized(G, hs, S) ==> Sized(G, hs, r))
    decreases |G.adj[u]| - k
  {
    if k == |G.adj[u]| then S else RelaxRest(G, hs, Relax(G, hs, S, u, G.adj[u][k]), u, k + 1)
  }

  /** The snapshot `delays.put(i, temp)` and `open.remove(u)` for `u` at position `k` of `open`. */
  function Select(S: AState, k: nat): AState
    requires k < |S.open| && 0 <= S.open[k] < |S.pred|
  {
    S.(open := S.open[..k] + S.open[k + 1..], trace := S.trace + [Snap(S.open[k], S.pred[S.open[k]])])
  }

  /**
   * Selecting takes exactly one occurrence of `open[k]` out of `open` and records its snapshot,
   * with its predecessor, at the end of the trace; nothing else changes.
   */
  lemma SelectTakes(S: AState, k: nat)
    requires k < |S.open| && 0 <= S.open[k] < |S.pred|
    ensures var r := Select(S, k);
      && |r.open| == |S.open| - 1 && multiset(r.open) + multiset{S.open[k]} == multiset(S.open)
      && |r.trace| == |S.trace| + 1 && r.trace[..|S.trace|] == S.trace
      && r.trace[|S.trace|] == Snap(S.open[k], S.pred[S.open[k]])
      && r.dist == S.dist && r.f == S.f && r.pred == S.pred
  {
    assert S.open == S.open[..k] + [S.open[k]] + S.open[k + 1..];
  }

  lemma SelectSized(G: Topology, hs: seq<real>, S: AState, k: nat)
    requires Sized(G, hs, S) && k < |S.open|
    ensures Sized(G, hs, Select(S, k)) && |Select(S, k).trace| == |S.trace| + 1
  {
    var o := S.open[..k] + S.open[k + 1..];
    assert forall i :: 0 <= i < |o| ==> o[i] == if i < k then S.open[i] else S.open[i + 1];
  }

  /** One turn of the main loop: select `open[k]`, then relax all of its neighbours in list order. */
  function Turn(G: Topology, hs: seq<real>, S: AState, k: nat): (r: AState)
    requires Sized(G, hs, S) && k < |S.open|
    ensures Sized(G, hs, r) && |r.trace| == |S.trace| + 1
  {
    SelectSized(G, hs, S, k);
    RelaxRest(G, hs, Select(S, k), S.open[k], 0)
  }

  /** A turn selects the first vertex of least f-score; with none finite, `findMinF` returns `null` and nothing changes. */
  function Next(G: Topology, hs: seq<real>, S: AState): (r: AState)
    requires Sized(G, hs, S)
    ensures Sized(G, hs, r)
  {
    var k := FirstMin(FScores(S));
    if k == -1 then S else Turn(G, hs, S, k)
  }

  /** The state after the initialisation and `n` turns. */
  ghost function Turns(G: Topology, hs: seq<real>, pred: seq<int>, s: nat, n: nat): (S: AState)
    requires G.WellFormed() && |hs| == G.Size() && |pred| == G.Size() && s < G.Size()
    requires forall v :: 0 <= v < G.Size() ==> -1 <= pred[v] < G.Size()
    ensures Sized(G, hs, S)
  {
    if n == 0 then Init(G, hs, pred, s) else Next(G, hs, Turns(G, hs, pred, s, n - 1))
  }

  /** One more turn is `Next` of the state the turns before left. */
  lemma TurnsNext(G: Topology, hs: seq<real>, pred: seq<int>, s: nat, n: nat)
    requires G.WellFormed() && |hs| == G.Size() && |pred| == G.Size() && s < G.Size()
    requires forall v :: 0 <= v < G.Size() ==> -1 <= pred[v] < G.Size()
    ensures Turns(G, hs, pred, s, n + 1) == Next(G, hs, Turns(G, hs, pred, s, n))
  {
  }

  /** Each of the first `n` turns was taken while `e` was not in `open`, as the loop condition demands. */
  ghost predicate Running(G: Topology, hs: seq<real>, pred: seq<int>, s: nat, e: int, n: nat)
    requires G.WellFormed() && |hs| == G.Size() && |pred| == G.Size() && s < G.Size()
    requires forall v :: 0 <= v < G.Size() ==> -1 <= pred[v] < G.Size()
  {
    n == 0 || (Running(G, hs, pred, s, e, n - 1) && e !in Turns(G, hs, pred, s, n - 1).open)
  }

  /** Turns taken while `e` was not in `open` keep the invariant. */
  lemma {:induction false} RunningBetween(G: Topology, hs: seq<real>, pred: seq<int>, s: nat, e: int, n: nat)
    requires G.WellFormed() && |hs| == G.Size() && |pred| == G.Size() && s < G.Size() && 0 <= e < G.Size()
    requires forall v :: 0 <= v < G.Size() ==> -1 <= pred[v] < G.Size()
    requires Running(G, hs, pred, s, e, n)
    ensures Between(G, hs, s, e, Turns(G, hs, pred, s, n))
  {
    if n == 0 {
      InitBetween(G, hs, pred, s, e);
    } else {
      RunningBetween(G, hs, pred, s, e, n - 1);
      NextKeeps(G, hs, s, e, Turns(G, hs, pred, s, n - 1));
    }
  }

  /** The first turn starts with `open` holding `s` alone, so a run of turns towards `s` itself is empty. */
  lemma {:induction false} RunningStart(G: Topology, hs: seq<real>, pred: seq<int>, s: nat, e: int, n: nat)
    requires G.WellFormed() && |hs| == G.Size() && |pred| == G.Size() && s < G.Size()
    requires forall v :: 0 <= v < G.Size() ==> -1 <= pred[v] < G.Size()
    requires Running(G, hs, pred, s, e, n)
    ensures n > 0 ==> e != s
  {
    if n > 1 {
      RunningStart(G, hs, pred, s, e, n - 1);
    }
  }

  /** A vertex with a finite distance that is not in `open` has neighbours of finite distance. */
  ghost predicate Closed(G: Topology, S: AState)
    requires G.WellFormed() && |S.dist| == G.Size()
  {
    forall x, m :: 0 <= x < G.Size() && S.dist[x].Fin? && x !in S.open && 0 <= m < |G.adj[x]| ==> S.dist[G.adj[x][m]].Fin?
  }

  /**
   * What relaxing keeps: `open` holds distinct vertices of finite distance, f-scores are distances
   * plus estimates, every finite distance is the cost of a walk from `s`, and every vertex other
   * than `s` that has one has a predecessor.
   */
  ghost predicate Kept(G: Topology, hs: seq<real>, s: int, S: AState)
  {
    && Sized(G, hs, S) && 0 <= s < G.Size()
    && Distinct(S.open) && S.dist[s].Fin?
    && (forall i :: 0 <= i < |S.open| ==> S.dist[S.open[i]].Fin?)
    && (forall v :: 0 <= v < G.Size() ==> S.f[v] == Plus(S.dist[v], hs[v]))
    && (forall v :: 0 <= v < G.Size() && S.dist[v].Fin? ==> Witnessed(G, s, v, S.dist[v].r))
    && (forall v :: 0 <= v < G.Size() && S.dist[v].Fin? && v != s ==> S.pred[v] >= 0)
  }

  /**
   * The invariant of the main loop of `searchPath` from `s` towards `e`: what relaxing keeps, and
   * besides: a vertex that has left `open` has neighbours of finite distance; `e` has a finite
   * distance only once it is in `open`; the first turn selects `s`; and every snapshot of a vertex
   * other than `s` shows a predecessor.
   */
  ghost predicate Between(G: Topology, hs: seq<real>, s: int, e: int, S: AState)
  {
    && Kept(G, hs, s, S) && 0 <= e < G.Size()
    && Closed(G, S)
    && (S.dist[e].Fin? ==> e in S.open)
    && (S.trace == [] ==> S.open == [s])
    && (S.trace != [] ==> S.trace[0].id == s)
    && (forall j :: 0 <= j < |S.trace| && S.trace[j].id != s ==> S.trace[j].prev >= 0)
  }

  /** Relaxing only lowers distances and only adds to `open`; a vertex left out of `open` keeps its distance. */
  lemma {:induction false} RelaxRestGrows(G: Topology, hs: seq<real>, S: AState, u: nat, k: nat)
    requires Sized(G, hs, S) && u < G.Size() && k <= |G.adj[u]|
    ensures var r := RelaxRest(G, hs, S, u, k);
      && (forall v :: 0 <= v < G.Size() && S.dist[v].Fin? ==> r.dist[v].Fin?)
      && (forall v :: v in S.open ==> v in r.open)
      && (forall v :: 0 <= v < G.Size() && v !in r.open ==> r.dist[v] == S.dist[v])
    decreases |G.adj[u]| - k
  {
    if k < |G.adj[u]| {
      RelaxRestGrows(G, hs, Relax(G, hs, S, u, G.adj[u][k]), u, k + 1);
    }
  }

  /**
   * One relaxation along an edge of `G` keeps what relaxing keeps (the predicate is compared with
   * `true` so that it is proved as a whole rather than conjunct by conjunct).
   */
  lemma RelaxKeeps(G: Topology, hs: seq<real>, s: int, S: AState, u: nat, v: nat)
    requires Kept(G, hs, s, S) && u < G.Size() && v < G.Size() && v in G.adj[u]
    ensures Kept(G, hs, s, Relax(G, hs, S, u, v)) == true
  {
    var tentative := Plus(S.dist[u], EdgeWeight(G, u, v));
    if Below(tentative, S.dist[v]) {
      ExtendWitness(G, s, u, v, S.dist[u].r);
      var r := Relax(G, hs, S, u, v);
      if v !in S.open {
        assert r.open == S.open + [v];
        assert forall i :: 0 <= i < |S.open| ==> r.open[i] == S.open[i];
      }
    }
  }

  lemma {:induction false} RelaxRestKeeps(G: Topology, hs: seq<real>, s: int, S: AState, u: nat, k: nat)
    requires Kept(G, hs, s, S) && u < G.Size() && k <= |G.adj[u]|
    ensures Kept(G, hs, s, RelaxRest(G, hs, S, u, k))
    decreases |G.adj[u]| - k
  {
    if k < |G.adj[u]| {
      RelaxKeeps(G, hs, s, S, u, G.adj[u][k]);
      RelaxRestKeeps(G, hs, s, Relax(G, hs, S, u, G.adj[u][k]), u, k + 1);
    }
  }

  /** A relaxation keeps finite distances finite, and after it `v` is finite when `u` is. */
  lemma RelaxFinite(G: Topology, hs: seq<real>, S: AState, u: nat, v: nat)
    requires Sized(G, hs, S) && u < G.Size() && v < G.Size()
    ensures forall x :: 0 <= x < G.Size() && S.dist[x].Fin? ==> Relax(G, hs, S, u, v).dist[x].Fin?
    ensures S.dist[u].Fin? ==> Relax(G, hs, S, u, v).dist[v].Fin?
  {
  }

  /** The turns from the `k`-th on, over the neighbours of a vertex of finite distance, leave neighbour `m >= k` with a finite distance. */
  lemma {:induction false} RelaxRestCovers(G: Topology, hs: seq<real>, S: AState, u: nat, k: nat, m: nat)
    requires Sized(G, hs, S) && u < G.Size() && k <= m < |G.adj[u]| && S.dist[u].Fin?
    ensures RelaxRest(G, hs, S, u, k).dist[G.adj[u][m]].Fin?
    decreases |G.adj[u]| - k
  {
    var r := Relax(G, hs, S, u, G.adj[u][k]);
    RelaxFinite(G, hs, S, u, G.adj[u][k]);
    if m == k {
      RelaxRestGrows(G, hs, r, u, k + 1);
    } else {
      RelaxRestCovers(G, hs, r, u, k + 1, m);
    }
  }

  /** The initial state satisfies the invariant. */
  lemma InitBetween(G: Topology, hs: seq<real>, pred: seq<int>, s: nat, e: int)
    requires G.WellFormed() && |hs| == G.Size() && |pred| == G.Size() && s < G.Size() && 0 <= e < G.Size()
    requires forall v :: 0 <= v < G.Size() ==> -1 <= pred[v] < G.Size()
    ensures Between(G, hs, s, e, Init(G, hs, pred, s))
  {
    assert IsWalkFromTo(G, [s], s, s) && Cost(G, [s]) == 0.0;
  }

  /** Selecting `open[k]` keeps what relaxing keeps, and leaves the other vertices of `open` in it. */
  lemma SelectKept(G: Topology, hs: seq<real>, s: int, S: AState, k: nat)
    requires Kept(G, hs, s, S) && k < |S.open|
    ensures Sized(G, hs, Select(S, k)) && Kept(G, hs, s, Select(S, k))
    ensures forall v :: v in Select(S, k).open <==> v in S.open && v != S.open[k]
  {
    SelectSized(G, hs, S, k);
    RemoveAt(S.open, k);
  }

  /** A turn keeps the vertices outside `open` closed: the selected one has just relaxed all its neighbours. */
  lemma TurnClosed(G: Topology, hs: seq<real>, s: int, S: AState, k: nat)
    requires Kept(G, hs, s, S) && Closed(G, S) && k < |S.open|
    ensures Closed(G, Turn(G, hs, S, k))
  {
    var u := S.open[k];
    SelectKept(G, hs, s, S, k);
    var E := Select(S, k);
    var T := Turn(G, hs, S, k);
    RelaxRestGrows(G, hs, E, u, 0);
    forall x, m | 0 <= x < G.Size() && T.dist[x].Fin? && x !in T.open && 0 <= m < |G.adj[x]|
      ensures T.dist[G.adj[x][m]].Fin?
    {
      if x != u {
        assert x !in S.open && S.dist[x].Fin?;
      } else {
        RelaxRestCovers(G, hs, E, u, 0, m);
      }
    }
  }

  /** A turn taken while `e` is not in `open` keeps the invariant, whichever vertex it selects. */
  lemma TurnKeeps(G: Topology, hs: seq<real>, s: int, e: int, S: AState, k: nat)
    requires Between(G, hs, s, e, S) && e !in S.open && k < |S.open|
    ensures Between(G, hs, s, e, Turn(G, hs, S, k))
  {
    var u := S.open[k];
    SelectKept(G, hs, s, S, k);
    var E := Select(S, k);
    var T := Turn(G, hs, S, k);
    RelaxRestKeeps(G, hs, s, E, u, 0);
    RelaxRestGrows(G, hs, E, u, 0);
    TurnClosed(G, hs, s, S, k);
    assert T.trace == S.trace + [Snap(u, S.pred[u])];
    if S.trace == [] {
      assert k == 0 && u == s;
    }
  }

  /** A turn of the main loop, taken while `e` is not in `open`, keeps the invariant. */
  lemma NextKeeps(G: Topology, hs: seq<real>, s: int, e: int, S: AState)
    requires Sized(G, hs, S)
    ensures Between(G, hs, s, e, S) && e !in S.open ==> Between(G, hs, s, e, Next(G, hs, S))
  {
    var k := FirstMin(FScores(S));
    if Between(G, hs, s, e, S) && e !in S.open && k != -1 {
      TurnKeeps(G, hs, s, e, S, k);
    }
  }

  /**
   * When `findMinF` finds no finite f-score, `open` is empty and no walk from `s` reaches `e`:
   * the only way the Java search fails on a graph whose predecessor links it can follow.
   */
  lemma Stuck(G: Topology, hs: seq<real>, s: int, e: int, S: AState)
    requires Between(G, hs, s, e, S) && FirstMin(FScores(S)) == -1
    ensures S.open == [] && !Reachable(G, s, e)
  {
    if p :| IsWalkFromTo(G, p, s, e) {
      WalkFinite(G, hs, s, e, S, p, |p| - 1);
    }
  }

  /** With `open` empty, every vertex along a walk from `s` has a finite distance. */
  lemma {:induction false} WalkFinite(G: Topology, hs: seq<real>, s: int, e: int, S: AState, p: seq<int>, j: nat)
    requires Between(G, hs, s, e, S) && S.open == [] && IsWalk(G, p) && p[0] == s && j < |p|
    ensures S.dist[p[j]].Fin?
    decreases j
  {
    if j > 0 {
      WalkFinite(G, hs, s, e, S, p, j - 1);
      var x := p[j - 1];
      assert p[j] in G.adj[x];
      var m :| 0 <= m < |G.adj[x]| && G.adj[x][m] == p[j];
    }
  }

  /** Once `e` is in `open`, its distance is the cost of some walk from `s`. */
  lemma Found(G: Topology, hs: seq<real>, s: int, e: int, S: AState)
    requires Between(G, hs, s, e, S) && e in S.open
    ensures S.dist[e].Fin? && Witnessed(G, s, e, S.dist[e].r) && Reachable(G, s, e)
  {
    var i :| 0 <= i < |S.open| && S.open[i] == e;
    assert S.dist[e].Fin?;
  }

  /** The last turn at which `x` was selected, or -1 when it never was. */
  function LastTurn(trace: seq<Snap>, x: int): (t: int)
    ensures -1 <= t < |trace| && (t >= 0 ==> trace[t].id == x)
    ensures forall j :: t < j < |trace| ==> trace[j].id != x
  {
    if trace == [] then -1
    else if trace[|trace| - 1].id == x then |trace| - 1
    else LastTurn(trace[..|trace| - 1], x)
  }

  /** Selecting `y` makes the new turn the last of `y` and leaves the last turns of the others. */
  lemma LastTurnAppend(trace: seq<Snap>, y: Snap, x: int)
    ensures LastTurn(trace + [y], x) == if y.id == x then |trace| else LastTurn(trace, x)
  {
    assert (trace + [y])[..|trace|] == trace;
  }

  /**
   * When `x` last left `open`: the number of turns taken while it is in `open`, otherwise the last
   * turn that selected it.
   */
  function Key(S: AState, x: int): int
  {
    if x in S.open then |S.trace| else LastTurn(S.trace, x)
  }

  /** `x` comes before `y`: a smaller distance, or the same distance and an earlier key. */
  ghost predicate Lower(S: AState, x: nat, y: nat)
    requires x < |S.dist| && y < |S.dist| && S.dist[x].Fin? && S.dist[y].Fin?
  {
    S.dist[x].r < S.dist[y].r || (S.dist[x].r == S.dist[y].r && Key(S, x) < Key(S, y))
  }

  /**
   * The predecessor `u` of `v` has a finite distance and `v` as neighbour, and `v` costs at least
   * `u`'s distance plus the edge; when it costs exactly that, `u` is out of `open` and left it
   * before `v` did.
   */
  ghost predicate PredBelow(G: Topology, S: AState, v: nat)
    requires G.WellFormed() && |S.dist| == G.Size() && |S.pred| == G.Size() && v < G.Size() && S.dist[v].Fin?
  {
    var u := S.pred[v];
    && 0 <= u < G.Size() && v in G.adj[u] && S.dist[u].Fin?
    && S.dist[u].r + EdgeWeight(G, u, v) <= S.dist[v].r
    && (S.dist[u].r + EdgeWeight(G, u, v) == S.dist[v].r ==> u !in S.open && Key(S, u) < Key(S, v))
  }

  /** Every vertex other than `s` with a finite distance has a predecessor below it. */
  ghost predicate Descends(G: Topology, s: int, S: AState)
    requires G.WellFormed() && |S.dist| == G.Size() && |S.pred| == G.Size()
  {
    forall v :: 0 <= v < G.Size() && S.dist[v].Fin? && v != s ==> PredBelow(G, S, v)
  }

  /** Before the first turn only `s` has a finite distance. */
  lemma InitDescends(G: Topology, hs: seq<real>, pred: seq<int>, s: nat)
    requires G.WellFormed() && |hs| == G.Size() && |pred| == G.Size() && s < G.Size()
    requires forall v :: 0 <= v < G.Size() ==> -1 <= pred[v] < G.Size()
    ensures Descends(G, s, Init(G, hs, pred, s))
  {
  }

  /** Selecting `open[k]` leaves every key as it was or later, and the keys outside `open` as they were. */
  lemma KeySelect(G: Topology, hs: seq<real>, s: int, S: AState, k: nat, y: int)
    requires Kept(G, hs, s, S) && k < |S.open|
    ensures Key(S, y) <= Key(Select(S, k), y)
    ensures y !in S.open ==> Key(Select(S, k), y) == Key(S, y) && y !in Select(S, k).open
  {
    SelectKept(G, hs, s, S, k);
    LastTurnAppend(S.trace, Snap(S.open[k], S.pred[S.open[k]]), y);
  }

  /** Selecting a vertex keeps every predecessor below its vertex. */
  lemma SelectDescends(G: Topology, hs: seq<real>, s: int, S: AState, k: nat)
    requires Kept(G, hs, s, S) && Descends(G, s, S) && k < |S.open|
    ensures Sized(G, hs, Select(S, k)) && Descends(G, s, Select(S, k))
  {
    SelectKept(G, hs, s, S, k);
    var E := Select(S, k);
    forall v | 0 <= v < G.Size() && E.dist[v].Fin? && v != s
      ensures PredBelow(G, E, v)
    {
      assert PredBelow(G, S, v);
      KeySelect(G, hs, s, S, k, S.pred[v]);
      KeySelect(G, hs, s, S, k, v);
    }
  }

  /**
   * Relaxing the edge from `u`, the vertex the turn selected, to its `m`-th neighbour keeps every
   * predecessor below its vertex: the improved neighbour joins `open` after `u` left it, and the
   * vertices whose predecessor it is now cost strictly more than it plus the edge.
   */
  lemma RelaxDescends(G: Topology, hs: seq<real>, s: int, S: AState, u: nat, m: nat)
    requires Sized(G, hs, S) && NonNegative(G) && Descends(G, s, S)
    requires u < G.Size() && m < |G.adj[u]| && u !in S.open && S.trace != [] && S.trace[|S.trace| - 1].id == u
    ensures Descends(G, s, Relax(G, hs, S, u, G.adj[u][m])) && u !in Relax(G, hs, S, u, G.adj[u][m]).open
  {
    var v := G.adj[u][m];
    var R := Relax(G, hs, S, u, v);
    var tentative := Plus(S.dist[u], EdgeWeight(G, u, v));
    if Below(tentative, S.dist[v]) {
      assert EdgeWeight(G, u, v) >= 0.0;
      assert v != u;
      assert Key(R, u) == |S.trace| - 1 && Key(R, v) == |S.trace|;
      forall y | 0 <= y < G.Size() && R.dist[y].Fin? && y != s
        ensures PredBelow(G, R, y)
      {
        if y != v {
          assert PredBelow(G, S, y);
          assert Key(R, y) == Key(S, y);
          if S.pred[y] != v {
            assert Key(R, S.pred[y]) == Key(S, S.pred[y]);
          }
        }
      }
    }
  }

  lemma {:induction false} RelaxRestDescends(G: Topology, hs: seq<real>, s: int, S: AState, u: nat, k: nat)
    requires Sized(G, hs, S) && NonNegative(G) && Descends(G, s, S) && u < G.Size() && k <= |G.adj[u]|
    requires u !in S.open && S.trace != [] && S.trace[|S.trace| - 1].id == u
    ensures Descends(G, s, RelaxRest(G, hs, S, u, k))
    decreases |G.adj[u]| - k
  {
    if k < |G.adj[u]| {
      RelaxDescends(G, hs, s, S, u, k);
      RelaxRestDescends(G, hs, s, Relax(G, hs, S, u, G.adj[u][k]), u, k + 1);
    }
  }

  /** A turn keeps every predecessor below its vertex. */
  lemma TurnDescends(G: Topology, hs: seq<real>, s: int, S: AState, k: nat)
    requires Kept(G, hs, s, S) && NonNegative(G) && Descends(G, s, S) && k < |S.open|
    ensures Descends(G, s, Turn(G, hs, S, k))
  {
    SelectDescends(G, hs, s, S, k);
    SelectKept(G, hs, s, S, k);
    RelaxRestDescends(G, hs, s, Select(S, k), S.open[k], 0);
  }

  /** A turn of the main loop keeps every predecessor below its vertex. */
  lemma NextDescends(G: Topology, hs: seq<real>, s: int, S: AState)
    requires Kept(G, hs, s, S) && NonNegative(G) && Descends(G, s, S)
    ensures Descends(G, s, Next(G, hs, S))
  {
    var k := FirstMin(FScores(S));
    if k != -1 {
      TurnDescends(G, hs, s, S, k);
    }
  }

  /**
   * With no edge weighing less than zero, every state of the main loop has every predecessor
   * below its vertex.
   */
  lemma {:induction false} RunningDescends(G: Topology, hs: seq<real>, pred: seq<int>, s: nat, e: int, n: nat)
    requires G.WellFormed() && |hs| == G.Size() && |pred| == G.Size() && s < G.Size() && 0 <= e < G.Size()
    requires forall v :: 0 <= v < G.Size() ==> -1 <= pred[v] < G.Size()
    requires Running(G, hs, pred, s, e, n) && NonNegative(G)
    ensures Descends(G, s, Turns(G, hs, pred, s, n))
  {
    if n == 0 {
      InitDescends(G, hs, pred, s);
    } else {
      RunningDescends(G, hs, pred, s, e, n - 1);
      TurnsDescends(G, hs, pred, s, e, n);
    }
  }

  /**
   * The `n`-th turn, taken while `e` was not in `open`, keeps every predecessor below its vertex
   * (the predicates are compared with `true` so that each is passed on whole).
   */
  lemma TurnsDescends(G: Topology, hs: seq<real>, pred: seq<int>, s: nat, e: int, n: nat)
    requires G.WellFormed() && |hs| == G.Size() && |pred| == G.Size() && s < G.Size() && 0 <= e < G.Size() && n > 0
    requires forall v :: 0 <= v < G.Size() ==> -1 <= pred[v] < G.Size()
    requires Running(G, hs, pred, s, e, n - 1) == true && NonNegative(G)
    requires Descends(G, s, Turns(G, hs, pred, s, n - 1)) == true
    ensures Descends(G, s, Turns(G, hs, pred, s, n))
  {
    RunningBetween(G, hs, pred, s, e, n - 1);
    NextDescends(G, hs, s, Turns(G, hs, pred, s, n - 1));
  }

  /** With no edge weighing less than zero, the predecessor of a vertex other than `s` comes before it. */
  lemma StepLower(G: Topology, hs: seq<real>, s: int, S: AState, x: nat)
    requires Sized(G, hs, S) && NonNegative(G) && Descends(G, s, S) && x < G.Size() && S.dist[x].Fin? && x != s
    ensures 0 <= S.pred[x] < G.Size() && S.dist[S.pred[x]].Fin? && Lower(S, S.pred[x], x)
  {
    assert PredBelow(G, S, x);
    var u := S.pred[x];
    var m :| 0 <= m < |G.adj[u]| && G.adj[u][m] == x;
    assert EdgeWeight(G, u, G.adj[u][m]) >= 0.0;
  }

  /** The predecessor of a vertex of finite distance other than `s` is a vertex of finite distance. */
  lemma StepFinite(G: Topology, hs: seq<real>, s: int, S: AState, x: nat)
    requires Sized(G, hs, S) && Descends(G, s, S) && x < G.Size() && S.dist[x].Fin? && x != s
    ensures 0 <= S.pred[x] < G.Size() && S.dist[S.pred[x]].Fin?
  {
    assert PredBelow(G, S, x);
  }

  /** Each vertex of a predecessor walk from `e` that avoids `s` has a finite distance. */
  lemma {:induction false} FollowFinite(G: Topology, hs: seq<real>, s: int, S: AState, e: nat, f: nat, k: nat)
    requires Sized(G, hs, S) && NonNegative(G) && Descends(G, s, S) && e < G.Size() && S.dist[e].Fin?
    requires Avoids(S.pred, e, s, f) && k <= f
    ensures 0 <= Follow(S.pred, e, k) < G.Size() && S.dist[Follow(S.pred, e, k)].Fin?
    decreases k
  {
    if k > 0 {
      FollowFinite(G, hs, s, S, e, f, k - 1);
      var x := Follow(S.pred, e, k - 1);
      FollowAdd(S.pred, e, k - 1, 1);
      assert Follow(S.pred, e, k) == S.pred[x];
      StepFinite(G, hs, s, S, x);
    }
  }

  /** Along a predecessor walk from `e` that avoids `s`, each step leads to a lower vertex. */
  lemma FollowStep(G: Topology, hs: seq<real>, s: int, S: AState, e: nat, f: nat, k: nat)
    requires Sized(G, hs, S) && NonNegative(G) && Descends(G, s, S) && e < G.Size() && S.dist[e].Fin?
    requires Avoids(S.pred, e, s, f) && k < f
    ensures 0 <= Follow(S.pred, e, k) < G.Size() && 0 <= Follow(S.pred, e, k + 1) < G.Size()
    ensures S.dist[Follow(S.pred, e, k)].Fin? && S.dist[Follow(S.pred, e, k + 1)].Fin?
    ensures Lower(S, Follow(S.pred, e, k + 1), Follow(S.pred, e, k))
  {
    FollowFinite(G, hs, s, S, e, f, k);
    var x := Follow(S.pred, e, k);
    FollowAdd(S.pred, e, k, 1);
    StepLower(G, hs, s, S, x);
  }

  /** Coming before is transitive. */
  lemma LowerTransitive(S: AState, x: nat, y: nat, z: nat)
    requires x < |S.dist| && y < |S.dist| && z < |S.dist| && S.dist[x].Fin? && S.dist[y].Fin? && S.dist[z].Fin?
    requires Lower(S, x, y) && Lower(S, y, z)
    ensures Lower(S, x, z)
  {
  }

  /** Step `k` of the predecessor walk from `e` leads from a vertex of finite distance to a lower one. */
  ghost predicate StepDown(S: AState, e: nat, k: nat)
    requires PredsInRange(S.pred) && e < |S.pred|
  {
    && 0 <= Follow(S.pred, e, k) < |S.dist| && 0 <= Follow(S.pred, e, k + 1) < |S.dist|
    && S.dist[Follow(S.pred, e, k)].Fin? && S.dist[Follow(S.pred, e, k + 1)].Fin?
    && Lower(S, Follow(S.pred, e, k + 1), Follow(S.pred, e, k))
  }

  /** Every one of the first `f` steps of the predecessor walk from `e` leads to a lower vertex. */
  ghost predicate WalkDescends(S: AState, e: nat, f: nat)
    requires PredsInRange(S.pred) && e < |S.pred|
  {
    forall k: nat :: k < f ==> StepDown(S, e, k)
  }

  /** With no edge weighing less than zero, a predecessor walk from `e` that avoids `s` descends. */
  lemma FollowDescends(G: Topology, hs: seq<real>, s: int, S: AState, e: nat, f: nat)
    requires Sized(G, hs, S) && NonNegative(G) && Descends(G, s, S) && e < G.Size() && S.dist[e].Fin?
    requires Avoids(S.pred, e, s, f)
    ensures PredsInRange(S.pred) && WalkDescends(S, e, f)
  {
    forall k: nat | k < f
      ensures StepDown(S, e, k)
    {
      FollowStep(G, hs, s, S, e, f, k);
    }
  }

  /** Along a descending walk, each vertex comes after every later one. */
  lemma {:induction false} FollowLower(S: AState, e: nat, f: nat, i: nat, j: nat)
    requires PredsInRange(S.pred) && e < |S.pred| && WalkDescends(S, e, f) && i < j <= f
    ensures 0 <= Follow(S.pred, e, i) < |S.dist| && 0 <= Follow(S.pred, e, j) < |S.dist|
    ensures S.dist[Follow(S.pred, e, i)].Fin? && S.dist[Follow(S.pred, e, j)].Fin?
    ensures Lower(S, Follow(S.pred, e, j), Follow(S.pred, e, i))
    decreases j - i
  {
    assert StepDown(S, e, j - 1);
    if i < j - 1 {
      FollowLower(S, e, f, i, j - 1);
      LowerTransitive(S, Follow(S.pred, e, j), Follow(S.pred, e, j - 1), Follow(S.pred, e, i));
    }
  }

  /** The predecessor walk from a vertex of finite distance never meets a missing predecessor before `s`. */
  lemma {:induction false} ChainNotNull(G: Topology, hs: seq<real>, s: int, S: AState, v: nat, f: nat)
    requires Sized(G, hs, S) && NonNegative(G) && Descends(G, s, S) && v < G.Size() && S.dist[v].Fin?
    ensures PredsInRange(S.pred) && Chain(S.pred, v, s, f) != Err(NullPredecessor)
    decreases f
  {
    if v != s && f > 0 {
      StepLower(G, hs, s, S, v);
      ChainNotNull(G, hs, s, S, S.pred[v], f - 1);
    }
  }

  /**
   * With no edge weighing less than zero, `retrievePath` with as many steps as there are vertices
   * walks back from every vertex of finite distance to `s`: the walk descends, so it cannot cycle.
   */
  lemma DescendsChain(G: Topology, hs: seq<real>, s: int, S: AState, e: nat)
    requires Sized(G, hs, S) && NonNegative(G) && Descends(G, s, S) && e < G.Size() && S.dist[e].Fin?
    ensures PredsInRange(S.pred) && Chain(S.pred, e, s, G.Size()).Ok?
  {
    ChainNotNull(G, hs, s, S, e, G.Size());
    CycleIffAvoids(S.pred, e, s, G.Size());
    if Avoids(S.pred, e, s, G.Size()) {
      Pigeonhole(S.pred, e, s);
      var i, j :| 0 <= i < j <= G.Size() && Follow(S.pred, e, i) == Follow(S.pred, e, j);
      FollowDescends(G, hs, s, S, e, G.Size());
      FollowLower(S, e, G.Size(), i, j);
      assert false;
    }
    var r := Chain(S.pred, e, s, G.Size());
    assert r.Err? ==> r.error == Cycle || r.error == NullPredecessor;
  }
}
