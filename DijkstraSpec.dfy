/**
 * The search of `DijkstraInstance` on values: every vertex's distance and predecessor, the ids
 * still in `Q` (in list order) and the ids extracted so far (in extraction order, the trace that
 * `delays` records). The invariants below hold after every step of the Java loop; those of
 * `Optimal` need edges of non-negative weight.
 */
module DijkstraSpec {
  import opened Doubles
  import opened Graph
  import opened Walks
  import opened PathFinder

  datatype State = State(dist: seq<Dist>, pred: seq<int>, q: seq<int>, trace: seq<int>)

  /** Sizes and ranges; every vertex is in exactly one of `q` and `trace`, each without repeats. */
  ghost predicate Shaped(G: Topology, S: State)
  {
    && G.WellFormed()
    && |S.dist| == G.Size() && |S.pred| == G.Size()
    && (forall v :: 0 <= v < G.Size() ==> -1 <= S.pred[v] < G.Size())
    && (forall i :: 0 <= i < |S.q| ==> 0 <= S.q[i] < G.Size())
    && (forall i :: 0 <= i < |S.trace| ==> 0 <= S.trace[i] < G.Size())
    && Distinct(S.q) && Distinct(S.trace)
    && (forall v :: 0 <= v < G.Size() ==> (v in S.q <==> v !in S.trace))
  }

  /** The state after the initialisation loop and `start.setTimeFromSource(0)`. */
  function Init(n: nat, s: nat): (S: State)
    requires s < n
    ensures |S.dist| == n && |S.pred| == n && |S.q| == n && S.trace == []
    ensures forall v :: 0 <= v < n ==> S.q[v] == v && S.pred[v] == -1
    ensures forall v :: 0 <= v < n ==> S.dist[v] == if v == s then Fin(0.0) else Inf
  {
    State(seq(n, v => if v == s then Fin(0.0) else Inf), seq(n, v => -1), seq(n, v => v), [])
  }

  /** The distances of the vertices in `q`, in `q`'s order: what `findMin` scans. */
  function QDist(S: State): (ds: seq<Dist>)
    requires forall i :: 0 <= i < |S.q| ==> 0 <= S.q[i] < |S.dist|
    ensures |ds| == |S.q| && forall i :: 0 <= i < |S.q| ==> ds[i] == S.dist[S.q[i]]
  {
    seq(|S.q|, i requires 0 <= i < |S.q| => S.dist[S.q[i]])
  }

  /** `delays.put(i, u)` and `Q.remove(u)` for `u` at position `k` of `Q`. */
  function Extract(S: State, k: nat): State
    requires k < |S.q|
  {
    S.(q := S.q[..k] + S.q[k + 1..], trace := S.trace + [S.q[k]])
  }

  /** One turn of the relaxation loop: `v` takes distance `dist[u] + w` and predecessor `u` if that is strictly smaller. */
  function RelaxStep(G: Topology, S: State, u: nat, v: nat): (r: State)
    requires G.WellFormed() && u < G.Size() && v < G.Size()
    requires |S.dist| == G.Size() && |S.pred| == G.Size()
    ensures |r.dist| == G.Size() && |r.pred| == G.Size() && r.q == S.q && r.trace == S.trace
    ensures AtMost(r.dist[v], S.dist[v]) && AtMost(r.dist[v], Plus(S.dist[u], EdgeWeight(G, u, v)))
    ensures forall x :: 0 <= x < G.Size() && x != v ==> r.dist[x] == S.dist[x] && r.pred[x] == S.pred[x]
  {
    var d := Plus(S.dist[u], EdgeWeight(G, u, v));
    if Below(d, S.dist[v]) then S.(dist := S.dist[v := d], pred := S.pred[v := u]) else S
  }

  /** The first `k` turns of the relaxation loop over `u`'s neighbours, in list order. */
  function RelaxFrom(G: Topology, S: State, u: nat, k: nat): (r: State)
    requires G.WellFormed() && u < G.Size() && k <= |G.adj[u]|
    requires |S.dist| == G.Size() && |S.pred| == G.Size()
    ensures |r.dist| == G.Size() && |r.pred| == G.Size() && r.q == S.q && r.trace == S.trace
    decreases k
  {
    if k == 0 then S else RelaxStep(G, RelaxFrom(G, S, u, k - 1), u, G.adj[u][k - 1])
  }

  /** Turn `k + 1` of the relaxation loop handles neighbour `k`. */
  lemma RelaxFromNext(G: Topology, S: State, u: nat, k: nat)
    requires G.WellFormed() && u < G.Size() && k < |G.adj[u]|
    requires |S.dist| == G.Size() && |S.pred| == G.Size()
    ensures RelaxFrom(G, S, u, k + 1) == RelaxStep(G, RelaxFrom(G, S, u, k), u, G.adj[u][k])
  {
  }

  /** The turns of the relaxation loop over `u`'s neighbours from neighbour `k` on, starting from `R`. */
  function RelaxRest(G: Topology, R: State, u: nat, k: nat): (r: State)
    requires G.WellFormed() && u < G.Size() && k <= |G.adj[u]|
    requires |R.dist| == G.Size() && |R.pred| == G.Size()
    ensures |r.dist| == G.Size() && |r.pred| == G.Size()
    decreases |G.adj[u]| - k
  {
    if k == |G.adj[u]| then R else RelaxRest(G, RelaxStep(G, R, u, G.adj[u][k]), u, k + 1)
  }

  /** Finishing the loop from turn `k` gives what the whole loop gives. */
  lemma {:induction false} RelaxRestFrom(G: Topology, S: State, u: nat, k: nat)
    requires G.WellFormed() && u < G.Size() && k <= |G.adj[u]|
    requires |S.dist| == G.Size() && |S.pred| == G.Size()
    ensures RelaxRest(G, RelaxFrom(G, S, u, k), u, k) == RelaxFrom(G, S, u, |G.adj[u]|)
    decreases |G.adj[u]| - k
  {
    if k < |G.adj[u]| {
      RelaxFromNext(G, S, u, k);
      RelaxRestFrom(G, S, u, k + 1);
    }
  }

  /** No walk from `s` to `v` costs less than `d`. */
  ghost predicate LowerBound(G: Topology, s: int, v: int, d: real)
    requires G.WellFormed()
  {
    forall p :: IsWalkFromTo(G, p, s, v) ==> d <= Cost(G, p)
  }

  /** Neighbour `k` of the `j`-th extracted vertex has been relaxed, `done` being the count for the last one. */
  ghost predicate IsDone(S: State, j: int, k: int, done: nat)
  {
    j < |S.trace| - 1 || k < done
  }

  /** Every finite distance is the cost of some walk from `s`. */
  ghost predicate Witnesses(G: Topology, s: int, S: State)
    requires Shaped(G, S)
  {
    forall v :: 0 <= v < G.Size() && S.dist[v].Fin? ==> Witnessed(G, s, v, S.dist[v].r)
  }

  /** The neighbours already relaxed by an extracted vertex have a finite distance. */
  ghost predicate Frontier(G: Topology, S: State, done: nat)
    requires Shaped(G, S)
  {
    forall j, k :: 0 <= j < |S.trace| && 0 <= k < |G.adj[S.trace[j]]| && IsDone(S, j, k, done) ==>
      S.dist[G.adj[S.trace[j]][k]].Fin?
  }

  /** What holds whatever the weights. */
  ghost predicate Sound(G: Topology, s: int, S: State, done: nat)
  {
    && Shaped(G, S) && 0 <= s < G.Size()
    && S.dist[s].Fin?
    && Witnesses(G, s, S)
    && (forall v :: 0 <= v < G.Size() && v != s && S.dist[v].Fin? ==> S.pred[v] >= 0)
    && (forall j :: 0 <= j < |S.trace| ==> S.dist[S.trace[j]].Fin?)
    && Frontier(G, S, done)
  }

  /** The distance of every extracted vertex is a lower bound on the walks to it. */
  ghost predicate Settled(G: Topology, s: int, S: State)
    requires Shaped(G, S)
  {
    forall j :: 0 <= j < |S.trace| && S.dist[S.trace[j]].Fin? ==> LowerBound(G, s, S.trace[j], S.dist[S.trace[j]].r)
  }

  /** The neighbours already relaxed by an extracted vertex cost at most its distance plus the edge. */
  ghost predicate Relaxed(G: Topology, S: State, done: nat)
    requires Shaped(G, S)
  {
    forall j, k :: 0 <= j < |S.trace| && 0 <= k < |G.adj[S.trace[j]]| && IsDone(S, j, k, done) ==>
      AtMost(S.dist[G.adj[S.trace[j]][k]], Plus(S.dist[S.trace[j]], EdgeWeight(G, S.trace[j], G.adj[S.trace[j]][k])))
  }

  /** Every extracted vertex but `s` has a predecessor extracted before it. */
  ghost predicate PredsBefore(s: int, S: State)
  {
    forall j :: 0 <= j < |S.trace| && S.trace[j] != s ==>
      0 <= S.trace[j] < |S.pred| && S.pred[S.trace[j]] in S.trace[..j]
  }

  /** The predecessor of a vertex still in `q`, if any, is an extracted vertex. */
  ghost predicate PredsExtracted(S: State)
  {
    forall i :: 0 <= i < |S.q| && 0 <= S.q[i] < |S.pred| && S.pred[S.q[i]] >= 0 ==> S.pred[S.q[i]] in S.trace
  }

  /** A vertex with a predecessor is its neighbour, and costs the predecessor's distance plus the edge. */
  ghost predicate PredTight(G: Topology, S: State)
    requires Shaped(G, S)
  {
    forall v :: 0 <= v < G.Size() && S.pred[v] >= 0 ==>
      v in G.adj[S.pred[v]] && S.dist[v] == Plus(S.dist[S.pred[v]], EdgeWeight(G, S.pred[v], v))
  }

  /** What holds when no edge weighs less than zero. */
  ghost predicate Optimal(G: Topology, s: int, S: State, done: nat)
    requires Shaped(G, S) && 0 <= s < G.Size()
  {
    && S.dist[s] == Fin(0.0) && S.pred[s] == -1
    && Settled(G, s, S)
    && Relaxed(G, S, done)
    && PredsBefore(s, S) && PredsExtracted(S)
    && PredTight(G, S)
  }

  /** Initialisation establishes both invariants, with nothing extracted yet. */
  lemma InitSound(G: Topology, s: nat)
    requires G.WellFormed() && s < G.Size()
    ensures Sound(G, s, Init(G.Size(), s), 0)
    ensures NonNegative(G) ==> Optimal(G, s, Init(G.Size(), s), 0)
  {
    var S := Init(G.Size(), s);
    assert IsWalkFromTo(G, [s], s, s) && Cost(G, [s]) == 0.0;
    forall v | 0 <= v < G.Size()
      ensures v in S.q
    {
      assert S.q[v] == v;
    }
  }

  /** The first vertex of `p` that is in `q`, when its last one is. */
  lemma FirstIn(p: seq<int>, q: seq<int>) returns (j: nat)
    requires |p| >= 1 && p[|p| - 1] in q
    ensures j < |p| && p[j] in q && (j > 0 ==> p[j - 1] !in q)
  {
    j := 0;
    while p[j] !in q
      invariant j < |p| && (j > 0 ==> p[j - 1] !in q)
      decreases |p| - j
    {
      j := j + 1;
    }
  }

  /**
   * If `p[j-1]` has distance `dx`, no walk to it costs less, and `p[j]`'s distance `dy` is
   * relaxed against it, then `dy` is at most the cost of `p` up to `p[j]`.
   */
  lemma EntryBound(G: Topology, s: int, p: seq<int>, j: nat, dx: Dist, dy: Dist)
    requires IsWalk(G, p) && p[0] == s && 0 < j < |p|
    requires dx.Fin? && LowerBound(G, s, p[j - 1], dx.r)
    requires AtMost(dy, Plus(dx, EdgeWeight(G, p[j - 1], p[j])))
    ensures dy.Fin? && dy.r <= Cost(G, p[..j + 1])
  {
    WalkPrefix(G, p, j);
    assert IsWalkFromTo(G, p[..j], s, p[j - 1]);
    assert p[..j + 1][..j] == p[..j];
  }

  /** The extracted vertex costs no more than any walk from `s` to it (the heart of Dijkstra's argument). */
  lemma ExtractedIsOptimal(G: Topology, s: int, S: State, k: nat, done: nat, p: seq<int>)
    requires NonNegative(G) && Sound(G, s, S, done) && Optimal(G, s, S, done)
    requires S.trace == [] || done == |G.adj[S.trace[|S.trace| - 1]]|
    requires IsFirstMin(QDist(S), k)
    requires IsWalkFromTo(G, p, s, S.q[k])
    ensures S.dist[S.q[k]].r <= Cost(G, p)
  {
    var u := S.q[k];
    var j := FirstIn(p, S.q);
    var y := p[j];
    var iy :| 0 <= iy < |S.q| && S.q[iy] == y;
    assert AtMost(S.dist[u], S.dist[y]) by {
      assert QDist(S)[iy] == S.dist[y];
    }
    CostNonNegative(G, p);
    if j > 0 {
      var x := p[j - 1];
      var t :| 0 <= t < |S.trace| && S.trace[t] == x;
      assert y in G.adj[x];
      var m :| 0 <= m < |G.adj[x]| && G.adj[x][m] == y;
      assert IsDone(S, t, m, done);
      EntryBound(G, s, p, j, S.dist[x], S.dist[y]);
      PrefixCost(G, p, j + 1);
    }
  }

  /** Extraction moves one id from `q` to the end of `trace`. */
  lemma ExtractShaped(G: Topology, S: State, k: nat)
    requires Shaped(G, S) && k < |S.q|
    ensures Shaped(G, Extract(S, k))
  {
    RemoveAt(S.q, k);
    var u := S.q[k];
    assert u !in S.trace;
    var t := S.trace + [u];
    forall i, j | 0 <= i < j < |t|
      ensures t[i] != t[j]
    {
      if j == |S.trace| {
        assert t[i] in S.trace;
      }
    }
  }

  /** `delays.put(i, u)` and `Q.remove(u)` keep what holds whatever the weights; `u` is not relaxed yet. */
  lemma ExtractSound(G: Topology, s: int, S: State, k: nat, done: nat)
    requires Sound(G, s, S, done)
    requires S.trace == [] || done == |G.adj[S.trace[|S.trace| - 1]]|
    requires IsFirstMin(QDist(S), k)
    ensures Sound(G, s, Extract(S, k), 0)
  {
    var S' := Extract(S, k);
    ExtractShaped(G, S, k);
    assert QDist(S)[k] == S.dist[S.q[k]];
    forall j, m | 0 <= j < |S'.trace| && 0 <= m < |G.adj[S'.trace[j]]| && IsDone(S', j, m, 0)
      ensures S'.dist[G.adj[S'.trace[j]][m]].Fin?
    {
      assert S'.trace[j] == S.trace[j] && IsDone(S, j, m, done);
    }
  }

  lemma ExtractSettled(G: Topology, s: int, S: State, k: nat, done: nat)
    requires NonNegative(G) && Sound(G, s, S, done) && Optimal(G, s, S, done)
    requires S.trace == [] || done == |G.adj[S.trace[|S.trace| - 1]]|
    requires IsFirstMin(QDist(S), k)
    requires Shaped(G, Extract(S, k))
    ensures Settled(G, s, Extract(S, k))
  {
    var S' := Extract(S, k);
    var u := S.q[k];
    forall j | 0 <= j < |S'.trace| && S'.dist[S'.trace[j]].Fin?
      ensures LowerBound(G, s, S'.trace[j], S'.dist[S'.trace[j]].r)
    {
      if j == |S.trace| {
        forall p | IsWalkFromTo(G, p, s, u)
          ensures S.dist[u].r <= Cost(G, p)
        {
          ExtractedIsOptimal(G, s, S, k, done, p);
        }
      } else {
        assert S'.trace[j] == S.trace[j];
      }
    }
  }

  lemma ExtractRelaxed(G: Topology, S: State, k: nat, done: nat)
    requires Shaped(G, S) && k < |S.q| && Shaped(G, Extract(S, k)) && Relaxed(G, S, done)
    requires S.trace == [] || done == |G.adj[S.trace[|S.trace| - 1]]|
    ensures Relaxed(G, Extract(S, k), 0)
  {
    var S' := Extract(S, k);
    forall j, m | 0 <= j < |S'.trace| && 0 <= m < |G.adj[S'.trace[j]]| && IsDone(S', j, m, 0)
      ensures AtMost(S'.dist[G.adj[S'.trace[j]][m]],
                     Plus(S'.dist[S'.trace[j]], EdgeWeight(G, S'.trace[j], G.adj[S'.trace[j]][m])))
    {
      assert S'.trace[j] == S.trace[j] && IsDone(S, j, m, done);
    }
  }

  lemma ExtractPredsBefore(s: int, S: State, k: nat)
    requires PredsBefore(s, S) && PredsExtracted(S) && k < |S.q| && 0 <= S.q[k] < |S.pred|
    requires S.q[k] != s ==> S.pred[S.q[k]] >= 0
    ensures PredsBefore(s, Extract(S, k))
  {
    var S' := Extract(S, k);
    assert S'.trace[..|S.trace|] == S.trace;
    forall j | 0 <= j < |S.trace| && S.trace[j] != s
      ensures S'.pred[S'.trace[j]] in S'.trace[..j]
    {
      assert S'.trace[..j] == S.trace[..j];
    }
  }

  lemma ExtractPredsExtracted(S: State, k: nat)
    requires PredsExtracted(S) && k < |S.q|
    ensures PredsExtracted(Extract(S, k))
  {
    var S' := Extract(S, k);
    forall i | 0 <= i < |S'.q| && 0 <= S'.q[i] < |S'.pred| && S'.pred[S'.q[i]] >= 0
      ensures S'.pred[S'.q[i]] in S'.trace
    {
      var i0 := if i < k then i else i + 1;
      assert S'.q[i] == S.q[i0];
    }
  }

  /** With non-negative weights extraction also keeps `Optimal`: the new last vertex's distance is final. */
  lemma ExtractOptimal(G: Topology, s: int, S: State, k: nat, done: nat)
    requires NonNegative(G) && Sound(G, s, S, done) && Optimal(G, s, S, done)
    requires S.trace == [] || done == |G.adj[S.trace[|S.trace| - 1]]|
    requires IsFirstMin(QDist(S), k)
    ensures Shaped(G, Extract(S, k)) && Optimal(G, s, Extract(S, k), 0)
  {
    ExtractShaped(G, S, k);
    ExtractSettled(G, s, S, k, done);
    ExtractRelaxed(G, S, k, done);
    assert QDist(S)[k] == S.dist[S.q[k]];
    ExtractPredsBefore(s, S, k);
    ExtractPredsExtracted(S, k);
  }

  lemma RelaxWitnesses(G: Topology, s: int, S: State, u: nat, v: nat)
    requires Shaped(G, S) && Witnesses(G, s, S) && u < G.Size() && v < G.Size() && v in G.adj[u]
    requires Shaped(G, RelaxStep(G, S, u, v))
    ensures Witnesses(G, s, RelaxStep(G, S, u, v))
  {
    var d := Plus(S.dist[u], EdgeWeight(G, u, v));
    if Below(d, S.dist[v]) {
      ExtendWitness(G, s, u, v, S.dist[u].r);
    }
  }

  lemma RelaxFrontier(G: Topology, S: State, u: nat, k: nat)
    requires Shaped(G, S) && |S.trace| > 0 && u == S.trace[|S.trace| - 1]
    requires 0 < k <= |G.adj[u]| && Frontier(G, S, k - 1) && S.dist[u].Fin?
    ensures Shaped(G, RelaxStep(G, S, u, G.adj[u][k - 1]))
    ensures Frontier(G, RelaxStep(G, S, u, G.adj[u][k - 1]), k)
  {
    var S' := RelaxStep(G, S, u, G.adj[u][k - 1]);
    assert Shaped(G, S');
    forall j, m | 0 <= j < |S'.trace| && 0 <= m < |G.adj[S'.trace[j]]| && IsDone(S', j, m, k)
      ensures S'.dist[G.adj[S'.trace[j]][m]].Fin?
    {
      if IsDone(S, j, m, k - 1) {
        assert S.dist[G.adj[S.trace[j]][m]].Fin?;
      }
    }
  }

  /**
   * Turn `k` of the relaxation loop of the last extracted vertex `u` (its neighbour `k - 1`)
   * keeps what holds whatever the weights.
   */
  lemma RelaxSound(G: Topology, s: int, S: State, u: nat, k: nat)
    requires 0 < k && Sound(G, s, S, k - 1) && |S.trace| > 0 && u == S.trace[|S.trace| - 1]
    requires k <= |G.adj[u]|
    ensures Sound(G, s, RelaxStep(G, S, u, G.adj[u][k - 1]), k)
  {
    var v := G.adj[u][k - 1];
    assert v in G.adj[u];
    assert S.dist[u].Fin?;
    RelaxWitnesses(G, s, S, u, v);
    RelaxFrontier(G, S, u, k);
  }

  /**
   * With non-negative weights, a strict improvement `du + w < dv` through a witnessed `du`
   * shows that `dv` was neither a lower bound on the walks to `v` nor zero.
   */
  lemma ImprovementBound(G: Topology, s: int, u: nat, v: nat, du: real, dv: Dist)
    requires NonNegative(G) && u < G.Size() && v < G.Size() && v in G.adj[u]
    requires Witnessed(G, s, u, du) && Below(Fin(du + EdgeWeight(G, u, v)), dv)
    ensures !(dv.Fin? && LowerBound(G, s, v, dv.r))
    ensures dv.Fin? ==> dv.r > 0.0
  {
    var p :| IsWalkFromTo(G, p, s, u) && Cost(G, p) == du;
    WalkAppend(G, p, v);
    CostAppend(G, p, v);
    assert IsWalkFromTo(G, p + [v], s, v);
    CostNonNegative(G, p + [v]);
  }

  /** With non-negative weights a strict improvement never reaches `s` or an extracted vertex. */
  lemma ImprovesOnlyQueued(G: Topology, s: int, S: State, u: nat, v: nat)
    requires NonNegative(G) && Shaped(G, S) && Settled(G, s, S) && 0 <= s < G.Size() && S.dist[s] == Fin(0.0)
    requires forall j :: 0 <= j < |S.trace| ==> S.dist[S.trace[j]].Fin?
    requires u < G.Size() && v < G.Size() && v in G.adj[u] && S.dist[u].Fin? && Witnessed(G, s, u, S.dist[u].r)
    requires Below(Plus(S.dist[u], EdgeWeight(G, u, v)), S.dist[v])
    ensures v != s && v !in S.trace
  {
    ImprovementBound(G, s, u, v, S.dist[u].r, S.dist[v]);
  }

  /** Every predecessor named anywhere is an extracted vertex. */
  lemma PredsInTrace(G: Topology, s: int, S: State)
    requires Shaped(G, S) && 0 <= s < G.Size() && S.pred[s] == -1
    requires PredsBefore(s, S) && PredsExtracted(S)
    ensures forall x :: 0 <= x < G.Size() && S.pred[x] >= 0 ==> S.pred[x] in S.trace
  {
    forall x | 0 <= x < G.Size() && S.pred[x] >= 0
      ensures S.pred[x] in S.trace
    {
      if x in S.trace {
        var t :| 0 <= t < |S.trace| && S.trace[t] == x;
        var i :| 0 <= i < t && S.trace[..t][i] == S.pred[x];
        assert S.trace[i] == S.pred[x];
      } else {
        var i :| 0 <= i < |S.q| && S.q[i] == x;
      }
    }
  }

  /** The relaxation loop over the first `k` neighbours of the last extracted vertex keeps what holds whatever the weights. */
  lemma {:induction false} RelaxFromSound(G: Topology, s: int, S: State, u: nat, k: nat)
    requires Sound(G, s, S, 0) && |S.trace| > 0 && u == S.trace[|S.trace| - 1] && k <= |G.adj[u]|
    ensures Sound(G, s, RelaxFrom(G, S, u, k), k)
    decreases k
  {
    if k > 0 {
      RelaxFromSound(G, s, S, u, k - 1);
      RelaxSound(G, s, RelaxFrom(G, S, u, k - 1), u, k);
    }
  }

  /** Neighbour `v` is among the first `k` of `u`, and `dist[u]` plus the edge is strictly below `dist[v]`. */
  ghost predicate Improves(G: Topology, S: State, u: nat, v: nat, k: nat)
    requires G.WellFormed() && u < G.Size() && v < G.Size() && k <= |G.adj[u]| && |S.dist| == G.Size()
  {
    v in G.adj[u][..k] && Below(Plus(S.dist[u], EdgeWeight(G, u, v)), S.dist[v])
  }

  /**
   * `R` is `S` in which every one of the first `k` neighbours of `u` that `S` lets `u` improve
   * has distance `dist[u]` plus the edge and predecessor `u`, and nothing else differs.
   */
  ghost predicate RelaxedAll(G: Topology, S: State, R: State, u: nat, k: nat)
    requires G.WellFormed() && u < G.Size() && k <= |G.adj[u]| && |S.dist| == G.Size() && |S.pred| == G.Size()
  {
    && R.q == S.q && R.trace == S.trace && |R.dist| == G.Size() && |R.pred| == G.Size()
    && forall v :: 0 <= v < G.Size() ==>
         if Improves(G, S, u, v, k) then R.dist[v] == Plus(S.dist[u], EdgeWeight(G, u, v)) && R.pred[v] == u
         else R.dist[v] == S.dist[v] && R.pred[v] == S.pred[v]
  }

  /**
   * With non-negative weights one more turn of the relaxation loop extends the simultaneous update
   * by neighbour `k`: `dist[u]` itself never changes, and a neighbour listed twice is improved at most once.
   */
  lemma RelaxedAllNext(G: Topology, S: State, R: State, u: nat, k: nat)
    requires NonNegative(G) && u < G.Size() && k < |G.adj[u]|
    requires |S.dist| == G.Size() && |S.pred| == G.Size() && RelaxedAll(G, S, R, u, k)
    ensures RelaxedAll(G, S, RelaxStep(G, R, u, G.adj[u][k]), u, k + 1)
  {
    var x := G.adj[u][k];
    assert R.dist[u] == S.dist[u];
    assert G.adj[u][..k + 1] == G.adj[u][..k] + [x];
    var R' := RelaxStep(G, R, u, x);
    forall v | 0 <= v < G.Size()
      ensures if Improves(G, S, u, v, k + 1) then R'.dist[v] == Plus(S.dist[u], EdgeWeight(G, u, v)) && R'.pred[v] == u
              else R'.dist[v] == S.dist[v] && R'.pred[v] == S.pred[v]
    {
      if v != x {
        assert v in G.adj[u][..k + 1] <==> v in G.adj[u][..k];
      }
    }
  }

  /** With non-negative weights the turns of the relaxation loop amount to one simultaneous update. */
  lemma {:induction false} RelaxFromAll(G: Topology, S: State, u: nat, k: nat)
    requires NonNegative(G) && u < G.Size() && k <= |G.adj[u]|
    requires |S.dist| == G.Size() && |S.pred| == G.Size()
    ensures RelaxedAll(G, S, RelaxFrom(G, S, u, k), u, k)
    decreases k
  {
    if k > 0 {
      var j := k - 1;
      RelaxFromAll(G, S, u, j);
      RelaxFromNext(G, S, u, j);
      RelaxedAllNext(G, S, RelaxFrom(G, S, u, j), u, j);
    }
  }

  /** With non-negative weights no vertex the loop improves is `s` or already extracted. */
  lemma ImprovedQueued(G: Topology, s: int, S: State, u: nat, k: nat)
    requires NonNegative(G) && Sound(G, s, S, 0) && Settled(G, s, S) && S.dist[s] == Fin(0.0)
    requires u < G.Size() && k <= |G.adj[u]|
    ensures forall v :: 0 <= v < G.Size() && Improves(G, S, u, v, k) ==> v != s && v !in S.trace
  {
    forall v | 0 <= v < G.Size() && Improves(G, S, u, v, k)
      ensures v != s && v !in S.trace
    {
      assert v in G.adj[u] && S.dist[u].Fin?;
      ImprovesOnlyQueued(G, s, S, u, v);
    }
  }

  lemma AllShaped(G: Topology, S: State, R: State, u: nat, k: nat)
    requires Shaped(G, S) && u < G.Size() && k <= |G.adj[u]| && RelaxedAll(G, S, R, u, k)
    ensures Shaped(G, R)
  {
    forall v | 0 <= v < G.Size()
      ensures -1 <= R.pred[v] < G.Size()
    {
      if Improves(G, S, u, v, k) {
      }
    }
  }

  lemma AllSettled(G: Topology, s: int, S: State, R: State, u: nat, k: nat)
    requires Shaped(G, S) && Shaped(G, R) && Settled(G, s, S) && u < G.Size() && k <= |G.adj[u]|
    requires RelaxedAll(G, S, R, u, k)
    requires forall v :: 0 <= v < G.Size() && Improves(G, S, u, v, k) ==> v !in S.trace
    ensures Settled(G, s, R)
  {
    forall j | 0 <= j < |R.trace| && R.dist[R.trace[j]].Fin?
      ensures LowerBound(G, s, R.trace[j], R.dist[R.trace[j]].r)
    {
      assert !Improves(G, S, u, S.trace[j], k);
    }
  }

  lemma AllRelaxed(G: Topology, S: State, R: State, u: nat, k: nat)
    requires Shaped(G, S) && Shaped(G, R) && Relaxed(G, S, 0)
    requires |S.trace| > 0 && u == S.trace[|S.trace| - 1] && k <= |G.adj[u]|
    requires RelaxedAll(G, S, R, u, k)
    requires forall v :: 0 <= v < G.Size() && Improves(G, S, u, v, k) ==> v !in S.trace
    ensures Relaxed(G, R, k)
  {
    forall j, m | 0 <= j < |R.trace| && 0 <= m < |G.adj[R.trace[j]]| && IsDone(R, j, m, k)
      ensures AtMost(R.dist[G.adj[R.trace[j]][m]],
                     Plus(R.dist[R.trace[j]], EdgeWeight(G, R.trace[j], G.adj[R.trace[j]][m])))
    {
      var x := S.trace[j];
      var y := G.adj[x][m];
      assert !Improves(G, S, u, x, k);
      assert AtMost(R.dist[y], S.dist[y]) by {
        if Improves(G, S, u, y, k) {
        }
      }
      if j < |S.trace| - 1 {
        assert IsDone(S, j, m, 0);
      } else {
        assert y in G.adj[u][..k];
      }
    }
  }

  lemma AllPreds(G: Topology, s: int, S: State, R: State, u: nat, k: nat)
    requires Shaped(G, S) && Shaped(G, R) && 0 <= s < G.Size() && S.pred[s] == -1
    requires PredsBefore(s, S) && PredsExtracted(S) && u in S.trace && k <= |G.adj[u]|
    requires RelaxedAll(G, S, R, u, k)
    requires forall v :: 0 <= v < G.Size() && Improves(G, S, u, v, k) ==> v != s && v !in S.trace
    ensures R.pred[s] == -1 && PredsBefore(s, R) && PredsExtracted(R)
  {
    forall j | 0 <= j < |R.trace| && R.trace[j] != s
      ensures 0 <= R.trace[j] < |R.pred| && R.pred[R.trace[j]] in R.trace[..j]
    {
      assert !Improves(G, S, u, S.trace[j], k);
    }
    forall i | 0 <= i < |R.q| && 0 <= R.q[i] < |R.pred| && R.pred[R.q[i]] >= 0
      ensures R.pred[R.q[i]] in R.trace
    {
      if !Improves(G, S, u, S.q[i], k) {
      }
    }
  }

  lemma AllPredTight(G: Topology, S: State, R: State, u: nat, k: nat)
    requires Shaped(G, S) && Shaped(G, R) && PredTight(G, S) && u in S.trace && k <= |G.adj[u]|
    requires forall x :: 0 <= x < G.Size() && S.pred[x] >= 0 ==> S.pred[x] in S.trace
    requires RelaxedAll(G, S, R, u, k)
    requires forall v :: 0 <= v < G.Size() && Improves(G, S, u, v, k) ==> v !in S.trace
    ensures PredTight(G, R)
  {
    assert !Improves(G, S, u, u, k);
    forall x | 0 <= x < G.Size() && R.pred[x] >= 0
      ensures x in G.adj[R.pred[x]] && R.dist[x] == Plus(R.dist[R.pred[x]], EdgeWeight(G, R.pred[x], x))
    {
      if Improves(G, S, u, x, k) {
        assert x in G.adj[u];
      } else {
        assert !Improves(G, S, u, S.pred[x], k);
      }
    }
  }

  /** With non-negative weights the whole relaxation loop over `u`'s first `k` neighbours keeps `Optimal`. */
  lemma RelaxFromOptimal(G: Topology, s: int, S: State, u: nat, k: nat)
    requires NonNegative(G) && Sound(G, s, S, 0) && Optimal(G, s, S, 0)
    requires |S.trace| > 0 && u == S.trace[|S.trace| - 1] && k <= |G.adj[u]|
    ensures Shaped(G, RelaxFrom(G, S, u, k)) && Optimal(G, s, RelaxFrom(G, S, u, k), k)
  {
    var R := RelaxFrom(G, S, u, k);
    RelaxFromAll(G, S, u, k);
    ImprovedQueued(G, s, S, u, k);
    PredsInTrace(G, s, S);
    AllShaped(G, S, R, u, k);
    AllSettled(G, s, S, R, u, k);
    AllRelaxed(G, S, R, u, k);
    AllPreds(G, s, S, R, u, k);
    AllPredTight(G, S, R, u, k);
  }

  /**
   * When every vertex left in `q` is at distance infinity and the last extracted vertex is fully
   * relaxed, no walk from `s` reaches a vertex of `q`: this is when `findMin` returns `null`.
   */
  lemma UnreachableWhenStuck(G: Topology, s: int, S: State, done: nat, e: int)
    requires Sound(G, s, S, done)
    requires S.trace == [] || done == |G.adj[S.trace[|S.trace| - 1]]|
    requires forall i :: 0 <= i < |S.q| ==> S.dist[S.q[i]].Inf?
    requires e in S.q
    ensures !Reachable(G, s, e)
  {
    if p :| IsWalkFromTo(G, p, s, e) {
      var j := FirstIn(p, S.q);
      var y := p[j];
      var iy :| 0 <= iy < |S.q| && S.q[iy] == y;
      if j > 0 {
        var x := p[j - 1];
        var t :| 0 <= t < |S.trace| && S.trace[t] == x;
        assert y in G.adj[x];
        var m :| 0 <= m < |G.adj[x]| && G.adj[x][m] == y;
        assert IsDone(S, t, m, done);
      }
    }
  }

  /** The distance of an extracted vertex is the cost of some walk to it, and with non-negative edges the least one. */
  lemma ExtractedIsShortest(G: Topology, s: int, S: State, done: nat, e: int)
    requires Sound(G, s, S, done) && e in S.trace
    ensures S.dist[e].Fin? && Witnessed(G, s, e, S.dist[e].r) && Reachable(G, s, e)
    ensures NonNegative(G) && Optimal(G, s, S, done) ==> IsShortest(G, s, e, S.dist[e].r)
  {
    var t :| 0 <= t < |S.trace| && S.trace[t] == e;
    assert S.dist[S.trace[t]].Fin?;
    assert Witnessed(G, s, e, S.dist[e].r);
  }

  /** The predecessors of an extracted vertex lead back to `s` within `fuel` steps when `fuel` is at least its position. */
  lemma {:induction false} ChainFromTrace(s: int, S: State, j: nat, fuel: nat)
    requires PredsInRange(S.pred) && PredsBefore(s, S)
    requires forall i :: 0 <= i < |S.trace| ==> 0 <= S.trace[i] < |S.pred|
    requires j < |S.trace| && j <= fuel
    ensures Chain(S.pred, S.trace[j], s, fuel).Ok?
    decreases j
  {
    var v := S.trace[j];
    if v != s {
      assert 0 <= v < |S.pred| && S.pred[v] in S.trace[..j];
      var i :| 0 <= i < j && S.trace[..j][i] == S.pred[v];
      assert S.trace[i] == S.pred[v] && S.pred[v] >= 0;
      ChainFromTrace(s, S, i, fuel - 1);
      assert Chain(S.pred, v, s, fuel) == Prepend([v], Chain(S.pred, S.pred[v], s, fuel - 1));
    }
  }

  /** `retrievePath` with as many steps as there are vertices finds the walk back from every extracted vertex. */
  lemma ExtractedChain(G: Topology, s: int, S: State, e: int)
    requires Shaped(G, S) && PredsBefore(s, S) && e in S.trace
    ensures PredsInRange(S.pred) && 0 <= e < |S.pred| && Chain(S.pred, e, s, G.Size()).Ok?
  {
    var t :| 0 <= t < |S.trace| && S.trace[t] == e;
    DistinctBound(S.trace, G.Size());
    ChainFromTrace(s, S, t, G.Size());
  }

  /**
   * The invariant of the main loop of `searchPath`: `done` neighbours of the last extracted vertex
   * are relaxed, which is all of them between turns; before the first turn only `s` has a finite
   * distance, and `s` is the first vertex extracted.
   */
  ghost predicate Invariant(G: Topology, s: int, S: State, done: nat)
  {
    && Sound(G, s, S, done)
    && (S.trace == [] || done == |G.adj[S.trace[|S.trace| - 1]]|)
    && (S.trace == [] ==> forall v :: 0 <= v < G.Size() && v != s ==> S.dist[v].Inf?)
    && (S.trace != [] ==> S.trace[0] == s)
    && (NonNegative(G) ==> Optimal(G, s, S, done))
  }

  /** Sizes, and the queued and extracted ids are vertices: what a turn of the main loop needs. */
  ghost predicate Sized(G: Topology, S: State)
  {
    && G.WellFormed() && |S.dist| == G.Size() && |S.pred| == G.Size()
    && (forall i :: 0 <= i < |S.q| ==> 0 <= S.q[i] < G.Size())
    && (forall i :: 0 <= i < |S.trace| ==> 0 <= S.trace[i] < G.Size())
  }

  /** One turn of the main loop: extract `q[k]`, then relax all of its neighbours in list order. */
  function Turn(G: Topology, S: State, k: nat): State
    requires Sized(G, S) && k < |S.q|
  {
    RelaxFrom(G, Extract(S, k), S.q[k], |G.adj[S.q[k]]|)
  }

  /** The initial state satisfies the invariant. */
  lemma InitInvariant(G: Topology, s: nat)
    requires G.WellFormed() && s < G.Size()
    ensures Invariant(G, s, Init(G.Size(), s), 0)
  {
    InitSound(G, s);
  }

  /** A turn that extracts the first minimum of `q` keeps the invariant, with every neighbour relaxed. */
  lemma TurnKeeps(G: Topology, s: int, S: State, done: nat, k: nat)
    requires Invariant(G, s, S, done) && IsFirstMin(QDist(S), k)
    ensures Invariant(G, s, Turn(G, S, k), |G.adj[S.q[k]]|)
  {
    var u := S.q[k];
    var E := Extract(S, k);
    ExtractSound(G, s, S, k, done);
    RelaxFromSound(G, s, E, u, |G.adj[u]|);
    if NonNegative(G) {
      ExtractOptimal(G, s, S, k, done);
      RelaxFromOptimal(G, s, E, u, |G.adj[u]|);
    }
    if S.trace == [] {
      assert S.dist[u].Fin?;
    }
  }

  /**
   * The main loop stopped with `e` extracted in its last turn: `e`'s distance is the cost of a walk
   * from `s`, the least one and traced back by the predecessors when no weight is negative; the
   * extracted vertices are distinct and start with `s`.
   */
  lemma Finished(G: Topology, s: int, S: State, done: nat, e: int)
    requires Invariant(G, s, S, done) && e in S.trace && S.trace[|S.trace| - 1] == e
    ensures 0 <= e < G.Size() && S.dist[e].Fin? && Witnessed(G, s, e, S.dist[e].r) && Reachable(G, s, e)
    ensures NonNegative(G) ==> IsShortest(G, s, e, S.dist[e].r)
    ensures NonNegative(G) ==> PredsInRange(S.pred) && Chain(S.pred, e, s, G.Size()).Ok?
    ensures S.trace[0] == s && Distinct(S.trace) && forall i :: 0 <= i < |S.trace| ==> 0 <= S.trace[i] < G.Size()
  {
    ExtractedIsShortest(G, s, S, done, e);
    if NonNegative(G) {
      ExtractedChain(G, s, S, e);
    }
  }

  /** How many neighbours of the last extracted vertex a state between turns has relaxed: all of them. */
  function Done(G: Topology, S: State): nat
    requires Shaped(G, S)
  {
    if S.trace == [] then 0 else |G.adj[S.trace[|S.trace| - 1]]|
  }

  /** A turn keeps sizes and ranges, and moves one id from `q` to `trace`. */
  lemma TurnSized(G: Topology, S: State, k: nat)
    requires Sized(G, S) && k < |S.q|
    ensures Sized(G, Turn(G, S, k)) && |Turn(G, S, k).trace| == |S.trace| + 1
  {
    var q := S.q[..k] + S.q[k + 1..];
    assert forall i :: 0 <= i < |q| ==> q[i] == if i < k then S.q[i] else S.q[i + 1];
  }

  /**
   * One turn of the main loop of `searchPath`: extract the first minimum of `q` and relax its
   * neighbours; when `findMin` finds nothing the state stays.
   */
  function Next(G: Topology, S: State): (S': State)
    requires Sized(G, S)
    ensures Sized(G, S')
  {
    var k := FirstMin(QDist(S));
    if k == -1 then S
    else
      TurnSized(G, S, k);
      Turn(G, S, k)
  }

  /** The state of the main loop of `searchPath` after `n` turns from `s`. */
  ghost function Turns(G: Topology, s: int, n: nat): (S: State)
    requires G.WellFormed() && 0 <= s < G.Size()
    ensures Sized(G, S)
  {
    if n == 0 then Init(G.Size(), s) else Next(G, Turns(G, s, n - 1))
  }

  /** The invariant of the main loop between turns, when all neighbours of the last extracted vertex are relaxed. */
  ghost predicate Between(G: Topology, s: int, S: State)
  {
    Shaped(G, S) && Invariant(G, s, S, Done(G, S))
  }

  /** A turn keeps the invariant between turns. */
  lemma NextKeeps(G: Topology, s: int, S: State)
    requires Sized(G, S)
    ensures Between(G, s, S) ==> Between(G, s, Next(G, S))
  {
    var k := FirstMin(QDist(S));
    if Between(G, s, S) && k != -1 {
      TurnKeeps(G, s, S, Done(G, S), k);
      assert Turn(G, S, k).trace == S.trace + [S.q[k]];
    }
  }

  /**
   * Every state of `Turns` satisfies the invariant of the main loop (the predicate is compared
   * with `true` so that it is proved as a whole rather than conjunct by conjunct).
   */
  lemma {:induction false} TurnsInvariant(G: Topology, s: int, n: nat)
    requires G.WellFormed() && 0 <= s < G.Size()
    ensures Between(G, s, Turns(G, s, n)) == true
  {
    if n == 0 {
      InitInvariant(G, s);
    } else {
      TurnsInvariant(G, s, n - 1);
      TurnsKeep(G, s, n - 1);
    }
  }

  /** The turn after `n` turns keeps the invariant between turns. */
  lemma TurnsKeep(G: Topology, s: int, n: nat)
    requires G.WellFormed() && 0 <= s < G.Size()
    ensures Between(G, s, Turns(G, s, n)) ==> Between(G, s, Turns(G, s, n + 1))
  {
    NextKeeps(G, s, Turns(G, s, n));
  }

  /** Every state of `Turns` has consistent sizes and ranges, each vertex queued or extracted once. */
  lemma TurnsShaped(G: Topology, s: int, n: nat)
    requires G.WellFormed() && 0 <= s < G.Size()
    ensures Shaped(G, Turns(G, s, n))
  {
    TurnsInvariant(G, s, n);
  }

  /** No vertex is queued twice. */
  lemma TurnsDistinct(G: Topology, s: int, n: nat)
    requires G.WellFormed() && 0 <= s < G.Size()
    ensures Distinct(Turns(G, s, n).q)
  {
    TurnsShaped(G, s, n);
  }

  /** A vertex still queued has not been extracted. */
  lemma TurnsQueued(G: Topology, s: int, n: nat, S: State, v: int)
    requires G.WellFormed() && 0 <= s < G.Size() && S == Turns(G, s, n) && v in S.q
    ensures v !in S.trace
  {
    TurnsShaped(G, s, n);
  }

  /** A vertex no longer queued has been extracted. */
  lemma TurnsExtracted(G: Topology, s: int, n: nat, S: State, v: int)
    requires G.WellFormed() && 0 <= s < G.Size() && S == Turns(G, s, n) && 0 <= v < G.Size() && v !in S.q
    ensures v in S.trace
  {
    TurnsShaped(G, s, n);
  }

  /** A turn of the loop that extracts the first minimum `k` of `q` is the next of `Turns`. */
  lemma TurnsNext(G: Topology, s: int, n: nat, k: nat)
    requires G.WellFormed() && 0 <= s < G.Size()
    requires IsFirstMin(QDist(Turns(G, s, n)), k)
    ensures Turns(G, s, n + 1) == Turn(G, Turns(G, s, n), k)
    ensures |Turns(G, s, n + 1).trace| == |Turns(G, s, n).trace| + 1
  {
    FirstMinUnique(QDist(Turns(G, s, n)), k, FirstMin(QDist(Turns(G, s, n))));
    TurnSized(G, Turns(G, s, n), k);
  }

  /** When every queued vertex has an infinite distance, no queued vertex is reachable from `s`. */
  lemma TurnsStuck(G: Topology, s: int, n: nat, S: State, e: int)
    requires G.WellFormed() && 0 <= s < G.Size() && S == Turns(G, s, n)
    requires forall i :: 0 <= i < |S.q| ==> S.dist[S.q[i]].Inf?
    requires e in S.q
    ensures !Reachable(G, s, e)
  {
    TurnsInvariant(G, s, n);
    UnreachableWhenStuck(G, s, S, Done(G, S), e);
  }

  /**
   * When the last turn extracted `e`, `e`'s distance is the cost of a walk from `s`, the least one
   * and traced back by the predecessors when no weight is negative.
   */
  lemma TurnsFinished(G: Topology, s: int, n: nat, S: State, e: int)
    requires G.WellFormed() && 0 <= s < G.Size() && S == Turns(G, s, n)
    requires e in S.trace && S.trace[|S.trace| - 1] == e
    ensures 0 <= e < G.Size() && S.dist[e].Fin? && Witnessed(G, s, e, S.dist[e].r) && Reachable(G, s, e)
    ensures NonNegative(G) ==> IsShortest(G, s, e, S.dist[e].r)
    ensures NonNegative(G) ==> PredsInRange(S.pred) && Chain(S.pred, e, s, G.Size()).Ok?
    ensures S.trace[0] == s && Distinct(S.trace) && forall i :: 0 <= i < |S.trace| ==> 0 <= S.trace[i] < G.Size()
  {
    TurnsInvariant(G, s, n);
    Finished(G, s, S, Done(G, S), e);
  }
}
