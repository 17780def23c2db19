# Dijkstra / A* grid mapper — a Dafny model

This project models the core of a Java program that reads a map into a grid-shaped weighted graph
and searches it for a shortest path:

- `WeightedGraph` and its `Vertex` objects: an id, a type with a weight, neighbour lists and
  diagonal-neighbour lists, a distance from the source and a predecessor.
- The four A* heuristics: Euclidean, Manhattan, Chebyshev and octile.
- `PathFinderInstance`, with its `delays` trace, its `path` and `retrievePath`.
- The two searches:
  - `DijkstraInstance`, with a queue `Q` and `findMin`;
  - `AStarInstance`, with the `open` list, the f-scores and `findMinF`.
- The two readers that build the graph:
  - `GraphFileReader` reads a map configuration file, line by line, into an 8-connected grid;
  - `GraphImageReader` turns an image's pixels into a 4-connected grid and picks the first and
    last pixels as the ends.
- The launcher's option handling:
  - the `MapArgument` and `PathFinderArgument` enumerations;
  - `Field.Type.of`;
  - the heuristic, time and point fields and their validity checks;
  - `Configuration` with its defaults.

How each part is modelled:

- Parts that change state are imperative Dafny:
  - vertices, graphs, readers, path finders and the configuration are classes whose methods
    update fields;
  - each Java loop is a `while` loop with its invariants.
- Each search method is proved against a functional specification:
  - `DijkstraSpec.Turns` and `AStarSpec.Turns` give the state after `n` turns of the main loop;
  - the search is proved to mirror them;
  - lemmas state what those states guarantee: optimality for Dijkstra with non-negative edges,
    and soundness and unreachability for both searches.
- The file reader is proved against parsing functions over the file's lines (`FileFormat`).
  `FileWriting` proves that they read back every well-formed map they are given.
- The pure parts (heuristics, fields, enumerations) are functions and lemmas.

Representation choices:

- Distances are reals extended with infinity (`Doubles.Dist`).
- `Math.sqrt(2)`, the diagonal factor and octile's coefficient, is the constant `Doubles.SQRT2`, 1.4142135623730951 (the double Java prints).
- The Euclidean heuristic's `Math.sqrt` is a parameter; lemmas about it assume a true square root.
- Java `int` arithmetic is written out where it can wrap:
  - the sum of two vertex weights;
  - the point index `x * columns + y`;
  - `Integer.parseInt`.
- Java's truncating `/` and `%` are written out where the operands can be negative.

`DEFAULT_DELAY` carries the bounds 0 to 10 000, while the launcher's help text and its parsing of
`--delay` use 60 000. The model follows `Configuration.java`.

## Model

| member | source | states |
|---|---|---|
| Graph.Vertex.constructor | src/main/model/WeightedGraph.java:33-38 | A new vertex has the given id and type, empty neighbour and diagonal-neighbour lists, distance 0.0 and no predecessor (Java's field defaults). |
| Graph.Vertex.AddNeighbor | src/main/model/WeightedGraph.java:46-49 | Appends the neighbour to `neighbors`, and to `diagonalNeighbors` exactly when `isDiagonal`. Distance and predecessor are unchanged. The diagonal list stays a subsequence of the neighbours. |
| Graph.Vertex.SetTimeFromSource | src/main/model/WeightedGraph.java:77-79 | Sets the distance and nothing else. |
| Graph.Vertex.SetPrevious | src/main/model/WeightedGraph.java:100-102 | Sets the predecessor and nothing else. |
| Graph.WeightedGraph.constructor | src/main/model/WeightedGraph.java:127-129 | A new graph has no vertices and is valid. |
| Graph.WeightedGraph.AddVertex | src/main/model/WeightedGraph.java:136-139 | Appends exactly one fresh vertex whose id is the previous vertex count, with the given type, no neighbours and no predecessor. Earlier vertices are unchanged, and `vertices[i].n == i` keeps holding. |
| Graph.IdsOf | src/main/model/WeightedGraph.java:54-56 | The `getN` of each vertex of a list, position by position. |
| Graph.TypesOf | src/main/model/WeightedGraph.java:61-63 | The `getType` of each vertex of a list, position by position. |
| Graph.Times | src/main/model/WeightedGraph.java:68-70 | The `getTimeFromSource` of each vertex of a list, position by position. |
| Graph.NeighborIds | src/main/model/WeightedGraph.java:84-86 | Entry `i` is the list of ids of vertex `i`'s `getNeighbors`. |
| Graph.DiagonalIds | src/main/model/WeightedGraph.java:107 | Entry `i` is the list of ids of vertex `i`'s `getDiagonalNeighbors`. |
| Graph.PredIds | src/main/model/WeightedGraph.java:91-93 | Entry `i` is the id of vertex `i`'s `getPrevious`, or -1 for `null`. |
| Graph.WeightedGraph.ModelsWellFormed | src/main/model/WeightedGraph.java:144-146 | In a valid graph, every neighbour and diagonal-neighbour id names a vertex of the graph. |
| Graph.WeightedGraph.PredsLink | src/main/model/WeightedGraph.java:91-93 | Predecessor id -1 means `previous == null`; any other id names the predecessor vertex. |
| Heuristics.Manhattan | src/main/instances/Heuristic.java:43-45 | Non-negative, and 0 exactly when the two points coincide. |
| Heuristics.Chebyshev | src/main/instances/Heuristic.java:59-61 | Non-negative, and 0 exactly when the two points coincide. |
| Heuristics.Octile | src/main/instances/Heuristic.java:76-80 | Non-negative, and 0 exactly when the two points coincide. |
| Heuristics.EuclideanRadicand | src/main/instances/Heuristic.java:27-29 | The argument of `Math.sqrt` is the sum of the squared differences. It is non-negative and 0 exactly at the goal. |
| Heuristics.ChebyshevManhattanBounds | src/main/instances/Heuristic.java:43-61 | Chebyshev <= Manhattan <= 2 Chebyshev for all inputs. |
| Heuristics.OctileBetween | src/main/instances/Heuristic.java:76-80 | Octile equals Chebyshev plus (SQRT2 - 1) times min(dx, dy), so it lies between Chebyshev and Manhattan. |
| Heuristics.EuclideanBetween | src/main/instances/Heuristic.java:27-29 | Every non-negative square root of the radicand lies between Chebyshev and Manhattan. |
| Heuristics.EuclideanEstimate | src/main/instances/Heuristic.java:27-29 | With a true square root, the Euclidean estimate is a value `EUCLIDEAN.h` can return: non-negative, and squaring to the radicand. |
| Heuristics.EstimateZeroAtGoal | src/main/instances/Heuristic.java:25-80 | With a true square root, every heuristic is non-negative and is 0 exactly at the goal. |
| Heuristics.EstimateSymmetric | src/main/instances/Heuristic.java:25-80 | Every heuristic is unchanged when the current point and the goal are swapped. |
| Heuristics.EstimateTranslationInvariant | src/main/instances/Heuristic.java:25-80 | Every heuristic depends only on the coordinate differences: shifting both points changes nothing. |
| Heuristics.Estimate | src/main/instances/Heuristic.java:25-80 | `h` of each of the four heuristics. Every one but Euclidean lies between Chebyshev and Manhattan. |
| Heuristics.ManhattanStep | src/main/instances/Heuristic.java:37-45 | Moving to a 4-adjacent cell changes Manhattan by at most 1. |
| Heuristics.ChebyshevStep | src/main/instances/Heuristic.java:53-61 | Moving to an 8-adjacent cell changes Chebyshev by at most 1. |
| Heuristics.GridCoordinates | src/main/instances/AStarInstance.java:40-41 | For an id n >= 0, Java's `n % mapSize` and `n / mapSize` agree with Euclidean division. The column lies in [0, \|mapSize\|) and n = y mapSize + x. |
| PathFinder.PathFinderInstance.constructor | src/main/instances/PathFinderInstance.java:23-27 | A new instance holds the graph, with empty `delays` and empty `path`. |
| PathFinder.PathFinderInstance.RetrievePath | src/main/instances/PathFinderInstance.java:49-58 | Appends only; the old path is kept as its prefix. When the predecessors from `end` reach `start`, the appended part is that chain, from `end` to `start`: each vertex is followed by its `previous`, and `start` appears only last. A missing or cyclic predecessor chain is a failure, and the graph is unchanged. |
| PathFinder.WalkPredecessors | src/main/instances/PathFinderInstance.java:51-57 | The loop of `retrievePath`: the vertices met from `end` on and how the walk ends, which is exactly `Chain` of the predecessor ids. |
| PathFinder.Chain | src/main/instances/PathFinderInstance.java:52-57 | The predecessor walk from `end` to `start` with a step budget: it ends at `start`, or fails at a missing predecessor or when the steps run out. |
| PathFinder.ChainSound | src/main/instances/PathFinderInstance.java:52-57 | A chain found starts at `end` and ends at `start`. Each element's predecessor follows it, and `start` occurs only at the end. |
| PathFinder.ChainComplete | src/main/instances/PathFinderInstance.java:52-57 | Every predecessor chain from `end` to `start` is the one `Chain` finds, given enough steps. |
| PathFinder.ChainStops | src/main/instances/PathFinderInstance.java:52-57 | A failed walk ran out of steps or met a vertex without a predecessor. |
| PathFinder.CycleIffAvoids | src/main/instances/PathFinderInstance.java:52-56 | The walk runs out of steps exactly when it avoids both `start` and missing predecessors. |
| PathFinder.CycleIsForever | src/main/instances/PathFinderInstance.java:52-56 | A walk still short of `start` after as many steps as there are vertices never reaches `start` or a missing predecessor: the Java loop does not terminate. |
| PathFinder.TracesSelf | src/main/instances/PathFinderInstance.java:52-57 | When `start == end` the path is exactly `[start]`. |
| Dijkstra.FindMin | src/main/instances/DijkstraInstance.java:78-89 | Returns the first vertex of `Q` with the strictly least finite time, or `null` exactly when every time in `Q` is infinite. |
| Dijkstra.Initialize | src/main/instances/DijkstraInstance.java:36-41 | Every vertex gets time infinity and no predecessor and is queued in graph order; then `start` gets time 0. This is `DijkstraSpec.Init`. |
| Dijkstra.RelaxNeighbor | src/main/instances/DijkstraInstance.java:53-61 | The vertices mirror `DijkstraSpec.RelaxStep`: on strict improvement the neighbour takes `u`'s time plus the edge weight and `u` as predecessor; otherwise nothing changes. Only the neighbour's time and predecessor may change. |
| Dijkstra.Relax | src/main/instances/DijkstraInstance.java:52-62 | The loop over `u`'s neighbours leaves the vertices holding `DijkstraSpec.RelaxRest` of the state, in list order. |
| Dijkstra.Settle | src/main/instances/DijkstraInstance.java:51-62 | `Q.remove(u)` followed by the relaxation leaves the state of the whole turn. |
| Dijkstra.Round | src/main/instances/DijkstraInstance.java:48-63 | One turn of the main loop is `DijkstraSpec.Next`. A `null` from `findMin` means every queued vertex is at infinity. |
| Dijkstra.Step | src/main/instances/DijkstraInstance.java:44-63 | Each turn either fails with `end` unreachable or leaves the state of `Turns` after one more turn. |
| Dijkstra.MainLoop | src/main/instances/DijkstraInstance.java:44-64 | Ends with `end` extracted in the last turn, or with `findMin` returning `null` while `end` is still queued. The vertices mirror `Turns` after the turns taken. |
| Dijkstra.Search | src/main/instances/DijkstraInstance.java:36-64 | From the initialisation to the end of the loop: `end`'s time is a walk's cost, the least one with non-negative weights, and `delays` records the turns. Failure means `end` is unreachable. |
| Dijkstra.Delays | src/main/instances/DijkstraInstance.java:49 | `delays` maps turn `i` to the vertex extracted at turn `i`. |
| Dijkstra.DelaysFacts | src/main/instances/DijkstraInstance.java:44-51 | When the loop ends with `end` extracted, `delays` maps turns 0..i-1 to distinct vertices. The first is `start` and the last is `end`. |
| Dijkstra.LeftQueue | src/main/instances/DijkstraInstance.java:44-51 | Once `end` has left `Q` it has been extracted, and only in the last turn. |
| Dijkstra.Run | src/main/instances/DijkstraInstance.java:36-64 | The search on the graph's own vertices leaves the graph valid, with the same topology. |
| Dijkstra.Conclude | src/main/instances/DijkstraInstance.java:31-67 | `delays` holds the recorded turns and `path` was cleared first. When `end` was extracted, the path follows the predecessors back from `end`. |
| Dijkstra.DijkstraInstance.constructor | src/main/instances/DijkstraInstance.java:18-20 | A new instance over the graph with empty `delays` and `path`. |
| Dijkstra.DijkstraInstance.SearchPath | src/main/instances/DijkstraInstance.java:30-68 | The result is `Unreachable` exactly when no walk leads from `start` to `end`. Otherwise the returned time is a walk's cost, the least one with non-negative weights. `path` traces `end` back to `start`, `delays` lists distinct vertices from `start` to `end`, and the topology is unchanged. |
| DijkstraSpec.Init | src/main/instances/DijkstraInstance.java:36-41 | The initial state: all vertices queued in order, `start` at 0, everything else at infinity with no predecessor. |
| DijkstraSpec.QDist | src/main/instances/DijkstraInstance.java:78-89 | The times `findMin` scans, in `Q` order. |
| DijkstraSpec.RelaxFrom | src/main/instances/DijkstraInstance.java:52-62 | The first `k` turns of the neighbour loop, in list order. |
| DijkstraSpec.RelaxRest | src/main/instances/DijkstraInstance.java:52-62 | The neighbour loop from neighbour `k` on. |
| DijkstraSpec.RelaxRestFrom | src/main/instances/DijkstraInstance.java:52-62 | Finishing the loop from turn `k` gives what the whole loop gives. |
| DijkstraSpec.RelaxFromAll | src/main/instances/DijkstraInstance.java:52-61 | With non-negative weights the loop is one simultaneous update: each improvable neighbour takes `dist[u] + w` and predecessor `u`, and nothing else changes. |
| DijkstraSpec.RelaxStep | src/main/instances/DijkstraInstance.java:53-61 | One relaxation: `v`'s time ends at most its old time and at most `u`'s time plus the edge weight. Every other vertex keeps its time and predecessor, and the queue and trace are unchanged. |
| DijkstraSpec.ExtractedIsOptimal | src/main/instances/DijkstraInstance.java:48-51 | With non-negative weights, the vertex `findMin` extracts costs no more than any walk from `start` to it. |
| DijkstraSpec.ExtractedIsShortest | src/main/instances/DijkstraInstance.java:44-63 | An extracted vertex's time is the cost of a walk to it, and the least one with non-negative weights. |
| DijkstraSpec.ExtractedChain | src/main/instances/DijkstraInstance.java:66 | `retrievePath` with as many steps as there are vertices finds the walk back from every extracted vertex. |
| DijkstraSpec.UnreachableWhenStuck | src/main/instances/DijkstraInstance.java:78-89 | When every queued vertex is at infinity, no walk from `start` reaches a queued vertex. |
| DijkstraSpec.Next | src/main/instances/DijkstraInstance.java:44-63 | One turn: extract the first minimum of `Q` and relax its neighbours; the state stays when there is none. |
| DijkstraSpec.Turns | src/main/instances/DijkstraInstance.java:44-63 | The state after the initialisation and `n` turns, with one vertex moved from `Q` to the trace per turn. |
| DijkstraSpec.TurnsInvariant | src/main/instances/DijkstraInstance.java:44-63 | Every state of `Turns` satisfies the main-loop invariant: distances witnessed, extracted vertices settled, predecessors tight. |
| DijkstraSpec.TurnsShaped | src/main/instances/DijkstraInstance.java:44-51 | Every vertex is queued or extracted, exactly once. |
| DijkstraSpec.TurnsFinished | src/main/instances/DijkstraInstance.java:44-67 | When the last turn extracted `end`, its time is a walk's cost. With non-negative weights it is the least one, traced back by the predecessors. |
| DijkstraSpec.TurnsStuck | src/main/instances/DijkstraInstance.java:78-89 | When every queued time is infinite, no queued vertex is reachable from `start`. |
| Doubles.FirstMin | src/main/instances/DijkstraInstance.java:78-89 | The position a left-to-right scan with strict `<` selects: finite, no larger than any value, and strictly below every earlier one. It is -1 exactly when all values are infinite. |
| Doubles.FirstMinUnique | src/main/instances/DijkstraInstance.java:78-89 | At most one position is the first minimum. |
| Walks.AddInt32 | src/main/instances/DijkstraInstance.java:56 | Java `int` addition of the two type values, wrapped into [-2^31, 2^31). |
| Walks.EdgeWeight | src/main/instances/DijkstraInstance.java:55-56 | The weight of an edge, as both searches compute it (also `AStarInstance.java` lines 67-68): the wrapped `int` sum of the two type values over 2 or sqrt(2). It is non-negative exactly when that sum is, and zero exactly when that sum is. |
| Walks.EdgeWeightSymmetric | src/main/instances/DijkstraInstance.java:55-56 | An edge weighs the halved sum of the two values (orthogonal) or the sum divided by sqrt(2) (diagonal). The weight is the same both ways when the diagonal flag is. |
| Walks.NonNegativeValues | src/main/instances/DijkstraInstance.java:55-56 | Non-negative type values that do not overflow give non-negative edges. |
| Walks.PrefixCost | src/main/instances/DijkstraInstance.java:55-61 | With non-negative edges, a prefix of a walk costs no more than the walk. |
| AStar.FindMinF | src/main/instances/AStarInstance.java:93-104 | Returns the first vertex of `open` with the strictly least finite f-score, or `null` exactly when every f-score is infinite. |
| AStar.Initialize | src/main/instances/AStarInstance.java:42-51 | `open` is `[start]`. Every vertex gets time and f-score infinity, with predecessors left as they were. Then `start` gets time 0 and its estimate as f-score: `AStarSpec.Init`. |
| AStar.ClearScores | src/main/instances/AStarInstance.java:46-49 | Every vertex gets f-score and time infinity; nothing else changes. |
| AStar.Snapshot | src/main/instances/AStarInstance.java:58-60 | `delays[i]` is a fresh vertex, outside the graph, with the selected vertex's id, type and current predecessor. |
| AStar.Improve | src/main/instances/AStarInstance.java:72-76 | The neighbour takes `u` as predecessor, the tentative time and the f-score, and joins `open` unless it is there already. |
| AStar.RelaxNeighbor | src/main/instances/AStarInstance.java:64-77 | On `tentative < time` the update above happens, with f = tentative + h(neighbour, end). Otherwise nothing changes. This is `AStarSpec.Relax`. |
| AStar.RelaxAll | src/main/instances/AStarInstance.java:63-78 | The loop over `u`'s neighbours leaves `AStarSpec.RelaxRest` of the state. |
| AStar.Settle | src/main/instances/AStarInstance.java:58-78 | The snapshot, `open.remove(u)` and the relaxation leave the state of the whole turn. |
| AStar.Round | src/main/instances/AStarInstance.java:55-79 | One turn is `AStarSpec.Next`. A `null` from `findMinF` means `open` is empty. |
| AStar.Step | src/main/instances/AStarInstance.java:54-79 | Each turn either fails with `end` unreachable or leaves the state of `Turns` after one more turn. |
| AStar.MainLoop | src/main/instances/AStarInstance.java:53-80 | Ends with `end` in `open`, with `findMinF` returning `null`, or after the fuel runs out. The vertices mirror `Turns` after the turns taken. |
| AStar.Delays | src/main/instances/AStarInstance.java:60 | `delays` maps turn `j` to the snapshot taken at turn `j`. |
| AStar.LoopExit | src/main/instances/AStarInstance.java:53-80 | When the loop stops, `delays` is logged. If `end` is in `open`, its time is a walk's cost and, with non-negative edges, the predecessors lead from `end` back to `start`. If `start == end`, no turn was taken and the time is 0. |
| AStar.Search | src/main/instances/AStarInstance.java:42-80 | A passing search leaves `end` with the cost of a walk from `start` and, with non-negative edges, a predecessor chain from `end` to `start`. A failing one does so because `end` is unreachable or the fuel ran out. |
| AStar.Run | src/main/instances/AStarInstance.java:42-80 | The search on the graph's own vertices leaves the graph valid with the same topology. A pass with non-negative edges leaves a predecessor chain from `end` to `start`. |
| AStar.Conclude | src/main/instances/AStarInstance.java:37-83 | `delays` holds the turns and `path` was cleared first. When the loop passed, the path follows the predecessors back from `end`, and with non-negative edges the result is a time, never a broken path. |
| AStar.TraceBack | src/main/instances/AStarInstance.java:82-83 | `retrievePath` then `end`'s time: a returned time comes with `path` tracing `end` back to `start`; the only failure is a broken chain, which cannot happen with non-negative edges; `start == end` gives 0 and `path == [start]`. |
| AStar.SearchOn | src/main/instances/AStarInstance.java:36-84 | `end`'s coordinates come from its id. `mapSize == 0` throws once `delays` and `path` are cleared. With non-negative edges no broken path is reported. |
| AStar.SearchToward | src/main/instances/AStarInstance.java:40-83 | With `mapSize != 0`: never `DivisionByZero`. `Unreachable` only when no walk leads to `end`. A returned time is a walk's cost with `path` tracing `end` back to `start`. `delays` is logged with at most `fuel` turns. With non-negative edges the path is never broken, and `start == end` gives 0. |
| AStar.Explore | src/main/instances/AStarInstance.java:40-80 | The estimates from `end`'s coordinates, then the main loop: the outcomes of `Run` on the graph. |
| AStar.AStarInstance.constructor | src/main/instances/AStarInstance.java:21-25 | A new instance over the graph, with the given map size and heuristic and empty `delays` and `path`. |
| AStar.AStarInstance.SearchPath | src/main/instances/AStarInstance.java:36-84 | Summary of the outcomes: <br>- `DivisionByZero` exactly when `mapSize == 0`. <br>- `Unreachable` only when no walk leads to `end`. <br>- A returned time is a walk's cost, with `path` tracing `end` back to `start`. <br>- `delays` is logged, with at most `fuel` turns. <br>- `start == end` returns 0 with empty `delays` and `path == [start]`. <br>- With non-negative edges the path is never broken (no `null` predecessor, no cycle). <br>- The topology is unchanged. |
| AStar.EstimatesAim | src/main/instances/AStarInstance.java:40-66 | The estimates the neighbour loop computes are `AStarSpec.Estimates` of `end`'s coordinates. |
| AStarSpec.Estimates | src/main/instances/AStarInstance.java:40-66 | `h` from every vertex to `end`, each id decoded with Java's `%` and `/` by `mapSize`. |
| AStarSpec.Init | src/main/instances/AStarInstance.java:42-51 | The initial state: `open` is `[start]`, `start` at time 0 with f = h(start). Everything else is at infinity, with predecessors kept. |
| AStarSpec.Relax | src/main/instances/AStarInstance.java:70-77 | On strict improvement, the neighbour takes predecessor `u`, the tentative time and f = tentative + h, and is appended to `open` unless already there. |
| AStarSpec.Next | src/main/instances/AStarInstance.java:54-79 | One turn selects the first vertex of least f-score; with none finite nothing changes. |
| AStarSpec.SelectTakes | src/main/instances/AStarInstance.java:55-62 | `Select`, taking `open[k]`: it removes exactly that one occurrence from `open` and appends its snapshot, with its predecessor, to the trace. Times, f-scores and predecessors are unchanged. |
| AStarSpec.Turn | src/main/instances/AStarInstance.java:55-79 | The selection followed by the neighbour loop: the trace grows by exactly one snapshot and the state stays sized to the graph. |
| AStarSpec.Turns | src/main/instances/AStarInstance.java:54-79 | The state after the initialisation and `n` turns. |
| AStarSpec.RunningStart | src/main/instances/AStarInstance.java:54 | When `start == end`, the loop takes no turn. |
| AStarSpec.NextKeeps | src/main/instances/AStarInstance.java:54-79 | A turn taken while `end` is not in `open` keeps the invariant. The invariant: `open` holds distinct vertices of finite time; f is time plus estimate; every finite time is a walk's cost; snapshots carry predecessors. |
| AStarSpec.Stuck | src/main/instances/AStarInstance.java:93-104 | When no f-score is finite, `open` is empty and no walk from `start` reaches `end`. |
| AStarSpec.Found | src/main/instances/AStarInstance.java:54-83 | Once `end` is in `open`, its time is the cost of some walk from `start`. |
| AStarSpec.RunningDescends | src/main/instances/AStarInstance.java:54-79 | With non-negative edges, every state of the loop has each finite vertex other than `start` linked to a finite predecessor that is a neighbour, no farther from `start` by the edge weight, and on a tie already closed and selected earlier. |
| AStarSpec.DescendsChain | src/main/instances/PathFinderInstance.java:49-58 | In such a state, `retrievePath` from a finite `end` reaches `start` within as many steps as there are vertices: no `null` predecessor and no cycle. |
| Searches.Reset | src/main/instances/DijkstraInstance.java:31-32 | `delays.clear()` and `path.clear()`: `path` ends empty and `delays` holds only the turns the search then records. The graph keeps its validity, topology and predecessors. |
| Searches.Retrieve | src/main/instances/DijkstraInstance.java:66 | `retrievePath` after a search: the graph stays valid with its topology, and the walk follows the predecessors the search left. |
| Searches.QueueRemove | src/main/instances/DijkstraInstance.java:51 | `Q.remove(u)` for a vertex occurring once removes exactly that position. |
| Searches.WithoutAt | src/main/instances/AStarInstance.java:62 | `List.remove(Object)` drops the first occurrence and closes the gap. |
| Grids.FileLinks | src/main/reader/GraphFileReader.java:64-71 | The eight guarded links of a file cell, in insertion order: down-right, down, down-left, right, left, up-right, up-left, up. |
| Grids.FileLinksExact | src/main/reader/GraphFileReader.java:64-71 | A cell's links are exactly its in-bounds cells at Chebyshev distance 1. Each is flagged diagonal exactly when both coordinates differ. |
| Grids.FileGridNeighbors | src/main/reader/GraphFileReader.java:60-73 | In the file grid, `v` is a neighbour of `u` exactly when their cells are at Chebyshev distance 1, and a diagonal neighbour exactly when, in addition, both coordinates differ. |
| Grids.FileGridSymmetric | src/main/reader/GraphFileReader.java:60-73 | The file grid is symmetric for neighbours and diagonal flags, has no self-loops, and every edge weighs the same both ways. |
| Grids.ImageLinks | src/main/reader/GraphImageReader.java:80-83 | The four guarded links of an image cell, in insertion order: down, right, left, up. None is diagonal. |
| Grids.ImageLinksExact | src/main/reader/GraphImageReader.java:80-83 | A cell's links are exactly its in-bounds cells at Manhattan distance 1, none flagged diagonal. |
| Grids.ImageGridNeighbors | src/main/reader/GraphImageReader.java:76-85 | In the image grid, `v` is a neighbour of `u` exactly when their cells are at Manhattan distance 1, and no neighbour is diagonal. |
| Grids.ImageGridSymmetric | src/main/reader/GraphImageReader.java:76-85 | The image grid is symmetric, without self-loops, and its edges weigh the same both ways. |
| Grids.GridsDistinct | src/main/reader/GraphFileReader.java:60-73 | No vertex of either grid lists a neighbour twice. A file cell has at most 8 neighbours and an image cell at most 4. |
| Grids.CellIdInRange | src/main/reader/GraphFileReader.java:62 | The row-major id `line * columns + col` of a grid cell is below the vertex count. |
| Grids.CellOfId | src/main/reader/GraphFileReader.java:62 | The row and column of a cell are recovered from its id. |
| Grids.CellIdInjective | src/main/reader/GraphFileReader.java:62 | Ids of grid cells are equal only for equal cells. |
| Wiring.ConnectFileCell | src/main/reader/GraphFileReader.java:62-71 | The eight guarded `addNeighbor` calls append, as ids, exactly the cell's `FileLinks`, and the diagonal ones among them to the diagonal list. |
| Wiring.ConnectImageCell | src/main/reader/GraphImageReader.java:78-83 | The four guarded `addNeighbor` calls append exactly the cell's `ImageLinks`, and no diagonal neighbour. |
| Wiring.WireCell | src/main/reader/GraphFileReader.java:62-71 | One cell of either reader's loop is wired; the other vertices and all distances and predecessors are unchanged. |
| Wiring.WireRow | src/main/reader/GraphFileReader.java:61-72 | The cells of one row are wired left to right. |
| Wiring.WireRows | src/main/reader/GraphFileReader.java:60-73 | The rows are wired top to bottom. |
| Wiring.WireGrid | src/main/reader/GraphFileReader.java:58-74 | Every cell gets its links' vertices after the neighbours it had, and the diagonal ones as diagonal neighbours. Distances and predecessors are unchanged. |
| WiringState.WiringEnd | src/main/reader/GraphFileReader.java:58-74 | Once every cell is wired, the graph is valid again with its distances and predecessors, and every vertex has its final ids. |
| WiringState.WiredGrid | src/main/reader/GraphImageReader.java:74-86 | Vertices that had no neighbours and now have their cells' links have the file grid's or the image grid's topology. |
| JavaText.ParseInt | src/main/reader/GraphFileReader.java:89 | `Integer.parseInt` on ASCII text: an optional sign and at least one ASCII digit `0`-`9`, with a value within Java `int`. Anything else is `None`, standing for `NumberFormatException` (digits of other scripts: see Left out). |
| JavaText.ParseIntToString | src/main/reader/GraphFileReader.java:89 | Every Java `int` printed in decimal parses back to itself. |
| JavaText.ParseIntRejects | src/main/reader/GraphFileReader.java:89 | Empty text, a lone sign, and a character other than an ASCII digit after the sign do not parse. |
| JavaText.SplitPair | src/main/reader/GraphFileReader.java:83 | `key=value`, with neither part holding `=` and a non-empty value, splits into the two parts. |
| JavaText.SplitTrailing | src/main/reader/GraphFileReader.java:83-87 | `key=` splits into `key` alone, so the value is missing. |
| JavaText.Split | src/main/reader/GraphFileReader.java:83 | `String.split` on one character: no piece holds the separator, and a text without the separator is its own single piece. |
| JavaText.EqualsIgnoreCaseEquivalence | src/main/gui/launcher/Launcher.java:72 | `equalsIgnoreCase` (ASCII case folding here) is reflexive, symmetric and transitive, and identifies a text with its lower-case form. |
| FileFormat.NextLine | src/main/reader/GraphFileReader.java:153 | `nextLine` returns the rest of the current line and moves to the next one; at the end of the input it throws. |
| FileFormat.NextToken | src/main/reader/GraphFileReader.java:140 | `next` skips whitespace (`JavaText.IsWhitespace`: the ASCII whitespace and separators) and reads up to the next whitespace, staying in the token's line; at the end of the input it throws. |
| FileFormat.SkipLines | src/main/reader/GraphFileReader.java:151-156 | `skip(n)` is `n` calls of `nextLine`, failing at the end of the input. |
| FileFormat.KeyValue | src/main/reader/GraphFileReader.java:83-87 | The key before the first `=` must be the expected one, then a value must follow. A value is only found in a line holding `=`, and holds no `=` itself. |
| FileFormat.TypeHeader | src/main/reader/GraphFileReader.java:100-103 | A type line `name=value`: a missing value throws. Both parts come from a line holding `=` and hold no `=`. |
| FileFormat.KeyInt | src/main/reader/GraphFileReader.java:83-89 | From a line: "Incorrect key found" when the key differs, "No value found" when nothing follows `=`, otherwise the parsed value. |
| FileFormat.ReadInt | src/main/reader/GraphFileReader.java:82-90 | `retrieveInt(key)` reads one line and gives `KeyInt` of it. |
| FileFormat.ReadTypes | src/main/reader/GraphFileReader.java:96-112 | Pairs of lines up to `==Graph==`, each defining the type keyed by the first character of its name. A missing value, an empty name or an unparsable weight throws. |
| FileFormat.RowCells | src/main/reader/GraphFileReader.java:141-143 | The types of a row token's characters, in column order. A token shorter than `columns` throws; an undeclared symbol is an error (see below). |
| FileFormat.ReadGrid | src/main/reader/GraphFileReader.java:138-145 | One token per row; the cell types are appended row by row. |
| FileFormat.KeyVertex | src/main/reader/GraphFileReader.java:122-131 | From a `key=x,y` line: the key and value errors of `retrieveInt`, then the index `x * columns + y` in Java `int` arithmetic, which must name a vertex. |
| FileFormat.ReadVertex | src/main/reader/GraphFileReader.java:121-132 | `retrieveVertex` reads one line and gives `KeyVertex` of it. |
| FileFormat.ParseFile | src/main/reader/GraphFileReader.java:40-51 | The sections in order: skip 2, `nlines`, `ncol`, skip 1, types, grid, skip 2, `Start`, `Finish`. The map has `lines * columns` cells and both ends are among them. |
| FileReaders.GraphFileReader.constructor | src/main/reader/GraphFileReader.java:26-29 | A reader at the start of the file with nothing read yet. |
| FileReaders.GraphFileReader.Skip | src/main/reader/GraphFileReader.java:151-156 | The scanner moves as `SkipLines` says, or fails at the end of the file. |
| FileReaders.GraphFileReader.RetrieveInt | src/main/reader/GraphFileReader.java:82-90 | Returns and advances exactly as `ReadInt` says, errors included. |
| FileReaders.GraphFileReader.RetrieveTypes | src/main/reader/GraphFileReader.java:96-112 | Returns and advances exactly as `ReadTypes` says. |
| FileReaders.GraphFileReader.SetVertices | src/main/reader/GraphFileReader.java:138-145 | Appends `lines * columns` vertices, row-major, with the types `ReadGrid` gives. |
| FileReaders.AppendRow | src/main/reader/GraphFileReader.java:141-143 | The inner loop appends one vertex per column with its symbol's type, or fails as `RowCells` does. |
| FileReaders.AppendRows | src/main/reader/GraphFileReader.java:139-144 | The outer loop appends the rows' vertices as `ReadGrid` says. |
| FileReaders.GraphFileReader.SetNeighbors | src/main/reader/GraphFileReader.java:58-74 | Every vertex gets its cell's `FileLinks` after the neighbours it had, and the diagonal ones as diagonal neighbours. |
| FileReaders.GraphFileReader.Connect | src/main/reader/GraphFileReader.java:58-74 | On a grid without neighbours, the graph left is the file grid. |
| FileReaders.GraphFileReader.RetrieveVertex | src/main/reader/GraphFileReader.java:121-132 | Returns the graph's vertex at the index `ReadVertex` gives, or its error. |
| FileReaders.GraphFileReader.Read | src/main/reader/GraphFileReader.java:37-52 | Passes exactly when `ParseFile` does, with its error otherwise. On success: a fresh graph whose vertices have the cell types row by row and the 8-connected topology, and the start and end vertices the file names. |
| FileWriting.ReadWritten | src/main/reader/GraphFileReader.java:37-52 | For every well-formed map, `read` of its rendered file gives back the size, the cells of its rows, and the ids `x * columns + y` of both ends. |
| FileWriting.KeyIntLine | src/main/reader/GraphFileReader.java:82-90 | `retrieveInt(key)` reads `n` back from the line `key=n`. |
| FileWriting.KeyVertexLine | src/main/reader/GraphFileReader.java:121-132 | `retrieveVertex` reads the index `x * columns + y` back from `key=x,y` when that index names a vertex. |
| FileWriting.ReadDeclarations | src/main/reader/GraphFileReader.java:96-112 | `retrieveTypes` goes through written declarations to the line after them, adding each one. |
| FileWriting.CellsWritten | src/main/reader/GraphFileReader.java:138-145 | A map has `lines * columns` cells. Cell `CellId(columns, l, c)` has the type last declared for the symbol in row `l`, column `c`. |
| FileWriting.ReadGridRows | src/main/reader/GraphFileReader.java:138-145 | `setVertices` reads written rows and appends their cells. |
| FileWriting.BodyRead | src/main/reader/GraphFileReader.java:47-51 | After the header, `read` reads the grid, skips two lines and finds the two ends among the cells. |
| ImageReaders.GraphImageReader.constructor | src/main/reader/GraphImageReader.java:24-26 | A reader with nothing read yet. |
| ImageReaders.GraphImageReader.SetVertices | src/main/reader/GraphImageReader.java:55-68 | One vertex per pixel, row by row, with the type its colour decodes to. |
| ImageReaders.AppendRow | src/main/reader/GraphImageReader.java:57-66 | The inner loop appends a row's pixels left to right. |
| ImageReaders.AppendRows | src/main/reader/GraphImageReader.java:56-67 | The outer loop appends the rows top to bottom. |
| ImageReaders.PixelsAt | src/main/reader/GraphImageReader.java:56-57 | Cell `i` is pixel `(i % width, i / width)`. |
| ImageReaders.FirstLastPixels | src/main/reader/GraphImageReader.java:46-47 | The first cell is the top-left pixel and the last is the bottom-right one. |
| ImageReaders.GraphImageReader.SetNeighbors | src/main/reader/GraphImageReader.java:74-86 | Every vertex gets its cell's `ImageLinks` after the neighbours it had, none diagonal. |
| ImageReaders.GraphImageReader.Connect | src/main/reader/GraphImageReader.java:74-86 | On a grid without neighbours, the graph left is the image grid. |
| ImageReaders.GraphImageReader.SetEnds | src/main/reader/GraphImageReader.java:46-47 | `start` is the first vertex and `end` the last. An empty graph throws and leaves both unchanged. |
| ImageReaders.GraphImageReader.Read | src/main/reader/GraphImageReader.java:37-48 | `lines` is the height and `columns` the width. A fresh graph of `lines * columns` pixels has the 4-connected topology, with start vertex 0 and end vertex `lines * columns - 1`. An image without pixels throws. |
| Fields.TypeOf | src/main/gui/launcher/Field.java:74-93 | The option whose flag equals `arg` ignoring case. "unknown option" exactly when no flag matches, then the map-type error, then the path-finder error. |
| Fields.TypeOfArg | src/main/gui/launcher/Field.java:74-93 | An option's flag, in any case, resolves to that option when allowed. Otherwise the map-type check fails first, then the path-finder check. |
| Fields.FlagsDistinct | src/main/gui/launcher/Field.java:23-34 | No two flags are equal ignoring case. |
| Fields.OptionScopes | src/main/gui/launcher/Field.java:23-52 | `--start` and `--end` are image-only and `--heuristic` is A*-only. An option declared without path finders allows both. |
| Fields.OrdinalIndex | src/main/gui/launcher/Field.java:23-34 | `Type.values()` lists every constant at its ordinal. |
| Fields.AutoHeuristicField | src/main/gui/launcher/HeuristicField.java:28-43 | The field holding the automatic heuristic for the map type. |
| Fields.AutoValid | src/main/gui/launcher/HeuristicField.java:28-56 | The automatic heuristic is valid for its map type. |
| Fields.Auto | src/main/gui/launcher/HeuristicField.java:38-43 | The automatic heuristic is Manhattan exactly for images, and Chebyshev for configuration files. |
| Fields.IsValueValid | src/main/gui/launcher/Field.java:148 | `isValueValid` dispatched to the five field kinds; the per-kind rows above and below state each. |
| Fields.HeuristicValidity | src/main/gui/launcher/HeuristicField.java:51-56 | Valid for images exactly when Manhattan, and for configuration files exactly when not Manhattan. No heuristic suits both. |
| Fields.TimeValidity | src/main/gui/launcher/TimeField.java:41-43 | Valid exactly when `min <= value <= max`, with both bounds included. Nothing is valid when `min > max`. |
| Fields.TimeFieldOf | src/main/gui/launcher/TimeField.java:31-33 | The text constructor succeeds exactly when `Integer.parseInt` does, keeping the bounds. |
| Fields.PointValidity | src/main/gui/launcher/PointField.java:24-26 | Valid exactly when the value is not negative. 0 is valid and there is no upper bound. |
| Fields.PointFieldOf | src/main/gui/launcher/PointField.java:14-16 | The constructor succeeds exactly when `Integer.parseInt` does. |
| Fields.ParsedFields | src/main/gui/launcher/TimeField.java:31-33 | On a printed Java `int`, the text constructors agree with the int ones. |
| Configurations.InitDefault | src/main/gui/launcher/Configuration.java:60-73 | Exactly the nine defaulted options, with no entry for start, end or heuristic. |
| Configurations.DefaultsValid | src/main/gui/launcher/Configuration.java:13-21 | The default delay (2000 in [0, 10000]) and timer (10 in [1, 20000]) are valid, and so are the boolean defaults. |
| Configurations.DefaultsAreGeneral | src/main/gui/launcher/Configuration.java:60-73 | Every defaulted option suits every map type and path finder. |
| Configurations.Configuration.constructor | src/main/gui/launcher/Configuration.java:29-31 | A fresh configuration holds exactly the defaults. |
| Configurations.Configuration.Set | src/main/gui/launcher/Configuration.java:40-43 | Afterwards `t` maps to the value, and every other key keeps its presence and value. |
| Configurations.Configuration.Get | src/main/gui/launcher/Configuration.java:51-53 | The entry of `t`, and `None` (Java's `null`) exactly when there is none. |
| Configurations.SetIdempotent | src/main/gui/launcher/Configuration.java:40-43 | Setting twice is setting once, and setting the value already held changes nothing. |
| Launcher.FirstMatch | src/main/gui/launcher/Launcher.java:71-73 | The first constant in declaration order whose name equals the argument ignoring case; `None` exactly when none does. |
| Launcher.MapArgumentOf | src/main/gui/launcher/Launcher.java:70-76 | A map type named by the argument ignoring case, or "unknown map type argument" exactly when none is. |
| Launcher.PathFinderArgumentOf | src/main/gui/launcher/Launcher.java:92-98 | A path finder named by the argument ignoring case, or "unknown pathfinder argument" exactly when none is. |
| Launcher.MapArgumentOfArg | src/main/gui/launcher/Launcher.java:57-76 | `of(t.getArg())`, in any case, is `t` for each map type. |
| Launcher.PathFinderArgumentOfArg | src/main/gui/launcher/Launcher.java:79-98 | `of(t.getArg())`, in any case, is `t` for each path finder. |

## Left out

- PathFinder.PathFinderInstance.RetrievePath: a `null` predecessor makes Java add `null` to the path and then throw. A cyclic chain makes Java loop forever. The model reports both as a failure, the cycle after as many steps as there are vertices (justified by `CycleIsForever`), and does not model the partial path.
- Dijkstra.DijkstraInstance.SearchPath: when `findMin` returns `null`, Java puts `null` into `delays` and then throws. The model returns `Unreachable` and does not state what `delays` holds then.
- AStar.AStarInstance.SearchPath:
  - the main loop is bounded by a `fuel` parameter (`OutOfFuel`). With non-negative edges Java's loop ends on a finite graph, but type values are any `int` read by `parseInt` (`GraphFileReader.java` lines 96-112), and a reachable cycle of negative weight makes every relaxation along it succeed again, so the loop runs forever. The fuel bound stands for that case; termination for non-negative edges is not proved;
  - optimality of the A* result is not proved;
  - `Unreachable` is stated in one direction only.
- JavaText.ParseInt: only ASCII digits `0`-`9` are digits. Java's `Integer.parseInt` accepts every Unicode decimal digit (`"٣"`, U+0663, is 3), which the model rejects. This reaches every value read through it: `FileFormat.KeyInt`, `FileFormat.KeyVertex`, `FileFormat.ReadTypes`, `Fields.TimeFieldOf` and `Fields.PointFieldOf`.
- JavaText.ParseIntRejects: states rejection of a non-ASCII-digit after the sign, which includes the Unicode decimal digits Java accepts.
- FileFormat.NextToken: splits at `JavaText.IsWhitespace`, the ASCII whitespace and U+001C-U+001F. `Scanner` also splits at the other `\p{javaWhitespace}` characters (U+2003, U+3000, U+2028, …), which the model keeps inside a token.
- JavaText.IsWhitespace: ASCII only, for the reason above.
- JavaText.EqualsIgnoreCase: folds ASCII letters only. Java's `equalsIgnoreCase` also matches, for instance, `ı` (U+0131) with `i` and `ſ` (U+017F) with `s`. This reaches `Fields.TypeOf`, `Launcher.MapArgumentOf` and `Launcher.PathFinderArgumentOf`.
- Heuristics.EuclideanEstimate: `Math.sqrt` is a parameter, so only a true square root is covered. IEEE rounding of doubles, `Math.pow` and `Math.sqrt(2)` is not modelled: distances are exact reals.
- The heuristics compute on unbounded integers. The `int` overflow of `vx - ex` for extreme coordinates is not modelled.
- The vertex id `line * columns + col` in `setNeighbors` is taken without `int` overflow, as is the vertex count of huge maps.
- Verbose printing and Dijkstra's progress printout do not affect the state and are left out.
- File and image I/O:
  - the configuration file is a sequence of lines, with `Scanner` behaviour stated by `FileFormat`;
  - `file.exists` and a missing file are not modelled;
  - the image is its height, width and a `pixel` function giving each pixel's type;
  - `ImageIO`, `Color` and the HSB brightness conversion are not modelled, nor a `null` result of `ImageIO.read`.
- FileFormat.RowCells: a grid character with no declared type is reported as `UnknownType` here. Java's `types.get` returns `null` there, so `addVertex` builds a vertex with a `null` type, and the failure comes later, at the first weight lookup of a search. The model does not carry vertices without a type.
- The state a reader is left in after an exception is not stated beyond the error returned.
- `Launcher.init` is not modelled: it prints and calls `System.exit`, calls `PointField`, `TimeField`, `ColorField(type, …)` and `BooleanValueField(type, false)` constructors that the launcher package does not declare (`Launcher.java` lines 127-136), yields `null` for `--heuristic`, and its switch has no `VERBOSE` case.
- `ColorField` validity depends on `Color.decode`, which is the `decodes` parameter. `BooleanValueField` is always valid.
- The Swing window, the map rendering and the animation timer are not modelled.
- `src/main/gui/Field.java` and its siblings, and the older copies under `src/`, do not build against the current classes and are not modelled.
- Getters that return a field and `toString` methods are not modelled.
