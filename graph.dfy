/** Unit-step adjacency of labyrinth cells, graphs as lists of adjacency
    sets with the walks in them, and the graph `to_graph` builds over a
    coordinate list (labyrinth/labyrinth.py, is_adjacent and to_graph). */
module Graph {

  import opened Coordinates

  /** A graph is a list of adjacency sets, indexed by node. */
  type Graph = seq<set<nat>>

  /** Every neighbour is itself a node of the graph. */
  predicate WellFormed(g: Graph) {
    forall u, w :: 0 <= u < |g| && w in g[u] ==> w < |g|
  }

  /** `p` is a walk from `s` to `e` along edges of `g`; it has |p| - 1 edges. */
  ghost predicate IsPath(g: Graph, p: seq<nat>, s: nat, e: nat) {
    && |p| > 0
    && p[0] == s
    && p[|p| - 1] == e
    && (forall k :: 0 <= k < |p| ==> p[k] < |g|)
    && (forall k :: 0 <= k < |p| - 1 ==> p[k + 1] in g[p[k]])
  }

  /** A walk to `v` continues along any edge out of `v`. */
  lemma PathExtend(g: Graph, p: seq<nat>, s: nat, v: nat, u: nat)
    requires IsPath(g, p, s, v) && u in g[v] && u < |g|
    ensures IsPath(g, p + [u], s, u)
  {
    var q := p + [u];
    forall k | 0 <= k < |q| - 1 ensures q[k + 1] in g[q[k]] {
      if k < |p| - 1 {
        assert q[k] == p[k] && q[k + 1] == p[k + 1];
      }
    }
  }

  /** A walk of two or more nodes is a shorter walk plus one last edge. */
  lemma PathPrefix(g: Graph, p: seq<nat>, s: nat, e: nat)
    requires IsPath(g, p, s, e) && |p| > 1
    ensures IsPath(g, p[..|p| - 1], s, p[|p| - 2])
    ensures e in g[p[|p| - 2]]
  {
    assert p[|p| - 1] in g[p[|p| - 2]];
  }

  function Abs(a: int): nat {
    if a < 0 then -a else a
  }

  /** Manhattan distance between two positions. */
  function Manhattan(a: Coord, b: Coord): nat {
    Abs(a.y - b.y) + Abs(a.x - b.x) + Abs(a.z - b.z)
  }

  /** labyrinth/labyrinth.py:78-91: two positions are adjacent when their
      per-axis differences have absolute values summing to exactly 1, that
      is, when `Manhattan(a, b) == 1`. The sum is written out rather than
      through `Manhattan` because the extra function layer makes the proofs
      over concrete graphs much costlier; `AdjacentIsUnitStep` states the
      equality. */
  predicate IsAdjacent(a: Coord, b: Coord) {
    Abs(a.y - b.y) + Abs(a.x - b.x) + Abs(a.z - b.z) == 1
  }

  /** One unit step along exactly one axis, the other two axes equal. */
  predicate UnitStep(a: Coord, b: Coord) {
    || (Abs(a.y - b.y) == 1 && a.x == b.x && a.z == b.z)
    || (a.y == b.y && Abs(a.x - b.x) == 1 && a.z == b.z)
    || (a.y == b.y && a.x == b.x && Abs(a.z - b.z) == 1)
  }

  /** Adjacency is exactly a unit step along one axis: symmetric, irreflexive,
      and never diagonal. */
  lemma AdjacentIsUnitStep(a: Coord, b: Coord)
    ensures IsAdjacent(a, b) <==> UnitStep(a, b)
    ensures IsAdjacent(a, b) <==> IsAdjacent(b, a)
    ensures !IsAdjacent(a, a)
    ensures IsAdjacent(a, b) <==> Manhattan(a, b) == 1
  {
  }

  /** Positions that differ on two or more axes are never adjacent. */
  lemma NoDiagonal(a: Coord, b: Coord)
    requires (a.y != b.y && a.x != b.x) || (a.y != b.y && a.z != b.z) || (a.x != b.x && a.z != b.z)
    ensures !IsAdjacent(a, b)
  {
  }

  /** The graph `to_graph` builds, stated by its meaning: node `i` is
      connected to node `j` exactly when their coordinates are adjacent. */
  ghost predicate IsAdjacencyGraph(coords: seq<Coord>, g: Graph) {
    && |g| == |coords|
    && (forall i :: 0 <= i < |g| ==> forall j: nat :: j in g[i] ==> j < |g|)
    && (forall i, j :: 0 <= i < |g| && 0 <= j < |g| ==> (j in g[i] <==> IsAdjacent(coords[i], coords[j])))
  }

  /** The adjacency graph of a coordinate list, as a function. */
  function AdjacencyGraph(coords: seq<Coord>): (g: Graph)
    ensures IsAdjacencyGraph(coords, g)
  {
    seq(|coords|, i requires 0 <= i < |coords| =>
      set j: nat | j < |coords| && IsAdjacent(coords[i], coords[j]))
  }

  /** One entry of the adjacency relation. */
  lemma AdjacencyEdge(coords: seq<Coord>, g: Graph, i: nat, j: nat)
    requires IsAdjacencyGraph(coords, g) && i < |coords| && j < |coords|
    ensures j in g[i] <==> IsAdjacent(coords[i], coords[j])
  {
  }

  /** Only one graph fits a coordinate list. */
  lemma AdjacencyGraphUnique(coords: seq<Coord>, g1: Graph, g2: Graph)
    requires IsAdjacencyGraph(coords, g1) && IsAdjacencyGraph(coords, g2)
    ensures g1 == g2
  {
    forall i | 0 <= i < |g1| ensures g1[i] == g2[i] {
      forall j | j in g1[i] ensures j in g2[i] {
        assert j < |g1|;
        assert IsAdjacent(coords[i], coords[j]);
      }
      forall j | j in g2[i] ensures j in g1[i] {
        assert j < |g2|;
        assert IsAdjacent(coords[i], coords[j]);
      }
    }
  }

  /** The adjacency graph is undirected and has no self-loops. */
  lemma AdjacencySymmetric(coords: seq<Coord>, g: Graph)
    requires IsAdjacencyGraph(coords, g)
    ensures WellFormed(g)
    ensures forall i, j :: 0 <= i < |g| && 0 <= j < |g| ==> (j in g[i] <==> i in g[j])
    ensures forall i :: 0 <= i < |g| ==> i !in g[i]
  {
    forall i, j | 0 <= i < |g| && 0 <= j < |g| ensures j in g[i] <==> i in g[j] {
      AdjacentIsUnitStep(coords[i], coords[j]);
    }
    forall i | 0 <= i < |g| ensures i !in g[i] {
      AdjacentIsUnitStep(coords[i], coords[i]);
    }
  }

  /** labyrinth/labyrinth.py:94-108: one adjacency set per coordinate, filled
      by comparing every ordered pair `(i, j)`. */
  method ToGraph(coords: seq<Coord>) returns (graph: Graph)
    ensures IsAdjacencyGraph(coords, graph)
  {
    var length := |coords|;
    graph := seq(length, _ => {});
    for i := 0 to length
      invariant |graph| == length
      invariant forall k :: 0 <= k < length ==> forall j: nat :: j in graph[k] ==> j < length
      invariant forall k, j :: 0 <= k < i && 0 <= j < length ==> (j in graph[k] <==> IsAdjacent(coords[k], coords[j]))
      invariant forall k :: i <= k < length ==> graph[k] == {}
    {
      for j := 0 to length
        invariant |graph| == length
        invariant forall k :: 0 <= k < length ==> forall m: nat :: m in graph[k] ==> m < length
        invariant forall k, m :: 0 <= k < i && 0 <= m < length ==> (m in graph[k] <==> IsAdjacent(coords[k], coords[m]))
        invariant forall m :: 0 <= m < length ==> (m in graph[i] <==> m < j && IsAdjacent(coords[i], coords[m]))
        invariant forall k :: i < k < length ==> graph[k] == {}
      {
        if IsAdjacent(coords[i], coords[j]) {
          graph := graph[i := graph[i] + {j}];
        }
      }
    }
  }

  /** Every step along a walk of the adjacency graph changes the Manhattan
      distance to the target by at most one, so a walk from `i` to `j` has at
      least `Manhattan(coords[i], coords[j])` edges. */
  lemma {:induction false} ManhattanLowerBound(coords: seq<Coord>, g: Graph, p: seq<nat>, i: nat, j: nat)
    requires IsAdjacencyGraph(coords, g)
    requires IsPath(g, p, i, j)
    ensures |p| >= Manhattan(coords[i], coords[j]) + 1
    decreases |p|
  {
    if |p| > 1 {
      var k := p[|p| - 2];
      PathPrefix(g, p, i, j);
      ManhattanLowerBound(coords, g, p[..|p| - 1], i, k);
      assert IsAdjacent(coords[k], coords[j]);
      ManhattanTriangle(coords[i], coords[k], coords[j]);
    }
  }

  lemma ManhattanTriangle(a: Coord, b: Coord, c: Coord)
    ensures Manhattan(a, c) <= Manhattan(a, b) + Manhattan(b, c)
  {
  }

  /** A potential on positions that grows by at most one between adjacent
      listed positions bounds every walk from below: a walk from `i` to `j`
      has at least `pot(coords[j]) - pot(coords[i])` edges. */
  lemma {:induction false} PotentialLowerBound(coords: seq<Coord>, g: Graph, pot: Coord -> int,
                                               p: seq<nat>, i: nat, j: nat)
    requires IsAdjacencyGraph(coords, g)
    requires forall k, l :: 0 <= k < |coords| && 0 <= l < |coords| && IsAdjacent(coords[k], coords[l]) ==>
      pot(coords[l]) <= pot(coords[k]) + 1
    requires IsPath(g, p, i, j)
    ensures |p| >= pot(coords[j]) - pot(coords[i]) + 1
    decreases |p|
  {
    if |p| > 1 {
      var k := p[|p| - 2];
      PathPrefix(g, p, i, j);
      PotentialLowerBound(coords, g, pot, p[..|p| - 1], i, k);
      assert IsAdjacent(coords[k], coords[j]);
    }
  }

  /** A walk through listed positions, each step between adjacent positions,
      is a walk of the graph with as many nodes. */
  lemma {:induction false} WalkPath(coords: seq<Coord>, g: Graph, w: seq<Coord>, i: nat, j: nat)
    requires IsAdjacencyGraph(coords, g)
    requires |w| > 0 && i < |coords| && j < |coords| && coords[i] == w[0] && coords[j] == w[|w| - 1]
    requires |w| > 1 || i == j
    requires forall k :: 0 <= k < |w| ==> w[k] in coords
    requires forall k :: 0 <= k < |w| - 1 ==> IsAdjacent(w[k], w[k + 1])
    ensures exists p :: IsPath(g, p, i, j) && |p| == |w|
    decreases |w|
  {
    if |w| == 1 {
      assert IsPath(g, [i], i, j);
    } else {
      var front := w[..|w| - 1];
      var m: nat;
      if |w| == 2 {
        m := i;
      } else {
        assert w[|w| - 2] in coords;
        var k :| 0 <= k < |coords| && coords[k] == w[|w| - 2];
        m := k;
      }
      assert front[|front| - 1] == w[|w| - 2];
      forall k | 0 <= k < |front| ensures front[k] in coords {
        assert front[k] == w[k];
      }
      forall k | 0 <= k < |front| - 1 ensures IsAdjacent(front[k], front[k + 1]) {
        assert front[k] == w[k] && front[k + 1] == w[k + 1];
      }
      WalkPath(coords, g, front, i, m);
      var p :| IsPath(g, p, i, m) && |p| == |front|;
      assert IsAdjacent(w[|w| - 2], w[|w| - 1]);
      assert j in g[m];
      PathExtend(g, p, i, m, j);
    }
  }
}
