/** Unit-weight Dijkstra over a graph given as a list of adjacency sets
    (labyrinth/labyrinth.py, shortest_path). A distance is an `Option<nat>`:
    `None` plays the part of `math.inf`. */
module ShortestPath {

  import opened Wrappers
  import opened Graph

  ghost predicate Reachable(g: Graph, s: nat, e: nat) {
    exists p :: IsPath(g, p, s, e)
  }

  /** No walk from `s` to `e` has fewer than `d` edges. */
  ghost predicate LowerBound(g: Graph, s: nat, e: nat, d: nat) {
    forall p :: IsPath(g, p, s, e) ==> |p| >= d + 1
  }

  /** `d` is the least number of edges on any walk from `s` to `e`. */
  ghost predicate IsDistance(g: Graph, s: nat, e: nat, d: nat) {
    && (exists p :: IsPath(g, p, s, e) && |p| == d + 1)
    && LowerBound(g, s, e, d)
  }

  /** `r` is the correct answer of a shortest-path query: a finite distance
      exactly when `e` is reachable, and then the least number of edges. */
  ghost predicate ShortestDistance(g: Graph, s: nat, e: nat, r: Option<nat>) {
    && (r.None? <==> !Reachable(g, s, e))
    && (r.Some? ==> IsDistance(g, s, e, r.value))
  }

  /** The answer of a shortest-path query is unique. */
  lemma ShortestDistanceUnique(g: Graph, s: nat, e: nat, r1: Option<nat>, r2: Option<nat>)
    requires ShortestDistance(g, s, e, r1) && ShortestDistance(g, s, e, r2)
    ensures r1 == r2
  {
    if r1.Some? && r2.Some? {
      var p1 :| IsPath(g, p1, s, e) && |p1| == r1.value + 1;
      var p2 :| IsPath(g, p2, s, e) && |p2| == r2.value + 1;
      assert |p1| >= r2.value + 1 && |p2| >= r1.value + 1;
    }
  }

  /** Order on distances with `None` as infinity: `a` is strictly smaller than `b`. */
  predicate Less(a: Option<nat>, b: Option<nat>) {
    a.Some? && (b.None? || a.value < b.value)
  }

  /** Python's order on the tuples `(distances[u], u)`: by distance, then by node. */
  predicate TupleLess(da: Option<nat>, a: nat, db: Option<nat>, b: nat) {
    Less(da, db) || (da == db && a < b)
  }

  /** A node without edges reaches nothing but itself. */
  lemma IsolatedUnreachable(g: Graph, s: nat, e: nat)
    requires s < |g| && g[s] == {} && s != e
    ensures !Reachable(g, s, e)
  {
    forall p ensures !IsPath(g, p, s, e) {
      if |p| > 1 {
        assert p[1] !in g[s];
      }
    }
  }

  /** Every visited node has its final distance: a finite one that no walk beats. */
  ghost predicate Settled(g: Graph, s: nat, dist: seq<Option<nat>>, queue: set<nat>) {
    forall u :: 0 <= u < |dist| && u !in queue ==> dist[u].Some? && LowerBound(g, s, u, dist[u].value)
  }

  /** Every visited node has had its edges relaxed. */
  ghost predicate Relaxed(g: Graph, dist: seq<Option<nat>>, queue: set<nat>)
    requires |dist| == |g|
  {
    forall u, w :: 0 <= u < |g| && u !in queue && w in g[u] ==>
      w < |dist| && dist[w].Some? && dist[u].Some? && dist[w].value <= dist[u].value + 1
  }

  /** Any walk from `s` into the queue first enters the queue at a node whose
      recorded distance is no larger than the walk's length up to there. */
  lemma {:induction false} FrontierBound(g: Graph, s: nat, dist: seq<Option<nat>>, queue: set<nat>, p: seq<nat>, u: nat)
    requires |dist| == |g| && s < |g| && dist[s] == Some(0)
    requires Settled(g, s, dist, queue) && Relaxed(g, dist, queue)
    requires IsPath(g, p, s, u) && u in queue
    ensures exists w :: w in queue && w < |dist| && dist[w].Some? && dist[w].value + 1 <= |p|
    decreases |p|
  {
    if |p| == 1 {
      assert u == s;
    } else {
      var q := p[..|p| - 1];
      var prev := p[|p| - 2];
      PathPrefix(g, p, s, u);
      if prev in queue {
        FrontierBound(g, s, dist, queue, q, prev);
      } else {
        assert |q| >= dist[prev].value + 1;
        assert dist[u].value <= dist[prev].value + 1;
      }
    }
  }

  /** The node of least recorded distance in the queue is done: its distance
      cannot be beaten, and when it is infinite nothing left in the queue is
      reachable. */
  lemma QueueMinimum(g: Graph, s: nat, dist: seq<Option<nat>>, queue: set<nat>, v: nat)
    requires |dist| == |g| && s < |g| && dist[s] == Some(0)
    requires Settled(g, s, dist, queue) && Relaxed(g, dist, queue)
    requires v in queue && v < |g|
    requires forall u :: u in queue ==> u < |g| && !Less(dist[u], dist[v])
    ensures dist[v].Some? ==> LowerBound(g, s, v, dist[v].value)
    ensures dist[v].None? ==> forall u :: u in queue ==> !Reachable(g, s, u)
  {
    forall u, p | u in queue && IsPath(g, p, s, u)
      ensures dist[v].Some? && dist[v].value + 1 <= |p|
    {
      FrontierBound(g, s, dist, queue, p, u);
    }
  }

  /** The set `{u for u in range(n)}`: every node of an `n`-node graph. */
  function Nodes(n: nat): (r: set<nat>)
    ensures forall u: nat :: u in r <==> u < n
  {
    if n == 0 then {} else Nodes(n - 1) + {n - 1}
  }

  /** Selection step: the node `v` with the least tuple `(distances[v], v)` over
      the queue, as `min({(distances[u], u) for u in queue})` picks it. */
  method SelectMin(dist: seq<Option<nat>>, queue: set<nat>) returns (d: Option<nat>, v: nat)
    requires queue != {}
    requires forall u :: u in queue ==> u < |dist|
    ensures v in queue && d == dist[v]
    ensures forall u :: u in queue && u != v ==> TupleLess(d, v, dist[u], u)
  {
    ghost var w :| w in queue;
    var found := false;
    d, v := None, 0;
    for i := 0 to |dist|
      invariant found ==> v in queue && v < i && d == dist[v]
      invariant found ==> forall u :: u in queue && u < i && u != v ==> TupleLess(d, v, dist[u], u)
      invariant !found ==> forall u :: u in queue ==> u >= i
    {
      if i in queue && (!found || Less(dist[i], d)) {
        d, v := dist[i], i;
        found := true;
      }
    }
  }

  /** Every finite distance in `dist` has a walk from `start` of that many
      edges in `paths`. */
  ghost predicate Witnessed(g: Graph, start: nat, dist: seq<Option<nat>>, paths: seq<seq<nat>>) {
    && |dist| == |g| && |paths| == |g|
    && forall u :: 0 <= u < |g| && dist[u].Some? ==>
         IsPath(g, paths[u], start, u) && |paths[u]| == dist[u].value + 1
  }

  /** The distances after relaxing the edges from a node to `targets` with
      the candidate distance `alt`: a target whose distance `alt` beats gets
      `alt`, every other node keeps its distance. */
  function RelaxAll(dist: seq<Option<nat>>, targets: set<nat>, alt: nat): seq<Option<nat>> {
    seq(|dist|, u requires 0 <= u < |dist| =>
      if u in targets && Less(Some(alt), dist[u]) then Some(alt) else dist[u])
  }

  /** Relaxation of every edge leaving `v` (labyrinth/labyrinth.py:130-133):
      each neighbour gets distance `distances[v] + 1` when that is an
      improvement. The neighbours are visited in any order; the result does
      not depend on it. */
  method Relax(g: Graph, ghost start: nat, dist: seq<Option<nat>>, ghost paths: seq<seq<nat>>, v: nat, dv: nat)
    returns (dist': seq<Option<nat>>, ghost paths': seq<seq<nat>>)
    requires WellFormed(g) && v < |g| && Witnessed(g, start, dist, paths) && dist[v] == Some(dv)
    ensures dist' == RelaxAll(dist, g[v], dv + 1)
    ensures Witnessed(g, start, dist', paths')
  {
    dist', paths' := dist, paths;
    var todo := g[v];
    while todo != {}
      invariant todo <= g[v]
      invariant dist' == RelaxAll(dist, g[v] - todo, dv + 1)
      invariant Witnessed(g, start, dist', paths')
      decreases |todo|
    {
      var u :| u in todo;
      var alt := dist'[v].value + 1;
      if dist'[u].None? || alt < dist'[u].value {
        PathExtend(g, paths'[v], start, v, u);
        dist' := dist'[u := Some(alt)];
        paths' := paths'[u := paths'[v] + [u]];
      }
      todo := todo - {u};
      assert dist' == RelaxAll(dist, g[v] - todo, dv + 1);
    }
  }

  /** What the main loop keeps: every finite distance has a witness walk,
      the visited nodes are settled and relaxed, and END is still queued. */
  ghost predicate SearchInvariant(g: Graph, start: nat, end: nat, dist: seq<Option<nat>>,
                                  paths: seq<seq<nat>>, queue: set<nat>)
  {
    && WellFormed(g) && start < |g|
    && Witnessed(g, start, dist, paths)
    && (forall u :: u in queue ==> u < |g|)
    && end in queue && dist[start] == Some(0)
    && Settled(g, start, dist, queue)
    && Relaxed(g, dist, queue)
  }

  /** Taking the queued node `v` whose distance is final out of the queue and
      relaxing its edges keeps the loop invariant. */
  lemma Visit(g: Graph, start: nat, end: nat, dist: seq<Option<nat>>, paths: seq<seq<nat>>, queue: set<nat>,
              v: nat, dist': seq<Option<nat>>, paths': seq<seq<nat>>)
    requires SearchInvariant(g, start, end, dist, paths, queue) && v in queue && v != end
    requires dist[v].Some? && LowerBound(g, start, v, dist[v].value)
    requires dist' == RelaxAll(dist, g[v], dist[v].value + 1) && Witnessed(g, start, dist', paths')
    ensures SearchInvariant(g, start, end, dist', paths', queue - {v})
  {
    var dv := dist[v].value;
    forall u | 0 <= u < |g| && u !in queue - {v}
      ensures dist'[u] == dist[u]
    {
      if u in g[v] && u != v {
        // `u` was visited before `v`: no walk beats its distance, not even
        // the one through `v`
        PathExtend(g, paths[v], start, v, u);
        assert |paths[v] + [u]| == dv + 2;
      }
    }
  }

  /** Before the first visit: only `start` has a distance, and every node
      is queued. */
  lemma SearchStart(g: Graph, start: nat, end: nat, dist: seq<Option<nat>>, paths: seq<seq<nat>>)
    requires WellFormed(g) && start < |g| && end < |g|
    requires |dist| == |g| && |paths| == |g|
    requires forall u :: 0 <= u < |g| ==> dist[u] == (if u == start then Some(0) else None) && paths[u] == [u]
    ensures SearchInvariant(g, start, end, dist, paths, Nodes(|g|))
  {
  }

  /** When the least queued node is END, or has no distance, the answer is
      `dist[end]`. */
  lemma Answer(g: Graph, start: nat, end: nat, dist: seq<Option<nat>>, paths: seq<seq<nat>>, queue: set<nat>, v: nat)
    requires SearchInvariant(g, start, end, dist, paths, queue) && v in queue
    requires forall u :: u in queue ==> !Less(dist[u], dist[v])
    requires v == end || dist[v].None?
    ensures ShortestDistance(g, start, end, dist[end])
  {
    QueueMinimum(g, start, dist, queue, v);
    if dist[end].Some? {
      assert IsPath(g, paths[end], start, end);
    }
  }

  /** Dijkstra's algorithm with every edge of weight 1, as in
      labyrinth/labyrinth.py:111-135. The result is the exact edge distance
      from `start` to `end`, or `None` when `end` cannot be reached. */
  method ShortestPath(g: Graph, start: nat, end: nat) returns (r: Option<nat>)
    requires WellFormed(g) && start < |g| && end < |g|
    ensures ShortestDistance(g, start, end, r)
  {
    var n := |g|;
    var dist: seq<Option<nat>> := seq(n, _ => None);
    dist := dist[start := Some(0)];
    // a walk witnessing each finite distance
    ghost var paths: seq<seq<nat>> := seq(n, u => [u]);
    var queue: set<nat> := Nodes(n);
    SearchStart(g, start, end, dist, paths);

    while queue != {}
      invariant SearchInvariant(g, start, end, dist, paths, queue)
      decreases |queue|
    {
      var d, v := SelectMin(dist, queue);
      if v == end || d.None? {
        Answer(g, start, end, dist, paths, queue, v);
        break;
      }
      QueueMinimum(g, start, dist, queue, v);
      var dist', paths' := Relax(g, start, dist, paths, v, d.value);
      Visit(g, start, end, dist, paths, queue, v, dist', paths');
      dist, paths, queue := dist', paths', queue - {v};
    }
    r := dist[end];
  }
}
