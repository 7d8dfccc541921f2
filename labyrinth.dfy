/** The whole escape pipeline (labyrinth/labyrinth.py, escape_labyrinths):
    parse the records, then for each labyrinth build the coordinate list and
    its graph and compute the distance from START to END. The printed
    messages are replaced by one `Option<nat>` per labyrinth: `None` for
    "trapped", `Some(d)` for "escaped in d minutes". */
module Labyrinth {

  import opened Wrappers
  import opened Coordinates
  import opened Parser
  import opened Graph
  import opened ShortestPath

  /** The graph `escape_labyrinths` builds for one labyrinth. */
  function LabyrinthGraph(grid: Grid): Graph
    requires HasMarkers(grid)
  {
    AdjacencyGraph(AirCoordinates(grid))
  }

  /** `r` is the right answer for `grid`: the least number of unit moves
      through passable cells from START to END, or `None` when END cannot be
      reached. */
  ghost predicate EscapeTime(grid: Grid, r: Option<nat>)
    requires HasMarkers(grid)
  {
    ShortestDistance(LabyrinthGraph(grid), 0, |AirCoordinates(grid)| - 1, r)
  }

  /** Every labyrinth of the input holds a START and an END cell. */
  predicate AllHaveMarkers(lines: seq<string>)
    requires WellFormedInput(lines)
  {
    forall k :: 0 <= k < |Parse(lines)| ==> HasMarkers(Parse(lines)[k])
  }

  /** labyrinth/labyrinth.py:138-155: one answer per labyrinth, in file order. */
  method EscapeLabyrinths(lines: seq<string>) returns (results: seq<Option<nat>>)
    requires WellFormedInput(lines) && AllHaveMarkers(lines)
    ensures |results| == |Parse(lines)|
    ensures forall k :: 0 <= k < |results| ==> EscapeTime(Parse(lines)[k], results[k])
  {
    var matrix := InputToMatrix(lines);
    results := [];
    for k := 0 to |matrix|
      invariant |results| == k
      invariant forall m :: 0 <= m < k ==> EscapeTime(matrix[m], results[m])
    {
      var coordinates := GetAirCoordinates(matrix[k]);
      var graph := ToGraph(coordinates);
      AdjacencyGraphUnique(coordinates, graph, AdjacencyGraph(coordinates));
      AdjacencySymmetric(coordinates, graph);
      var start := 0;
      var end := |graph| - 1;
      var distance := ShortestPath.ShortestPath(graph, start, end);
      results := results + [distance];
    }
  }

  /** The answer is determined by the labyrinth. */
  lemma EscapeTimeUnique(grid: Grid, r1: Option<nat>, r2: Option<nat>)
    requires HasMarkers(grid) && EscapeTime(grid, r1) && EscapeTime(grid, r2)
    ensures r1 == r2
  {
    ShortestDistanceUnique(LabyrinthGraph(grid), 0, |AirCoordinates(grid)| - 1, r1, r2);
  }

  /** Running the pipeline twice on the same input gives the same answers. */
  lemma EscapeDeterministic(lines: seq<string>, r1: seq<Option<nat>>, r2: seq<Option<nat>>)
    requires WellFormedInput(lines) && AllHaveMarkers(lines)
    requires |r1| == |Parse(lines)| && forall k :: 0 <= k < |r1| ==> EscapeTime(Parse(lines)[k], r1[k])
    requires |r2| == |Parse(lines)| && forall k :: 0 <= k < |r2| ==> EscapeTime(Parse(lines)[k], r2[k])
    ensures r1 == r2
  {
    forall k | 0 <= k < |r1| ensures r1[k] == r2[k] {
      EscapeTimeUnique(Parse(lines)[k], r1[k], r2[k]);
    }
  }

  /** No escape is shorter than the Manhattan distance from START to END. */
  lemma EscapeAtLeastManhattan(grid: Grid, d: nat)
    requires HasMarkers(grid) && EscapeTime(grid, Some(d))
    ensures d >= Manhattan(AirCoordinates(grid)[0], AirCoordinates(grid)[|AirCoordinates(grid)| - 1])
  {
    var coords := AirCoordinates(grid);
    var g := LabyrinthGraph(grid);
    var p :| IsPath(g, p, 0, |coords| - 1) && |p| == d + 1;
    ManhattanLowerBound(coords, g, p, 0, |coords| - 1);
  }

  /** Any labelling of the passable cells that grows by at most one per move
      bounds the escape time from below. */
  lemma EscapeAtLeastPotential(grid: Grid, pot: Coord -> int)
    requires HasMarkers(grid)
    requires forall a, b :: Passable(grid, a) && Passable(grid, b) && IsAdjacent(a, b) ==> pot(b) <= pot(a) + 1
    ensures var coords := AirCoordinates(grid);
      forall p :: IsPath(LabyrinthGraph(grid), p, 0, |coords| - 1) ==>
        |p| >= pot(coords[|coords| - 1]) - pot(coords[0]) + 1
  {
    var coords := AirCoordinates(grid);
    var g := LabyrinthGraph(grid);
    forall k, l | 0 <= k < |coords| && 0 <= l < |coords| && IsAdjacent(coords[k], coords[l])
      ensures pot(coords[l]) <= pot(coords[k]) + 1
    {
      NoRockListed(grid, k);
      NoRockListed(grid, l);
    }
    forall p | IsPath(g, p, 0, |coords| - 1) ensures |p| >= pot(coords[|coords| - 1]) - pot(coords[0]) + 1 {
      PotentialLowerBound(coords, g, pot, p, 0, |coords| - 1);
    }
  }

  /** Any walk from START to END through AIR cells, one unit step at a time,
      is an escape route: the graph has a walk with as many nodes. */
  lemma EscapeAlongWalk(grid: Grid, w: seq<Coord>)
    requires HasMarkers(grid)
    requires |w| > 1 && w[0] == AirCoordinates(grid)[0]
    requires w[|w| - 1] == AirCoordinates(grid)[|AirCoordinates(grid)| - 1]
    requires forall k :: 0 < k < |w| - 1 ==> InBounds(grid, w[k]) && Symbol(grid, w[k]) == Air
    requires forall k :: 0 <= k < |w| - 1 ==> IsAdjacent(w[k], w[k + 1])
    ensures exists p :: IsPath(LabyrinthGraph(grid), p, 0, |AirCoordinates(grid)| - 1) && |p| == |w|
  {
    var coords := AirCoordinates(grid);
    var g := LabyrinthGraph(grid);
    assert IsAdjacencyGraph(coords, g);
    forall k | 0 <= k < |w| ensures w[k] in coords {
      if k == 0 {
        assert coords[0] in coords;
      } else if k == |w| - 1 {
        assert coords[|coords| - 1] in coords;
      } else {
        AirListed(grid, w[k]);
      }
    }
    WalkPath(coords, g, w, 0, |coords| - 1);
  }

  /** `pot` grows by at most one from `a` to each of its six neighbours that
      is passable. */
  predicate LocalStep(grid: Grid, pot: Coord -> int, a: Coord) {
    && (Passable(grid, Coord(a.y - 1, a.x, a.z)) ==> pot(Coord(a.y - 1, a.x, a.z)) <= pot(a) + 1)
    && (Passable(grid, Coord(a.y + 1, a.x, a.z)) ==> pot(Coord(a.y + 1, a.x, a.z)) <= pot(a) + 1)
    && (Passable(grid, Coord(a.y, a.x - 1, a.z)) ==> pot(Coord(a.y, a.x - 1, a.z)) <= pot(a) + 1)
    && (Passable(grid, Coord(a.y, a.x + 1, a.z)) ==> pot(Coord(a.y, a.x + 1, a.z)) <= pot(a) + 1)
    && (Passable(grid, Coord(a.y, a.x, a.z - 1)) ==> pot(Coord(a.y, a.x, a.z - 1)) <= pot(a) + 1)
    && (Passable(grid, Coord(a.y, a.x, a.z + 1)) ==> pot(Coord(a.y, a.x, a.z + 1)) <= pot(a) + 1)
  }

  /** Checking the six neighbours of every passable cell checks every move. */
  lemma LocalSteps(grid: Grid, pot: Coord -> int)
    requires forall a {:trigger LocalStep(grid, pot, a)} :: Passable(grid, a) ==> LocalStep(grid, pot, a)
    ensures forall a, b :: Passable(grid, a) && Passable(grid, b) && IsAdjacent(a, b) ==> pot(b) <= pot(a) + 1
  {
    forall a, b | Passable(grid, a) && Passable(grid, b) && IsAdjacent(a, b) ensures pot(b) <= pot(a) + 1 {
      assert LocalStep(grid, pot, a);
      LocalStepAt(grid, pot, a, b);
    }
  }

  lemma LocalStepAt(grid: Grid, pot: Coord -> int, a: Coord, b: Coord)
    requires LocalStep(grid, pot, a) && Passable(grid, b) && IsAdjacent(a, b)
    ensures pot(b) <= pot(a) + 1
  {
    AdjacentIsUnitStep(a, b);
    if b.y != a.y {
      assert b == Coord(a.y - 1, a.x, a.z) || b == Coord(a.y + 1, a.x, a.z);
    } else if b.x != a.x {
      assert b == Coord(a.y, a.x - 1, a.z) || b == Coord(a.y, a.x + 1, a.z);
    } else {
      assert b == Coord(a.y, a.x, a.z - 1) || b == Coord(a.y, a.x, a.z + 1);
    }
  }

  /** A certificate for an escape time `d`: a labelling of the passable cells
      that grows by at most one per move and rises by `d` from START to END
      (no escape is faster), and a route of `d` moves through AIR cells (an
      escape that fast exists). */
  lemma EscapeByCertificate(grid: Grid, pot: Coord -> int, route: seq<Coord>, d: nat, s: Coord, e: Coord)
    requires InBounds(grid, s) && Symbol(grid, s) == Start
    requires forall c :: InBounds(grid, c) && Symbol(grid, c) == Start ==> c == s
    requires InBounds(grid, e) && Symbol(grid, e) == End
    requires forall c :: InBounds(grid, c) && Symbol(grid, c) == End ==> c == e
    requires |route| == d + 1 && d > 0 && route[0] == s && route[d] == e
    requires forall k :: 0 < k < |route| - 1 ==> InBounds(grid, route[k]) && Symbol(grid, route[k]) == Air
    requires forall k :: 0 <= k < |route| - 1 ==> IsAdjacent(route[k], route[k + 1])
    requires forall a, b :: Passable(grid, a) && Passable(grid, b) && IsAdjacent(a, b) ==> pot(b) <= pot(a) + 1
    requires pot(e) - pot(s) == d
    ensures HasMarkers(grid) && EscapeTime(grid, Some(d))
  {
    MarkersDetermined(grid, s, e);
    EscapeAtLeastPotential(grid, pot);
    EscapeAlongWalk(grid, route);
  }
}
