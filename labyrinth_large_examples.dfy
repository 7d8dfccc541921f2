/** The two large labyrinths of labyrinth/labyrinth_test.py and the answers
    the tests expect. Each answer is proved by a certificate: a table giving
    the number of moves from START to every passable cell, which grows by at
    most one per move (so no escape is faster), and a route through AIR of
    exactly that many moves (so an escape that fast exists). */
module LabyrinthLargeExamples {

  import opened Wrappers
  import opened Coordinates
  import opened Parser
  import opened Graph
  import opened ShortestPath
  import opened Labyrinth

  /** The headers of the two large test labyrinths. */
  lemma LargeHeaders()
    ensures IsHeader("1 10 10") && WellFormedHeader("1 10 10") && Depth("1 10 10") == 1 && Length("1 10 10") == 10
    ensures IsHeader("5 10 10") && WellFormedHeader("5 10 10") && Depth("5 10 10") == 5 && Length("5 10 10") == 10
  {
    assert Token("0") == "0";
    assert Token("10") == "10";
    assert Words("10") == ["10"];
    assert Words(" 10") == ["10"];
    assert Token("10 10") == "10";
    assert "10 10"[2..] == " 10";
    assert Words("10 10") == ["10", "10"];
    assert Words(" 10 10") == ["10", "10"];
    assert Token("1 10 10") == "1";
    assert "1 10 10"[1..] == " 10 10";
    assert Token("5 10 10") == "5";
    assert "5 10 10"[1..] == " 10 10";
    assert Value("10") == 10 by {
      assert "10"[..1] == "1";
    }
  }

  // ----- labyrinth/labyrinth_test.py:40-58, one layer of 10 by 10.

  const MazeLayer0: seq<string> := [
    "##########",
    "#......#.#",
    "#.##.###.#",
    "#S##.###E#",
    "#.#......#",
    "#.######.#",
    "#.######.#",
    "#.##.###.#",
    "#.##.###.#",
    "#........#"]

  const MazeGrid: Grid := [MazeLayer0]

  /** The number of moves from START to each passable cell it reaches; 0 elsewhere. */
  const MazeMoves: seq<seq<seq<int>>> := [
    [[0, 0, 0, 0, 0, 0, 0, 0, 0, 0],
     [0, 2, 3, 4, 5, 6, 7, 0, 15, 0],
     [0, 1, 0, 0, 6, 0, 0, 0, 14, 0],
     [0, 0, 0, 0, 7, 0, 0, 0, 13, 0],
     [0, 1, 0, 9, 8, 9, 10, 11, 12, 0],
     [0, 2, 0, 0, 0, 0, 0, 0, 13, 0],
     [0, 3, 0, 0, 0, 0, 0, 0, 14, 0],
     [0, 4, 0, 0, 11, 0, 0, 0, 15, 0],
     [0, 5, 0, 0, 10, 0, 0, 0, 14, 0],
     [0, 6, 7, 8, 9, 10, 11, 12, 13, 0]]]

  /** The table read at a position, 0 outside it. */
  function MazeMovesAt(c: Coord): int {
    if 0 <= c.y < |MazeMoves| && 0 <= c.x < |MazeMoves[c.y]| && 0 <= c.z < |MazeMoves[c.y][c.x]|
    then MazeMoves[c.y][c.x][c.z] else 0
  }

  // START and END, layer by layer.

  lemma MazeMarkersLayer0(c: Coord)
    requires InBounds(MazeGrid, c) && c.y == 0
    ensures Symbol(MazeGrid, c) == Start ==> c == Coord(0, 3, 1)
    ensures Symbol(MazeGrid, c) == End ==> c == Coord(0, 3, 8)
  {
    assert c.x == 0 || c.x == 1 || c.x == 2 || c.x == 3 || c.x == 4 || c.x == 5 || c.x == 6 || c.x == 7 || c.x == 8 || c.x == 9;
    assert c.z == 0 || c.z == 1 || c.z == 2 || c.z == 3 || c.z == 4 || c.z == 5 || c.z == 6 || c.z == 7 || c.z == 8 || c.z == 9;
  }

  /** START and END each occur once. */
  lemma MazeMarkers()
    ensures InBounds(MazeGrid, Coord(0, 3, 1)) && Symbol(MazeGrid, Coord(0, 3, 1)) == Start
    ensures InBounds(MazeGrid, Coord(0, 3, 8)) && Symbol(MazeGrid, Coord(0, 3, 8)) == End
    ensures forall c :: InBounds(MazeGrid, c) && Symbol(MazeGrid, c) == Start ==> c == Coord(0, 3, 1)
    ensures forall c :: InBounds(MazeGrid, c) && Symbol(MazeGrid, c) == End ==> c == Coord(0, 3, 8)
  {
    forall c | InBounds(MazeGrid, c)
      ensures Symbol(MazeGrid, c) == Start ==> c == Coord(0, 3, 1)
      ensures Symbol(MazeGrid, c) == End ==> c == Coord(0, 3, 8)
    {
      MazeMarkersLayer0(c);
    }
  }

  // The move counts rise by at most one towards each passable neighbour:
  // MazeSteps<layer>_<row>_<first column> covers a slice of one row.

  lemma MazeSteps0_0_0(a: Coord)
    requires InBounds(MazeGrid, a) && a.y == 0 && a.x == 0 && 0 <= a.z < 5
    ensures Passable(MazeGrid, a) ==> LocalStep(MazeGrid, MazeMovesAt, a)
  {
    assert a.z == 0 || a.z == 1 || a.z == 2 || a.z == 3 || a.z == 4;
  }

  lemma MazeSteps0_0_5(a: Coord)
    requires InBounds(MazeGrid, a) && a.y == 0 && a.x == 0 && 5 <= a.z < 10
    ensures Passable(MazeGrid, a) ==> LocalStep(MazeGrid, MazeMovesAt, a)
  {
    assert a.z == 5 || a.z == 6 || a.z == 7 || a.z == 8 || a.z == 9;
  }

  lemma MazeSteps0_1_0(a: Coord)
    requires InBounds(MazeGrid, a) && a.y == 0 && a.x == 1 && 0 <= a.z < 5
    ensures Passable(MazeGrid, a) ==> LocalStep(MazeGrid, MazeMovesAt, a)
  {
    assert a.z == 0 || a.z == 1 || a.z == 2 || a.z == 3 || a.z == 4;
  }

  lemma MazeSteps0_1_5(a: Coord)
    requires InBounds(MazeGrid, a) && a.y == 0 && a.x == 1 && 5 <= a.z < 10
    ensures Passable(MazeGrid, a) ==> LocalStep(MazeGrid, MazeMovesAt, a)
  {
    assert a.z == 5 || a.z == 6 || a.z == 7 || a.z == 8 || a.z == 9;
  }

  lemma MazeSteps0_2_0(a: Coord)
    requires InBounds(MazeGrid, a) && a.y == 0 && a.x == 2 && 0 <= a.z < 5
    ensures Passable(MazeGrid, a) ==> LocalStep(MazeGrid, MazeMovesAt, a)
  {
    assert a.z == 0 || a.z == 1 || a.z == 2 || a.z == 3 || a.z == 4;
  }

  lemma MazeSteps0_2_5(a: Coord)
    requires InBounds(MazeGrid, a) && a.y == 0 && a.x == 2 && 5 <= a.z < 10
    ensures Passable(MazeGrid, a) ==> LocalStep(MazeGrid, MazeMovesAt, a)
  {
    assert a.z == 5 || a.z == 6 || a.z == 7 || a.z == 8 || a.z == 9;
  }

  lemma MazeSteps0_3_0(a: Coord)
    requires InBounds(MazeGrid, a) && a.y == 0 && a.x == 3 && 0 <= a.z < 5
    ensures Passable(MazeGrid, a) ==> LocalStep(MazeGrid, MazeMovesAt, a)
  {
    assert a.z == 0 || a.z == 1 || a.z == 2 || a.z == 3 || a.z == 4;
  }

  lemma MazeSteps0_3_5(a: Coord)
    requires InBounds(MazeGrid, a) && a.y == 0 && a.x == 3 && 5 <= a.z < 10
    ensures Passable(MazeGrid, a) ==> LocalStep(MazeGrid, MazeMovesAt, a)
  {
    assert a.z == 5 || a.z == 6 || a.z == 7 || a.z == 8 || a.z == 9;
  }

  lemma MazeSteps0_4_0(a: Coord)
    requires InBounds(MazeGrid, a) && a.y == 0 && a.x == 4 && 0 <= a.z < 5
    ensures Passable(MazeGrid, a) ==> LocalStep(MazeGrid, MazeMovesAt, a)
  {
    assert a.z == 0 || a.z == 1 || a.z == 2 || a.z == 3 || a.z == 4;
  }

  lemma MazeSteps0_4_5(a: Coord)
    requires InBounds(MazeGrid, a) && a.y == 0 && a.x == 4 && 5 <= a.z < 10
    ensures Passable(MazeGrid, a) ==> LocalStep(MazeGrid, MazeMovesAt, a)
  {
    assert a.z == 5 || a.z == 6 || a.z == 7 || a.z == 8 || a.z == 9;
  }

  lemma MazeSteps0_5_0(a: Coord)
    requires InBounds(MazeGrid, a) && a.y == 0 && a.x == 5 && 0 <= a.z < 5
    ensures Passable(MazeGrid, a) ==> LocalStep(MazeGrid, MazeMovesAt, a)
  {
    assert a.z == 0 || a.z == 1 || a.z == 2 || a.z == 3 || a.z == 4;
  }

  lemma MazeSteps0_5_5(a: Coord)
    requires InBounds(MazeGrid, a) && a.y == 0 && a.x == 5 && 5 <= a.z < 10
    ensures Passable(MazeGrid, a) ==> LocalStep(MazeGrid, MazeMovesAt, a)
  {
    assert a.z == 5 || a.z == 6 || a.z == 7 || a.z == 8 || a.z == 9;
  }

  lemma MazeSteps0_6_0(a: Coord)
    requires InBounds(MazeGrid, a) && a.y == 0 && a.x == 6 && 0 <= a.z < 5
    ensures Passable(MazeGrid, a) ==> LocalStep(MazeGrid, MazeMovesAt, a)
  {
    assert a.z == 0 || a.z == 1 || a.z == 2 || a.z == 3 || a.z == 4;
  }

  lemma MazeSteps0_6_5(a: Coord)
    requires InBounds(MazeGrid, a) && a.y == 0 && a.x == 6 && 5 <= a.z < 10
    ensures Passable(MazeGrid, a) ==> LocalStep(MazeGrid, MazeMovesAt, a)
  {
    assert a.z == 5 || a.z == 6 || a.z == 7 || a.z == 8 || a.z == 9;
  }

  lemma MazeSteps0_7_0(a: Coord)
    requires InBounds(MazeGrid, a) && a.y == 0 && a.x == 7 && 0 <= a.z < 5
    ensures Passable(MazeGrid, a) ==> LocalStep(MazeGrid, MazeMovesAt, a)
  {
    assert a.z == 0 || a.z == 1 || a.z == 2 || a.z == 3 || a.z == 4;
  }

  lemma MazeSteps0_7_5(a: Coord)
    requires InBounds(MazeGrid, a) && a.y == 0 && a.x == 7 && 5 <= a.z < 10
    ensures Passable(MazeGrid, a) ==> LocalStep(MazeGrid, MazeMovesAt, a)
  {
    assert a.z == 5 || a.z == 6 || a.z == 7 || a.z == 8 || a.z == 9;
  }

  lemma MazeSteps0_8_0(a: Coord)
    requires InBounds(MazeGrid, a) && a.y == 0 && a.x == 8 && 0 <= a.z < 5
    ensures Passable(MazeGrid, a) ==> LocalStep(MazeGrid, MazeMovesAt, a)
  {
    assert a.z == 0 || a.z == 1 || a.z == 2 || a.z == 3 || a.z == 4;
  }

  lemma MazeSteps0_8_5(a: Coord)
    requires InBounds(MazeGrid, a) && a.y == 0 && a.x == 8 && 5 <= a.z < 10
    ensures Passable(MazeGrid, a) ==> LocalStep(MazeGrid, MazeMovesAt, a)
  {
    assert a.z == 5 || a.z == 6 || a.z == 7 || a.z == 8 || a.z == 9;
  }

  lemma MazeSteps0_9_0(a: Coord)
    requires InBounds(MazeGrid, a) && a.y == 0 && a.x == 9 && 0 <= a.z < 5
    ensures Passable(MazeGrid, a) ==> LocalStep(MazeGrid, MazeMovesAt, a)
  {
    assert a.z == 0 || a.z == 1 || a.z == 2 || a.z == 3 || a.z == 4;
  }

  lemma MazeSteps0_9_5(a: Coord)
    requires InBounds(MazeGrid, a) && a.y == 0 && a.x == 9 && 5 <= a.z < 10
    ensures Passable(MazeGrid, a) ==> LocalStep(MazeGrid, MazeMovesAt, a)
  {
    assert a.z == 5 || a.z == 6 || a.z == 7 || a.z == 8 || a.z == 9;
  }

  /** The move counts grow by at most one per step between passable cells. */
  lemma MazeSteps()
    ensures forall a, b :: Passable(MazeGrid, a) && Passable(MazeGrid, b) && IsAdjacent(a, b) ==> MazeMovesAt(b) <= MazeMovesAt(a) + 1
  {
    forall a | Passable(MazeGrid, a) ensures LocalStep(MazeGrid, MazeMovesAt, a) {
      if a.y == 0 && a.x == 0 && a.z < 5 {
        MazeSteps0_0_0(a);
      } else if a.y == 0 && a.x == 0 && a.z < 10 {
        MazeSteps0_0_5(a);
      } else if a.y == 0 && a.x == 1 && a.z < 5 {
        MazeSteps0_1_0(a);
      } else if a.y == 0 && a.x == 1 && a.z < 10 {
        MazeSteps0_1_5(a);
      } else if a.y == 0 && a.x == 2 && a.z < 5 {
        MazeSteps0_2_0(a);
      } else if a.y == 0 && a.x == 2 && a.z < 10 {
        MazeSteps0_2_5(a);
      } else if a.y == 0 && a.x == 3 && a.z < 5 {
        MazeSteps0_3_0(a);
      } else if a.y == 0 && a.x == 3 && a.z < 10 {
        MazeSteps0_3_5(a);
      } else if a.y == 0 && a.x == 4 && a.z < 5 {
        MazeSteps0_4_0(a);
      } else if a.y == 0 && a.x == 4 && a.z < 10 {
        MazeSteps0_4_5(a);
      } else if a.y == 0 && a.x == 5 && a.z < 5 {
        MazeSteps0_5_0(a);
      } else if a.y == 0 && a.x == 5 && a.z < 10 {
        MazeSteps0_5_5(a);
      } else if a.y == 0 && a.x == 6 && a.z < 5 {
        MazeSteps0_6_0(a);
      } else if a.y == 0 && a.x == 6 && a.z < 10 {
        MazeSteps0_6_5(a);
      } else if a.y == 0 && a.x == 7 && a.z < 5 {
        MazeSteps0_7_0(a);
      } else if a.y == 0 && a.x == 7 && a.z < 10 {
        MazeSteps0_7_5(a);
      } else if a.y == 0 && a.x == 8 && a.z < 5 {
        MazeSteps0_8_0(a);
      } else if a.y == 0 && a.x == 8 && a.z < 10 {
        MazeSteps0_8_5(a);
      } else if a.y == 0 && a.x == 9 && a.z < 5 {
        MazeSteps0_9_0(a);
      } else {
        MazeSteps0_9_5(a);
      }
    }
    LocalSteps(MazeGrid, MazeMovesAt);
  }

  const MazeRoute0: seq<Coord> := [Coord(0, 3, 1), Coord(0, 2, 1), Coord(0, 1, 1), Coord(0, 1, 2), Coord(0, 1, 3), Coord(0, 1, 4), Coord(0, 2, 4), Coord(0, 3, 4), Coord(0, 4, 4), Coord(0, 4, 5)]
  const MazeRoute1: seq<Coord> := [Coord(0, 4, 6), Coord(0, 4, 7), Coord(0, 4, 8), Coord(0, 3, 8)]
  /** A shortest escape route, cell by cell. */
  const MazeRoute: seq<Coord> := MazeRoute0 + MazeRoute1

  // The route, ten cells at a time: AIR inside, one unit move per step.

  lemma MazeRoutePart0(k: nat)
    requires 0 <= k < 10 && k < |MazeRoute| - 1
    ensures 0 < k ==> InBounds(MazeGrid, MazeRoute[k]) && Symbol(MazeGrid, MazeRoute[k]) == Air
    ensures IsAdjacent(MazeRoute[k], MazeRoute[k + 1])
  {
    assert k == 0 || k == 1 || k == 2 || k == 3 || k == 4 || k == 5 || k == 6 || k == 7 || k == 8 || k == 9;
  }

  lemma MazeRoutePart1(k: nat)
    requires 10 <= k < 14 && k < |MazeRoute| - 1
    ensures 0 < k ==> InBounds(MazeGrid, MazeRoute[k]) && Symbol(MazeGrid, MazeRoute[k]) == Air
    ensures IsAdjacent(MazeRoute[k], MazeRoute[k + 1])
  {
    assert k == 10 || k == 11 || k == 12 || k == 13;
  }

  /** The route runs from START to END through AIR, one unit move at a time. */
  lemma MazeRouteValid()
    ensures |MazeRoute| == 14 && MazeRoute[0] == Coord(0, 3, 1) && MazeRoute[13] == Coord(0, 3, 8)
    ensures forall k :: 0 < k < |MazeRoute| - 1 ==> InBounds(MazeGrid, MazeRoute[k]) && Symbol(MazeGrid, MazeRoute[k]) == Air
    ensures forall k :: 0 <= k < |MazeRoute| - 1 ==> IsAdjacent(MazeRoute[k], MazeRoute[k + 1])
  {
    forall k: nat | k < |MazeRoute| - 1
      ensures 0 < k ==> InBounds(MazeGrid, MazeRoute[k]) && Symbol(MazeGrid, MazeRoute[k]) == Air
      ensures IsAdjacent(MazeRoute[k], MazeRoute[k + 1])
    {
      if k < 10 {
        MazeRoutePart0(k);
      } else {
        MazeRoutePart1(k);
      }
    }
  }

  /** The escape time of the labyrinth is the count the table gives END. */
  lemma MazeEscape()
    ensures HasMarkers(MazeGrid) && EscapeTime(MazeGrid, Some(13))
  {
    MazeMarkers();
    MazeSteps();
    MazeRouteValid();
    assert MazeMovesAt(Coord(0, 3, 1)) == 0 && MazeMovesAt(Coord(0, 3, 8)) == 13;
    EscapeByCertificate(MazeGrid, MazeMovesAt, MazeRoute, 13, Coord(0, 3, 1), Coord(0, 3, 8));
  }

  /** labyrinth/labyrinth_test.py:41-53: the header, the layers each
      followed by an empty line, and the terminator. */
  const Maze: seq<string> := ["1 10 10"] + Blocks(MazeGrid) + ["0 0 0"]

  /** No row of the layer is a header line, and the layer has ten rows. */
  lemma MazeRows()
    ensures forall d :: 0 <= d < |MazeGrid| ==> |MazeGrid[d]| == 10
    ensures forall d, l :: 0 <= d < |MazeGrid| && 0 <= l < |MazeGrid[d]| ==> !IsHeader(MazeGrid[d][l])
  {
    forall l | 0 <= l < |MazeLayer0| ensures !IsHeader(MazeLayer0[l]) {
      assert l == 0 || l == 1 || l == 2 || l == 3 || l == 4 || l == 5 || l == 6 || l == 7 || l == 8 || l == 9;
    }
  }

  lemma MazeParses()
    ensures WellFormedInput(Maze) && Parse(Maze) == [MazeGrid]
  {
    LargeHeaders();
    MazeRows();
    Terminator();
    RecordThen("1 10 10", MazeGrid, ["0 0 0"]);
  }

  /** labyrinth/labyrinth_test.py:40-58: the answer is 13. */
  method EscapeMaze() returns (results: seq<Option<nat>>)
    ensures results == [Some(13)]
  {
    MazeParses();
    MazeEscape();
    results := EscapeLabyrinths(Maze);
    EscapeTimeUnique(MazeGrid, results[0], Some(13));
  }

  // ----- labyrinth/labyrinth_test.py:78-140, five layers of 10 by 10.

  const TowerLayer0: seq<string> := [
    "##########",
    "##########",
    "##########",
    "##.#######",
    "##.#######",
    "##.....###",
    "##.##...##",
    "##..######",
    "###..####",
    "####.#####"]

  const TowerLayer1: seq<string> := [
    "##########",
    "####.#####",
    "####.#####",
    "##...#####",
    "##########",
    "##########",
    "##########",
    "##########",
    "##.#######",
    "##......##"]

  const TowerLayer2: seq<string> := [
    "##########",
    "##S..#####",
    "##########",
    "##########",
    "##########",
    "##########",
    "...#######",
    "##.###E..#",
    "##.#######",
    "##########"]

  const TowerLayer3: seq<string> := [
    "#######.##",
    "#######.##",
    "....###..#",
    ".#######.#",
    ".#######.#",
    ".#######.#",
    ".#######.#",
    "########.#",
    "##########",
    "##########"]

  const TowerLayer4: seq<string> := [
    "#####...##",
    "#####.####",
    "###.#.####",
    "###.#.####",
    "###.#.####",
    "###...####",
    "##########",
    "##########",
    "##########",
    "##########"]

  const TowerGrid: Grid := [TowerLayer0, TowerLayer1, TowerLayer2, TowerLayer3, TowerLayer4]

  /** The number of moves from START to each passable cell it reaches; 0 elsewhere. */
  const TowerMoves: seq<seq<seq<int>>> := [
    [[0, 0, 0, 0, 0, 0, 0, 0, 0, 0],
     [0, 0, 0, 0, 0, 0, 0, 0, 0, 0],
     [0, 0, 0, 0, 0, 0, 0, 0, 0, 0],
     [0, 0, 8, 0, 0, 0, 0, 0, 0, 0],
     [0, 0, 9, 0, 0, 0, 0, 0, 0, 0],
     [0, 0, 10, 11, 12, 13, 14, 0, 0, 0],
     [0, 0, 11, 0, 0, 14, 15, 16, 0, 0],
     [0, 0, 12, 13, 0, 0, 0, 0, 0, 0],
     [0, 0, 0, 14, 15, 0, 0, 0, 0],
     [0, 0, 0, 0, 16, 0, 0, 0, 0, 0]],
    [[0, 0, 0, 0, 0, 0, 0, 0, 0, 0],
     [0, 0, 0, 0, 3, 0, 0, 0, 0, 0],
     [0, 0, 0, 0, 4, 0, 0, 0, 0, 0],
     [0, 0, 7, 6, 5, 0, 0, 0, 0, 0],
     [0, 0, 0, 0, 0, 0, 0, 0, 0, 0],
     [0, 0, 0, 0, 0, 0, 0, 0, 0, 0],
     [0, 0, 0, 0, 0, 0, 0, 0, 0, 0],
     [0, 0, 0, 0, 0, 0, 0, 0, 0, 0],
     [0, 0, 20, 0, 0, 0, 0, 0, 0, 0],
     [0, 0, 19, 18, 17, 18, 19, 20, 0, 0]],
    [[0, 0, 0, 0, 0, 0, 0, 0, 0, 0],
     [0, 0, 0, 1, 2, 0, 0, 0, 0, 0],
     [0, 0, 0, 0, 0, 0, 0, 0, 0, 0],
     [0, 0, 0, 0, 0, 0, 0, 0, 0, 0],
     [0, 0, 0, 0, 0, 0, 0, 0, 0, 0],
     [0, 0, 0, 0, 0, 0, 0, 0, 0, 0],
     [25, 24, 23, 0, 0, 0, 0, 0, 0, 0],
     [0, 0, 22, 0, 0, 0, 58, 57, 56, 0],
     [0, 0, 21, 0, 0, 0, 0, 0, 0, 0],
     [0, 0, 0, 0, 0, 0, 0, 0, 0, 0]],
    [[0, 0, 0, 0, 0, 0, 0, 47, 0, 0],
     [0, 0, 0, 0, 0, 0, 0, 48, 0, 0],
     [30, 31, 32, 33, 0, 0, 0, 49, 50, 0],
     [29, 0, 0, 0, 0, 0, 0, 0, 51, 0],
     [28, 0, 0, 0, 0, 0, 0, 0, 52, 0],
     [27, 0, 0, 0, 0, 0, 0, 0, 53, 0],
     [26, 0, 0, 0, 0, 0, 0, 0, 54, 0],
     [0, 0, 0, 0, 0, 0, 0, 0, 55, 0],
     [0, 0, 0, 0, 0, 0, 0, 0, 0, 0],
     [0, 0, 0, 0, 0, 0, 0, 0, 0, 0]],
    [[0, 0, 0, 0, 0, 44, 45, 46, 0, 0],
     [0, 0, 0, 0, 0, 43, 0, 0, 0, 0],
     [0, 0, 0, 34, 0, 42, 0, 0, 0, 0],
     [0, 0, 0, 35, 0, 41, 0, 0, 0, 0],
     [0, 0, 0, 36, 0, 40, 0, 0, 0, 0],
     [0, 0, 0, 37, 38, 39, 0, 0, 0, 0],
     [0, 0, 0, 0, 0, 0, 0, 0, 0, 0],
     [0, 0, 0, 0, 0, 0, 0, 0, 0, 0],
     [0, 0, 0, 0, 0, 0, 0, 0, 0, 0],
     [0, 0, 0, 0, 0, 0, 0, 0, 0, 0]]]

  /** The table read at a position, 0 outside it. */
  function TowerMovesAt(c: Coord): int {
    if 0 <= c.y < |TowerMoves| && 0 <= c.x < |TowerMoves[c.y]| && 0 <= c.z < |TowerMoves[c.y][c.x]|
    then TowerMoves[c.y][c.x][c.z] else 0
  }

  // START and END, layer by layer.

  lemma TowerMarkersLayer0(c: Coord)
    requires InBounds(TowerGrid, c) && c.y == 0
    ensures Symbol(TowerGrid, c) == Start ==> c == Coord(2, 1, 2)
    ensures Symbol(TowerGrid, c) == End ==> c == Coord(2, 7, 6)
  {
    assert c.x == 0 || c.x == 1 || c.x == 2 || c.x == 3 || c.x == 4 || c.x == 5 || c.x == 6 || c.x == 7 || c.x == 8 || c.x == 9;
    assert c.z == 0 || c.z == 1 || c.z == 2 || c.z == 3 || c.z == 4 || c.z == 5 || c.z == 6 || c.z == 7 || c.z == 8 || c.z == 9;
  }

  lemma TowerMarkersLayer1(c: Coord)
    requires InBounds(TowerGrid, c) && c.y == 1
    ensures Symbol(TowerGrid, c) == Start ==> c == Coord(2, 1, 2)
    ensures Symbol(TowerGrid, c) == End ==> c == Coord(2, 7, 6)
  {
    assert c.x == 0 || c.x == 1 || c.x == 2 || c.x == 3 || c.x == 4 || c.x == 5 || c.x == 6 || c.x == 7 || c.x == 8 || c.x == 9;
    assert c.z == 0 || c.z == 1 || c.z == 2 || c.z == 3 || c.z == 4 || c.z == 5 || c.z == 6 || c.z == 7 || c.z == 8 || c.z == 9;
  }

  lemma TowerMarkersLayer2(c: Coord)
    requires InBounds(TowerGrid, c) && c.y == 2
    ensures Symbol(TowerGrid, c) == Start ==> c == Coord(2, 1, 2)
    ensures Symbol(TowerGrid, c) == End ==> c == Coord(2, 7, 6)
  {
    assert c.x == 0 || c.x == 1 || c.x == 2 || c.x == 3 || c.x == 4 || c.x == 5 || c.x == 6 || c.x == 7 || c.x == 8 || c.x == 9;
    assert c.z == 0 || c.z == 1 || c.z == 2 || c.z == 3 || c.z == 4 || c.z == 5 || c.z == 6 || c.z == 7 || c.z == 8 || c.z == 9;
  }

  lemma TowerMarkersLayer3(c: Coord)
    requires InBounds(TowerGrid, c) && c.y == 3
    ensures Symbol(TowerGrid, c) == Start ==> c == Coord(2, 1, 2)
    ensures Symbol(TowerGrid, c) == End ==> c == Coord(2, 7, 6)
  {
    assert c.x == 0 || c.x == 1 || c.x == 2 || c.x == 3 || c.x == 4 || c.x == 5 || c.x == 6 || c.x == 7 || c.x == 8 || c.x == 9;
    assert c.z == 0 || c.z == 1 || c.z == 2 || c.z == 3 || c.z == 4 || c.z == 5 || c.z == 6 || c.z == 7 || c.z == 8 || c.z == 9;
  }

  lemma TowerMarkersLayer4(c: Coord)
    requires InBounds(TowerGrid, c) && c.y == 4
    ensures Symbol(TowerGrid, c) == Start ==> c == Coord(2, 1, 2)
    ensures Symbol(TowerGrid, c) == End ==> c == Coord(2, 7, 6)
  {
    assert c.x == 0 || c.x == 1 || c.x == 2 || c.x == 3 || c.x == 4 || c.x == 5 || c.x == 6 || c.x == 7 || c.x == 8 || c.x == 9;
    assert c.z == 0 || c.z == 1 || c.z == 2 || c.z == 3 || c.z == 4 || c.z == 5 || c.z == 6 || c.z == 7 || c.z == 8 || c.z == 9;
  }

  /** START and END each occur once. */
  lemma TowerMarkers()
    ensures InBounds(TowerGrid, Coord(2, 1, 2)) && Symbol(TowerGrid, Coord(2, 1, 2)) == Start
    ensures InBounds(TowerGrid, Coord(2, 7, 6)) && Symbol(TowerGrid, Coord(2, 7, 6)) == End
    ensures forall c :: InBounds(TowerGrid, c) && Symbol(TowerGrid, c) == Start ==> c == Coord(2, 1, 2)
    ensures forall c :: InBounds(TowerGrid, c) && Symbol(TowerGrid, c) == End ==> c == Coord(2, 7, 6)
  {
    forall c | InBounds(TowerGrid, c)
      ensures Symbol(TowerGrid, c) == Start ==> c == Coord(2, 1, 2)
      ensures Symbol(TowerGrid, c) == End ==> c == Coord(2, 7, 6)
    {
      if c.y == 0 {
        TowerMarkersLayer0(c);
      } else if c.y == 1 {
        TowerMarkersLayer1(c);
      } else if c.y == 2 {
        TowerMarkersLayer2(c);
      } else if c.y == 3 {
        TowerMarkersLayer3(c);
      } else {
        TowerMarkersLayer4(c);
      }
    }
  }

  // The move counts rise by at most one towards each passable neighbour:
  // TowerSteps<layer>_<row>_<first column> covers a slice of one row.

  lemma TowerSteps0_0_0(a: Coord)
    requires InBounds(TowerGrid, a) && a.y == 0 && a.x == 0 && 0 <= a.z < 5
    ensures Passable(TowerGrid, a) ==> LocalStep(TowerGrid, TowerMovesAt, a)
  {
    assert a.z == 0 || a.z == 1 || a.z == 2 || a.z == 3 || a.z == 4;
  }

  lemma TowerSteps0_0_5(a: Coord)
    requires InBounds(TowerGrid, a) && a.y == 0 && a.x == 0 && 5 <= a.z < 10
    ensures Passable(TowerGrid, a) ==> LocalStep(TowerGrid, TowerMovesAt, a)
  {
    assert a.z == 5 || a.z == 6 || a.z == 7 || a.z == 8 || a.z == 9;
  }

  lemma TowerSteps0_1_0(a: Coord)
    requires InBounds(TowerGrid, a) && a.y == 0 && a.x == 1 && 0 <= a.z < 5
    ensures Passable(TowerGrid, a) ==> LocalStep(TowerGrid, TowerMovesAt, a)
  {
    assert a.z == 0 || a.z == 1 || a.z == 2 || a.z == 3 || a.z == 4;
  }

  lemma TowerSteps0_1_5(a: Coord)
    requires InBounds(TowerGrid, a) && a.y == 0 && a.x == 1 && 5 <= a.z < 10
    ensures Passable(TowerGrid, a) ==> LocalStep(TowerGrid, TowerMovesAt, a)
  {
    assert a.z == 5 || a.z == 6 || a.z == 7 || a.z == 8 || a.z == 9;
  }

  lemma TowerSteps0_2_0(a: Coord)
    requires InBounds(TowerGrid, a) && a.y == 0 && a.x == 2 && 0 <= a.z < 5
    ensures Passable(TowerGrid, a) ==> LocalStep(TowerGrid, TowerMovesAt, a)
  {
    assert a.z == 0 || a.z == 1 || a.z == 2 || a.z == 3 || a.z == 4;
  }

  lemma TowerSteps0_2_5(a: Coord)
    requires InBounds(TowerGrid, a) && a.y == 0 && a.x == 2 && 5 <= a.z < 10
    ensures Passable(TowerGrid, a) ==> LocalStep(TowerGrid, TowerMovesAt, a)
  {
    assert a.z == 5 || a.z == 6 || a.z == 7 || a.z == 8 || a.z == 9;
  }

  lemma TowerSteps0_3_0(a: Coord)
    requires InBounds(TowerGrid, a) && a.y == 0 && a.x == 3 && 0 <= a.z < 5
    ensures Passable(TowerGrid, a) ==> LocalStep(TowerGrid, TowerMovesAt, a)
  {
    assert a.z == 0 || a.z == 1 || a.z == 2 || a.z == 3 || a.z == 4;
  }

  lemma TowerSteps0_3_5(a: Coord)
    requires InBounds(TowerGrid, a) && a.y == 0 && a.x == 3 && 5 <= a.z < 10
    ensures Passable(TowerGrid, a) ==> LocalStep(TowerGrid, TowerMovesAt, a)
  {
    assert a.z == 5 || a.z == 6 || a.z == 7 || a.z == 8 || a.z == 9;
  }

  lemma TowerSteps0_4_0(a: Coord)
    requires InBounds(TowerGrid, a) && a.y == 0 && a.x == 4 && 0 <= a.z < 5
    ensures Passable(TowerGrid, a) ==> LocalStep(TowerGrid, TowerMovesAt, a)
  {
    assert a.z == 0 || a.z == 1 || a.z == 2 || a.z == 3 || a.z == 4;
  }

  lemma TowerSteps0_4_5(a: Coord)
    requires InBounds(TowerGrid, a) && a.y == 0 && a.x == 4 && 5 <= a.z < 10
    ensures Passable(TowerGrid, a) ==> LocalStep(TowerGrid, TowerMovesAt, a)
  {
    assert a.z == 5 || a.z == 6 || a.z == 7 || a.z == 8 || a.z == 9;
  }

  lemma TowerSteps0_5_0(a: Coord)
    requires InBounds(TowerGrid, a) && a.y == 0 && a.x == 5 && 0 <= a.z < 5
    ensures Passable(TowerGrid, a) ==> LocalStep(TowerGrid, TowerMovesAt, a)
  {
    assert a.z == 0 || a.z == 1 || a.z == 2 || a.z == 3 || a.z == 4;
  }

  lemma TowerSteps0_5_5(a: Coord)
    requires InBounds(TowerGrid, a) && a.y == 0 && a.x == 5 && 5 <= a.z < 10
    ensures Passable(TowerGrid, a) ==> LocalStep(TowerGrid, TowerMovesAt, a)
  {
    assert a.z == 5 || a.z == 6 || a.z == 7 || a.z == 8 || a.z == 9;
  }

  lemma TowerSteps0_6_0(a: Coord)
    requires InBounds(TowerGrid, a) && a.y == 0 && a.x == 6 && 0 <= a.z < 5
    ensures Passable(TowerGrid, a) ==> LocalStep(TowerGrid, TowerMovesAt, a)
  {
    assert a.z == 0 || a.z == 1 || a.z == 2 || a.z == 3 || a.z == 4;
  }

  lemma TowerSteps0_6_5(a: Coord)
    requires InBounds(TowerGrid, a) && a.y == 0 && a.x == 6 && 5 <= a.z < 10
    ensures Passable(TowerGrid, a) ==> LocalStep(TowerGrid, TowerMovesAt, a)
  {
    assert a.z == 5 || a.z == 6 || a.z == 7 || a.z == 8 || a.z == 9;
  }

  lemma TowerSteps0_7_0(a: Coord)
    requires InBounds(TowerGrid, a) && a.y == 0 && a.x == 7 && 0 <= a.z < 5
    ensures Passable(TowerGrid, a) ==> LocalStep(TowerGrid, TowerMovesAt, a)
  {
    assert a.z == 0 || a.z == 1 || a.z == 2 || a.z == 3 || a.z == 4;
  }

  lemma TowerSteps0_7_5(a: Coord)
    requires InBounds(TowerGrid, a) && a.y == 0 && a.x == 7 && 5 <= a.z < 10
    ensures Passable(TowerGrid, a) ==> LocalStep(TowerGrid, TowerMovesAt, a)
  {
    assert a.z == 5 || a.z == 6 || a.z == 7 || a.z == 8 || a.z == 9;
  }

  lemma TowerSteps0_8_0(a: Coord)
    requires InBounds(TowerGrid, a) && a.y == 0 && a.x == 8 && 0 <= a.z < 5
    ensures Passable(TowerGrid, a) ==> LocalStep(TowerGrid, TowerMovesAt, a)
  {
    assert a.z == 0 || a.z == 1 || a.z == 2 || a.z == 3 || a.z == 4;
  }

  lemma TowerSteps0_8_5(a: Coord)
    requires InBounds(TowerGrid, a) && a.y == 0 && a.x == 8 && 5 <= a.z < 9
    ensures Passable(TowerGrid, a) ==> LocalStep(TowerGrid, TowerMovesAt, a)
  {
    assert a.z == 5 || a.z == 6 || a.z == 7 || a.z == 8;
  }

  lemma TowerSteps0_9_0(a: Coord)
    requires InBounds(TowerGrid, a) && a.y == 0 && a.x == 9 && 0 <= a.z < 5
    ensures Passable(TowerGrid, a) ==> LocalStep(TowerGrid, TowerMovesAt, a)
  {
    assert a.z == 0 || a.z == 1 || a.z == 2 || a.z == 3 || a.z == 4;
  }

  lemma TowerSteps0_9_5(a: Coord)
    requires InBounds(TowerGrid, a) && a.y == 0 && a.x == 9 && 5 <= a.z < 10
    ensures Passable(TowerGrid, a) ==> LocalStep(TowerGrid, TowerMovesAt, a)
  {
    assert a.z == 5 || a.z == 6 || a.z == 7 || a.z == 8 || a.z == 9;
  }

  lemma TowerSteps1_0_0(a: Coord)
    requires InBounds(TowerGrid, a) && a.y == 1 && a.x == 0 && 0 <= a.z < 5
    ensures Passable(TowerGrid, a) ==> LocalStep(TowerGrid, TowerMovesAt, a)
  {
    assert a.z == 0 || a.z == 1 || a.z == 2 || a.z == 3 || a.z == 4;
  }

  lemma TowerSteps1_0_5(a: Coord)
    requires InBounds(TowerGrid, a) && a.y == 1 && a.x == 0 && 5 <= a.z < 10
    ensures Passable(TowerGrid, a) ==> LocalStep(TowerGrid, TowerMovesAt, a)
  {
    assert a.z == 5 || a.z == 6 || a.z == 7 || a.z == 8 || a.z == 9;
  }

  lemma TowerSteps1_1_0(a: Coord)
    requires InBounds(TowerGrid, a) && a.y == 1 && a.x == 1 && 0 <= a.z < 5
    ensures Passable(TowerGrid, a) ==> LocalStep(TowerGrid, TowerMovesAt, a)
  {
    assert a.z == 0 || a.z == 1 || a.z == 2 || a.z == 3 || a.z == 4;
  }

  lemma TowerSteps1_1_5(a: Coord)
    requires InBounds(TowerGrid, a) && a.y == 1 && a.x == 1 && 5 <= a.z < 10
    ensures Passable(TowerGrid, a) ==> LocalStep(TowerGrid, TowerMovesAt, a)
  {
    assert a.z == 5 || a.z == 6 || a.z == 7 || a.z == 8 || a.z == 9;
  }

  lemma TowerSteps1_2_0(a: Coord)
    requires InBounds(TowerGrid, a) && a.y == 1 && a.x == 2 && 0 <= a.z < 5
    ensures Passable(TowerGrid, a) ==> LocalStep(TowerGrid, TowerMovesAt, a)
  {
    assert a.z == 0 || a.z == 1 || a.z == 2 || a.z == 3 || a.z == 4;
  }

  lemma TowerSteps1_2_5(a: Coord)
    requires InBounds(TowerGrid, a) && a.y == 1 && a.x == 2 && 5 <= a.z < 10
    ensures Passable(TowerGrid, a) ==> LocalStep(TowerGrid, TowerMovesAt, a)
  {
    assert a.z == 5 || a.z == 6 || a.z == 7 || a.z == 8 || a.z == 9;
  }

  lemma TowerSteps1_3_0(a: Coord)
    requires InBounds(TowerGrid, a) && a.y == 1 && a.x == 3 && 0 <= a.z < 5
    ensures Passable(TowerGrid, a) ==> LocalStep(TowerGrid, TowerMovesAt, a)
  {
    assert a.z == 0 || a.z == 1 || a.z == 2 || a.z == 3 || a.z == 4;
  }

  lemma TowerSteps1_3_5(a: Coord)
    requires InBounds(TowerGrid, a) && a.y == 1 && a.x == 3 && 5 <= a.z < 10
    ensures Passable(TowerGrid, a) ==> LocalStep(TowerGrid, TowerMovesAt, a)
  {
    assert a.z == 5 || a.z == 6 || a.z == 7 || a.z == 8 || a.z == 9;
  }

  lemma TowerSteps1_4_0(a: Coord)
    requires InBounds(TowerGrid, a) && a.y == 1 && a.x == 4 && 0 <= a.z < 5
    ensures Passable(TowerGrid, a) ==> LocalStep(TowerGrid, TowerMovesAt, a)
  {
    assert a.z == 0 || a.z == 1 || a.z == 2 || a.z == 3 || a.z == 4;
  }

  lemma TowerSteps1_4_5(a: Coord)
    requires InBounds(TowerGrid, a) && a.y == 1 && a.x == 4 && 5 <= a.z < 10
    ensures Passable(TowerGrid, a) ==> LocalStep(TowerGrid, TowerMovesAt, a)
  {
    assert a.z == 5 || a.z == 6 || a.z == 7 || a.z == 8 || a.z == 9;
  }

  lemma TowerSteps1_5_0(a: Coord)
    requires InBounds(TowerGrid, a) && a.y == 1 && a.x == 5 && 0 <= a.z < 5
    ensures Passable(TowerGrid, a) ==> LocalStep(TowerGrid, TowerMovesAt, a)
  {
    assert a.z == 0 || a.z == 1 || a.z == 2 || a.z == 3 || a.z == 4;
  }

  lemma TowerSteps1_5_5(a: Coord)
    requires InBounds(TowerGrid, a) && a.y == 1 && a.x == 5 && 5 <= a.z < 10
    ensures Passable(TowerGrid, a) ==> LocalStep(TowerGrid, TowerMovesAt, a)
  {
    assert a.z == 5 || a.z == 6 || a.z == 7 || a.z == 8 || a.z == 9;
  }

  lemma TowerSteps1_6_0(a: Coord)
    requires InBounds(TowerGrid, a) && a.y == 1 && a.x == 6 && 0 <= a.z < 5
    ensures Passable(TowerGrid, a) ==> LocalStep(TowerGrid, TowerMovesAt, a)
  {
    assert a.z == 0 || a.z == 1 || a.z == 2 || a.z == 3 || a.z == 4;
  }

  lemma TowerSteps1_6_5(a: Coord)
    requires InBounds(TowerGrid, a) && a.y == 1 && a.x == 6 && 5 <= a.z < 10
    ensures Passable(TowerGrid, a) ==> LocalStep(TowerGrid, TowerMovesAt, a)
  {
    assert a.z == 5 || a.z == 6 || a.z == 7 || a.z == 8 || a.z == 9;
  }

  lemma TowerSteps1_7_0(a: Coord)
    requires InBounds(TowerGrid, a) && a.y == 1 && a.x == 7 && 0 <= a.z < 5
    ensures Passable(TowerGrid, a) ==> LocalStep(TowerGrid, TowerMovesAt, a)
  {
    assert a.z == 0 || a.z == 1 || a.z == 2 || a.z == 3 || a.z == 4;
  }

  lemma TowerSteps1_7_5(a: Coord)
    requires InBounds(TowerGrid, a) && a.y == 1 && a.x == 7 && 5 <= a.z < 10
    ensures Passable(TowerGrid, a) ==> LocalStep(TowerGrid, TowerMovesAt, a)
  {
    assert a.z == 5 || a.z == 6 || a.z == 7 || a.z == 8 || a.z == 9;
  }

  lemma TowerSteps1_8_0(a: Coord)
    requires InBounds(TowerGrid, a) && a.y == 1 && a.x == 8 && 0 <= a.z < 5
    ensures Passable(TowerGrid, a) ==> LocalStep(TowerGrid, TowerMovesAt, a)
  {
    assert a.z == 0 || a.z == 1 || a.z == 2 || a.z == 3 || a.z == 4;
  }

  lemma TowerSteps1_8_5(a: Coord)
    requires InBounds(TowerGrid, a) && a.y == 1 && a.x == 8 && 5 <= a.z < 10
    ensures Passable(TowerGrid, a) ==> LocalStep(TowerGrid, TowerMovesAt, a)
  {
    assert a.z == 5 || a.z == 6 || a.z == 7 || a.z == 8 || a.z == 9;
  }

  lemma TowerSteps1_9_0(a: Coord)
    requires InBounds(TowerGrid, a) && a.y == 1 && a.x == 9 && 0 <= a.z < 5
    ensures Passable(TowerGrid, a) ==> LocalStep(TowerGrid, TowerMovesAt, a)
  {
    assert a.z == 0 || a.z == 1 || a.z == 2 || a.z == 3 || a.z == 4;
  }

  lemma TowerSteps1_9_5(a: Coord)
    requires InBounds(TowerGrid, a) && a.y == 1 && a.x == 9 && 5 <= a.z < 10
    ensures Passable(TowerGrid, a) ==> LocalStep(TowerGrid, TowerMovesAt, a)
  {
    assert a.z == 5 || a.z == 6 || a.z == 7 || a.z == 8 || a.z == 9;
  }

  lemma TowerSteps2_0_0(a: Coord)
    requires InBounds(TowerGrid, a) && a.y == 2 && a.x == 0 && 0 <= a.z < 5
    ensures Passable(TowerGrid, a) ==> LocalStep(TowerGrid, TowerMovesAt, a)
  {
    assert a.z == 0 || a.z == 1 || a.z == 2 || a.z == 3 || a.z == 4;
  }

  lemma TowerSteps2_0_5(a: Coord)
    requires InBounds(TowerGrid, a) && a.y == 2 && a.x == 0 && 5 <= a.z < 10
    ensures Passable(TowerGrid, a) ==> LocalStep(TowerGrid, TowerMovesAt, a)
  {
    assert a.z == 5 || a.z == 6 || a.z == 7 || a.z == 8 || a.z == 9;
  }

  lemma TowerSteps2_1_0(a: Coord)
    requires InBounds(TowerGrid, a) && a.y == 2 && a.x == 1 && 0 <= a.z < 5
    ensures Passable(TowerGrid, a) ==> LocalStep(TowerGrid, TowerMovesAt, a)
  {
    assert a.z == 0 || a.z == 1 || a.z == 2 || a.z == 3 || a.z == 4;
  }

  lemma TowerSteps2_1_5(a: Coord)
    requires InBounds(TowerGrid, a) && a.y == 2 && a.x == 1 && 5 <= a.z < 10
    ensures Passable(TowerGrid, a) ==> LocalStep(TowerGrid, TowerMovesAt, a)
  {
    assert a.z == 5 || a.z == 6 || a.z == 7 || a.z == 8 || a.z == 9;
  }

  lemma TowerSteps2_2_0(a: Coord)
    requires InBounds(TowerGrid, a) && a.y == 2 && a.x == 2 && 0 <= a.z < 5
    ensures Passable(TowerGrid, a) ==> LocalStep(TowerGrid, TowerMovesAt, a)
  {
    assert a.z == 0 || a.z == 1 || a.z == 2 || a.z == 3 || a.z == 4;
  }

  lemma TowerSteps2_2_5(a: Coord)
    requires InBounds(TowerGrid, a) && a.y == 2 && a.x == 2 && 5 <= a.z < 10
    ensures Passable(TowerGrid, a) ==> LocalStep(TowerGrid, TowerMovesAt, a)
  {
    assert a.z == 5 || a.z == 6 || a.z == 7 || a.z == 8 || a.z == 9;
  }

  lemma TowerSteps2_3_0(a: Coord)
    requires InBounds(TowerGrid, a) && a.y == 2 && a.x == 3 && 0 <= a.z < 5
    ensures Passable(TowerGrid, a) ==> LocalStep(TowerGrid, TowerMovesAt, a)
  {
    assert a.z == 0 || a.z == 1 || a.z == 2 || a.z == 3 || a.z == 4;
  }

  lemma TowerSteps2_3_5(a: Coord)
    requires InBounds(TowerGrid, a) && a.y == 2 && a.x == 3 && 5 <= a.z < 10
    ensures Passable(TowerGrid, a) ==> LocalStep(TowerGrid, TowerMovesAt, a)
  {
    assert a.z == 5 || a.z == 6 || a.z == 7 || a.z == 8 || a.z == 9;
  }

  lemma TowerSteps2_4_0(a: Coord)
    requires InBounds(TowerGrid, a) && a.y == 2 && a.x == 4 && 0 <= a.z < 5
    ensures Passable(TowerGrid, a) ==> LocalStep(TowerGrid, TowerMovesAt, a)
  {
    assert a.z == 0 || a.z == 1 || a.z == 2 || a.z == 3 || a.z == 4;
  }

  lemma TowerSteps2_4_5(a: Coord)
    requires InBounds(TowerGrid, a) && a.y == 2 && a.x == 4 && 5 <= a.z < 10
    ensures Passable(TowerGrid, a) ==> LocalStep(TowerGrid, TowerMovesAt, a)
  {
    assert a.z == 5 || a.z == 6 || a.z == 7 || a.z == 8 || a.z == 9;
  }

  lemma TowerSteps2_5_0(a: Coord)
    requires InBounds(TowerGrid, a) && a.y == 2 && a.x == 5 && 0 <= a.z < 5
    ensures Passable(TowerGrid, a) ==> LocalStep(TowerGrid, TowerMovesAt, a)
  {
    assert a.z == 0 || a.z == 1 || a.z == 2 || a.z == 3 || a.z == 4;
  }

  lemma TowerSteps2_5_5(a: Coord)
    requires InBounds(TowerGrid, a) && a.y == 2 && a.x == 5 && 5 <= a.z < 10
    ensures Passable(TowerGrid, a) ==> LocalStep(TowerGrid, TowerMovesAt, a)
  {
    assert a.z == 5 || a.z == 6 || a.z == 7 || a.z == 8 || a.z == 9;
  }

  lemma TowerSteps2_6_0(a: Coord)
    requires InBounds(TowerGrid, a) && a.y == 2 && a.x == 6 && 0 <= a.z < 5
    ensures Passable(TowerGrid, a) ==> LocalStep(TowerGrid, TowerMovesAt, a)
  {
    assert a.z == 0 || a.z == 1 || a.z == 2 || a.z == 3 || a.z == 4;
  }

  lemma TowerSteps2_6_5(a: Coord)
    requires InBounds(TowerGrid, a) && a.y == 2 && a.x == 6 && 5 <= a.z < 10
    ensures Passable(TowerGrid, a) ==> LocalStep(TowerGrid, TowerMovesAt, a)
  {
    assert a.z == 5 || a.z == 6 || a.z == 7 || a.z == 8 || a.z == 9;
  }

  lemma TowerSteps2_7_0(a: Coord)
    requires InBounds(TowerGrid, a) && a.y == 2 && a.x == 7 && 0 <= a.z < 5
    ensures Passable(TowerGrid, a) ==> LocalStep(TowerGrid, TowerMovesAt, a)
  {
    assert a.z == 0 || a.z == 1 || a.z == 2 || a.z == 3 || a.z == 4;
  }

  lemma TowerSteps2_7_5(a: Coord)
    requires InBounds(TowerGrid, a) && a.y == 2 && a.x == 7 && 5 <= a.z < 10
    ensures Passable(TowerGrid, a) ==> LocalStep(TowerGrid, TowerMovesAt, a)
  {
    assert a.z == 5 || a.z == 6 || a.z == 7 || a.z == 8 || a.z == 9;
  }

  lemma TowerSteps2_8_0(a: Coord)
    requires InBounds(TowerGrid, a) && a.y == 2 && a.x == 8 && 0 <= a.z < 5
    ensures Passable(TowerGrid, a) ==> LocalStep(TowerGrid, TowerMovesAt, a)
  {
    assert a.z == 0 || a.z == 1 || a.z == 2 || a.z == 3 || a.z == 4;
  }

  lemma TowerSteps2_8_5(a: Coord)
    requires InBounds(TowerGrid, a) && a.y == 2 && a.x == 8 && 5 <= a.z < 10
    ensures Passable(TowerGrid, a) ==> LocalStep(TowerGrid, TowerMovesAt, a)
  {
    assert a.z == 5 || a.z == 6 || a.z == 7 || a.z == 8 || a.z == 9;
  }

  lemma TowerSteps2_9_0(a: Coord)
    requires InBounds(TowerGrid, a) && a.y == 2 && a.x == 9 && 0 <= a.z < 5
    ensures Passable(TowerGrid, a) ==> LocalStep(TowerGrid, TowerMovesAt, a)
  {
    assert a.z == 0 || a.z == 1 || a.z == 2 || a.z == 3 || a.z == 4;
  }

  lemma TowerSteps2_9_5(a: Coord)
    requires InBounds(TowerGrid, a) && a.y == 2 && a.x == 9 && 5 <= a.z < 10
    ensures Passable(TowerGrid, a) ==> LocalStep(TowerGrid, TowerMovesAt, a)
  {
    assert a.z == 5 || a.z == 6 || a.z == 7 || a.z == 8 || a.z == 9;
  }

  lemma TowerSteps3_0_0(a: Coord)
    requires InBounds(TowerGrid, a) && a.y == 3 && a.x == 0 && 0 <= a.z < 5
    ensures Passable(TowerGrid, a) ==> LocalStep(TowerGrid, TowerMovesAt, a)
  {
    assert a.z == 0 || a.z == 1 || a.z == 2 || a.z == 3 || a.z == 4;
  }

  lemma TowerSteps3_0_5(a: Coord)
    requires InBounds(TowerGrid, a) && a.y == 3 && a.x == 0 && 5 <= a.z < 10
    ensures Passable(TowerGrid, a) ==> LocalStep(TowerGrid, TowerMovesAt, a)
  {
    assert a.z == 5 || a.z == 6 || a.z == 7 || a.z == 8 || a.z == 9;
  }

  lemma TowerSteps3_1_0(a: Coord)
    requires InBounds(TowerGrid, a) && a.y == 3 && a.x == 1 && 0 <= a.z < 5
    ensures Passable(TowerGrid, a) ==> LocalStep(TowerGrid, TowerMovesAt, a)
  {
    assert a.z == 0 || a.z == 1 || a.z == 2 || a.z == 3 || a.z == 4;
  }

  lemma TowerSteps3_1_5(a: Coord)
    requires InBounds(TowerGrid, a) && a.y == 3 && a.x == 1 && 5 <= a.z < 10
    ensures Passable(TowerGrid, a) ==> LocalStep(TowerGrid, TowerMovesAt, a)
  {
    assert a.z == 5 || a.z == 6 || a.z == 7 || a.z == 8 || a.z == 9;
  }

  lemma TowerSteps3_2_0(a: Coord)
    requires InBounds(TowerGrid, a) && a.y == 3 && a.x == 2 && 0 <= a.z < 5
    ensures Passable(TowerGrid, a) ==> LocalStep(TowerGrid, TowerMovesAt, a)
  {
    assert a.z == 0 || a.z == 1 || a.z == 2 || a.z == 3 || a.z == 4;
  }

  lemma TowerSteps3_2_5(a: Coord)
    requires InBounds(TowerGrid, a) && a.y == 3 && a.x == 2 && 5 <= a.z < 10
    ensures Passable(TowerGrid, a) ==> LocalStep(TowerGrid, TowerMovesAt, a)
  {
    assert a.z == 5 || a.z == 6 || a.z == 7 || a.z == 8 || a.z == 9;
  }

  lemma TowerSteps3_3_0(a: Coord)
    requires InBounds(TowerGrid, a) && a.y == 3 && a.x == 3 && 0 <= a.z < 5
    ensures Passable(TowerGrid, a) ==> LocalStep(TowerGrid, TowerMovesAt, a)
  {
    assert a.z == 0 || a.z == 1 || a.z == 2 || a.z == 3 || a.z == 4;
  }

  lemma TowerSteps3_3_5(a: Coord)
    requires InBounds(TowerGrid, a) && a.y == 3 && a.x == 3 && 5 <= a.z < 10
    ensures Passable(TowerGrid, a) ==> LocalStep(TowerGrid, TowerMovesAt, a)
  {
    assert a.z == 5 || a.z == 6 || a.z == 7 || a.z == 8 || a.z == 9;
  }

  lemma TowerSteps3_4_0(a: Coord)
    requires InBounds(TowerGrid, a) && a.y == 3 && a.x == 4 && 0 <= a.z < 5
    ensures Passable(TowerGrid, a) ==> LocalStep(TowerGrid, TowerMovesAt, a)
  {
    assert a.z == 0 || a.z == 1 || a.z == 2 || a.z == 3 || a.z == 4;
  }

  lemma TowerSteps3_4_5(a: Coord)
    requires InBounds(TowerGrid, a) && a.y == 3 && a.x == 4 && 5 <= a.z < 10
    ensures Passable(TowerGrid, a) ==> LocalStep(TowerGrid, TowerMovesAt, a)
  {
    assert a.z == 5 || a.z == 6 || a.z == 7 || a.z == 8 || a.z == 9;
  }

  lemma TowerSteps3_5_0(a: Coord)
    requires InBounds(TowerGrid, a) && a.y == 3 && a.x == 5 && 0 <= a.z < 5
    ensures Passable(TowerGrid, a) ==> LocalStep(TowerGrid, TowerMovesAt, a)
  {
    assert a.z == 0 || a.z == 1 || a.z == 2 || a.z == 3 || a.z == 4;
  }

  lemma TowerSteps3_5_5(a: Coord)
    requires InBounds(TowerGrid, a) && a.y == 3 && a.x == 5 && 5 <= a.z < 10
    ensures Passable(TowerGrid, a) ==> LocalStep(TowerGrid, TowerMovesAt, a)
  {
    assert a.z == 5 || a.z == 6 || a.z == 7 || a.z == 8 || a.z == 9;
  }

  lemma TowerSteps3_6_0(a: Coord)
    requires InBounds(TowerGrid, a) && a.y == 3 && a.x == 6 && 0 <= a.z < 5
    ensures Passable(TowerGrid, a) ==> LocalStep(TowerGrid, TowerMovesAt, a)
  {
    assert a.z == 0 || a.z == 1 || a.z == 2 || a.z == 3 || a.z == 4;
  }

  lemma TowerSteps3_6_5(a: Coord)
    requires InBounds(TowerGrid, a) && a.y == 3 && a.x == 6 && 5 <= a.z < 10
    ensures Passable(TowerGrid, a) ==> LocalStep(TowerGrid, TowerMovesAt, a)
  {
    assert a.z == 5 || a.z == 6 || a.z == 7 || a.z == 8 || a.z == 9;
  }

  lemma TowerSteps3_7_0(a: Coord)
    requires InBounds(TowerGrid, a) && a.y == 3 && a.x == 7 && 0 <= a.z < 5
    ensures Passable(TowerGrid, a) ==> LocalStep(TowerGrid, TowerMovesAt, a)
  {
    assert a.z == 0 || a.z == 1 || a.z == 2 || a.z == 3 || a.z == 4;
  }

  lemma TowerSteps3_7_5(a: Coord)
    requires InBounds(TowerGrid, a) && a.y == 3 && a.x == 7 && 5 <= a.z < 10
    ensures Passable(TowerGrid, a) ==> LocalStep(TowerGrid, TowerMovesAt, a)
  {
    assert a.z == 5 || a.z == 6 || a.z == 7 || a.z == 8 || a.z == 9;
  }

  lemma TowerSteps3_8_0(a: Coord)
    requires InBounds(TowerGrid, a) && a.y == 3 && a.x == 8 && 0 <= a.z < 5
    ensures Passable(TowerGrid, a) ==> LocalStep(TowerGrid, TowerMovesAt, a)
  {
    assert a.z == 0 || a.z == 1 || a.z == 2 || a.z == 3 || a.z == 4;
  }

  lemma TowerSteps3_8_5(a: Coord)
    requires InBounds(TowerGrid, a) && a.y == 3 && a.x == 8 && 5 <= a.z < 10
    ensures Passable(TowerGrid, a) ==> LocalStep(TowerGrid, TowerMovesAt, a)
  {
    assert a.z == 5 || a.z == 6 || a.z == 7 || a.z == 8 || a.z == 9;
  }

  lemma TowerSteps3_9_0(a: Coord)
    requires InBounds(TowerGrid, a) && a.y == 3 && a.x == 9 && 0 <= a.z < 5
    ensures Passable(TowerGrid, a) ==> LocalStep(TowerGrid, TowerMovesAt, a)
  {
    assert a.z == 0 || a.z == 1 || a.z == 2 || a.z == 3 || a.z == 4;
  }

  lemma TowerSteps3_9_5(a: Coord)
    requires InBounds(TowerGrid, a) && a.y == 3 && a.x == 9 && 5 <= a.z < 10
    ensures Passable(TowerGrid, a) ==> LocalStep(TowerGrid, TowerMovesAt, a)
  {
    assert a.z == 5 || a.z == 6 || a.z == 7 || a.z == 8 || a.z == 9;
  }

  lemma TowerSteps4_0_0(a: Coord)
    requires InBounds(TowerGrid, a) && a.y == 4 && a.x == 0 && 0 <= a.z < 5
    ensures Passable(TowerGrid, a) ==> LocalStep(TowerGrid, TowerMovesAt, a)
  {
    assert a.z == 0 || a.z == 1 || a.z == 2 || a.z == 3 || a.z == 4;
  }

  lemma TowerSteps4_0_5(a: Coord)
    requires InBounds(TowerGrid, a) && a.y == 4 && a.x == 0 && 5 <= a.z < 10
    ensures Passable(TowerGrid, a) ==> LocalStep(TowerGrid, TowerMovesAt, a)
  {
    assert a.z == 5 || a.z == 6 || a.z == 7 || a.z == 8 || a.z == 9;
  }

  lemma TowerSteps4_1_0(a: Coord)
    requires InBounds(TowerGrid, a) && a.y == 4 && a.x == 1 && 0 <= a.z < 5
    ensures Passable(TowerGrid, a) ==> LocalStep(TowerGrid, TowerMovesAt, a)
  {
    assert a.z == 0 || a.z == 1 || a.z == 2 || a.z == 3 || a.z == 4;
  }

  lemma TowerSteps4_1_5(a: Coord)
    requires InBounds(TowerGrid, a) && a.y == 4 && a.x == 1 && 5 <= a.z < 10
    ensures Passable(TowerGrid, a) ==> LocalStep(TowerGrid, TowerMovesAt, a)
  {
    assert a.z == 5 || a.z == 6 || a.z == 7 || a.z == 8 || a.z == 9;
  }

  lemma TowerSteps4_2_0(a: Coord)
    requires InBounds(TowerGrid, a) && a.y == 4 && a.x == 2 && 0 <= a.z < 5
    ensures Passable(TowerGrid, a) ==> LocalStep(TowerGrid, TowerMovesAt, a)
  {
    assert a.z == 0 || a.z == 1 || a.z == 2 || a.z == 3 || a.z == 4;
  }

  lemma TowerSteps4_2_5(a: Coord)
    requires InBounds(TowerGrid, a) && a.y == 4 && a.x == 2 && 5 <= a.z < 10
    ensures Passable(TowerGrid, a) ==> LocalStep(TowerGrid, TowerMovesAt, a)
  {
    assert a.z == 5 || a.z == 6 || a.z == 7 || a.z == 8 || a.z == 9;
  }

  lemma TowerSteps4_3_0(a: Coord)
    requires InBounds(TowerGrid, a) && a.y == 4 && a.x == 3 && 0 <= a.z < 5
    ensures Passable(TowerGrid, a) ==> LocalStep(TowerGrid, TowerMovesAt, a)
  {
    assert a.z == 0 || a.z == 1 || a.z == 2 || a.z == 3 || a.z == 4;
  }

  lemma TowerSteps4_3_5(a: Coord)
    requires InBounds(TowerGrid, a) && a.y == 4 && a.x == 3 && 5 <= a.z < 10
    ensures Passable(TowerGrid, a) ==> LocalStep(TowerGrid, TowerMovesAt, a)
  {
    assert a.z == 5 || a.z == 6 || a.z == 7 || a.z == 8 || a.z == 9;
  }

  lemma TowerSteps4_4_0(a: Coord)
    requires InBounds(TowerGrid, a) && a.y == 4 && a.x == 4 && 0 <= a.z < 5
    ensures Passable(TowerGrid, a) ==> LocalStep(TowerGrid, TowerMovesAt, a)
  {
    assert a.z == 0 || a.z == 1 || a.z == 2 || a.z == 3 || a.z == 4;
  }

  lemma TowerSteps4_4_5(a: Coord)
    requires InBounds(TowerGrid, a) && a.y == 4 && a.x == 4 && 5 <= a.z < 10
    ensures Passable(TowerGrid, a) ==> LocalStep(TowerGrid, TowerMovesAt, a)
  {
    assert a.z == 5 || a.z == 6 || a.z == 7 || a.z == 8 || a.z == 9;
  }

  lemma TowerSteps4_5_0(a: Coord)
    requires InBounds(TowerGrid, a) && a.y == 4 && a.x == 5 && 0 <= a.z < 5
    ensures Passable(TowerGrid, a) ==> LocalStep(TowerGrid, TowerMovesAt, a)
  {
    assert a.z == 0 || a.z == 1 || a.z == 2 || a.z == 3 || a.z == 4;
  }

  lemma TowerSteps4_5_5(a: Coord)
    requires InBounds(TowerGrid, a) && a.y == 4 && a.x == 5 && 5 <= a.z < 10
    ensures Passable(TowerGrid, a) ==> LocalStep(TowerGrid, TowerMovesAt, a)
  {
    assert a.z == 5 || a.z == 6 || a.z == 7 || a.z == 8 || a.z == 9;
  }

  lemma TowerSteps4_6_0(a: Coord)
    requires InBounds(TowerGrid, a) && a.y == 4 && a.x == 6 && 0 <= a.z < 5
    ensures Passable(TowerGrid, a) ==> LocalStep(TowerGrid, TowerMovesAt, a)
  {
    assert a.z == 0 || a.z == 1 || a.z == 2 || a.z == 3 || a.z == 4;
  }

  lemma TowerSteps4_6_5(a: Coord)
    requires InBounds(TowerGrid, a) && a.y == 4 && a.x == 6 && 5 <= a.z < 10
    ensures Passable(TowerGrid, a) ==> LocalStep(TowerGrid, TowerMovesAt, a)
  {
    assert a.z == 5 || a.z == 6 || a.z == 7 || a.z == 8 || a.z == 9;
  }

  lemma TowerSteps4_7_0(a: Coord)
    requires InBounds(TowerGrid, a) && a.y == 4 && a.x == 7 && 0 <= a.z < 5
    ensures Passable(TowerGrid, a) ==> LocalStep(TowerGrid, TowerMovesAt, a)
  {
    assert a.z == 0 || a.z == 1 || a.z == 2 || a.z == 3 || a.z == 4;
  }

  lemma TowerSteps4_7_5(a: Coord)
    requires InBounds(TowerGrid, a) && a.y == 4 && a.x == 7 && 5 <= a.z < 10
    ensures Passable(TowerGrid, a) ==> LocalStep(TowerGrid, TowerMovesAt, a)
  {
    assert a.z == 5 || a.z == 6 || a.z == 7 || a.z == 8 || a.z == 9;
  }

  lemma TowerSteps4_8_0(a: Coord)
    requires InBounds(TowerGrid, a) && a.y == 4 && a.x == 8 && 0 <= a.z < 5
    ensures Passable(TowerGrid, a) ==> LocalStep(TowerGrid, TowerMovesAt, a)
  {
    assert a.z == 0 || a.z == 1 || a.z == 2 || a.z == 3 || a.z == 4;
  }

  lemma TowerSteps4_8_5(a: Coord)
    requires InBounds(TowerGrid, a) && a.y == 4 && a.x == 8 && 5 <= a.z < 10
    ensures Passable(TowerGrid, a) ==> LocalStep(TowerGrid, TowerMovesAt, a)
  {
    assert a.z == 5 || a.z == 6 || a.z == 7 || a.z == 8 || a.z == 9;
  }

  lemma TowerSteps4_9_0(a: Coord)
    requires InBounds(TowerGrid, a) && a.y == 4 && a.x == 9 && 0 <= a.z < 5
    ensures Passable(TowerGrid, a) ==> LocalStep(TowerGrid, TowerMovesAt, a)
  {
    assert a.z == 0 || a.z == 1 || a.z == 2 || a.z == 3 || a.z == 4;
  }

  lemma TowerSteps4_9_5(a: Coord)
    requires InBounds(TowerGrid, a) && a.y == 4 && a.x == 9 && 5 <= a.z < 10
    ensures Passable(TowerGrid, a) ==> LocalStep(TowerGrid, TowerMovesAt, a)
  {
    assert a.z == 5 || a.z == 6 || a.z == 7 || a.z == 8 || a.z == 9;
  }

  /** The move counts grow by at most one per step between passable cells. */
  lemma TowerSteps()
    ensures forall a, b :: Passable(TowerGrid, a) && Passable(TowerGrid, b) && IsAdjacent(a, b) ==> TowerMovesAt(b) <= TowerMovesAt(a) + 1
  {
    forall a | Passable(TowerGrid, a) ensures LocalStep(TowerGrid, TowerMovesAt, a) {
      if a.y == 0 && a.x == 0 && a.z < 5 {
        TowerSteps0_0_0(a);
      } else if a.y == 0 && a.x == 0 && a.z < 10 {
        TowerSteps0_0_5(a);
      } else if a.y == 0 && a.x == 1 && a.z < 5 {
        TowerSteps0_1_0(a);
      } else if a.y == 0 && a.x == 1 && a.z < 10 {
        TowerSteps0_1_5(a);
      } else if a.y == 0 && a.x == 2 && a.z < 5 {
        TowerSteps0_2_0(a);
      } else if a.y == 0 && a.x == 2 && a.z < 10 {
        TowerSteps0_2_5(a);
      } else if a.y == 0 && a.x == 3 && a.z < 5 {
        TowerSteps0_3_0(a);
      } else if a.y == 0 && a.x == 3 && a.z < 10 {
        TowerSteps0_3_5(a);
      } else if a.y == 0 && a.x == 4 && a.z < 5 {
        TowerSteps0_4_0(a);
      } else if a.y == 0 && a.x == 4 && a.z < 10 {
        TowerSteps0_4_5(a);
      } else if a.y == 0 && a.x == 5 && a.z < 5 {
        TowerSteps0_5_0(a);
      } else if a.y == 0 && a.x == 5 && a.z < 10 {
        TowerSteps0_5_5(a);
      } else if a.y == 0 && a.x == 6 && a.z < 5 {
        TowerSteps0_6_0(a);
      } else if a.y == 0 && a.x == 6 && a.z < 10 {
        TowerSteps0_6_5(a);
      } else if a.y == 0 && a.x == 7 && a.z < 5 {
        TowerSteps0_7_0(a);
      } else if a.y == 0 && a.x == 7 && a.z < 10 {
        TowerSteps0_7_5(a);
      } else if a.y == 0 && a.x == 8 && a.z < 5 {
        TowerSteps0_8_0(a);
      } else if a.y == 0 && a.x == 8 && a.z < 9 {
        TowerSteps0_8_5(a);
      } else if a.y == 0 && a.x == 9 && a.z < 5 {
        TowerSteps0_9_0(a);
      } else if a.y == 0 && a.x == 9 && a.z < 10 {
        TowerSteps0_9_5(a);
      } else if a.y == 1 && a.x == 0 && a.z < 5 {
        TowerSteps1_0_0(a);
      } else if a.y == 1 && a.x == 0 && a.z < 10 {
        TowerSteps1_0_5(a);
      } else if a.y == 1 && a.x == 1 && a.z < 5 {
        TowerSteps1_1_0(a);
      } else if a.y == 1 && a.x == 1 && a.z < 10 {
        TowerSteps1_1_5(a);
      } else if a.y == 1 && a.x == 2 && a.z < 5 {
        TowerSteps1_2_0(a);
      } else if a.y == 1 && a.x == 2 && a.z < 10 {
        TowerSteps1_2_5(a);
      } else if a.y == 1 && a.x == 3 && a.z < 5 {
        TowerSteps1_3_0(a);
      } else if a.y == 1 && a.x == 3 && a.z < 10 {
        TowerSteps1_3_5(a);
      } else if a.y == 1 && a.x == 4 && a.z < 5 {
        TowerSteps1_4_0(a);
      } else if a.y == 1 && a.x == 4 && a.z < 10 {
        TowerSteps1_4_5(a);
      } else if a.y == 1 && a.x == 5 && a.z < 5 {
        TowerSteps1_5_0(a);
      } else if a.y == 1 && a.x == 5 && a.z < 10 {
        TowerSteps1_5_5(a);
      } else if a.y == 1 && a.x == 6 && a.z < 5 {
        TowerSteps1_6_0(a);
      } else if a.y == 1 && a.x == 6 && a.z < 10 {
        TowerSteps1_6_5(a);
      } else if a.y == 1 && a.x == 7 && a.z < 5 {
        TowerSteps1_7_0(a);
      } else if a.y == 1 && a.x == 7 && a.z < 10 {
        TowerSteps1_7_5(a);
      } else if a.y == 1 && a.x == 8 && a.z < 5 {
        TowerSteps1_8_0(a);
      } else if a.y == 1 && a.x == 8 && a.z < 10 {
        TowerSteps1_8_5(a);
      } else if a.y == 1 && a.x == 9 && a.z < 5 {
        TowerSteps1_9_0(a);
      } else if a.y == 1 && a.x == 9 && a.z < 10 {
        TowerSteps1_9_5(a);
      } else if a.y == 2 && a.x == 0 && a.z < 5 {
        TowerSteps2_0_0(a);
      } else if a.y == 2 && a.x == 0 && a.z < 10 {
        TowerSteps2_0_5(a);
      } else if a.y == 2 && a.x == 1 && a.z < 5 {
        TowerSteps2_1_0(a);
      } else if a.y == 2 && a.x == 1 && a.z < 10 {
        TowerSteps2_1_5(a);
      } else if a.y == 2 && a.x == 2 && a.z < 5 {
        TowerSteps2_2_0(a);
      } else if a.y == 2 && a.x == 2 && a.z < 10 {
        TowerSteps2_2_5(a);
      } else if a.y == 2 && a.x == 3 && a.z < 5 {
        TowerSteps2_3_0(a);
      } else if a.y == 2 && a.x == 3 && a.z < 10 {
        TowerSteps2_3_5(a);
      } else if a.y == 2 && a.x == 4 && a.z < 5 {
        TowerSteps2_4_0(a);
      } else if a.y == 2 && a.x == 4 && a.z < 10 {
        TowerSteps2_4_5(a);
      } else if a.y == 2 && a.x == 5 && a.z < 5 {
        TowerSteps2_5_0(a);
      } else if a.y == 2 && a.x == 5 && a.z < 10 {
        TowerSteps2_5_5(a);
      } else if a.y == 2 && a.x == 6 && a.z < 5 {
        TowerSteps2_6_0(a);
      } else if a.y == 2 && a.x == 6 && a.z < 10 {
        TowerSteps2_6_5(a);
      } else if a.y == 2 && a.x == 7 && a.z < 5 {
        TowerSteps2_7_0(a);
      } else if a.y == 2 && a.x == 7 && a.z < 10 {
        TowerSteps2_7_5(a);
      } else if a.y == 2 && a.x == 8 && a.z < 5 {
        TowerSteps2_8_0(a);
      } else if a.y == 2 && a.x == 8 && a.z < 10 {
        TowerSteps2_8_5(a);
      } else if a.y == 2 && a.x == 9 && a.z < 5 {
        TowerSteps2_9_0(a);
      } else if a.y == 2 && a.x == 9 && a.z < 10 {
        TowerSteps2_9_5(a);
      } else if a.y == 3 && a.x == 0 && a.z < 5 {
        TowerSteps3_0_0(a);
      } else if a.y == 3 && a.x == 0 && a.z < 10 {
        TowerSteps3_0_5(a);
      } else if a.y == 3 && a.x == 1 && a.z < 5 {
        TowerSteps3_1_0(a);
      } else if a.y == 3 && a.x == 1 && a.z < 10 {
        TowerSteps3_1_5(a);
      } else if a.y == 3 && a.x == 2 && a.z < 5 {
        TowerSteps3_2_0(a);
      } else if a.y == 3 && a.x == 2 && a.z < 10 {
        TowerSteps3_2_5(a);
      } else if a.y == 3 && a.x == 3 && a.z < 5 {
        TowerSteps3_3_0(a);
      } else if a.y == 3 && a.x == 3 && a.z < 10 {
        TowerSteps3_3_5(a);
      } else if a.y == 3 && a.x == 4 && a.z < 5 {
        TowerSteps3_4_0(a);
      } else if a.y == 3 && a.x == 4 && a.z < 10 {
        TowerSteps3_4_5(a);
      } else if a.y == 3 && a.x == 5 && a.z < 5 {
        TowerSteps3_5_0(a);
      } else if a.y == 3 && a.x == 5 && a.z < 10 {
        TowerSteps3_5_5(a);
      } else if a.y == 3 && a.x == 6 && a.z < 5 {
        TowerSteps3_6_0(a);
      } else if a.y == 3 && a.x == 6 && a.z < 10 {
        TowerSteps3_6_5(a);
      } else if a.y == 3 && a.x == 7 && a.z < 5 {
        TowerSteps3_7_0(a);
      } else if a.y == 3 && a.x == 7 && a.z < 10 {
        TowerSteps3_7_5(a);
      } else if a.y == 3 && a.x == 8 && a.z < 5 {
        TowerSteps3_8_0(a);
      } else if a.y == 3 && a.x == 8 && a.z < 10 {
        TowerSteps3_8_5(a);
      } else if a.y == 3 && a.x == 9 && a.z < 5 {
        TowerSteps3_9_0(a);
      } else if a.y == 3 && a.x == 9 && a.z < 10 {
        TowerSteps3_9_5(a);
      } else if a.y == 4 && a.x == 0 && a.z < 5 {
        TowerSteps4_0_0(a);
      } else if a.y == 4 && a.x == 0 && a.z < 10 {
        TowerSteps4_0_5(a);
      } else if a.y == 4 && a.x == 1 && a.z < 5 {
        TowerSteps4_1_0(a);
      } else if a.y == 4 && a.x == 1 && a.z < 10 {
        TowerSteps4_1_5(a);
      } else if a.y == 4 && a.x == 2 && a.z < 5 {
        TowerSteps4_2_0(a);
      } else if a.y == 4 && a.x == 2 && a.z < 10 {
        TowerSteps4_2_5(a);
      } else if a.y == 4 && a.x == 3 && a.z < 5 {
        TowerSteps4_3_0(a);
      } else if a.y == 4 && a.x == 3 && a.z < 10 {
        TowerSteps4_3_5(a);
      } else if a.y == 4 && a.x == 4 && a.z < 5 {
        TowerSteps4_4_0(a);
      } else if a.y == 4 && a.x == 4 && a.z < 10 {
        TowerSteps4_4_5(a);
      } else if a.y == 4 && a.x == 5 && a.z < 5 {
        TowerSteps4_5_0(a);
      } else if a.y == 4 && a.x == 5 && a.z < 10 {
        TowerSteps4_5_5(a);
      } else if a.y == 4 && a.x == 6 && a.z < 5 {
        TowerSteps4_6_0(a);
      } else if a.y == 4 && a.x == 6 && a.z < 10 {
        TowerSteps4_6_5(a);
      } else if a.y == 4 && a.x == 7 && a.z < 5 {
        TowerSteps4_7_0(a);
      } else if a.y == 4 && a.x == 7 && a.z < 10 {
        TowerSteps4_7_5(a);
      } else if a.y == 4 && a.x == 8 && a.z < 5 {
        TowerSteps4_8_0(a);
      } else if a.y == 4 && a.x == 8 && a.z < 10 {
        TowerSteps4_8_5(a);
      } else if a.y == 4 && a.x == 9 && a.z < 5 {
        TowerSteps4_9_0(a);
      } else {
        TowerSteps4_9_5(a);
      }
    }
    LocalSteps(TowerGrid, TowerMovesAt);
  }

  const TowerRoute0: seq<Coord> := [Coord(2, 1, 2), Coord(2, 1, 3), Coord(2, 1, 4), Coord(1, 1, 4), Coord(1, 2, 4), Coord(1, 3, 4), Coord(1, 3, 3), Coord(1, 3, 2), Coord(0, 3, 2), Coord(0, 4, 2)]
  const TowerRoute1: seq<Coord> := [Coord(0, 5, 2), Coord(0, 6, 2), Coord(0, 7, 2), Coord(0, 7, 3), Coord(0, 8, 3), Coord(0, 8, 4), Coord(0, 9, 4), Coord(1, 9, 4), Coord(1, 9, 3), Coord(1, 9, 2)]
  const TowerRoute2: seq<Coord> := [Coord(1, 8, 2), Coord(2, 8, 2), Coord(2, 7, 2), Coord(2, 6, 2), Coord(2, 6, 1), Coord(2, 6, 0), Coord(3, 6, 0), Coord(3, 5, 0), Coord(3, 4, 0), Coord(3, 3, 0)]
  const TowerRoute3: seq<Coord> := [Coord(3, 2, 0), Coord(3, 2, 1), Coord(3, 2, 2), Coord(3, 2, 3), Coord(4, 2, 3), Coord(4, 3, 3), Coord(4, 4, 3), Coord(4, 5, 3), Coord(4, 5, 4), Coord(4, 5, 5)]
  const TowerRoute4: seq<Coord> := [Coord(4, 4, 5), Coord(4, 3, 5), Coord(4, 2, 5), Coord(4, 1, 5), Coord(4, 0, 5), Coord(4, 0, 6), Coord(4, 0, 7), Coord(3, 0, 7), Coord(3, 1, 7), Coord(3, 2, 7)]
  const TowerRoute5: seq<Coord> := [Coord(3, 2, 8), Coord(3, 3, 8), Coord(3, 4, 8), Coord(3, 5, 8), Coord(3, 6, 8), Coord(3, 7, 8), Coord(2, 7, 8), Coord(2, 7, 7), Coord(2, 7, 6)]
  /** A shortest escape route, cell by cell. */
  const TowerRoute: seq<Coord> := TowerRoute0 + TowerRoute1 + TowerRoute2 + TowerRoute3 + TowerRoute4 + TowerRoute5

  // The route, ten cells at a time: AIR inside, one unit move per step.

  lemma TowerRoutePart0(k: nat)
    requires 0 <= k < 10 && k < |TowerRoute| - 1
    ensures 0 < k ==> InBounds(TowerGrid, TowerRoute[k]) && Symbol(TowerGrid, TowerRoute[k]) == Air
    ensures IsAdjacent(TowerRoute[k], TowerRoute[k + 1])
  {
    assert k == 0 || k == 1 || k == 2 || k == 3 || k == 4 || k == 5 || k == 6 || k == 7 || k == 8 || k == 9;
  }

  lemma TowerRoutePart1(k: nat)
    requires 10 <= k < 20 && k < |TowerRoute| - 1
    ensures 0 < k ==> InBounds(TowerGrid, TowerRoute[k]) && Symbol(TowerGrid, TowerRoute[k]) == Air
    ensures IsAdjacent(TowerRoute[k], TowerRoute[k + 1])
  {
    assert k == 10 || k == 11 || k == 12 || k == 13 || k == 14 || k == 15 || k == 16 || k == 17 || k == 18 || k == 19;
  }

  lemma TowerRoutePart2(k: nat)
    requires 20 <= k < 30 && k < |TowerRoute| - 1
    ensures 0 < k ==> InBounds(TowerGrid, TowerRoute[k]) && Symbol(TowerGrid, TowerRoute[k]) == Air
    ensures IsAdjacent(TowerRoute[k], TowerRoute[k + 1])
  {
    assert k == 20 || k == 21 || k == 22 || k == 23 || k == 24 || k == 25 || k == 26 || k == 27 || k == 28 || k == 29;
  }

  lemma TowerRoutePart3(k: nat)
    requires 30 <= k < 40 && k < |TowerRoute| - 1
    ensures 0 < k ==> InBounds(TowerGrid, TowerRoute[k]) && Symbol(TowerGrid, TowerRoute[k]) == Air
    ensures IsAdjacent(TowerRoute[k], TowerRoute[k + 1])
  {
    assert k == 30 || k == 31 || k == 32 || k == 33 || k == 34 || k == 35 || k == 36 || k == 37 || k == 38 || k == 39;
  }

  lemma TowerRoutePart4(k: nat)
    requires 40 <= k < 50 && k < |TowerRoute| - 1
    ensures 0 < k ==> InBounds(TowerGrid, TowerRoute[k]) && Symbol(TowerGrid, TowerRoute[k]) == Air
    ensures IsAdjacent(TowerRoute[k], TowerRoute[k + 1])
  {
    assert k == 40 || k == 41 || k == 42 || k == 43 || k == 44 || k == 45 || k == 46 || k == 47 || k == 48 || k == 49;
  }

  lemma TowerRoutePart5(k: nat)
    requires 50 <= k < 59 && k < |TowerRoute| - 1
    ensures 0 < k ==> InBounds(TowerGrid, TowerRoute[k]) && Symbol(TowerGrid, TowerRoute[k]) == Air
    ensures IsAdjacent(TowerRoute[k], TowerRoute[k + 1])
  {
    assert k == 50 || k == 51 || k == 52 || k == 53 || k == 54 || k == 55 || k == 56 || k == 57 || k == 58;
  }

  /** The route runs from START to END through AIR, one unit move at a time. */
  lemma TowerRouteValid()
    ensures |TowerRoute| == 59 && TowerRoute[0] == Coord(2, 1, 2) && TowerRoute[58] == Coord(2, 7, 6)
    ensures forall k :: 0 < k < |TowerRoute| - 1 ==> InBounds(TowerGrid, TowerRoute[k]) && Symbol(TowerGrid, TowerRoute[k]) == Air
    ensures forall k :: 0 <= k < |TowerRoute| - 1 ==> IsAdjacent(TowerRoute[k], TowerRoute[k + 1])
  {
    forall k: nat | k < |TowerRoute| - 1
      ensures 0 < k ==> InBounds(TowerGrid, TowerRoute[k]) && Symbol(TowerGrid, TowerRoute[k]) == Air
      ensures IsAdjacent(TowerRoute[k], TowerRoute[k + 1])
    {
      if k < 10 {
        TowerRoutePart0(k);
      } else if k < 20 {
        TowerRoutePart1(k);
      } else if k < 30 {
        TowerRoutePart2(k);
      } else if k < 40 {
        TowerRoutePart3(k);
      } else if k < 50 {
        TowerRoutePart4(k);
      } else {
        TowerRoutePart5(k);
      }
    }
  }

  /** The escape time of the labyrinth is the count the table gives END. */
  lemma TowerEscape()
    ensures HasMarkers(TowerGrid) && EscapeTime(TowerGrid, Some(58))
  {
    TowerMarkers();
    TowerSteps();
    TowerRouteValid();
    assert TowerMovesAt(Coord(2, 1, 2)) == 0 && TowerMovesAt(Coord(2, 7, 6)) == 58;
    EscapeByCertificate(TowerGrid, TowerMovesAt, TowerRoute, 58, Coord(2, 1, 2), Coord(2, 7, 6));
  }

  /** labyrinth/labyrinth_test.py:79-135: the header, the layers each
      followed by an empty line, and the terminator. */
  const Tower: seq<string> := ["5 10 10"] + Blocks(TowerGrid) + ["0 0 0"]

  /** No row of the five layers is a header line, and each layer has ten rows. */
  lemma TowerRows()
    ensures forall d :: 0 <= d < |TowerGrid| ==> |TowerGrid[d]| == 10
    ensures forall d, l :: 0 <= d < |TowerGrid| && 0 <= l < |TowerGrid[d]| ==> !IsHeader(TowerGrid[d][l])
  {
    forall l | 0 <= l < |TowerLayer0| ensures !IsHeader(TowerLayer0[l]) {
      assert l == 0 || l == 1 || l == 2 || l == 3 || l == 4 || l == 5 || l == 6 || l == 7 || l == 8 || l == 9;
    }
    forall l | 0 <= l < |TowerLayer1| ensures !IsHeader(TowerLayer1[l]) {
      assert l == 0 || l == 1 || l == 2 || l == 3 || l == 4 || l == 5 || l == 6 || l == 7 || l == 8 || l == 9;
    }
    forall l | 0 <= l < |TowerLayer2| ensures !IsHeader(TowerLayer2[l]) {
      assert l == 0 || l == 1 || l == 2 || l == 3 || l == 4 || l == 5 || l == 6 || l == 7 || l == 8 || l == 9;
    }
    forall l | 0 <= l < |TowerLayer3| ensures !IsHeader(TowerLayer3[l]) {
      assert l == 0 || l == 1 || l == 2 || l == 3 || l == 4 || l == 5 || l == 6 || l == 7 || l == 8 || l == 9;
    }
    forall l | 0 <= l < |TowerLayer4| ensures !IsHeader(TowerLayer4[l]) {
      assert l == 0 || l == 1 || l == 2 || l == 3 || l == 4 || l == 5 || l == 6 || l == 7 || l == 8 || l == 9;
    }
    forall d, l | 0 <= d < |TowerGrid| && 0 <= l < |TowerGrid[d]| ensures !IsHeader(TowerGrid[d][l]) {
      assert d == 0 || d == 1 || d == 2 || d == 3 || d == 4;
    }
  }

  lemma TowerParses()
    ensures WellFormedInput(Tower) && Parse(Tower) == [TowerGrid]
  {
    LargeHeaders();
    TowerRows();
    Terminator();
    RecordThen("5 10 10", TowerGrid, ["0 0 0"]);
  }

  /** labyrinth/labyrinth_test.py:78-140: the answer is 58. */
  method EscapeTower() returns (results: seq<Option<nat>>)
    ensures results == [Some(58)]
  {
    TowerParses();
    TowerEscape();
    results := EscapeLabyrinths(Tower);
    EscapeTimeUnique(TowerGrid, results[0], Some(58));
  }
}
