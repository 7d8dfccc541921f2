/** The labyrinths of labyrinth/labyrinth_test.py and the answers the tests
    expect, derived from the model's specification. */
module LabyrinthExamples {

  import opened Wrappers
  import opened Coordinates
  import opened Parser
  import opened Graph
  import opened ShortestPath
  import opened Labyrinth

  /** The header of every test labyrinth but the last. */
  lemma HeaderWords()
    ensures Words("1 3 3") == ["1", "3", "3"]
    ensures WellFormedHeader("1 3 3") && Depth("1 3 3") == 1 && Length("1 3 3") == 3
  {
    assert Token("3") == "3";
    assert Words("3") == ["3"];
    assert Words(" 3") == ["3"];
    assert Token("3 3") == "3";
    assert "3 3"[1..] == " 3";
    assert Words("3 3") == ["3", "3"];
    assert Words(" 3 3") == ["3", "3"];
    assert Token("1 3 3") == "1";
    assert "1 3 3"[1..] == " 3 3";
  }

  /** labyrinth/labyrinth_test.py:15-20 */
  const OneLayer: seq<string> := ["1 3 3", "S.#", "#..", ".#E", "", "0 0 0"]

  lemma OneLayerParses()
    ensures WellFormedInput(OneLayer)
    ensures Parse(OneLayer) == [OneLayerGrid]
  {
    HeaderWords();
    ThreeRowsNoHeader(OneLayerGrid[0]);
    Terminator();
    RecordThen("1 3 3", OneLayerGrid, ["0 0 0"]);
    assert OneLayer == ["1 3 3"] + Blocks(OneLayerGrid) + ["0 0 0"];
  }

  /** No row of a 3x3 layer whose rows start with a labyrinth symbol opens a
      labyrinth. */
  lemma ThreeRowsNoHeader(layer: seq<string>)
    requires |layer| == 3 && forall l :: 0 <= l < 3 ==> |layer[l]| > 0 && !IsDigit(layer[l][0])
    ensures forall d, l :: 0 <= d < 1 && 0 <= l < |[layer][d]| ==> !IsHeader([layer][d][l])
  {
  }

  const OneLayerGrid: Grid := [["S.#", "#..", ".#E"]]

  /** The symbol at every position of the grid. */
  lemma OneLayerSymbols(c: Coord)
    requires InBounds(OneLayerGrid, c)
    ensures Symbol(OneLayerGrid, c) == Start <==> c == Coord(0, 0, 0)
    ensures Symbol(OneLayerGrid, c) == End <==> c == Coord(0, 2, 2)
    ensures Symbol(OneLayerGrid, c) == Air <==> c in [Coord(0, 0, 1), Coord(0, 1, 1), Coord(0, 1, 2), Coord(0, 2, 0)]
  {
    assert c.y == 0;
    assert c.x == 0 || c.x == 1 || c.x == 2;
    assert c.z == 0 || c.z == 1 || c.z == 2;
  }

  lemma OneLayerCoordinates()
    ensures HasMarkers(OneLayerGrid)
    ensures AirCoordinates(OneLayerGrid) ==
      [Coord(0, 0, 0), Coord(0, 0, 1), Coord(0, 1, 1), Coord(0, 1, 2), Coord(0, 2, 0), Coord(0, 2, 2)]
  {
    forall c | InBounds(OneLayerGrid, c) { OneLayerSymbols(c); }
    AirCoordinatesDetermined(OneLayerGrid, Coord(0, 0, 0),
      [Coord(0, 0, 1), Coord(0, 1, 1), Coord(0, 1, 2), Coord(0, 2, 0)], Coord(0, 2, 2));
  }
  const OneLayerCoords: seq<Coord> :=
    [Coord(0, 0, 0), Coord(0, 0, 1), Coord(0, 1, 1), Coord(0, 1, 2), Coord(0, 2, 0), Coord(0, 2, 2)]

  /** In the graph of the one-layer coordinates, END is 4 edges from START. */
  lemma OneLayerDistance(g: Graph)
    requires IsAdjacencyGraph(OneLayerCoords, g)
    ensures ShortestDistance(g, 0, 5, Some(4))
  {
    OneLayerPath(g);
    forall p | IsPath(g, p, 0, 5) ensures |p| >= 5 {
      ManhattanLowerBound(OneLayerCoords, g, p, 0, 5);
    }
  }

  lemma OneLayerPath(g: Graph)
    requires IsAdjacencyGraph(OneLayerCoords, g)
    ensures IsPath(g, [0, 1, 2, 3, 5], 0, 5)
  {
    assert 1 in g[0] by { AdjacencyEdge(OneLayerCoords, g, 0, 1); }
    assert 2 in g[1] by { AdjacencyEdge(OneLayerCoords, g, 1, 2); }
    assert 3 in g[2] by { AdjacencyEdge(OneLayerCoords, g, 2, 3); }
    assert 5 in g[3] by { AdjacencyEdge(OneLayerCoords, g, 3, 5); }
    var p := [0, 1, 2, 3, 5];
    forall k | 0 <= k < |p| - 1 ensures p[k + 1] in g[p[k]] {
      assert k == 0 || k == 1 || k == 2 || k == 3;
    }
  }

  /** labyrinth/labyrinth_test.py:14-25: the one-layer labyrinth is escaped in 4 minutes. */
  lemma OneLayerEscape()
    ensures HasMarkers(OneLayerGrid) && EscapeTime(OneLayerGrid, Some(4))
  {
    OneLayerCoordinates();
    OneLayerDistance(LabyrinthGraph(OneLayerGrid));
  }

  method EscapeOneLayer() returns (results: seq<Option<nat>>)
    ensures results == [Some(4)]
  {
    OneLayerParses();
    OneLayerEscape();
    results := EscapeLabyrinths(OneLayer);
    EscapeTimeUnique(OneLayerGrid, results[0], Some(4));
  }

  const TrappedGrid: Grid := [["S##", "#.#", ".#E"]]

  lemma TrappedSymbols(c: Coord)
    requires InBounds(TrappedGrid, c)
    ensures Symbol(TrappedGrid, c) == Start <==> c == Coord(0, 0, 0)
    ensures Symbol(TrappedGrid, c) == End <==> c == Coord(0, 2, 2)
    ensures Symbol(TrappedGrid, c) == Air <==> c in [Coord(0, 1, 1), Coord(0, 2, 0)]
  {
    assert c.y == 0;
    assert c.x == 0 || c.x == 1 || c.x == 2;
    assert c.z == 0 || c.z == 1 || c.z == 2;
  }

  lemma TrappedCoordinates()
    ensures HasMarkers(TrappedGrid) && AirCoordinates(TrappedGrid) == TrappedCoords
  {
    forall c | InBounds(TrappedGrid, c) { TrappedSymbols(c); }
    AirCoordinatesDetermined(TrappedGrid, Coord(0, 0, 0), [Coord(0, 1, 1), Coord(0, 2, 0)], Coord(0, 2, 2));
  }

  /** labyrinth/labyrinth_test.py:27-38: START is walled in, so the answer is "trapped". */
  lemma TrappedEscape()
    ensures HasMarkers(TrappedGrid) && EscapeTime(TrappedGrid, None)
  {
    TrappedCoordinates();
    TrappedUnreachable(LabyrinthGraph(TrappedGrid));
  }

  const TrappedCoords: seq<Coord> := [Coord(0, 0, 0), Coord(0, 1, 1), Coord(0, 2, 0), Coord(0, 2, 2)]

  /** In the graph of the trapped coordinates, START has no edge at all. */
  lemma TrappedUnreachable(g: Graph)
    requires IsAdjacencyGraph(TrappedCoords, g)
    ensures ShortestDistance(g, 0, 3, None)
  {
    forall j | 0 <= j < 4 ensures !IsAdjacent(TrappedCoords[0], TrappedCoords[j]) {
    }
    forall j: nat ensures j !in g[0] {
      if j < 4 {
        assert !IsAdjacent(TrappedCoords[0], TrappedCoords[j]);
      }
    }
    assert g[0] == {};
    IsolatedUnreachable(g, 0, 3);
  }

  /** labyrinth/labyrinth_test.py:28-33 */
  const Trapped: seq<string> := ["1 3 3", "S##", "#.#", ".#E", "", "0 0 0"]

  lemma TrappedParses()
    ensures WellFormedInput(Trapped)
    ensures Parse(Trapped) == [TrappedGrid]
  {
    HeaderWords();
    ThreeRowsNoHeader(TrappedGrid[0]);
    Terminator();
    RecordThen("1 3 3", TrappedGrid, ["0 0 0"]);
    assert Trapped == ["1 3 3"] + Blocks(TrappedGrid) + ["0 0 0"];
  }

  method EscapeTrapped() returns (results: seq<Option<nat>>)
    ensures results == [None]
  {
    TrappedParses();
    TrappedEscape();
    results := EscapeLabyrinths(Trapped);
    EscapeTimeUnique(TrappedGrid, results[0], None);
  }

  const CornerGrid: Grid := [["##S", "#..", ".#E"]]

  lemma CornerSymbols(c: Coord)
    requires InBounds(CornerGrid, c)
    ensures Symbol(CornerGrid, c) == Start <==> c == Coord(0, 0, 2)
    ensures Symbol(CornerGrid, c) == End <==> c == Coord(0, 2, 2)
    ensures Symbol(CornerGrid, c) == Air <==> c in [Coord(0, 1, 1), Coord(0, 1, 2), Coord(0, 2, 0)]
  {
    assert c.y == 0;
    assert c.x == 0 || c.x == 1 || c.x == 2;
    assert c.z == 0 || c.z == 1 || c.z == 2;
  }

  const CornerCoords: seq<Coord> :=
    [Coord(0, 0, 2), Coord(0, 1, 1), Coord(0, 1, 2), Coord(0, 2, 0), Coord(0, 2, 2)]

  lemma CornerCoordinates()
    ensures HasMarkers(CornerGrid) && AirCoordinates(CornerGrid) == CornerCoords
  {
    forall c | InBounds(CornerGrid, c) { CornerSymbols(c); }
    AirCoordinatesDetermined(CornerGrid, Coord(0, 0, 2), [Coord(0, 1, 1), Coord(0, 1, 2), Coord(0, 2, 0)], Coord(0, 2, 2));
  }

  /** In the graph of the second labyrinth, END is 2 edges from START. */
  lemma CornerDistance(g: Graph)
    requires IsAdjacencyGraph(CornerCoords, g)
    ensures ShortestDistance(g, 0, 4, Some(2))
  {
    assert 2 in g[0] by { AdjacencyEdge(CornerCoords, g, 0, 2); }
    assert 4 in g[2] by { AdjacencyEdge(CornerCoords, g, 2, 4); }
    assert IsPath(g, [0], 0, 0);
    PathExtend(g, [0], 0, 0, 2);
    PathExtend(g, [0, 2], 0, 2, 4);
    forall p | IsPath(g, p, 0, 4) ensures |p| >= 3 {
      ManhattanLowerBound(CornerCoords, g, p, 0, 4);
    }
  }

  lemma CornerEscape()
    ensures HasMarkers(CornerGrid) && EscapeTime(CornerGrid, Some(2))
  {
    CornerCoordinates();
    CornerDistance(LabyrinthGraph(CornerGrid));
  }

  /** labyrinth/labyrinth_test.py:61-71 */
  const TwoLabyrinths: seq<string> :=
    ["1 3 3", "S##", "#.#", ".#E", "", "1 3 3", "##S", "#..", ".#E", "", "0 0 0"]

  /** The second labyrinth of the input and the terminator. */
  const CornerInput: seq<string> := ["1 3 3", "##S", "#..", ".#E", "", "0 0 0"]

  lemma CornerInputParses()
    ensures WellFormedInput(CornerInput) && Parse(CornerInput) == [CornerGrid]
  {
    HeaderWords();
    ThreeRowsNoHeader(CornerGrid[0]);
    Terminator();
    RecordThen("1 3 3", CornerGrid, ["0 0 0"]);
    assert CornerInput == ["1 3 3"] + Blocks(CornerGrid) + ["0 0 0"];
  }

  lemma TwoLabyrinthsParse()
    ensures WellFormedInput(TwoLabyrinths)
    ensures Parse(TwoLabyrinths) == [TrappedGrid, CornerGrid]
  {
    HeaderWords();
    ThreeRowsNoHeader(TrappedGrid[0]);
    CornerInputParses();
    RecordThen("1 3 3", TrappedGrid, CornerInput);
    assert TwoLabyrinths == ["1 3 3"] + Blocks(TrappedGrid) + CornerInput;
  }

  /** labyrinth/labyrinth_test.py:60-76: the answers come in file order, "trapped" then 2 minutes. */
  method EscapeTwoLabyrinths() returns (results: seq<Option<nat>>)
    ensures results == [None, Some(2)]
  {
    TwoLabyrinthsParse();
    TrappedEscape();
    CornerEscape();
    assert AllHaveMarkers(TwoLabyrinths) by {
      forall k | 0 <= k < 2 ensures HasMarkers(Parse(TwoLabyrinths)[k]) {
        assert Parse(TwoLabyrinths)[k] == [TrappedGrid, CornerGrid][k];
      }
    }
    results := EscapeLabyrinths(TwoLabyrinths);
    assert EscapeTime(TrappedGrid, results[0]) && EscapeTime(CornerGrid, results[1]);
    EscapeTimeUnique(TrappedGrid, results[0], None);
    EscapeTimeUnique(CornerGrid, results[1], Some(2));
  }
}
