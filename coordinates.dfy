/** Cells of a labyrinth grid and the coordinate list of its passable cells
    (labyrinth/labyrinth.py, get_air_coordinates). */
module Coordinates {

  import opened Wrappers
  import opened Parser

  const Air: char := '.'
  const Start: char := 'S'
  const End: char := 'E'

  /** A cell position `[y, x, z]`: layer, row and column. */
  datatype Coord = Coord(y: int, x: int, z: int)

  /** A visited cell: its position and its symbol. */
  datatype Cell = Cell(pos: Coord, symbol: char)

  predicate InBounds(grid: Grid, c: Coord) {
    0 <= c.y < |grid| && 0 <= c.x < |grid[c.y]| && 0 <= c.z < |grid[c.y][c.x]|
  }

  function Symbol(grid: Grid, c: Coord): char
    requires InBounds(grid, c)
  {
    grid[c.y][c.x][c.z]
  }

  /** Scan order: layer first, then row, then column. */
  predicate ScanBefore(a: Coord, b: Coord) {
    a.y < b.y || (a.y == b.y && (a.x < b.x || (a.x == b.x && a.z < b.z)))
  }

  ghost predicate CellsIncreasing(cells: seq<Cell>) {
    forall a, b :: 0 <= a < b < |cells| ==> ScanBefore(cells[a].pos, cells[b].pos)
  }

  ghost predicate CoordsIncreasing(cs: seq<Coord>) {
    forall a, b :: 0 <= a < b < |cs| ==> ScanBefore(cs[a], cs[b])
  }

  /** Every cell of the list lies in the grid and carries the grid's symbol. */
  ghost predicate CellsSound(grid: Grid, cells: seq<Cell>) {
    forall m :: 0 <= m < |cells| ==> InBounds(grid, cells[m].pos) && Symbol(grid, cells[m].pos) == cells[m].symbol
  }

  // ----- The cells of a grid in scan order, built prefix by prefix as the
  // ----- three nested loops of get_air_coordinates visit them.

  /** The first `k` cells of row `x` of layer `y`. */
  function RowCells(grid: Grid, y: nat, x: nat, k: nat): seq<Cell>
    requires y < |grid| && x < |grid[y]| && k <= |grid[y][x]|
  {
    if k == 0 then [] else RowCells(grid, y, x, k - 1) + [Cell(Coord(y, x, k - 1), grid[y][x][k - 1])]
  }

  /** The cells of the first `k` rows of layer `y`. */
  function LayerCells(grid: Grid, y: nat, k: nat): seq<Cell>
    requires y < |grid| && k <= |grid[y]|
  {
    if k == 0 then [] else LayerCells(grid, y, k - 1) + RowCells(grid, y, k - 1, |grid[y][k - 1]|)
  }

  /** The cells of the first `k` layers. */
  function GridCells(grid: Grid, k: nat): seq<Cell>
    requires k <= |grid|
  {
    if k == 0 then [] else GridCells(grid, k - 1) + LayerCells(grid, k - 1, |grid[k - 1]|)
  }

  /** Every cell of the grid, in scan order. */
  function Cells(grid: Grid): seq<Cell> {
    GridCells(grid, |grid|)
  }

  // ----- What the scan collects.

  /** Positions of the AIR cells, in order. */
  function AirOf(cells: seq<Cell>): seq<Coord> {
    if cells == [] then []
    else AirOf(cells[..|cells| - 1]) + (if cells[|cells| - 1].symbol == Air then [cells[|cells| - 1].pos] else [])
  }

  /** Position of the last cell carrying `ch`: the slot that each sighting of
      `ch` overwrites. */
  function LastOf(cells: seq<Cell>, ch: char): Option<Coord> {
    if cells == [] then None
    else if cells[|cells| - 1].symbol == ch then Some(cells[|cells| - 1].pos)
    else LastOf(cells[..|cells| - 1], ch)
  }

  /** The grid holds a START and an END cell. */
  predicate HasMarkers(grid: Grid) {
    LastOf(Cells(grid), Start).Some? && LastOf(Cells(grid), End).Some?
  }

  /** The coordinate list: START, the AIR cells in scan order, END. */
  function AirCoordinates(grid: Grid): seq<Coord>
    requires HasMarkers(grid)
  {
    [LastOf(Cells(grid), Start).value] + AirOf(Cells(grid)) + [LastOf(Cells(grid), End).value]
  }

  /** The values the scan keeps after visiting `seen`: the AIR positions in
      order and the last START and END positions. */
  predicate Scanned(seen: seq<Cell>, air: seq<Coord>, start: Option<Coord>, end: Option<Coord>) {
    air == AirOf(seen) && start == LastOf(seen, Start) && end == LastOf(seen, End)
  }

  /** What visiting one more cell does to the collected values. */
  lemma ScanStep(seen: seq<Cell>, cell: Cell)
    ensures AirOf(seen + [cell]) == AirOf(seen) + (if cell.symbol == Air then [cell.pos] else [])
    ensures LastOf(seen + [cell], Start) == if cell.symbol == Start then Some(cell.pos) else LastOf(seen, Start)
    ensures LastOf(seen + [cell], End) == if cell.symbol == End then Some(cell.pos) else LastOf(seen, End)
  {
    assert (seen + [cell])[..|seen|] == seen;
  }

  /** labyrinth/labyrinth.py:51-75. The triple loop visits every cell in scan
      order, appends AIR positions and overwrites the START and END slots; the
      result is START, the AIR positions, END. */
  method GetAirCoordinates(grid: Grid) returns (coords: seq<Coord>)
    requires HasMarkers(grid)
    ensures coords == AirCoordinates(grid)
  {
    var air: seq<Coord> := [];
    var start: Option<Coord> := None;
    var end: Option<Coord> := None;
    ghost var seen: seq<Cell> := [];
    for y := 0 to |grid|
      invariant seen == GridCells(grid, y) && Scanned(seen, air, start, end)
    {
      ghost var layerStart := seen;
      for x := 0 to |grid[y]|
        invariant seen == layerStart + LayerCells(grid, y, x) && Scanned(seen, air, start, end)
      {
        ghost var rowStart := seen;
        for z := 0 to |grid[y][x]|
          invariant seen == rowStart + RowCells(grid, y, x, z) && Scanned(seen, air, start, end)
        {
          var element := grid[y][x][z];
          ghost var cell := Cell(Coord(y, x, z), element);
          ScanStep(seen, cell);
          if element == Air {
            air := air + [Coord(y, x, z)];
          }
          if element == Start {
            start := Some(Coord(y, x, z));
          }
          if element == End {
            end := Some(Coord(y, x, z));
          }
          assert Scanned(seen + [cell], air, start, end);
          RowCellsStep(grid, rowStart, y, x, z);
          seen := seen + [cell];
        }
        LayerCellsStep(grid, layerStart, y, x);
      }
    }
    assert seen == Cells(grid);
    coords := [start.value] + air + [end.value];
  }

  lemma RowCellsStep(grid: Grid, before: seq<Cell>, y: nat, x: nat, z: nat)
    requires y < |grid| && x < |grid[y]| && z < |grid[y][x]|
    ensures before + RowCells(grid, y, x, z + 1) == before + RowCells(grid, y, x, z) + [Cell(Coord(y, x, z), grid[y][x][z])]
  {
  }

  lemma LayerCellsStep(grid: Grid, before: seq<Cell>, y: nat, x: nat)
    requires y < |grid| && x < |grid[y]|
    ensures before + LayerCells(grid, y, x) + RowCells(grid, y, x, |grid[y][x]|) == before + LayerCells(grid, y, x + 1)
  {
  }

  // ----- The scan visits every cell of the grid exactly once, in scan order.

  lemma {:induction false} RowCellsAt(grid: Grid, y: nat, x: nat, k: nat)
    requires y < |grid| && x < |grid[y]| && k <= |grid[y][x]|
    ensures |RowCells(grid, y, x, k)| == k
    ensures forall m :: 0 <= m < k ==> RowCells(grid, y, x, k)[m] == Cell(Coord(y, x, m), grid[y][x][m])
  {
    if k > 0 {
      RowCellsAt(grid, y, x, k - 1);
    }
  }

  lemma ConcatSound(grid: Grid, a: seq<Cell>, b: seq<Cell>)
    requires CellsSound(grid, a) && CellsSound(grid, b)
    ensures CellsSound(grid, a + b)
  {
    forall m | 0 <= m < |a + b|
      ensures InBounds(grid, (a + b)[m].pos) && Symbol(grid, (a + b)[m].pos) == (a + b)[m].symbol
    {
      if m >= |a| {
        assert (a + b)[m] == b[m - |a|];
      }
    }
  }

  lemma ConcatIncreasing(a: seq<Cell>, b: seq<Cell>)
    requires CellsIncreasing(a) && CellsIncreasing(b)
    requires forall i, j :: 0 <= i < |a| && 0 <= j < |b| ==> ScanBefore(a[i].pos, b[j].pos)
    ensures CellsIncreasing(a + b)
  {
    forall i, j | 0 <= i < j < |a + b| ensures ScanBefore((a + b)[i].pos, (a + b)[j].pos) {
      if j < |a| {
      } else if i < |a| {
        assert (a + b)[j] == b[j - |a|];
      } else {
        assert (a + b)[i] == b[i - |a|] && (a + b)[j] == b[j - |a|];
      }
    }
  }

  /** The cells of one row: sound, in scan order, and all of the row. */
  lemma RowCellsScan(grid: Grid, y: nat, x: nat)
    requires y < |grid| && x < |grid[y]|
    ensures CellsSound(grid, RowCells(grid, y, x, |grid[y][x]|))
    ensures CellsIncreasing(RowCells(grid, y, x, |grid[y][x]|))
    ensures forall m :: 0 <= m < |RowCells(grid, y, x, |grid[y][x]|)| ==>
      RowCells(grid, y, x, |grid[y][x]|)[m].pos.y == y && RowCells(grid, y, x, |grid[y][x]|)[m].pos.x == x
    ensures forall z :: 0 <= z < |grid[y][x]| ==> Cell(Coord(y, x, z), grid[y][x][z]) in RowCells(grid, y, x, |grid[y][x]|)
  {
    RowCellsAt(grid, y, x, |grid[y][x]|);
    var r := RowCells(grid, y, x, |grid[y][x]|);
    forall z | 0 <= z < |grid[y][x]| ensures Cell(Coord(y, x, z), grid[y][x][z]) in r {
      assert r[z] == Cell(Coord(y, x, z), grid[y][x][z]);
    }
  }

  /** The cells of the first `k` rows of a layer: sound, in scan order, and all of them. */
  lemma {:induction false} LayerCellsScan(grid: Grid, y: nat, k: nat)
    requires y < |grid| && k <= |grid[y]|
    ensures CellsSound(grid, LayerCells(grid, y, k))
    ensures CellsIncreasing(LayerCells(grid, y, k))
    ensures forall m :: 0 <= m < |LayerCells(grid, y, k)| ==>
      LayerCells(grid, y, k)[m].pos.y == y && LayerCells(grid, y, k)[m].pos.x < k
    ensures forall x, z :: 0 <= x < k && 0 <= z < |grid[y][x]| ==> Cell(Coord(y, x, z), grid[y][x][z]) in LayerCells(grid, y, k)
  {
    if k > 0 {
      LayerCellsScan(grid, y, k - 1);
      RowCellsScan(grid, y, k - 1);
      var a, b := LayerCells(grid, y, k - 1), RowCells(grid, y, k - 1, |grid[y][k - 1]|);
      ConcatSound(grid, a, b);
      ConcatIncreasing(a, b);
      assert LayerCells(grid, y, k) == a + b;
      forall m | 0 <= m < |a + b| ensures (a + b)[m].pos.y == y && (a + b)[m].pos.x < k {
        if m >= |a| {
          assert (a + b)[m] == b[m - |a|];
        }
      }
    }
  }

  /** The cells of the first `k` layers: sound, in scan order, and all of them. */
  lemma {:induction false} GridCellsScan(grid: Grid, k: nat)
    requires k <= |grid|
    ensures CellsSound(grid, GridCells(grid, k))
    ensures CellsIncreasing(GridCells(grid, k))
    ensures forall m :: 0 <= m < |GridCells(grid, k)| ==> GridCells(grid, k)[m].pos.y < k
    ensures forall c :: InBounds(grid, c) && c.y < k ==> Cell(c, Symbol(grid, c)) in GridCells(grid, k)
  {
    if k > 0 {
      GridCellsScan(grid, k - 1);
      LayerCellsScan(grid, k - 1, |grid[k - 1]|);
      var a, b := GridCells(grid, k - 1), LayerCells(grid, k - 1, |grid[k - 1]|);
      ConcatSound(grid, a, b);
      ConcatIncreasing(a, b);
      assert GridCells(grid, k) == a + b;
      forall m | 0 <= m < |a + b| ensures (a + b)[m].pos.y < k {
        if m >= |a| {
          assert (a + b)[m] == b[m - |a|];
        }
      }
      forall c | InBounds(grid, c) && c.y < k ensures Cell(c, Symbol(grid, c)) in a + b {
        if c.y == k - 1 {
          assert c == Coord(c.y, c.x, c.z);
          assert Cell(c, Symbol(grid, c)) in b;
        }
      }
    }
  }

  /** `Cells` lists exactly the grid's cells, each with its symbol, each once,
      in layer/row/column order. */
  lemma CellsScan(grid: Grid)
    ensures CellsSound(grid, Cells(grid))
    ensures CellsIncreasing(Cells(grid))
    ensures forall c :: InBounds(grid, c) ==> Cell(c, Symbol(grid, c)) in Cells(grid)
  {
    GridCellsScan(grid, |grid|);
  }

  // ----- What AirOf and LastOf pick out of a cell list.

  lemma {:induction false} AirOfMembers(cells: seq<Cell>)
    ensures forall c :: c in AirOf(cells) <==> Cell(c, Air) in cells
    ensures CellsIncreasing(cells) ==> CoordsIncreasing(AirOf(cells))
    decreases |cells|
  {
    if cells != [] {
      var front, last := cells[..|cells| - 1], cells[|cells| - 1];
      assert cells == front + [last];
      AirOfMembers(front);
      if CellsIncreasing(cells) {
        var cs := AirOf(cells);
        forall a, b | 0 <= a < b < |cs| ensures ScanBefore(cs[a], cs[b]) {
          if b == |AirOf(front)| {
            assert cs[a] in AirOf(front);
            var i :| 0 <= i < |front| && front[i] == Cell(cs[a], Air);
            assert cells[i] == front[i];
          }
        }
      }
    }
  }

  lemma {:induction false} LastOfFacts(cells: seq<Cell>, ch: char)
    ensures LastOf(cells, ch).None? <==> forall m :: 0 <= m < |cells| ==> cells[m].symbol != ch
    ensures LastOf(cells, ch).Some? ==>
      exists k :: 0 <= k < |cells| && cells[k] == Cell(LastOf(cells, ch).value, ch) &&
        forall m :: k < m < |cells| ==> cells[m].symbol != ch
    decreases |cells|
  {
    if cells != [] {
      var front := cells[..|cells| - 1];
      LastOfFacts(front, ch);
      if cells[|cells| - 1].symbol != ch && LastOf(front, ch).Some? {
        var k :| 0 <= k < |front| && front[k] == Cell(LastOf(front, ch).value, ch) &&
          forall m :: k < m < |front| ==> front[m].symbol != ch;
        assert cells[k] == front[k];
      }
    }
  }

  /** A grid has its markers exactly when it holds a START cell and an END cell. */
  lemma HasMarkersExactly(grid: Grid)
    ensures HasMarkers(grid) <==>
      (exists c :: InBounds(grid, c) && Symbol(grid, c) == Start) &&
      (exists c :: InBounds(grid, c) && Symbol(grid, c) == End)
  {
    var cells := Cells(grid);
    CellsScan(grid);
    LastOfFacts(cells, Start);
    LastOfFacts(cells, End);
    if exists c :: InBounds(grid, c) && Symbol(grid, c) == Start {
      var c :| InBounds(grid, c) && Symbol(grid, c) == Start;
      var m :| 0 <= m < |cells| && cells[m] == Cell(c, Start);
    }
    if exists c :: InBounds(grid, c) && Symbol(grid, c) == End {
      var c :| InBounds(grid, c) && Symbol(grid, c) == End;
      var m :| 0 <= m < |cells| && cells[m] == Cell(c, End);
    }
  }

  /** In a list in scan order, the last cell carrying `ch` is the latest of
      them. */
  lemma LastOfLatest(cells: seq<Cell>, ch: char, p: Coord)
    requires CellsIncreasing(cells) && LastOf(cells, ch).Some? && Cell(p, ch) in cells
    ensures p == LastOf(cells, ch).value || ScanBefore(p, LastOf(cells, ch).value)
  {
    LastOfFacts(cells, ch);
    var last := LastOf(cells, ch).value;
    var k :| 0 <= k < |cells| && cells[k] == Cell(last, ch) && forall m :: k < m < |cells| ==> cells[m].symbol != ch;
    var m :| 0 <= m < |cells| && cells[m] == Cell(p, ch);
    if m < k {
      assert ScanBefore(cells[m].pos, cells[k].pos);
    }
  }

  /** The slot for marker `ch` ends up holding the last cell of that symbol in
      scan order: it carries `ch` and no `ch` cell comes after it. */
  lemma LastMarker(grid: Grid, ch: char)
    requires LastOf(Cells(grid), ch).Some?
    ensures InBounds(grid, LastOf(Cells(grid), ch).value)
    ensures Symbol(grid, LastOf(Cells(grid), ch).value) == ch
    ensures forall c :: InBounds(grid, c) && Symbol(grid, c) == ch ==>
      c == LastOf(Cells(grid), ch).value || ScanBefore(c, LastOf(Cells(grid), ch).value)
  {
    var cells := Cells(grid);
    CellsScan(grid);
    LastOfFacts(cells, ch);
    forall c | InBounds(grid, c) && Symbol(grid, c) == ch
      ensures c == LastOf(cells, ch).value || ScanBefore(c, LastOf(cells, ch).value)
    {
      LastOfLatest(cells, ch, c);
    }
  }

  // ----- Counting AIR cells directly on the grid.

  /** Number of AIR cells in the first `k` rows of a layer. */
  function LayerAirCount(layer: seq<string>, k: nat): nat
    requires k <= |layer|
  {
    if k == 0 then 0 else LayerAirCount(layer, k - 1) + multiset(layer[k - 1])[Air]
  }

  /** Number of AIR cells in the first `k` layers. */
  function GridAirCount(grid: Grid, k: nat): nat
    requires k <= |grid|
  {
    if k == 0 then 0 else GridAirCount(grid, k - 1) + LayerAirCount(grid[k - 1], |grid[k - 1]|)
  }

  lemma {:induction false} AirOfConcat(a: seq<Cell>, b: seq<Cell>)
    ensures AirOf(a + b) == AirOf(a) + AirOf(b)
    decreases |b|
  {
    if b == [] {
      assert a + b == a;
    } else {
      var front := b[..|b| - 1];
      assert (a + b)[..|a + b| - 1] == a + front;
      AirOfConcat(a, front);
    }
  }

  lemma {:induction false} RowAirCount(grid: Grid, y: nat, x: nat, k: nat)
    requires y < |grid| && x < |grid[y]| && k <= |grid[y][x]|
    ensures |AirOf(RowCells(grid, y, x, k))| == multiset(grid[y][x][..k])[Air]
  {
    var row := grid[y][x];
    if k > 0 {
      var cell := Cell(Coord(y, x, k - 1), row[k - 1]);
      RowAirCount(grid, y, x, k - 1);
      AirOfConcat(RowCells(grid, y, x, k - 1), [cell]);
      assert [cell][..0] == [];
      assert row[..k] == row[..k - 1] + [row[k - 1]];
      assert multiset(row[..k]) == multiset(row[..k - 1]) + multiset{row[k - 1]};
    }
  }

  lemma {:induction false} LayerAirCountIs(grid: Grid, y: nat, k: nat)
    requires y < |grid| && k <= |grid[y]|
    ensures |AirOf(LayerCells(grid, y, k))| == LayerAirCount(grid[y], k)
  {
    if k > 0 {
      LayerAirCountIs(grid, y, k - 1);
      RowAirCount(grid, y, k - 1, |grid[y][k - 1]|);
      AirOfConcat(LayerCells(grid, y, k - 1), RowCells(grid, y, k - 1, |grid[y][k - 1]|));
      assert grid[y][k - 1][..|grid[y][k - 1]|] == grid[y][k - 1];
    }
  }

  lemma {:induction false} GridAirCountIs(grid: Grid, k: nat)
    requires k <= |grid|
    ensures |AirOf(GridCells(grid, k))| == GridAirCount(grid, k)
  {
    if k > 0 {
      GridAirCountIs(grid, k - 1);
      LayerAirCountIs(grid, k - 1, |grid[k - 1]|);
      AirOfConcat(GridCells(grid, k - 1), LayerCells(grid, k - 1, |grid[k - 1]|));
    }
  }

  /** Shape of the coordinate list (labyrinth/labyrinth.py:64-74): START first,
      END last, and between them every AIR cell of the grid exactly once, in
      scan order, and nothing else; so no rock cell is listed and the length is
      the number of AIR cells plus two. */
  lemma CoordinateListShape(grid: Grid)
    requires HasMarkers(grid)
    ensures var coords := AirCoordinates(grid);
      && |coords| == GridAirCount(grid, |grid|) + 2
      && InBounds(grid, coords[0]) && Symbol(grid, coords[0]) == Start
      && InBounds(grid, coords[|coords| - 1]) && Symbol(grid, coords[|coords| - 1]) == End
      && (forall k :: 1 <= k < |coords| - 1 ==> InBounds(grid, coords[k]) && Symbol(grid, coords[k]) == Air)
      && (forall c :: InBounds(grid, c) && Symbol(grid, c) == Air ==> c in coords[1..|coords| - 1])
      && CoordsIncreasing(coords[1..|coords| - 1])
  {
    var cells := Cells(grid);
    var coords := AirCoordinates(grid);
    var air := AirOf(cells);
    CellsScan(grid);
    AirOfMembers(cells);
    GridAirCountIs(grid, |grid|);
    LastMarker(grid, Start);
    LastMarker(grid, End);
    assert coords[1..|coords| - 1] == air;
    forall k | 1 <= k < |coords| - 1 ensures InBounds(grid, coords[k]) && Symbol(grid, coords[k]) == Air {
      assert coords[k] == air[k - 1];
      assert air[k - 1] in air;
      var m :| 0 <= m < |cells| && cells[m] == Cell(air[k - 1], Air);
    }
  }

  /** Every AIR cell is listed. */
  lemma AirListed(grid: Grid, c: Coord)
    requires HasMarkers(grid) && InBounds(grid, c) && Symbol(grid, c) == Air
    ensures c in AirCoordinates(grid)
  {
    CoordinateListShape(grid);
    var coords := AirCoordinates(grid);
    var k :| 0 <= k < |coords| - 2 && coords[1..|coords| - 1][k] == c;
    assert coords[k + 1] == c;
  }

  /** A cell the path may use: AIR, START or END. */
  predicate Passable(grid: Grid, c: Coord) {
    InBounds(grid, c) && (Symbol(grid, c) == Air || Symbol(grid, c) == Start || Symbol(grid, c) == End)
  }

  /** Every listed cell is passable; in particular no rock cell is listed. */
  lemma NoRockListed(grid: Grid, k: nat)
    requires HasMarkers(grid) && k < |AirCoordinates(grid)|
    ensures Passable(grid, AirCoordinates(grid)[k])
    ensures Symbol(grid, AirCoordinates(grid)[k]) != '#'
  {
    CoordinateListShape(grid);
  }

  /** A list whose neighbours are in scan order is in scan order throughout. */
  lemma {:induction false} IncreasingByNeighbours(cs: seq<Coord>)
    requires forall k :: 0 <= k < |cs| - 1 ==> ScanBefore(cs[k], cs[k + 1])
    ensures CoordsIncreasing(cs)
    decreases |cs|
  {
    if |cs| > 1 {
      IncreasingByNeighbours(cs[1..]);
      forall a, b | 0 <= a < b < |cs| ensures ScanBefore(cs[a], cs[b]) {
        if a > 0 {
          assert cs[a] == cs[1..][a - 1] && cs[b] == cs[1..][b - 1];
        } else if b > 1 {
          assert cs[1] == cs[1..][0] && cs[b] == cs[1..][b - 1];
        }
      }
    }
  }

  /** Two lists in strictly increasing scan order with the same members are equal. */
  lemma {:induction false} IncreasingUnique(a: seq<Coord>, b: seq<Coord>)
    requires CoordsIncreasing(a) && CoordsIncreasing(b)
    requires forall c :: c in a <==> c in b
    ensures a == b
    decreases |a| + |b|
  {
    assert a != [] ==> a[0] in b;
    assert b != [] ==> b[0] in a;
    if a != [] && b != [] {
      var a0, b0 := a[0], b[0];
      var i :| 0 <= i < |b| && b[i] == a0;
      var j :| 0 <= j < |a| && a[j] == b0;
      assert i == 0 || ScanBefore(b0, a0);
      assert j == 0 || ScanBefore(a0, b0);
      assert a0 == b0;
      forall c ensures c in a[1..] <==> c in b[1..] {
        if c in a[1..] {
          var k :| 1 <= k < |a| && a[k] == c;
          assert ScanBefore(a[0], c);
          assert a[k] in a;
          var m :| 0 <= m < |b| && b[m] == c;
          assert m != 0 && b[1..][m - 1] == c;
        }
        if c in b[1..] {
          var k :| 1 <= k < |b| && b[k] == c;
          assert ScanBefore(b[0], c);
          assert b[k] in b;
          var m :| 0 <= m < |a| && a[m] == c;
          assert m != 0 && a[1..][m - 1] == c;
        }
      }
      IncreasingUnique(a[1..], b[1..]);
      assert a == [a[0]] + a[1..] && b == [b[0]] + b[1..];
    }
  }

  /** START heads the list and END closes it when each is the last cell of
      its kind in scan order. */
  lemma MarkersDetermined(grid: Grid, s: Coord, e: Coord)
    requires InBounds(grid, s) && Symbol(grid, s) == Start
    requires forall c :: InBounds(grid, c) && Symbol(grid, c) == Start ==> c == s || ScanBefore(c, s)
    requires InBounds(grid, e) && Symbol(grid, e) == End
    requires forall c :: InBounds(grid, c) && Symbol(grid, c) == End ==> c == e || ScanBefore(c, e)
    ensures HasMarkers(grid)
    ensures AirCoordinates(grid)[0] == s && AirCoordinates(grid)[|AirCoordinates(grid)| - 1] == e
  {
    HasMarkersExactly(grid);
    LastMarker(grid, Start);
    LastMarker(grid, End);
  }

  /** The coordinate list is determined by the grid's contents: START is the
      START cell that no other START cell follows, END likewise, and between
      them come all AIR cells in increasing scan order. */
  lemma AirCoordinatesDetermined(grid: Grid, s: Coord, air: seq<Coord>, e: Coord)
    requires InBounds(grid, s) && Symbol(grid, s) == Start
    requires forall c :: InBounds(grid, c) && Symbol(grid, c) == Start ==> c == s || ScanBefore(c, s)
    requires InBounds(grid, e) && Symbol(grid, e) == End
    requires forall c :: InBounds(grid, c) && Symbol(grid, c) == End ==> c == e || ScanBefore(c, e)
    requires CoordsIncreasing(air)
    requires forall c :: c in air <==> InBounds(grid, c) && Symbol(grid, c) == Air
    ensures HasMarkers(grid)
    ensures AirCoordinates(grid) == [s] + air + [e]
  {
    MarkersDetermined(grid, s, e);
    AirDetermined(grid, air);
    var coords := AirCoordinates(grid);
    assert coords == [coords[0]] + coords[1..|coords| - 1] + [coords[|coords| - 1]];
  }

  /** Between START and END the list holds the AIR cells in increasing scan
      order, and no other sequence is like that. */
  lemma AirDetermined(grid: Grid, air: seq<Coord>)
    requires HasMarkers(grid)
    requires CoordsIncreasing(air)
    requires forall c :: c in air <==> InBounds(grid, c) && Symbol(grid, c) == Air
    ensures |AirCoordinates(grid)| >= 2
    ensures AirCoordinates(grid)[1..|AirCoordinates(grid)| - 1] == air
  {
    CoordinateListShape(grid);
    var coords := AirCoordinates(grid);
    var inner := coords[1..|coords| - 1];
    forall c ensures c in inner <==> c in air {
      if c in inner {
        var k :| 0 <= k < |inner| && inner[k] == c;
        assert coords[k + 1] == c;
      }
    }
    IncreasingUnique(inner, air);
  }
}
