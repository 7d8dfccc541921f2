# Labyrinth escape and iterative Fibonacci, modelled in Dafny

This project models two Python exercises. The main one is the 3D labyrinth
solver in `labyrinth/labyrinth.py`. It reads labyrinth records from the lines
of a text file. For each labyrinth it lists the START cell, the AIR cells and
the END cell, builds the graph of unit moves between them, and runs a
unit-weight Dijkstra search from START to END. The answer is either the
number of minutes (moves) to escape or "trapped". The second one is
`calculate_fib_iterative` in `fibonacci/fib.py`.

Modules, one per stage of the program:

- `Wrappers` (wrappers.dfy): the `Option` type. `None` stands for Python's
  `math.inf` as a distance and for "trapped" as an answer.
- `Parser` (parser.dfy): `input_to_matrix`. A method over the list of
  right-stripped lines. It is proved equal to the specification function
  `Parse`, and the layout, selection and order of the records are proved
  about `Parse`.
- `Coordinates` (coordinates.dfy): `get_air_coordinates`. The triple loop is
  proved equal to `AirCoordinates`. The list is START first, END last, every
  AIR cell once in scan order, and the last START and last END win.
- `Graph` (graph.dfy): `is_adjacent` and `to_graph`, with the graph type (a
  list of adjacency sets) and walks in it. Adjacency is exactly a unit step
  along one axis. The double loop builds the unique graph in which
  `j in graph[i]` holds iff the coordinates are adjacent.
- `ShortestPath` (shortest_path.dfy): `shortest_path`. The result is finite
  exactly when END is reachable, and it is then the least number of edges
  on any walk.
- `Labyrinth` (labyrinth.dfy): `escape_labyrinths`, which returns one answer
  per labyrinth, plus lower and upper bounds on escape times.
- `Fibonacci` (fibonacci.dfy): `calculate_fib_iterative`, proved against the
  recursive definition.
- `LabyrinthExamples` and `LabyrinthLargeExamples`: the five inputs of
  `labyrinth/labyrinth_test.py`, with proofs that the pipeline's answers are
  4, trapped, 13, trapped then 2, and 58.

The two large test labyrinths are proved by certificate. A table of move counts
that grows by at most one per move gives the lower bound. A route of that many
moves through AIR cells gives the upper bound.

## Model

| member | source | states |
|---|---|---|
| Parser.IsSpace | labyrinth/labyrinth.py:37 | exactly the characters Python's `str.isspace()` accepts, which `split()` splits on |
| Parser.Words | labyrinth/labyrinth.py:37 | `line.split()`: the fields are the line's maximal non-whitespace runs, in order (stated by `WordsSplit` and `SplitUnique`) |
| Parser.Token | labyrinth/labyrinth.py:37 | the first field of a line is its longest prefix without whitespace, and whitespace follows it |
| Parser.WordsSplit | labyrinth/labyrinth.py:37 | `line.split()` is a split of the line: the line is whitespace, field, whitespace, ..., field, whitespace, with each field a non-empty run of non-whitespace and each separator between two fields non-empty |
| Parser.SplitUnique | labyrinth/labyrinth.py:37 | any split of a line into such fields and separators has exactly the fields `line.split()` returns, so the fields are the line's maximal non-whitespace runs in order |
| Parser.IsHeader | labyrinth/labyrinth.py:35-36 | the header test: a non-empty line whose first character is a digit other than '0'; its properties are stated by `HeaderFirstField` and `ParseSelection` |
| Parser.HeaderFirstField | labyrinth/labyrinth.py:35-37 | a line is a header iff it starts with one of '1' to '9'; a header's first field starts with that digit |
| Parser.Value | labyrinth/labyrinth.py:37 | `int()` of a run of `k` ASCII digits is a number below `10^k` |
| Parser.ValueOfDecimal | labyrinth/labyrinth.py:37 | reading back the decimal digits of any number gives that number |
| Parser.FitsClosedForm | labyrinth/labyrinth.py:39-46 | every row a record reads exists exactly when its last row, line `start + depth*(length+1) - 2`, exists |
| Parser.LayersShape | labyrinth/labyrinth.py:39-46 | a record has `depth` layers of `length` rows each |
| Parser.LayersAt | labyrinth/labyrinth.py:39-46 | row `l` of layer `d` is line `start + d*(length+1) + l`, so one line is skipped after each layer |
| Parser.LayersSnoc | labyrinth/labyrinth.py:41-46 | the first `d+1` layers are the first `d` layers followed by the `length` lines from `start + d*(length+1)` |
| Parser.ReadLayers | labyrinth/labyrinth.py:39-46 | the nested loops over `d` and `l` return exactly the record's layers |
| Parser.InputToMatrix | labyrinth/labyrinth.py:9-48 | the loop over all lines returns exactly `Parse(lines)` |
| Parser.ParseSelection | labyrinth/labyrinth.py:33-47 | one labyrinth per header line, read at that header, in file order; a line is a header iff it starts with a digit other than '0', so empty lines and `0 0 0` never are |
| Parser.LayersShift | labyrinth/labyrinth.py:39-46 | lines put in front of a record do not change what is read from it |
| Parser.ShiftedInput | labyrinth/labyrinth.py:33-37 | putting one record in front of a well-formed input leaves it well-formed |
| Parser.RecordThen | labyrinth/labyrinth.py:33-48 | a header, its layers each followed by an empty line, then any well-formed input parse as those layers followed by the labyrinths of the rest |
| Parser.Terminator | labyrinth/labyrinth.py:35-36 | the line `0 0 0` opens no labyrinth |
| Coordinates.ScanStep | labyrinth/labyrinth.py:67-73 | visiting one more cell appends its position if it is AIR and overwrites the START or END slot if it holds that symbol |
| Coordinates.GetAirCoordinates | labyrinth/labyrinth.py:51-75 | the triple loop returns START, the AIR positions in scan order, END: exactly `AirCoordinates(grid)` |
| Coordinates.CellsScan | labyrinth/labyrinth.py:64-67 | the loops visit every cell of the grid, each in bounds with its own symbol, in strictly increasing scan order |
| Coordinates.LastMarker | labyrinth/labyrinth.py:70-73 | the START or END slot holds a cell with that symbol, and every other cell with it comes earlier in scan order: the last one wins |
| Coordinates.HasMarkersExactly | labyrinth/labyrinth.py:62-74 | both slots are filled iff the grid has a START cell and an END cell |
| Coordinates.CoordinateListShape | labyrinth/labyrinth.py:64-74 | START first, END last, every AIR cell once in between in scan order and nothing else; length is the AIR count plus two |
| Coordinates.AirListed | labyrinth/labyrinth.py:68-69 | every AIR cell is in the list |
| Coordinates.NoRockListed | labyrinth/labyrinth.py:68-74 | every listed cell is AIR, START or END, never '#' |
| Coordinates.MarkersDetermined | labyrinth/labyrinth.py:70-74 | a START cell with no START cell after it heads the list; the same holds for END at the end of the list |
| Coordinates.AirDetermined | labyrinth/labyrinth.py:64-74 | between START and END the list holds exactly the AIR cells, in increasing scan order |
| Coordinates.AirCoordinatesDetermined | labyrinth/labyrinth.py:61-75 | the list is fixed by the grid: the last START, the AIR cells in increasing scan order, the last END |
| Graph.IsAdjacent | labyrinth/labyrinth.py:78-91 | the three absolute coordinate differences sum to exactly 1, that is, the Manhattan distance is 1; what that means is stated by `AdjacentIsUnitStep` and `NoDiagonal` |
| Graph.AdjacentIsUnitStep | labyrinth/labyrinth.py:78-91 | adjacent iff a unit step along exactly one axis; symmetric; irreflexive; Manhattan distance 1 |
| Graph.NoDiagonal | labyrinth/labyrinth.py:78-91 | positions differing on two or more axes are never adjacent |
| Graph.AdjacencyGraph | labyrinth/labyrinth.py:94-108 | node `j` is in `g[i]` iff coordinates `i` and `j` are adjacent, and every neighbour is a node |
| Graph.AdjacencyGraphUnique | labyrinth/labyrinth.py:94-108 | only one graph meets that description |
| Graph.AdjacencySymmetric | labyrinth/labyrinth.py:94-108 | the graph is undirected, has no self-loops and only in-range neighbours |
| Graph.ToGraph | labyrinth/labyrinth.py:94-108 | comparing every ordered pair `(i, j)` builds exactly the adjacency graph |
| Graph.ManhattanLowerBound | labyrinth/labyrinth.py:89-106 | a walk from `i` to `j` has at least the Manhattan distance of their coordinates in edges |
| Graph.PotentialLowerBound | labyrinth/labyrinth.py:103-106 | a labelling that grows by at most one per edge bounds the length of every walk from below |
| Graph.WalkPath | labyrinth/labyrinth.py:103-106 | a walk of listed positions, adjacent step by step, is a walk of the graph with as many nodes |
| ShortestPath.ShortestDistanceUnique | labyrinth/labyrinth.py:111-135 | the correct answer of a shortest-path query is unique |
| ShortestPath.IsolatedUnreachable | labyrinth/labyrinth.py:111-135 | a node with no edges reaches no other node |
| ShortestPath.FrontierBound | labyrinth/labyrinth.py:125-133 | a walk from `start` into the queue enters it at a queued node whose recorded distance is at most the walk's length so far |
| ShortestPath.QueueMinimum | labyrinth/labyrinth.py:126-128 | the queued node of least distance has its final distance, and if that distance is infinite nothing still queued is reachable |
| ShortestPath.Nodes | labyrinth/labyrinth.py:123 | the initial queue holds exactly the nodes `0 .. n-1` |
| ShortestPath.SelectMin | labyrinth/labyrinth.py:126 | picks the queued node with the least `(distance, node)` pair, with infinity above every number and ties broken by the smaller node |
| ShortestPath.Relax | labyrinth/labyrinth.py:130-133 | each neighbour of `v` whose distance `distances[v] + 1` beats gets that distance, other nodes keep theirs, in any visiting order; each finite distance keeps a witness walk |
| ShortestPath.SearchStart | labyrinth/labyrinth.py:119-123 | with only `start` at distance 0 and every node queued, the search invariant holds |
| ShortestPath.Visit | labyrinth/labyrinth.py:126-133 | removing the least node and relaxing its edges keeps visited distances final and relaxed |
| ShortestPath.Answer | labyrinth/labyrinth.py:127-128 | when the least node is `end` or has infinite distance, `distances[end]` is the correct answer |
| ShortestPath.ShortestPath | labyrinth/labyrinth.py:111-135 | the result is `None` iff `end` is unreachable, and otherwise the least number of edges on any walk from `start` to `end` |
| Labyrinth.EscapeLabyrinths | labyrinth/labyrinth.py:138-155 | one answer per parsed labyrinth, in file order, each the escape time of that labyrinth or `None` for trapped |
| Labyrinth.EscapeTimeUnique | labyrinth/labyrinth.py:147-155 | the escape time of a labyrinth is unique |
| Labyrinth.EscapeDeterministic | labyrinth/labyrinth.py:146-155 | two correct answer lists for one input are equal |
| Labyrinth.EscapeAtLeastManhattan | labyrinth/labyrinth.py:148-151 | no escape takes fewer minutes than the Manhattan distance from START to END |
| Labyrinth.EscapeAtLeastPotential | labyrinth/labyrinth.py:148-151 | a labelling of passable cells that grows by at most one per move bounds every escape from below |
| Labyrinth.EscapeAlongWalk | labyrinth/labyrinth.py:148-151 | a route from START to END through AIR cells, one unit move per step, is a walk of the labyrinth's graph |
| Labyrinth.EscapeByCertificate | labyrinth/labyrinth.py:146-151 | a labelling that rises by `d` from the single START to the single END, plus a route of `d` moves, fixes the escape time at `d` |
| Fibonacci.CalculateFibIterative | fibonacci/fib.py:8-20 | `ValueError` exactly for a negative index; otherwise the `n`-th Fibonacci number |
| LabyrinthExamples.OneLayerParses | labyrinth/labyrinth_test.py:15-20 | the one-layer input is well formed and parses to its single 3x3 labyrinth |
| LabyrinthExamples.OneLayerEscape | labyrinth/labyrinth_test.py:14-25 | that labyrinth is escaped in 4 minutes |
| LabyrinthExamples.EscapeOneLayer | labyrinth/labyrinth_test.py:14-25 | the pipeline answers `[Some(4)]` |
| LabyrinthExamples.TrappedParses | labyrinth/labyrinth_test.py:28-33 | the walled-in input parses to its single labyrinth |
| LabyrinthExamples.TrappedEscape | labyrinth/labyrinth_test.py:27-38 | START has no passable neighbour, so the answer is trapped |
| LabyrinthExamples.EscapeTrapped | labyrinth/labyrinth_test.py:27-38 | the pipeline answers `[None]` |
| LabyrinthExamples.CornerEscape | labyrinth/labyrinth_test.py:66-69 | the second labyrinth of the two-record input is escaped in 2 minutes |
| LabyrinthExamples.TwoLabyrinthsParse | labyrinth/labyrinth_test.py:61-71 | the two-record input parses to both labyrinths in file order |
| LabyrinthExamples.EscapeTwoLabyrinths | labyrinth/labyrinth_test.py:60-76 | the pipeline answers `[None, Some(2)]` |
| LabyrinthLargeExamples.MazeParses | labyrinth/labyrinth_test.py:41-53 | the 10x10 input parses to its single labyrinth |
| LabyrinthLargeExamples.MazeEscape | labyrinth/labyrinth_test.py:40-58 | the 10x10 labyrinth is escaped in 13 minutes |
| LabyrinthLargeExamples.EscapeMaze | labyrinth/labyrinth_test.py:40-58 | the pipeline answers `[Some(13)]` |
| LabyrinthLargeExamples.TowerParses | labyrinth/labyrinth_test.py:79-135 | the five-layer input parses to its single labyrinth |
| LabyrinthLargeExamples.TowerEscape | labyrinth/labyrinth_test.py:78-140 | the five-layer labyrinth is escaped in 58 minutes |
| LabyrinthLargeExamples.EscapeTower | labyrinth/labyrinth_test.py:78-140 | the pipeline answers `[Some(58)]` |

## Left out

- Reading the file (labyrinth/labyrinth.py:30-31): the model starts from the list of lines, already right-stripped.
- The printed messages (labyrinth/labyrinth.py:152-155, fibonacci/fib.py:19): they become return values (`Option<nat>` per labyrinth, `Outcome` for Fibonacci).
- The `__main__` blocks of both files: they only call the functions above on a fixed file name or on the indices 0 to 19.
- `math.inf` is `None`, not a floating-point value. The only operations on it are comparison and equality, and the model covers both.
- Parser.InputToMatrix: inputs on which the source raises are excluded by the `WellFormedInput` precondition rather than modelled as errors. These are a header without exactly three integer fields (ValueError) and a record running past the last line (IndexError).
- Parser.WellFormedHeader: a header field must be a run of ASCII digits. The source's `int()` also accepts a sign, underscores and non-ASCII decimal digits.
- Parser.IsHeader: only '1' to '9' open a record. The source's `isdigit()` also accepts other Unicode digits, so a line starting with one of those is a header there and not here.
- Labyrinth.EscapeLabyrinths and Coordinates.GetAirCoordinates: a labyrinth without a START or an END cell is excluded by the `HasMarkers` precondition. On such a grid `get_air_coordinates` still returns a list, with the empty placeholder `[]` in the unfilled slot (labyrinth/labyrinth.py:62-63, 74); the source fails only later, with an IndexError inside `is_adjacent`, on that placeholder.
- ShortestPath.SelectMin and ShortestPath.Relax: Python's set iteration order is not modelled. `min` over the set does not depend on it, and `Relax` is proved to give the same result in every order.
- The width field of the header is read but never used by the source, and the model ignores it too. Rows longer or shorter than the header says are kept as they are.
- The code differs from the written description of the format in three ways, and the model follows the code. Reading does not stop at `0 0 0`. Lines already read as part of a record are scanned again for headers. Rows are not checked against the header's width.
- Parser.ReadLayers: the part of `input_to_matrix` that reads one record is its own method, called from the loop over lines. Its body is the source's nested loop, statement for statement.
- Fibonacci.CalculateFibIterative: Python integers are unbounded, and so are Dafny's, so there is no overflow to model.
