/** Reading labyrinth records from the lines of an input file
    (labyrinth/labyrinth.py, input_to_matrix). The lines are given already
    right-stripped, as `[line.rstrip() for line in file]` yields them. */
module Parser {

  /** A labyrinth as `input_to_matrix` builds it: a list of layers, each a
      list of row strings. Rows need not have equal length. */
  type Grid = seq<seq<string>>

  predicate IsDigit(c: char) {
    '0' <= c <= '9'
  }

  /** Whitespace as `str.split()` with no separator treats it: the
      characters for which `str.isspace()` holds. */
  predicate IsSpace(c: char) {
    || ('\U{0009}' <= c <= '\U{000D}')
    || ('\U{001C}' <= c <= '\U{0020}')
    || c == '\U{0085}' || c == '\U{00A0}' || c == '\U{1680}'
    || ('\U{2000}' <= c <= '\U{200A}')
    || c == '\U{2028}' || c == '\U{2029}' || c == '\U{202F}' || c == '\U{205F}' || c == '\U{3000}'
  }

  /** labyrinth/labyrinth.py:35-36: a line opens a labyrinth when it is
      non-empty and starts with a digit other than '0'. */
  predicate IsHeader(line: string) {
    |line| > 0 && IsDigit(line[0]) && line[0] != '0'
  }

  /** The longest prefix of `s` without whitespace. */
  function Token(s: string): (w: string)
    requires |s| > 0 && !IsSpace(s[0])
    ensures 0 < |w| <= |s| && w == s[..|w|]
    ensures forall k :: 0 <= k < |w| ==> !IsSpace(w[k])
    ensures |w| < |s| ==> IsSpace(s[|w|])
  {
    if |s| == 1 || IsSpace(s[1]) then [s[0]] else [s[0]] + Token(s[1..])
  }

  /** `str.split()`: the maximal runs of non-whitespace characters. */
  function Words(s: string): (ws: seq<string>)
    ensures forall k :: 0 <= k < |ws| ==> |ws[k]| > 0 && forall m :: 0 <= m < |ws[k]| ==> !IsSpace(ws[k][m])
    decreases |s|
  {
    if |s| == 0 then []
    else if IsSpace(s[0]) then Words(s[1..])
    else
      var w := Token(s);
      [w] + Words(s[|w|..])
  }

  /** `s` is only whitespace. */
  predicate AllSpace(s: string) {
    forall k :: 0 <= k < |s| ==> IsSpace(s[k])
  }

  /** The fields `ws` with the separators `seps` around and between them:
      `seps[0] + ws[0] + seps[1] + ... + ws[n - 1] + seps[n]`. */
  function Interleave(seps: seq<string>, ws: seq<string>): string
    requires |seps| == |ws| + 1
    decreases |ws|
  {
    if |ws| == 0 then seps[0] else seps[0] + ws[0] + Interleave(seps[1..], ws[1..])
  }

  /** `s` splits into the fields `ws` at the separators `seps`: every field
      is a non-empty run of non-whitespace, every separator is whitespace,
      and the separators between two fields are not empty. */
  predicate SplitsAs(s: string, seps: seq<string>, ws: seq<string>) {
    && |seps| == |ws| + 1
    && (forall k :: 0 <= k < |ws| ==> |ws[k]| > 0 && forall m :: 0 <= m < |ws[k]| ==> !IsSpace(ws[k][m]))
    && (forall k :: 0 <= k < |seps| ==> AllSpace(seps[k]))
    && (forall k :: 0 < k < |ws| ==> |seps[k]| > 0)
    && s == Interleave(seps, ws)
  }

  /** Putting whitespace in front only widens the first separator. */
  lemma {:induction false} InterleaveCons(c: char, seps: seq<string>, ws: seq<string>)
    requires |seps| == |ws| + 1
    ensures [c] + Interleave(seps, ws) == Interleave([[c] + seps[0]] + seps[1..], ws)
  {
    var seps' := [[c] + seps[0]] + seps[1..];
    assert seps'[1..] == seps[1..];
  }

  /** Whitespace put in front of a split line widens its first separator. */
  lemma SplitsAfterSpace(c: char, s: string, seps: seq<string>, ws: seq<string>)
    requires IsSpace(c) && SplitsAs(s, seps, ws)
    ensures SplitsAs([c] + s, [[c] + seps[0]] + seps[1..], ws)
  {
    var seps' := [[c] + seps[0]] + seps[1..];
    InterleaveCons(c, seps, ws);
    assert AllSpace(seps'[0]) by {
      forall m | 0 <= m < |seps'[0]| ensures IsSpace(seps'[0][m]) {
        if m > 0 { assert seps'[0][m] == seps[0][m - 1]; }
      }
    }
    assert forall k :: 1 <= k < |seps'| ==> seps'[k] == seps[k];
  }

  /** A split line with an empty first separator starts with a field. */
  lemma SplitStart(s: string, seps: seq<string>, ws: seq<string>)
    requires SplitsAs(s, seps, ws) && |ws| > 0
    ensures |seps[0]| == 0 ==> |s| > 0 && !IsSpace(s[0])
  {
    if |seps[0]| == 0 {
      assert s == ws[0] + Interleave(seps[1..], ws[1..]);
      assert s[0] == ws[0][0];
    }
  }

  /** A field put in front of a split line that starts with whitespace, or is
      empty, becomes its first field. */
  lemma SplitsAfterField(w: string, s: string, seps: seq<string>, ws: seq<string>)
    requires |w| > 0 && forall m :: 0 <= m < |w| ==> !IsSpace(w[m])
    requires |s| == 0 || IsSpace(s[0])
    requires SplitsAs(s, seps, ws)
    ensures SplitsAs(w + s, [""] + seps, [w] + ws)
  {
    var seps', ws' := [""] + seps, [w] + ws;
    if |ws| > 0 {
      SplitStart(s, seps, ws);
    }
    assert seps'[1..] == seps && ws'[1..] == ws;
    assert Interleave(seps', ws') == "" + w + Interleave(seps, ws);
    assert forall k :: 1 <= k < |seps'| ==> seps'[k] == seps[k - 1];
    assert forall k :: 1 <= k < |ws'| ==> ws'[k] == ws[k - 1];
  }

  /** `line.split()` is a split of the line: the line is its fields with
      whitespace separators around and between them. */
  lemma {:induction false} WordsSplit(s: string)
    ensures exists seps :: SplitsAs(s, seps, Words(s))
    decreases |s|
  {
    if |s| == 0 {
      assert Words(s) == [] && Interleave([""], []) == s;
      assert SplitsAs(s, [""], Words(s));
    } else if IsSpace(s[0]) {
      WordsSplit(s[1..]);
      var seps :| SplitsAs(s[1..], seps, Words(s[1..]));
      SplitsAfterSpace(s[0], s[1..], seps, Words(s[1..]));
      assert s == [s[0]] + s[1..];
      assert SplitsAs(s, [[s[0]] + seps[0]] + seps[1..], Words(s));
    } else {
      var w := Token(s);
      var rest := s[|w|..];
      WordsSplit(rest);
      var seps :| SplitsAs(rest, seps, Words(rest));
      SplitsAfterField(w, rest, seps, Words(rest));
      assert s == w + rest;
      assert SplitsAs(s, [""] + seps, Words(s));
    }
  }

  /** A line made of whitespace has no fields. */
  lemma {:induction false} WordsOfSpace(s: string)
    requires AllSpace(s)
    ensures Words(s) == []
    decreases |s|
  {
    if |s| > 0 {
      WordsOfSpace(s[1..]);
    }
  }

  /** A field ends where whitespace or the line begins. */
  lemma TokenOf(w: string, t: string)
    requires |w| > 0 && forall m :: 0 <= m < |w| ==> !IsSpace(w[m])
    requires |t| == 0 || IsSpace(t[0])
    ensures Token(w + t) == w
    decreases |w|
  {
    if |w| > 1 {
      assert (w + t)[1..] == w[1..] + t;
      TokenOf(w[1..], t);
    }
  }

  /** A split line whose first separator is not empty starts with
      whitespace, and the rest of it splits into the same fields. */
  lemma SplitDropSpace(s: string, seps: seq<string>, ws: seq<string>)
    requires SplitsAs(s, seps, ws) && |seps[0]| > 0
    ensures |s| > 0 && IsSpace(s[0])
    ensures SplitsAs(s[1..], [seps[0][1..]] + seps[1..], ws)
  {
    var seps' := [seps[0][1..]] + seps[1..];
    assert seps[0] == [seps[0][0]] + seps[0][1..];
    InterleaveCons(seps[0][0], seps', ws);
    assert [[seps[0][0]] + seps'[0]] + seps'[1..] == seps;
    assert s == [seps[0][0]] + s[1..];
    assert AllSpace(seps'[0]) by {
      forall m | 0 <= m < |seps'[0]| ensures IsSpace(seps'[0][m]) {
        assert seps'[0][m] == seps[0][m + 1];
      }
    }
    assert forall k :: 1 <= k < |seps'| ==> seps'[k] == seps[k];
  }

  /** Dropping the first separator and field of a split leaves a split. */
  lemma SplitsTail(s: string, seps: seq<string>, ws: seq<string>)
    requires SplitsAs(s, seps, ws) && |ws| > 0
    ensures SplitsAs(Interleave(seps[1..], ws[1..]), seps[1..], ws[1..])
  {
    assert forall k :: 0 <= k < |ws| - 1 ==> ws[1..][k] == ws[k + 1];
    assert forall k :: 0 <= k < |seps| - 1 ==> seps[1..][k] == seps[k + 1];
  }

  /** After the first field of a split comes whitespace or the end. */
  lemma SplitsAfterFirst(s: string, seps: seq<string>, ws: seq<string>)
    requires SplitsAs(s, seps, ws) && |ws| > 0
    ensures var t := Interleave(seps[1..], ws[1..]); |t| == 0 || IsSpace(t[0])
  {
    var t := Interleave(seps[1..], ws[1..]);
    if |ws| > 1 {
      assert t == seps[1] + ws[1] + Interleave(seps[2..], ws[2..]);
      assert |seps[1]| > 0 && AllSpace(seps[1]);
      assert t[0] == seps[1][0];
    } else {
      assert t == seps[1] && AllSpace(seps[1]);
    }
  }

  /** Only one list of fields splits a line, and `line.split()` returns it. */
  lemma {:induction false} SplitUnique(s: string, seps: seq<string>, ws: seq<string>)
    requires SplitsAs(s, seps, ws)
    ensures ws == Words(s)
    decreases |s|
  {
    if |ws| == 0 {
      WordsOfSpace(s);
    } else if |seps[0]| > 0 {
      SplitDropSpace(s, seps, ws);
      SplitUnique(s[1..], [seps[0][1..]] + seps[1..], ws);
    } else {
      var t := Interleave(seps[1..], ws[1..]);
      assert s == ws[0] + t;
      assert s[|ws[0]|..] == t;
      SplitStart(s, seps, ws);
      SplitsAfterFirst(s, seps, ws);
      TokenOf(ws[0], t);
      SplitsTail(s, seps, ws);
      SplitUnique(t, seps[1..], ws[1..]);
      assert ws == [ws[0]] + ws[1..];
    }
  }

  /** A header line starts with its first field, so the digit the header
      test looks at is the first digit of the depth. The empty line and a
      line starting with '0' are not headers. */
  lemma HeaderFirstField(line: string)
    ensures IsHeader(line) <==> |line| > 0 && line[0] in "123456789"
    ensures IsHeader(line) ==> |Words(line)| > 0 && Words(line)[0][0] == line[0]
  {
  }

  predicate IsNumeral(w: string) {
    |w| > 0 && forall k :: 0 <= k < |w| ==> IsDigit(w[k])
  }

  function Pow10(k: nat): nat {
    if k == 0 then 1 else 10 * Pow10(k - 1)
  }

  /** Decimal value of a run of digits, as `int` reads it: `k` digits denote
      a number below `10^k`. */
  function Value(w: string): (v: nat)
    requires IsNumeral(w)
    ensures v < Pow10(|w|)
  {
    if |w| == 1 then (w[0] as int - '0' as int)
    else 10 * Value(w[..|w| - 1]) + (w[|w| - 1] as int - '0' as int)
  }

  /** The decimal digits of `n`, without leading zeros. */
  function Decimal(n: nat): string {
    if n < 10 then ['0' + n as char] else Decimal(n / 10) + ['0' + (n % 10) as char]
  }

  /** Reading back the decimal digits of a number gives the number. */
  lemma {:induction false} ValueOfDecimal(n: nat)
    ensures IsNumeral(Decimal(n)) && Value(Decimal(n)) == n
  {
    if n >= 10 {
      ValueOfDecimal(n / 10);
      var w := Decimal(n);
      assert w[..|w| - 1] == Decimal(n / 10);
    }
  }

  /** `depth, length, width = [int(char) for char in line.split()]` succeeds. */
  predicate WellFormedHeader(line: string) {
    var ws := Words(line);
    |ws| == 3 && IsNumeral(ws[0]) && IsNumeral(ws[1]) && IsNumeral(ws[2])
  }

  function Depth(line: string): nat
    requires WellFormedHeader(line)
  {
    Value(Words(line)[0])
  }

  function Length(line: string): nat
    requires WellFormedHeader(line)
  {
    Value(Words(line)[1])
  }

  /** Every row a record at `start` reads exists: each of its `depth` layers
      has its `length` rows, with one separator line after each layer. */
  predicate Fits(lines: seq<string>, start: nat, depth: nat, length: nat)
    decreases depth
  {
    length == 0 || depth == 0 ||
    (start + length <= |lines| && Fits(lines, start + length + 1, depth - 1, length))
  }

  /** The same condition in closed form: the last row read,
      `lines[start + depth * (length + 1) - 2]`, exists. */
  lemma {:induction false} FitsClosedForm(lines: seq<string>, start: nat, depth: nat, length: nat)
    ensures Fits(lines, start, depth, length) <==>
      (length == 0 || depth == 0 || start + depth * (length + 1) <= |lines| + 1)
    decreases depth
  {
    if length > 0 && depth > 0 {
      FitsClosedForm(lines, start + length + 1, depth - 1, length);
      assert start + length + 1 + (depth - 1) * (length + 1) == start + depth * (length + 1);
    }
  }

  /** The input never makes the reader fail: each header has three integer
      fields and each record has all its rows. Headers that break either
      cause ValueError or IndexError in the source. */
  predicate WellFormedInput(lines: seq<string>) {
    forall i {:trigger IsHeader(lines[i])} :: 0 <= i < |lines| && IsHeader(lines[i]) ==>
      WellFormedHeader(lines[i]) && Fits(lines, i + 1, Depth(lines[i]), Length(lines[i]))
  }

  /** `length` consecutive lines from `start`: one layer. */
  function Rows(lines: seq<string>, start: nat, length: nat): seq<string>
    requires length == 0 || start + length <= |lines|
  {
    seq(length, l requires 0 <= l < length => lines[start + l])
  }

  lemma FitsFirstLayer(lines: seq<string>, start: nat, depth: nat, length: nat)
    requires Fits(lines, start, depth, length) && depth > 0
    ensures length == 0 || start + length <= |lines|
    ensures Fits(lines, start + length + 1, depth - 1, length)
  {
  }

  /** `depth` layers of `length` rows from `start`, one separator line skipped
      after each layer. */
  function Layers(lines: seq<string>, start: nat, depth: nat, length: nat): seq<seq<string>>
    requires Fits(lines, start, depth, length)
    decreases depth
  {
    if depth == 0 then []
    else
      FitsFirstLayer(lines, start, depth, length);
      [Rows(lines, start, length)] + Layers(lines, start + length + 1, depth - 1, length)
  }

  /** The labyrinth whose header is `lines[i]`. */
  function Record(lines: seq<string>, i: nat): Grid
    requires WellFormedInput(lines) && i < |lines| && IsHeader(lines[i])
  {
    Layers(lines, i + 1, Depth(lines[i]), Length(lines[i]))
  }

  /** The labyrinths of the headers among the first `k` lines, in file order. */
  function ParsePrefix(lines: seq<string>, k: nat): seq<Grid>
    requires WellFormedInput(lines) && k <= |lines|
  {
    if k == 0 then []
    else ParsePrefix(lines, k - 1) + (if IsHeader(lines[k - 1]) then [Record(lines, k - 1)] else [])
  }

  function Parse(lines: seq<string>): seq<Grid>
    requires WellFormedInput(lines)
  {
    ParsePrefix(lines, |lines|)
  }

  lemma {:induction false} LayersShape(lines: seq<string>, start: nat, depth: nat, length: nat)
    requires Fits(lines, start, depth, length)
    ensures |Layers(lines, start, depth, length)| == depth
    ensures forall d :: 0 <= d < depth ==> |Layers(lines, start, depth, length)[d]| == length
    decreases depth
  {
    if depth > 0 {
      FitsFirstLayer(lines, start, depth, length);
      LayersShape(lines, start + length + 1, depth - 1, length);
    }
  }

  /** The line holding row `l` of layer `d` of a record whose first row is
      `lines[start]`. */
  function RowLine(start: nat, length: nat, d: nat, l: nat): nat {
    start + d * (length + 1) + l
  }

  lemma {:induction false} LayerRowAt(lines: seq<string>, start: nat, depth: nat, length: nat, d: nat, l: nat)
    requires Fits(lines, start, depth, length) && d < depth && l < length
    ensures RowLine(start, length, d, l) < |lines|
    ensures |Layers(lines, start, depth, length)| == depth
    ensures |Layers(lines, start, depth, length)[d]| == length
    ensures Layers(lines, start, depth, length)[d][l] == lines[RowLine(start, length, d, l)]
    decreases depth
  {
    FitsFirstLayer(lines, start, depth, length);
    LayersShape(lines, start, depth, length);
    if d > 0 {
      LayerRowAt(lines, start + length + 1, depth - 1, length, d - 1, l);
      assert start + length + 1 + (d - 1) * (length + 1) == start + d * (length + 1);
    }
  }

  /** Layout of one record (labyrinth/labyrinth.py:37-46): `depth` layers of
      `length` rows each, row `l` of layer `d` being
      `lines[start + d * (length + 1) + l]`, so one line is skipped after
      every layer. */
  lemma LayersAt(lines: seq<string>, start: nat, depth: nat, length: nat)
    requires Fits(lines, start, depth, length)
    ensures |Layers(lines, start, depth, length)| == depth
    ensures forall d :: 0 <= d < depth ==> |Layers(lines, start, depth, length)[d]| == length
    ensures forall d, l :: 0 <= d < depth && 0 <= l < length ==>
      RowLine(start, length, d, l) < |lines| &&
      Layers(lines, start, depth, length)[d][l] == lines[RowLine(start, length, d, l)]
  {
    LayersShape(lines, start, depth, length);
    forall d, l | 0 <= d < depth && 0 <= l < length
      ensures RowLine(start, length, d, l) < |lines| &&
        Layers(lines, start, depth, length)[d][l] == lines[RowLine(start, length, d, l)]
    {
      LayerRowAt(lines, start, depth, length, d, l);
    }
  }

  /** labyrinth/labyrinth.py:9-48. Every line that opens a labyrinth yields
      one, read from the lines below it; all other lines are passed over. */
  method InputToMatrix(lines: seq<string>) returns (labyrinths: seq<Grid>)
    requires WellFormedInput(lines)
    ensures labyrinths == Parse(lines)
  {
    labyrinths := [];
    for i := 0 to |lines|
      invariant labyrinths == ParsePrefix(lines, i)
    {
      var line := lines[i];
      if line != "" {
        if IsDigit(line[0]) && line[0] != '0' {
          assert IsHeader(lines[i]);
          var fields := Words(line);
          var depth, length, width := Value(fields[0]), Value(fields[1]), Value(fields[2]);
          var L := ReadLayers(lines, i + 1, depth, length);
          labyrinths := labyrinths + [L];
        }
      }
    }
  }

  /** labyrinth/labyrinth.py:39-46, the part of `input_to_matrix` that reads
      one labyrinth: `depth` layers of `length` lines each from `start`,
      skipping one line after every layer. */
  method ReadLayers(lines: seq<string>, start: nat, depth: nat, length: nat) returns (L: Grid)
    requires Fits(lines, start, depth, length)
    ensures L == Layers(lines, start, depth, length)
  {
    L := [];
    var layerStart := start;
    for d := 0 to depth
      invariant layerStart == RowLine(start, length, d, 0)
      invariant Fits(lines, start, d, length) && L == Layers(lines, start, d, length)
    {
      LayersSnoc(lines, start, d, depth, length);
      ghost var rows := Rows(lines, layerStart, length);
      ghost var done := L;
      L := L + [[]];
      for l := 0 to length
        invariant L == done + [rows[..l]]
      {
        var lineIndex := layerStart + l;
        RowAppend(done, rows, l, lines[lineIndex]);
        L := L[|L| - 1 := L[|L| - 1] + [lines[lineIndex]]];
      }
      assert rows[..length] == rows;
      layerStart := layerStart + length + 1;
    }
  }

  /** Reading a record layer by layer: the first `d + 1` layers are the
      first `d` layers and the rows from line `RowLine(start, length, d, 0)`. */
  lemma {:induction false} LayersSnoc(lines: seq<string>, start: nat, d: nat, depth: nat, length: nat)
    requires Fits(lines, start, depth, length) && d < depth
    ensures Fits(lines, start, d, length) && Fits(lines, start, d + 1, length)
    ensures length == 0 || RowLine(start, length, d, 0) + length <= |lines|
    ensures Layers(lines, start, d + 1, length) ==
      Layers(lines, start, d, length) + [Rows(lines, RowLine(start, length, d, 0), length)]
    decreases d
  {
    FitsFirstLayer(lines, start, depth, length);
    if d > 0 {
      LayersSnoc(lines, start + length + 1, d - 1, depth - 1, length);
      assert RowLine(start + length + 1, length, d - 1, 0) == RowLine(start, length, d, 0);
    }
  }

  /** Appending one more line to the layer being filled. */
  lemma RowAppend(done: Grid, rows: seq<string>, l: nat, line: string)
    requires l < |rows| && rows[l] == line
    ensures (done + [rows[..l]])[|done| := rows[..l] + [line]] == done + [rows[..l + 1]]
  {
    assert rows[..l] + [line] == rows[..l + 1];
  }

  // ----- Which lines open a labyrinth, and in what order the labyrinths come.

  /** Indices of the header lines among the first `k` lines, in file order. */
  function HeaderIndices(lines: seq<string>, k: nat): seq<nat>
    requires k <= |lines|
  {
    if k == 0 then [] else HeaderIndices(lines, k - 1) + (if IsHeader(lines[k - 1]) then [k - 1] else [])
  }

  lemma {:induction false} HeaderIndicesExact(lines: seq<string>, k: nat)
    requires k <= |lines|
    ensures forall i :: i in HeaderIndices(lines, k) <==> 0 <= i < k && IsHeader(lines[i])
    ensures forall a, b :: 0 <= a < b < |HeaderIndices(lines, k)| ==> HeaderIndices(lines, k)[a] < HeaderIndices(lines, k)[b]
  {
    if k > 0 {
      HeaderIndicesExact(lines, k - 1);
      var hs, front := HeaderIndices(lines, k), HeaderIndices(lines, k - 1);
      forall a, b | 0 <= a < b < |hs| ensures hs[a] < hs[b] {
        if b >= |front| {
          assert hs[a] == front[a] && front[a] in front;
        }
      }
    }
  }

  lemma {:induction false} ParsePrefixByHeaders(lines: seq<string>, k: nat)
    requires WellFormedInput(lines) && k <= |lines|
    ensures |ParsePrefix(lines, k)| == |HeaderIndices(lines, k)|
    ensures forall m :: 0 <= m < |HeaderIndices(lines, k)| ==>
      && HeaderIndices(lines, k)[m] < |lines|
      && IsHeader(lines[HeaderIndices(lines, k)[m]])
      && ParsePrefix(lines, k)[m] == Record(lines, HeaderIndices(lines, k)[m])
  {
    if k > 0 {
      ParsePrefixByHeaders(lines, k - 1);
    }
  }

  /** labyrinth/labyrinth.py:33-47: the result holds one labyrinth per header
      line, read at that header, in file order. A line is a header exactly
      when it starts with a digit other than '0': an empty line never is, nor
      is the terminator `0 0 0`. */
  lemma ParseSelection(lines: seq<string>)
    requires WellFormedInput(lines)
    ensures var hs := HeaderIndices(lines, |lines|);
      && |Parse(lines)| == |hs|
      && (forall m :: 0 <= m < |hs| ==> hs[m] < |lines| && IsHeader(lines[hs[m]]) && Parse(lines)[m] == Record(lines, hs[m]))
      && (forall a, b :: 0 <= a < b < |hs| ==> hs[a] < hs[b])
      && (forall i :: 0 <= i < |lines| ==> (i in hs <==> IsHeader(lines[i])))
      && (forall i :: 0 <= i < |lines| && (lines[i] == "" || lines[i][0] == '0' || !IsDigit(lines[i][0])) ==> i !in hs)
  {
    HeaderIndicesExact(lines, |lines|);
    ParsePrefixByHeaders(lines, |lines|);
  }

  // ----- Files holding one labyrinth.

  /** Layers written out one after another, each followed by an empty line. */
  function Blocks(layers: seq<seq<string>>): seq<string> {
    if |layers| == 0 then [] else layers[0] + [""] + Blocks(layers[1..])
  }

  lemma {:induction false} BlocksNoHeader(layers: seq<seq<string>>)
    requires forall d, l :: 0 <= d < |layers| && 0 <= l < |layers[d]| ==> !IsHeader(layers[d][l])
    ensures forall i :: 0 <= i < |Blocks(layers)| ==> !IsHeader(Blocks(layers)[i])
    decreases |layers|
  {
    if |layers| > 0 {
      var rest := layers[1..];
      forall d, l | 0 <= d < |rest| && 0 <= l < |rest[d]| ensures !IsHeader(rest[d][l]) {
        assert rest[d] == layers[d + 1];
      }
      BlocksNoHeader(rest);
      var head := layers[0] + [""];
      forall i | 0 <= i < |Blocks(layers)| ensures !IsHeader(Blocks(layers)[i]) {
        if i < |layers[0]| {
          assert Blocks(layers)[i] == layers[0][i];
        } else if i >= |head| {
          assert Blocks(layers)[i] == Blocks(rest)[i - |head|];
        }
      }
    }
  }

  /** Reading `|layers|` layers of `length` rows from where the blocks begin
      gives back the layers. */
  lemma {:induction false} LayersOfBlocks(pre: seq<string>, layers: seq<seq<string>>, post: seq<string>, length: nat)
    requires forall d :: 0 <= d < |layers| ==> |layers[d]| == length
    ensures Fits(pre + Blocks(layers) + post, |pre|, |layers|, length)
    ensures Layers(pre + Blocks(layers) + post, |pre|, |layers|, length) == layers
    decreases |layers|
  {
    var lines := pre + Blocks(layers) + post;
    if |layers| > 0 {
      var rest := layers[1..];
      var pre' := pre + layers[0] + [""];
      assert lines == pre' + Blocks(rest) + post;
      forall d | 0 <= d < |rest| ensures |rest[d]| == length {
        assert rest[d] == layers[d + 1];
      }
      LayersOfBlocks(pre', rest, post, length);
      assert |pre'| == |pre| + length + 1;
      assert Rows(lines, |pre|, length) == layers[0] by {
        forall l | 0 <= l < length ensures lines[|pre| + l] == layers[0][l] {
          assert lines[|pre| + l] == pre'[|pre| + l];
        }
      }
      assert layers == [layers[0]] + rest;
    }
  }

  /** Lines put in front of a record do not change what is read from it. */
  lemma {:induction false} LayersShift(pre: seq<string>, lines: seq<string>, start: nat, depth: nat, length: nat)
    requires Fits(lines, start, depth, length)
    ensures Fits(pre + lines, |pre| + start, depth, length)
    ensures Layers(pre + lines, |pre| + start, depth, length) == Layers(lines, start, depth, length)
    decreases depth
  {
    if depth > 0 {
      FitsFirstLayer(lines, start, depth, length);
      LayersShift(pre, lines, start + length + 1, depth - 1, length);
      assert Rows(pre + lines, |pre| + start, length) == Rows(lines, start, length) by {
        forall l | 0 <= l < length
          ensures Rows(pre + lines, |pre| + start, length)[l] == Rows(lines, start, length)[l]
        {
          assert (pre + lines)[|pre| + start + l] == lines[start + l];
        }
      }
    }
  }

  /** The headers after the first record, read with it in front. */
  lemma {:induction false} ParsePrefixAfter(front: seq<string>, tail: seq<string>, k: nat)
    requires WellFormedInput(front + tail) && WellFormedInput(tail) && k <= |tail|
    requires forall i :: 0 <= i < |tail| && IsHeader(tail[i]) ==>
      Record(front + tail, |front| + i) == Record(tail, i)
    ensures ParsePrefix(front + tail, |front| + k) == ParsePrefix(front + tail, |front|) + ParsePrefix(tail, k)
  {
    if k > 0 {
      ParsePrefixAfter(front, tail, k - 1);
      assert (front + tail)[|front| + k - 1] == tail[k - 1];
    }
  }

  /** A header of `tail` still reads a record that fits once lines are put
      in front, and, in a well-formed input, the same record. */
  lemma ShiftedHeader(front: seq<string>, tail: seq<string>, j: nat)
    requires WellFormedInput(tail) && j < |tail| && IsHeader(tail[j])
    ensures (front + tail)[|front| + j] == tail[j]
    ensures WellFormedHeader(tail[j]) && Fits(front + tail, |front| + j + 1, Depth(tail[j]), Length(tail[j]))
    ensures WellFormedInput(front + tail) ==> Record(front + tail, |front| + j) == Record(tail, j)
  {
    LayersShift(front, tail, j + 1, Depth(tail[j]), Length(tail[j]));
  }

  /** Putting a record in front of a well-formed input gives a well-formed
      input. */
  lemma ShiftedInput(front: seq<string>, tail: seq<string>)
    requires WellFormedInput(tail) && |front| > 0
    requires IsHeader(front[0]) && WellFormedHeader(front[0]) && Fits(front + tail, 1, Depth(front[0]), Length(front[0]))
    requires forall i :: 0 < i < |front| ==> !IsHeader(front[i])
    ensures WellFormedInput(front + tail)
  {
    var lines := front + tail;
    forall i | 0 <= i < |lines| && IsHeader(lines[i])
      ensures WellFormedHeader(lines[i]) && Fits(lines, i + 1, Depth(lines[i]), Length(lines[i]))
    {
      if i == 0 {
        assert lines[0] == front[0];
      } else {
        ShiftedHeaderAt(front, tail, i);
      }
    }
  }

  /** A header past the first line of `front + tail` is one of `tail`'s. */
  lemma ShiftedHeaderAt(front: seq<string>, tail: seq<string>, i: nat)
    requires WellFormedInput(tail) && 0 < i < |front + tail|
    requires forall k :: 0 < k < |front| ==> !IsHeader(front[k])
    requires IsHeader((front + tail)[i])
    ensures WellFormedHeader((front + tail)[i])
    ensures Fits(front + tail, i + 1, Depth((front + tail)[i]), Length((front + tail)[i]))
  {
    if i < |front| {
      assert false;
    } else {
      ShiftedHeader(front, tail, i - |front|);
    }
  }

  /** A header, the blocks of its layers and then any well-formed input:
      the layers come out as the first labyrinth, followed by those of the
      rest, which is read as if on its own. */
  lemma RecordThen(header: string, layers: seq<seq<string>>, tail: seq<string>)
    requires IsHeader(header) && WellFormedHeader(header)
    requires Depth(header) == |layers| && forall d :: 0 <= d < |layers| ==> |layers[d]| == Length(header)
    requires forall d, l :: 0 <= d < |layers| && 0 <= l < |layers[d]| ==> !IsHeader(layers[d][l])
    requires WellFormedInput(tail)
    ensures WellFormedInput([header] + Blocks(layers) + tail)
    ensures Parse([header] + Blocks(layers) + tail) == [layers] + Parse(tail)
  {
    var front := [header] + Blocks(layers);
    var lines := front + tail;
    assert lines == [header] + Blocks(layers) + tail;
    var blocks := Blocks(layers);
    BlocksNoHeader(layers);
    forall i | 0 < i < |front| ensures !IsHeader(front[i]) && !IsHeader(lines[i]) {
      assert lines[i] == front[i] == blocks[i - 1];
    }
    LayersOfBlocks([header], layers, tail, Length(header));
    ShiftedInput(front, tail);
    forall j | 0 <= j < |tail| && IsHeader(tail[j])
      ensures lines[|front| + j] == tail[j] && Record(lines, |front| + j) == Record(tail, j)
    {
      ShiftedHeader(front, tail, j);
    }
    ParsePrefixOnlyHeader(lines, |front|);
    ParsePrefixAfter(front, tail, |tail|);
  }

  /** The terminator line opens no labyrinth. */
  lemma Terminator()
    ensures WellFormedInput(["0 0 0"]) && Parse(["0 0 0"]) == []
  {
    assert !IsHeader(["0 0 0"][0]);
    assert ParsePrefix(["0 0 0"], 1) == ParsePrefix(["0 0 0"], 0);
  }

  /** The header line and the lines of its record before `k`. */
  lemma {:induction false} ParsePrefixOnlyHeader(lines: seq<string>, k: nat)
    requires WellFormedInput(lines) && 0 < k <= |lines| && IsHeader(lines[0])
    requires forall i :: 0 < i < k ==> !IsHeader(lines[i])
    ensures ParsePrefix(lines, k) == [Record(lines, 0)]
  {
    if k > 1 {
      ParsePrefixOnlyHeader(lines, k - 1);
    }
  }
}
