/** Cells of the collision matrix, 4-neighbour adjacency, paths through collidable
    cells and the `"row_col"` group keys used by both collider scripts. */
module Paths {
  import opened Text
  import opened Grid

  /** A matrix position; the scripts store it as `new Vec2(col, row)`. */
  datatype Cell = Cell(row: int, col: int)

  /** Every row has the length of row 0 (the flood fill bounds columns by the width of row 0). */
  predicate Rectangular(m: Matrix)
  {
    forall i :: 0 <= i < |m| ==> |m[i]| == |m[0]|
  }

  function Width(m: Matrix): nat
  {
    if |m| == 0 then 0 else |m[0]|
  }

  predicate InBounds(m: Matrix, c: Cell)
  {
    0 <= c.row < |m| && 0 <= c.col < Width(m)
  }

  /** A collidable cell: inside the matrix and its tile id not ignored. */
  predicate Open(m: Matrix, ign: string, c: Cell)
  {
    InBounds(m, c) && c.col < |m[c.row]| && !IsIgnored(m[c.row][c.col], ign)
  }

  /** A position inside the bounds the flood fill checks (row 0's width) but past the end
      of its own row: the matrix holds no tile id there. */
  predicate Hole(m: Matrix, c: Cell)
  {
    InBounds(m, c) && c.col >= |m[c.row]|
  }

  /** No collidable cell is next to a hole. The flood fill visits every neighbour of a
      collidable cell, and reading the tile id of a hole raises a TypeError, so the fill runs
      to its end exactly on the matrices that satisfy this. */
  predicate FillSafe(m: Matrix, ign: string)
  {
    forall r, c | 0 <= r < |m| && 0 <= c < Width(m) :: Open(m, ign, Cell(r, c)) ==>
      !Hole(m, Cell(r - 1, c)) && !Hole(m, Cell(r + 1, c)) && !Hole(m, Cell(r, c - 1)) && !Hole(m, Cell(r, c + 1))
  }

  /** A matrix whose rows all have the same length has no hole. */
  lemma RectangularFillSafe(m: Matrix, ign: string)
    requires Rectangular(m)
    ensures FillSafe(m, ign)
  {
  }

  /** A hole next to a collidable tile is reached by the flood fill, which then throws. */
  lemma HoleNextToTileUnsafe(m: Matrix, ign: string, c: Cell, h: Cell)
    requires Open(m, ign, c) && Hole(m, h) && Adjacent(c, h)
    ensures !FillSafe(m, ign)
  {
    assert h == Cell(c.row - 1, c.col) || h == Cell(c.row + 1, c.col) || h == Cell(c.row, c.col - 1) || h == Cell(c.row, c.col + 1);
  }

  /** The CSV `"1\n1,1"` gives the matrix `[[1, 1], [1]]` (lines are reversed): the tile at
      row 0, column 1 is collidable and the position above it, row 1 column 1, is a hole. */
  lemma ShorterUpperRowUnsafe(ign: string)
    requires !IsIgnored(1, ign)
    ensures WellFormedCsv("1\n1,1") && CreateMatrixFromCSV("1\n1,1") == [[1, 1], [1]]
    ensures !FillSafe([[1, 1], [1]], ign)
  {
    ShorterUpperRowCsv();
    HoleNextToTileUnsafe([[1, 1], [1]], ign, Cell(0, 1), Cell(1, 1));
  }

  /** Reading the two-line CSV `"1\n1,1"`. */
  lemma ShorterUpperRowCsv()
    ensures WellFormedCsv("1\n1,1") && CreateMatrixFromCSV("1\n1,1") == [[1, 1], [1]]
  {
    ShorterUpperRowWellFormed();
    ShorterUpperRowLines();
    OneRows();
    var m := CreateMatrixFromCSV("1\n1,1");
    assert m[0] == ParseRow("1,1") && m[1] == ParseRow("1");
  }

  lemma ShorterUpperRowWellFormed()
    ensures WellFormedCsv("1\n1,1")
  {
    ShorterUpperRowLines();
    OneTokens();
  }

  lemma OneRows()
    ensures ParseRow("1") == [1] && ParseRow("1,1") == [1, 1]
  {
    OneTokens();
  }

  lemma ShorterUpperRowLines()
    ensures Lines("1\n1,1") == ["1", "1,1"]
  {
    TwoLines("1", "1,1");
    assert "1" + ['\n'] + "1,1" == "1\n1,1";
  }

  /** Two lines without outer whitespace, joined by a newline, read back as those lines. */
  lemma TwoLines(a: string, b: string)
    requires '\n' !in a && '\n' !in b
    requires a != [] && b != [] && !IsJsWhitespace(a[0]) && !IsJsWhitespace(b[|b| - 1])
    ensures Lines(a + ['\n'] + b) == [a, b]
  {
    var s := a + ['\n'] + b;
    assert s[0] == a[0] && s[|s| - 1] == b[|b| - 1];
    TrimNoop(s);
    SplitPrefix(a, '\n', b);
    SplitFree(b, '\n');
  }

  lemma OneTokens()
    ensures Tokens("1") == ["1"] && Tokens("1,1") == ["1", "1"]
    ensures IsIntToken("1") && ParseInt("1") == 1
  {
    SplitFree("1", ',');
    DropEmptyNone(["1"]);
    assert "1,1" == "1" + [','] + "1";
    SplitPrefix("1", ',', "1");
    DropEmptyNone(["1", "1"]);
    assert AllDigits("1");
  }

  /** Up, down, left or right of each other; diagonal cells are not adjacent. */
  predicate Adjacent(a: Cell, b: Cell)
  {
    (a.row == b.row && (a.col == b.col + 1 || a.col + 1 == b.col))
    || (a.col == b.col && (a.row == b.row + 1 || a.row + 1 == b.row))
  }

  /** The four cells `checkMatrixAtPosition` recurses into, in its order. */
  function Up(c: Cell): Cell { Cell(c.row - 1, c.col) }
  function Down(c: Cell): Cell { Cell(c.row + 1, c.col) }
  function Left(c: Cell): Cell { Cell(c.row, c.col - 1) }
  function Right(c: Cell): Cell { Cell(c.row, c.col + 1) }

  lemma AdjacentIsNeighbour(a: Cell, b: Cell)
    ensures Adjacent(a, b) <==> b == Up(a) || b == Down(a) || b == Left(a) || b == Right(a)
  {
  }

  /** Cells before `b` in the order `createTileGroups` scans the matrix: row by row, left to right. */
  predicate Before(a: Cell, b: Cell)
  {
    a.row < b.row || (a.row == b.row && a.col < b.col)
  }

  /** The collidable cells of the matrix. */
  ghost function OpenCells(m: Matrix, ign: string): set<Cell>
  {
    set r, c | 0 <= r < |m| && 0 <= c < Width(m) && Open(m, ign, Cell(r, c)) :: Cell(r, c)
  }

  lemma OpenCellsAreOpen(m: Matrix, ign: string, x: Cell)
    ensures x in OpenCells(m, ign) <==> Open(m, ign, x)
  {
    if Open(m, ign, x) {
      assert Cell(x.row, x.col) == x;
    }
  }

  /** Under `FillSafe`, no neighbour of a collidable cell is a hole. */
  lemma OpenNeighboursSafe(m: Matrix, ign: string, x: Cell)
    requires FillSafe(m, ign) && x in OpenCells(m, ign)
    ensures !Hole(m, Cell(x.row - 1, x.col)) && !Hole(m, Cell(x.row + 1, x.col))
    ensures !Hole(m, Cell(x.row, x.col - 1)) && !Hole(m, Cell(x.row, x.col + 1))
  {
    OpenCellsAreOpen(m, ign, x);
  }

  /** A non-empty walk through cells of `s`, each step to an adjacent cell. */
  ghost predicate IsWalk(s: set<Cell>, p: seq<Cell>)
  {
    |p| >= 1
    && (forall i :: 0 <= i < |p| ==> p[i] in s)
    && (forall i :: 0 <= i < |p| - 1 ==> Step(p, i))
  }

  /** Cell `i + 1` of the walk is next to cell `i`. */
  predicate Step(p: seq<Cell>, i: int)
    requires 0 <= i < |p| - 1
  {
    Adjacent(p[i], p[i + 1])
  }

  /** `a` and `b` are joined by an up/down/left/right walk through `s`. */
  ghost predicate ConnectedIn(s: set<Cell>, a: Cell, b: Cell)
  {
    exists p :: IsWalk(s, p) && p[0] == a && p[|p| - 1] == b
  }

  /** Two cells are joined by an up/down/left/right path of collidable cells. */
  ghost predicate Connected(m: Matrix, ign: string, a: Cell, b: Cell)
  {
    ConnectedIn(OpenCells(m, ign), a, b)
  }

  lemma ConnectedRefl(s: set<Cell>, a: Cell)
    requires a in s
    ensures ConnectedIn(s, a, a)
  {
    assert IsWalk(s, [a]);
  }

  /** A cell of `s` next to the start of a walk extends it. */
  lemma ConnectedPrepend(s: set<Cell>, a: Cell, b: Cell, c: Cell)
    requires a in s && Adjacent(a, b) && ConnectedIn(s, b, c)
    ensures ConnectedIn(s, a, c)
  {
    var p :| IsWalk(s, p) && p[0] == b && p[|p| - 1] == c;
    var q := [a] + p;
    assert Step(q, 0);
    assert forall i :: 1 <= i < |q| - 1 ==> Step(q, i) by {
      forall i | 1 <= i < |q| - 1 ensures Step(q, i) {
        assert Step(p, i - 1);
      }
    }
    assert IsWalk(s, q);
  }

  lemma ConnectedSym(s: set<Cell>, a: Cell, b: Cell)
    requires ConnectedIn(s, a, b)
    ensures ConnectedIn(s, b, a)
  {
    var p :| IsWalk(s, p) && p[0] == a && p[|p| - 1] == b;
    var q := Reverse(p);
    forall i | 0 <= i < |q| ensures q[i] == p[|p| - 1 - i] {
      ReverseAt(p, i);
    }
    forall i | 0 <= i < |q| - 1 ensures Step(q, i) {
      assert Step(p, |p| - 2 - i);
    }
    assert IsWalk(s, q);
  }

  lemma ConnectedTrans(s: set<Cell>, a: Cell, b: Cell, c: Cell)
    requires ConnectedIn(s, a, b) && ConnectedIn(s, b, c)
    ensures ConnectedIn(s, a, c)
  {
    var p :| IsWalk(s, p) && p[0] == a && p[|p| - 1] == b;
    var q :| IsWalk(s, q) && q[0] == b && q[|q| - 1] == c;
    var r := p + q[1..];
    forall i | 0 <= i < |r| - 1 ensures Step(r, i) {
      if i < |p| - 1 {
        assert Step(p, i);
      } else {
        assert Step(q, i - |p| + 1);
      }
    }
    assert IsWalk(s, r);
  }

  /** A walk from `a` to any other cell leaves `a` through one of its four neighbours,
      so cells that only touch at a corner are not joined through each other. */
  lemma LeavesThroughNeighbour(s: set<Cell>, a: Cell, b: Cell)
    requires ConnectedIn(s, a, b) && b != a
    ensures Up(a) in s || Down(a) in s || Left(a) in s || Right(a) in s
  {
    var p :| IsWalk(s, p) && p[0] == a && p[|p| - 1] == b;
    assert Step(p, 0) && p[1] in s;
  }

  // ---------------------------------------------------------------------------
  // Group keys
  // ---------------------------------------------------------------------------

  /** `${rowIndex}_${colIndex}` */
  function Key(row: int, col: int): string
  {
    IntToString(row) + "_" + IntToString(col)
  }

  lemma SplitAtMarker(a: string, b: string, a': string, b': string)
    requires '_' !in a && '_' !in a'
    requires a + "_" + b == a' + "_" + b'
    ensures a == a' && b == b'
  {
    var s := a + "_" + b;
    MarkerPosition(a, b, |a'|);
    MarkerPosition(a', b', |a|);
    assert a == s[..|a|] == a';
    assert b == s[|a| + 1..] == b';
  }

  /** In `a + "_" + b` with no marker in `a`, no marker comes before position `|a|`. */
  lemma MarkerPosition(a: string, b: string, k: int)
    requires '_' !in a && 0 <= k < |a + "_" + b| && (a + "_" + b)[k] == '_'
    ensures k >= |a|
  {
  }

  /** Distinct cells have distinct keys. */
  lemma KeyInjective(r: int, c: int, r': int, c': int)
    requires Key(r, c) == Key(r', c')
    ensures r == r' && c == c'
  {
    IntToStringChars(r);
    IntToStringChars(r');
    SplitAtMarker(IntToString(r), IntToString(c), IntToString(r'), IntToString(c'));
    IntToStringInjective(r, r');
    IntToStringInjective(c, c');
  }
}
