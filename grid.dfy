/** Grid loading of `LDtkLayer`: the collision CSV exported by LDtk becomes an integer
    matrix whose row 0 is the bottom line of the map, and the `ignoredTiles` setting
    decides which tile ids are not collidable. */
module Grid {
  import opened Text

  type Matrix = seq<seq<int>>

  // ---------------------------------------------------------------------------
  // createMatrixFromCSV
  // ---------------------------------------------------------------------------

  /** The lines of the CSV text once surrounding whitespace is trimmed. */
  function Lines(csv: string): seq<string>
  {
    Split(Trim(csv), '\n')
  }

  /** The pieces of a line without the empty ones (a trailing comma leaves one). */
  function DropEmpty(parts: seq<string>): (r: seq<string>)
    ensures |r| <= |parts|
    ensures forall t :: t in r <==> t in parts && t != []
  {
    if parts == [] then []
    else if parts[0] == [] then DropEmpty(parts[1..])
    else [parts[0]] + DropEmpty(parts[1..])
  }

  /** The cell tokens of one line: its comma-separated pieces without the empty ones. */
  function Tokens(line: string): seq<string>
  {
    DropEmpty(Split(line, ','))
  }

  /** The inputs the model admits: every cell token is an optionally signed digit string. */
  predicate WellFormedCsv(csv: string)
  {
    forall i, j :: 0 <= i < |Lines(csv)| && 0 <= j < |Tokens(Lines(csv)[i])| ==>
      IsIntToken(Tokens(Lines(csv)[i])[j])
  }

  /** Every cell token of `line` is a decimal integer. */
  predicate WellFormedRow(line: string)
  {
    forall j :: 0 <= j < |Tokens(line)| ==> IsIntToken(Tokens(line)[j])
  }

  /** The tile ids of one line: each token read as a decimal integer. */
  function ParseRow(line: string): (row: seq<int>)
    requires WellFormedRow(line)
  {
    seq(|Tokens(line)|, j requires 0 <= j < |Tokens(line)| => ParseInt(Tokens(line)[j]))
  }

  function ParseRows(lines: seq<string>): (rows: Matrix)
    requires forall i, j :: 0 <= i < |lines| && 0 <= j < |Tokens(lines[i])| ==> IsIntToken(Tokens(lines[i])[j])
  {
    seq(|lines|, i requires 0 <= i < |lines| => ParseRow(lines[i]))
  }

  /** `Array.prototype.reverse` */
  function Reverse<T>(s: seq<T>): (r: seq<T>)
    ensures |r| == |s|
  {
    if s == [] then [] else Reverse(s[1..]) + [s[0]]
  }

  lemma {:induction false} ReverseAt<T>(s: seq<T>, k: nat)
    requires k < |s|
    ensures Reverse(s)[k] == s[|s| - 1 - k]
  {
    if k < |s| - 1 {
      ReverseAt(s[1..], k);
    }
  }

  /** `createMatrixFromCSV(csv)` (LDtk_Layer.ts; Test.ts holds the same code). */
  function CreateMatrixFromCSV(csv: string): (m: Matrix)
    requires WellFormedCsv(csv)
    ensures |m| == |Lines(csv)| && |m| >= 1
    ensures forall i :: 0 <= i < |m| ==> m[i] == ParseRow(Lines(csv)[|m| - 1 - i])
  {
    var rows := ParseRows(Lines(csv));
    ReverseAll(rows);
    Reverse(rows)
  }

  lemma ReverseAll<T>(s: seq<T>)
    ensures forall k :: 0 <= k < |s| ==> Reverse(s)[k] == s[|s| - 1 - k]
  {
    forall k | 0 <= k < |s| ensures Reverse(s)[k] == s[|s| - 1 - k] {
      ReverseAt(s, k);
    }
  }

  /** Row `i` of the matrix has one cell per non-empty token of line `n - 1 - i`,
      and each cell is that token's integer value. */
  lemma MatrixCells(csv: string, i: nat, j: nat)
    requires WellFormedCsv(csv)
    requires i < |Lines(csv)|
    ensures |CreateMatrixFromCSV(csv)| == |Lines(csv)|
    ensures var line := Lines(csv)[|Lines(csv)| - 1 - i];
      |CreateMatrixFromCSV(csv)[i]| == |Tokens(line)|
      && (j < |Tokens(line)| ==> IsIntToken(Tokens(line)[j]) && CreateMatrixFromCSV(csv)[i][j] == ParseInt(Tokens(line)[j]))
  {
    var m := CreateMatrixFromCSV(csv);
    var lines := Lines(csv);
    var k := |lines| - 1 - i;
    WellFormedLine(csv, k);
    MatrixRow(csv, i);
    ParseRowAt(lines[k], j);
  }

  /** Every line of an admitted CSV text is an admitted row. */
  lemma WellFormedLine(csv: string, k: nat)
    requires WellFormedCsv(csv) && k < |Lines(csv)|
    ensures WellFormedRow(Lines(csv)[k])
  {
    var line := Lines(csv)[k];
    forall t | 0 <= t < |Tokens(line)| ensures IsIntToken(Tokens(line)[t]) {
      assert 0 <= k < |Lines(csv)| && 0 <= t < |Tokens(Lines(csv)[k])|;
    }
  }

  /** Row `i` of the matrix is the parsed line `n - 1 - i`. */
  lemma MatrixRow(csv: string, i: nat)
    requires WellFormedCsv(csv) && i < |Lines(csv)|
    ensures WellFormedRow(Lines(csv)[|Lines(csv)| - 1 - i])
    ensures CreateMatrixFromCSV(csv)[i] == ParseRow(Lines(csv)[|Lines(csv)| - 1 - i])
  {
    WellFormedLine(csv, |Lines(csv)| - 1 - i);
  }

  /** The length of a parsed line and its cell `j`. */
  lemma ParseRowAt(line: string, j: nat)
    requires WellFormedRow(line)
    ensures |ParseRow(line)| == |Tokens(line)|
    ensures j < |Tokens(line)| ==> IsIntToken(Tokens(line)[j]) && ParseRow(line)[j] == ParseInt(Tokens(line)[j])
  {
  }

  lemma {:induction false} DropEmptyAppendEmpty(parts: seq<string>)
    ensures DropEmpty(parts + [[]]) == DropEmpty(parts)
  {
    if parts != [] {
      DropEmptyAppendEmpty(parts[1..]);
      assert (parts + [[]])[1..] == parts[1..] + [[]];
    }
  }

  /** A trailing comma on a line adds no cell. */
  lemma TrailingCommaAddsNoCell(line: string)
    ensures Tokens(line + [',']) == Tokens(line)
  {
    SplitAppendSep(line, ',');
    DropEmptyAppendEmpty(Split(line, ','));
  }

  lemma {:induction false} DropEmptyNone(parts: seq<string>)
    requires forall i :: 0 <= i < |parts| ==> parts[i] != []
    ensures DropEmpty(parts) == parts
  {
    if parts != [] {
      DropEmptyNone(parts[1..]);
    }
  }

  // ---------------------------------------------------------------------------
  // The CSV text LDtk writes for a grid, and reading it back
  // ---------------------------------------------------------------------------

  function IdTexts(row: seq<int>): (r: seq<string>)
    ensures |r| == |row|
  {
    seq(|row|, j requires 0 <= j < |row| => IntToString(row[j]))
  }

  /** One line of an LDtk IntGrid CSV export: every id followed by a comma. */
  function CsvLine(row: seq<int>): string
  {
    Join(IdTexts(row), [',']) + [',']
  }

  function CsvLines(rows: Matrix): (r: seq<string>)
    ensures |r| == |rows|
  {
    seq(|rows|, i requires 0 <= i < |rows| => CsvLine(rows[i]))
  }

  /** The export of a whole grid, top line first, lines joined by newlines. */
  function CsvText(rows: Matrix): string
  {
    Join(CsvLines(rows), ['\n'])
  }

  lemma {:induction false} JoinCharsIn(parts: seq<string>, sep: string, c: char)
    requires forall i :: 0 <= i < |parts| ==> c !in parts[i]
    requires c !in sep
    ensures c !in Join(parts, sep)
  {
    if |parts| > 1 {
      JoinCharsIn(parts[1..], sep, c);
    }
  }

  lemma {:induction false} JoinFirstChar(parts: seq<string>, sep: string)
    requires |parts| >= 1 && parts[0] != []
    ensures Join(parts, sep) != [] && Join(parts, sep)[0] == parts[0][0]
  {
  }

  lemma IdTextsFree(row: seq<int>, c: char)
    requires c == ',' || c == '\n' || IsJsWhitespace(c)
    ensures forall j :: 0 <= j < |IdTexts(row)| ==> c !in IdTexts(row)[j] && IdTexts(row)[j] != []
  {
    forall j | 0 <= j < |row| ensures c !in IntToString(row[j]) && IntToString(row[j]) != [] {
      IntToStringChars(row[j]);
    }
  }

  /** The tokens of an exported line are the decimal texts of its ids. */
  lemma CsvLineTokens(row: seq<int>)
    requires |row| >= 1
    ensures Tokens(CsvLine(row)) == IdTexts(row)
  {
    IdTextsFree(row, ',');
    TrailingCommaAddsNoCell(Join(IdTexts(row), [',']));
    SplitJoin(IdTexts(row), ',');
    DropEmptyNone(IdTexts(row));
  }

  lemma CsvLineRow(row: seq<int>)
    requires |row| >= 1
    ensures forall j :: 0 <= j < |Tokens(CsvLine(row))| ==> IsIntToken(Tokens(CsvLine(row))[j])
    ensures ParseRow(CsvLine(row)) == row
  {
    CsvLineTokens(row);
    forall j | 0 <= j < |row| ensures IsIntToken(IdTexts(row)[j]) && ParseInt(IdTexts(row)[j]) == row[j] {
      ParseIntToString(row[j]);
    }
  }

  /** The lines of an exported grid are the exported rows, in order. */
  lemma CsvTextLines(rows: Matrix)
    requires |rows| >= 1
    requires forall i :: 0 <= i < |rows| ==> |rows[i]| >= 1
    ensures Lines(CsvText(rows)) == CsvLines(rows)
  {
    var lines := CsvLines(rows);
    var text := CsvText(rows);
    forall i | 0 <= i < |lines| ensures '\n' !in lines[i] && lines[i] != [] && lines[i][|lines[i]| - 1] == ',' {
      IdTextsFree(rows[i], '\n');
      JoinCharsIn(IdTexts(rows[i]), [','], '\n');
    }
    // the text neither starts nor ends with whitespace, so trim leaves it alone
    CsvTextStart(rows);
    JoinLastChar(lines, ['\n']);
    TrimNoop(text);
    SplitJoin(lines, '\n');
  }

  lemma CsvTextStart(rows: Matrix)
    requires |rows| >= 1 && |rows[0]| >= 1
    ensures CsvText(rows) != [] && !IsJsWhitespace(CsvText(rows)[0])
  {
    IdTextsFree(rows[0], '\n');
    JoinFirstChar(IdTexts(rows[0]), [',']);
    JoinFirstChar(CsvLines(rows), ['\n']);
    IntToStringChars(rows[0][0]);
  }

  /** Every cell token of an exported grid is a decimal integer. */
  lemma CsvWellFormed(rows: Matrix)
    requires |rows| >= 1
    requires forall i :: 0 <= i < |rows| ==> |rows[i]| >= 1
    ensures WellFormedCsv(CsvText(rows))
  {
    var lines := CsvLines(rows);
    CsvTextLines(rows);
    forall i, j | 0 <= i < |lines| && 0 <= j < |Tokens(lines[i])| ensures IsIntToken(Tokens(lines[i])[j]) {
      CsvLineRow(rows[i]);
    }
  }

  /** Reading back the CSV that LDtk exports for a grid of non-empty rows gives the
      grid with its lines in reverse order: row 0 of the matrix is the last line. */
  lemma CsvRoundTrip(rows: Matrix)
    requires |rows| >= 1
    requires forall i :: 0 <= i < |rows| ==> |rows[i]| >= 1
    ensures WellFormedCsv(CsvText(rows))
    ensures CreateMatrixFromCSV(CsvText(rows)) == Reverse(rows)
  {
    CsvWellFormed(rows);
    CsvTextLines(rows);
    CsvLinesParse(rows);
    assert CreateMatrixFromCSV(CsvText(rows)) == Reverse(ParseRows(CsvLines(rows)));
  }

  /** The exported lines, each parsed, are the rows again. */
  lemma CsvLinesParse(rows: Matrix)
    requires forall i :: 0 <= i < |rows| ==> |rows[i]| >= 1
    ensures forall i, j :: 0 <= i < |CsvLines(rows)| && 0 <= j < |Tokens(CsvLines(rows)[i])| ==>
      IsIntToken(Tokens(CsvLines(rows)[i])[j])
    ensures ParseRows(CsvLines(rows)) == rows
  {
    var lines := CsvLines(rows);
    forall k | 0 <= k < |rows|
      ensures forall j :: 0 <= j < |Tokens(lines[k])| ==> IsIntToken(Tokens(lines[k])[j])
      ensures ParseRow(lines[k]) == rows[k]
    {
      assert lines[k] == CsvLine(rows[k]);
      CsvLineRow(rows[k]);
    }
  }

  lemma {:induction false} JoinLastChar(parts: seq<string>, sep: string)
    requires |parts| >= 1 && parts[|parts| - 1] != []
    ensures Join(parts, sep) != []
    ensures Join(parts, sep)[|Join(parts, sep)| - 1] == parts[|parts| - 1][|parts[|parts| - 1]| - 1]
  {
    if |parts| > 1 {
      JoinLastChar(parts[1..], sep);
    }
  }

  // ---------------------------------------------------------------------------
  // ignoredTiles
  // ---------------------------------------------------------------------------

  /** The ignored-tile list: the pieces between commas, each with surrounding whitespace
      removed. */
  function IgnoreTokens(ignored: string): (r: seq<string>)
  {
    seq(|Split(ignored, ',')|, i requires 0 <= i < |Split(ignored, ',')| => Trim(Split(ignored, ',')[i]))
  }

  /** Whether a cell holding `tile` is left out of every group: the decimal text of `tile`
      is one of the pieces of the ignored-tile list. */
  predicate IsIgnored(tile: int, ignored: string)
  {
    IntToString(tile) in IgnoreTokens(ignored)
  }

  /** The default setting `"0"` ignores exactly the empty tile 0. */
  lemma DefaultIgnoresOnlyZero(tile: int)
    ensures IsIgnored(tile, "0") <==> tile == 0
  {
    SplitFree("0", ',');
    assert IgnoreTokens("0") == [Trim("0")];
    TrimNoop("0");
    assert IntToString(0) == "0";
    if IntToString(tile) == "0" {
      IntToStringInjective(tile, 0);
    }
  }

  /** The pieces with a space put in front of every piece but the first: joining them with
      a comma gives the same text as joining the originals with a comma and a space. */
  function SpaceAfterFirst(parts: seq<string>): (r: seq<string>)
    ensures |r| == |parts|
  {
    if parts == [] then [] else [parts[0]] + seq(|parts| - 1, i requires 0 <= i < |parts| - 1 => [' '] + parts[i + 1])
  }

  lemma JoinCons(x: string, q: seq<string>, sep: string)
    requires q != []
    ensures Join([x] + q, sep) == x + sep + Join(q, sep)
  {
    assert ([x] + q)[1..] == q;
  }

  /** Text put in front of a join lands in front of the first piece. */
  lemma JoinPrependFirst(c: string, q: seq<string>, sep: string)
    requires q != []
    ensures c + Join(q, sep) == Join([c + q[0]] + q[1..], sep)
  {
    if |q| == 1 {
      assert [c + q[0]] + q[1..] == [c + q[0]];
    } else {
      JoinCons(q[0], q[1..], sep);
      JoinCons(c + q[0], q[1..], sep);
      assert q == [q[0]] + q[1..];
    }
  }

  lemma {:induction false} JoinCommaSpace(parts: seq<string>)
    ensures Join(parts, [',', ' ']) == Join(SpaceAfterFirst(parts), [','])
  {
    if |parts| > 1 {
      JoinCommaSpace(parts[1..]);
      var tail := SpaceAfterFirst(parts[1..]);
      var spaced := [[' '] + tail[0]] + tail[1..];
      assert SpaceAfterFirst(parts) == [parts[0]] + spaced;
      assert parts == [parts[0]] + parts[1..];
      JoinCons(parts[0], parts[1..], [',', ' ']);
      JoinPrependFirst([' '], tail, [',']);
      JoinCons(parts[0], spaced, [',']);
      CommaThenSpace(parts[0], Join(tail, [',']));
    }
  }

  /** A `", "` separator is a comma followed by a space. */
  lemma CommaThenSpace(p: string, rest: string)
    ensures p + [',', ' '] + rest == p + [','] + ([' '] + rest)
  {
    assert [',', ' '] == [','] + [' '];
  }

  /** The trimmed pieces of a `", "`-joined list of ids are the ids' decimal texts. */
  lemma IgnoreTokensOfList(ids: seq<int>)
    requires ids != []
    ensures IgnoreTokens(Join(IdTexts(ids), [',', ' '])) == IdTexts(ids)
  {
    var texts := IdTexts(ids);
    var s := Join(texts, [',', ' ']);
    JoinCommaSpace(texts);
    var sp := SpaceAfterFirst(texts);
    IdTextsFree(ids, ',');
    forall i | 0 <= i < |sp| ensures ',' !in sp[i] {
      if i > 0 { assert sp[i] == [' '] + texts[i]; }
    }
    SplitJoin(sp, ',');
    assert Split(s, ',') == sp;
    forall i | 0 <= i < |ids| ensures Trim(sp[i]) == texts[i] {
      TrimIdText(ids, sp, i);
    }
  }

  lemma TrimIdText(ids: seq<int>, sp: seq<string>, i: nat)
    requires ids != [] && sp == SpaceAfterFirst(IdTexts(ids)) && i < |ids|
    ensures Trim(sp[i]) == IdTexts(ids)[i]
  {
    var t := IntToString(ids[i]);
    IntToStringChars(ids[i]);
    assert !IsJsWhitespace(t[0]) && !IsJsWhitespace(t[|t| - 1]);
    if i == 0 {
      TrimNoop(t);
    } else {
      assert sp[i] == [' '] + t;
      TrimLeadingSpaces([' '], t);
    }
  }

  /** An ignore setting written as a `", "`-joined list of ids ignores exactly those ids. */
  lemma IgnoreListOfIds(ids: seq<int>, tile: int)
    ensures IsIgnored(tile, Join(IdTexts(ids), [',', ' '])) <==> tile in ids
  {
    var texts := IdTexts(ids);
    if ids == [] {
      IgnoreNothing(tile);
    } else {
      IgnoreTokensOfList(ids);
      assert IsIgnored(tile, Join(texts, [',', ' '])) <==> IntToString(tile) in texts;
      if IntToString(tile) in texts {
        var j :| 0 <= j < |texts| && texts[j] == IntToString(tile);
        IntToStringInjective(tile, ids[j]);
      }
      if tile in ids {
        var j :| 0 <= j < |ids| && ids[j] == tile;
        assert texts[j] == IntToString(tile);
      }
    }
  }

  /** An empty setting ignores no tile. */
  lemma IgnoreNothing(tile: int)
    ensures !IsIgnored(tile, [])
  {
    assert Split([], ',') == [[]];
    assert IgnoreTokens([]) == [[]];
    IntToStringChars(tile);
  }
}
