/** The Markdown text of a table grid (internal/pdftomd/tables.go,
    internal/pdftomd/text_tables.go) and the way a reader takes it apart again
    (section 4.10 of the GitHub Flavored Markdown Spec). */
module TableText {
  // ----- Rendering -----

  /** strings.ReplaceAll for a single character. */
  function ReplaceAll(s: string, c: char, sub: string): string {
    if s == "" then "" else (if s[0] == c then sub else [s[0]]) + ReplaceAll(s[1..], c, sub)
  }

  function Escape(cell: string): string { ReplaceAll(cell, '|', "\\|") }

  /** Line breaks inside a cell become spaces; only bordered tables do this. */
  function Unbreak(text: string): string { ReplaceAll(text, '\n', " ") }

  function CellText(cell: string, unbreak: bool): string {
    if unbreak then Unbreak(Escape(cell)) else Escape(cell)
  }

  function Cells(row: seq<string>, unbreak: bool): string {
    if row == [] then "" else CellText(row[0], unbreak) + "|" + Cells(row[1..], unbreak)
  }

  function RowText(row: seq<string>, unbreak: bool): string { "|" + Cells(row, unbreak) }

  function Rules(n: nat): string {
    if n == 0 then "" else "---|" + Rules(n - 1)
  }

  function DelimiterText(n: nat): string { "|" + Rules(n) }

  /** The lines of the table: the delimiter row follows the first row. */
  function Lines(grid: seq<seq<string>>, unbreak: bool): seq<string>
    requires grid != []
  {
    [RowText(grid[0], unbreak), DelimiterText(|grid[0]|)] + RowTexts(grid[1..], unbreak)
  }

  function RowTexts(rows: seq<seq<string>>, unbreak: bool): seq<string> {
    seq(|rows|, i requires 0 <= i < |rows| => RowText(rows[i], unbreak))
  }

  /** Each line with its line break. */
  function Joined(lines: seq<string>): string {
    if lines == [] then "" else lines[0] + "\n" + Joined(lines[1..])
  }

  method RenderRow(row: seq<string>, unbreak: bool) returns (out: string)
    ensures out == RowText(row, unbreak) + "\n"
  {
    out := "|";
    for c := 0 to |row|
      invariant out + Cells(row[c..], unbreak) == RowText(row, unbreak)
    {
      assert row[c..][1..] == row[c + 1..];
      ghost var rest := Cells(row[c + 1..], unbreak);
      ghost var before := out;
      var text := Escape(row[c]);
      if unbreak {
        text := Unbreak(text);
      }
      out := out + text + "|";
      assert out + rest == before + (text + "|" + rest);
    }
    assert row[|row|..] == [];
    out := out + "\n";
  }

  method RenderDelimiter(n: nat) returns (out: string)
    ensures out == DelimiterText(n) + "\n"
  {
    out := "|";
    for i := 0 to n
      invariant out + Rules(n - i) == DelimiterText(n)
    {
      ghost var before, rest := out, Rules(n - i - 1);
      out := out + "---|";
      assert out + rest == before + ("---|" + rest);
    }
    out := out + "\n";
  }

  method RenderTable(grid: seq<seq<string>>, unbreak: bool) returns (out: string)
    requires grid != []
    ensures out == Joined(Lines(grid, unbreak))
  {
    var header := RenderRow(grid[0], unbreak);
    var delimiter := RenderDelimiter(|grid[0]|);
    out := header + delimiter;
    ghost var lines := Lines(grid, unbreak);
    JoinedTwo(lines);
    for r := 1 to |grid|
      invariant out + Joined(lines[r + 1..]) == Joined(lines)
    {
      ghost var before, rest := out, Joined(lines[r + 2..]);
      assert lines[r + 1..][1..] == lines[r + 2..];
      var line := RenderRow(grid[r], unbreak);
      assert lines[r + 1] == RowText(grid[r], unbreak);
      out := out + line;
      assert out + rest == before + (lines[r + 1] + "\n" + rest);
    }
    assert lines[|lines|..] == [];
  }

  lemma JoinedTwo(lines: seq<string>)
    requires |lines| >= 2
    ensures Joined(lines) == (lines[0] + "\n") + (lines[1] + "\n") + Joined(lines[2..])
  {
    assert lines[1..][1..] == lines[2..];
    var rest := Joined(lines[2..]);
    assert lines[0] + "\n" + (lines[1] + "\n" + rest) == (lines[0] + "\n") + (lines[1] + "\n") + rest;
  }

  // ----- Reading -----

  /** Splits at the pipes that no backslash precedes; cur is the cell read so far. */
  function Fields(s: string, cur: string): seq<string>
    decreases |s|
  {
    if s == "" then if cur == "" then [] else [cur]
    else if s[0] == '|' && (cur == "" || cur[|cur| - 1] != '\\') then [cur] + Fields(s[1..], "")
    else Fields(s[1..], cur + [s[0]])
  }

  function Unescape(s: string): string {
    if s == "" then ""
    else if |s| >= 2 && s[0] == '\\' && s[1] == '|' then "|" + Unescape(s[2..])
    else [s[0]] + Unescape(s[1..])
  }

  function Unescaped(fields: seq<string>): seq<string> {
    seq(|fields|, i requires 0 <= i < |fields| => Unescape(fields[i]))
  }

  /** A row is read without its leading pipe. */
  function ReadRow(line: string): seq<string> {
    Unescaped(Fields(if line != "" && line[0] == '|' then line[1..] else line, ""))
  }

  function SplitLines(s: string, cur: string): seq<string>
    decreases |s|
  {
    if s == "" then if cur == "" then [] else [cur]
    else if s[0] == '\n' then [cur] + SplitLines(s[1..], "")
    else SplitLines(s[1..], cur + [s[0]])
  }

  datatype Table = NoTable | Table(rows: seq<seq<string>>)

  /** A table is a header row, a delimiter row of the same width, and its other rows. */
  function ReadTable(text: string): Table {
    var lines := SplitLines(text, "");
    if |lines| < 2 then NoTable
    else
      var header, rules := ReadRow(lines[0]), ReadRow(lines[1]);
      if |header| == |rules| && forall i :: 0 <= i < |rules| ==> rules[i] == "---"
      then Table([header] + ReadRows(lines[2..]))
      else NoTable
  }

  function ReadRows(lines: seq<string>): seq<seq<string>> {
    seq(|lines|, i requires 0 <= i < |lines| => ReadRow(lines[i]))
  }

  // ----- One cell -----

  ghost predicate EndsOpen(cell: string) { cell != "" && cell[|cell| - 1] == '\\' }

  lemma {:induction false} ReplaceAllShape(s: string, c: char, sub: string)
    requires sub != ""
    ensures s != "" <==> ReplaceAll(s, c, sub) != ""
    ensures s != "" && s[|s| - 1] != c ==> EndsOpen(ReplaceAll(s, c, sub)) == EndsOpen(s)
    ensures s != "" && s[|s| - 1] == c ==> EndsOpen(ReplaceAll(s, c, sub)) == EndsOpen(sub)
    decreases |s|
  {
    if |s| > 1 {
      ReplaceAllShape(s[1..], c, sub);
      assert s[1..][|s| - 2] == s[|s| - 1];
    } else if |s| == 1 {
      assert ReplaceAll(s[1..], c, sub) == "";
      assert ReplaceAll(s, c, sub) == if s[0] == c then sub else [s[0]];
    }
  }

  lemma EscapeFirst(cell: string, rest: string)
    requires cell != ""
    ensures Escape(cell) + rest == (if cell[0] == '|' then "\\|" else [cell[0]]) + (Escape(cell[1..]) + rest)
  {
  }

  lemma UnescapeFirst(c: char, t: string)
    requires t == "" || t[0] != '|'
    ensures Unescape((if c == '|' then "\\|" else [c]) + t) == [c] + Unescape(t)
  {
    assert ("\\|" + t)[2..] == t;
    assert ([c] + t)[1..] == t;
  }

  lemma UnescapeStep(cell: string, rest: string)
    requires cell != "" && (rest == "" || rest[0] != '|')
    ensures Unescape(Escape(cell) + rest) == [cell[0]] + Unescape(Escape(cell[1..]) + rest)
  {
    EscapeStart(cell[1..]);
    EscapeFirst(cell, rest);
    UnescapeFirst(cell[0], Escape(cell[1..]) + rest);
  }

  lemma FirstAndRest(s: string, t: string)
    requires s != ""
    ensures s + t == [s[0]] + (s[1..] + t)
  {
  }

  /** Undoing the escape, whatever follows, unless that starts with a pipe. */
  lemma {:induction false} UnescapeEscape(cell: string, rest: string)
    requires rest == "" || rest[0] != '|'
    ensures Unescape(Escape(cell) + rest) == cell + Unescape(rest)
    decreases |cell|
  {
    if cell == "" {
      assert Escape(cell) + rest == rest;
    } else {
      UnescapeEscape(cell[1..], rest);
      UnescapeStep(cell, rest);
      FirstAndRest(cell, Unescape(rest));
    }
  }

  lemma EscapeStart(cell: string)
    ensures Escape(cell) != "" ==> Escape(cell)[0] != '|'
  {
  }

  /** Reading an escaped cell never splits it. */
  lemma {:induction false} FieldsOfEscaped(cell: string, rest: string, cur: string)
    ensures Fields(Escape(cell) + rest, cur) == Fields(rest, cur + Escape(cell))
    decreases |cell|
  {
    if cell == "" {
      assert Escape(cell) + rest == rest && cur + Escape(cell) == cur;
    } else {
      var first := if cell[0] == '|' then "\\|" else [cell[0]];
      EscapeFirst(cell, rest);
      FieldsFirst(cell[0], Escape(cell[1..]) + rest, cur);
      FieldsOfEscaped(cell[1..], rest, cur + first);
      assert cur + first + Escape(cell[1..]) == cur + Escape(cell);
    }
  }

  lemma FieldsFirst(c: char, t: string, cur: string)
    ensures var first := if c == '|' then "\\|" else [c];
            Fields(first + t, cur) == Fields(t, cur + first)
  {
    if c == '|' {
      assert ("\\|" + t)[1..] == "|" + t;
      assert ("|" + t)[1..] == t;
      assert cur + ['\\'] + ['|'] == cur + "\\|";
    } else {
      assert ([c] + t)[1..] == t;
    }
  }

  // ----- One row -----

  /** What a renderer makes of a cell before it escapes the pipes. */
  function Shown(cell: string, unbreak: bool): string { if unbreak then Unbreak(cell) else cell }

  lemma {:induction false} ShownBeforeEscape(cell: string, unbreak: bool)
    ensures CellText(cell, unbreak) == Escape(Shown(cell, unbreak))
    decreases |cell|
  {
    if unbreak && cell != "" {
      ShownBeforeEscape(cell[1..], unbreak);
      var c := cell[0];
      var first := if c == '|' then "\\|" else [c];
      assert Escape(cell) == first + Escape(cell[1..]);
      UnbreakAppend(first, Escape(cell[1..]));
      assert Unbreak(cell) == (if c == '\n' then " " else [c]) + Unbreak(cell[1..]);
      UnbreakShort(c);
    }
  }

  lemma UnbreakShort(c: char)
    ensures Unbreak("\\|") == "\\|" && Unbreak([c]) == if c == '\n' then " " else [c]
  {
    assert [c][1..] == "";
    assert "\\|"[1..] == "|";
  }

  lemma {:induction false} UnbreakAppend(a: string, b: string)
    ensures Unbreak(a + b) == Unbreak(a) + Unbreak(b)
    decreases |a|
  {
    if a == "" {
      assert a + b == b;
    } else {
      assert (a + b)[1..] == a[1..] + b;
      UnbreakAppend(a[1..], b);
    }
  }

  lemma {:induction false} UnbreakFacts(s: string)
    ensures |Unbreak(s)| == |s| && '\n' !in Unbreak(s)
    ensures Unbreak(s) == s <==> '\n' !in s
    ensures EndsOpen(Unbreak(s)) == EndsOpen(s)
    decreases |s|
  {
    ReplaceAllShape(s, '\n', " ");
    if s != "" {
      UnbreakFacts(s[1..]);
      assert s == [s[0]] + s[1..];
    }
  }

  /** The cells that survive: no trailing backslash, and no line break where those are
      replaced. */
  ghost predicate ReadsBack(cell: string, unbreak: bool) {
    !EndsOpen(cell) && (unbreak ==> '\n' !in cell)
  }

  lemma ClosedCell(cell: string, rest: string)
    requires !EndsOpen(cell)
    ensures Fields(Escape(cell) + ("|" + rest), "") == [Escape(cell)] + Fields(rest, "")
  {
    FieldsOfEscaped(cell, "|" + rest, "");
    assert "" + Escape(cell) == Escape(cell);
    EscapeEnd(cell);
    assert ("|" + rest)[1..] == rest;
  }

  lemma EscapeEnd(cell: string)
    ensures EndsOpen(Escape(cell)) == EndsOpen(cell)
  {
    ReplaceAllShape(cell, '|', "\\|");
  }

  /** An open cell swallows the pipe that should close it. */
  lemma OpenCell(cell: string, rest: string)
    requires EndsOpen(cell)
    ensures var f := Fields(Escape(cell) + ("|" + rest), "");
            f != [] && |Unescape(f[0])| >= |cell| && Unescape(f[0])[|cell| - 1] == '|'
  {
    FieldsOfEscaped(cell, "|" + rest, "");
    assert "" + Escape(cell) == Escape(cell);
    EscapeEnd(cell);
    assert ("|" + rest)[1..] == rest;
    var more := FirstField(rest, Escape(cell) + "|");
    SwallowedPipe(cell, more);
  }

  lemma SwallowedPipe(cell: string, more: string)
    requires EndsOpen(cell)
    ensures var u := Unescape(Escape(cell) + "|" + more); |u| >= |cell| && u[|cell| - 1] == '|'
  {
    var body := cell[..|cell| - 1];
    assert cell == body + "\\";
    EscapeLast(body);
    var tail := "\\|" + more;
    assert Escape(cell) + "|" + more == Escape(body) + tail;
    UnescapeEscape(body, tail);
    assert tail[2..] == more;
  }

  lemma {:induction false} EscapeLast(body: string)
    ensures Escape(body + "\\") == Escape(body) + "\\"
    decreases |body|
  {
    if body == "" {
      assert body + "\\" == "\\" && "\\"[1..] == "";
    } else {
      assert (body + "\\")[1..] == body[1..] + "\\";
      EscapeLast(body[1..]);
    }
  }

  lemma {:induction false} FirstField(s: string, cur: string) returns (more: string)
    requires cur != ""
    ensures Fields(s, cur) != [] && Fields(s, cur)[0] == cur + more
    decreases |s|
  {
    if s == "" || (s[0] == '|' && cur[|cur| - 1] != '\\') {
      more := "";
    } else {
      more := FirstField(s[1..], cur + [s[0]]);
      more := [s[0]] + more;
    }
  }

  function ReadCells(text: string): seq<string> { Unescaped(Fields(text, "")) }

  lemma ReadClosed(cell: string, rest: string)
    requires !EndsOpen(cell)
    ensures ReadCells(Escape(cell) + "|" + rest) == [cell] + ReadCells(rest)
  {
    ClosedCell(cell, rest);
    assert Escape(cell) + "|" + rest == Escape(cell) + ("|" + rest);
    UnescapeEscape(cell, "");
    assert Escape(cell) + "" == Escape(cell) && cell + "" == cell;
  }

  lemma ReadOpen(cell: string, rest: string)
    requires EndsOpen(cell)
    ensures var r := ReadCells(Escape(cell) + "|" + rest);
            r != [] && |r[0]| >= |cell| && r[0][|cell| - 1] == '|'
  {
    OpenCell(cell, rest);
    assert Escape(cell) + "|" + rest == Escape(cell) + ("|" + rest);
  }

  lemma ShownFacts(cell: string, unbreak: bool)
    ensures |Shown(cell, unbreak)| == |cell|
    ensures EndsOpen(Shown(cell, unbreak)) == EndsOpen(cell)
    ensures Shown(cell, unbreak) == cell <==> (unbreak ==> '\n' !in cell)
  {
    UnbreakFacts(cell);
  }

  lemma {:induction false} CellsRoundTrip(row: seq<string>, unbreak: bool)
    ensures ReadCells(Cells(row, unbreak)) == row <==> forall c :: 0 <= c < |row| ==> ReadsBack(row[c], unbreak)
    decreases |row|
  {
    if row != [] {
      var cell, rest := row[0], Cells(row[1..], unbreak);
      CellsRoundTrip(row[1..], unbreak);
      ShownFacts(cell, unbreak);
      ShownBeforeEscape(cell, unbreak);
      assert forall c :: 1 <= c < |row| ==> row[c] == row[1..][c - 1];
      assert row == [cell] + row[1..];
      if EndsOpen(cell) {
        ReadOpen(Shown(cell, unbreak), rest);
      } else {
        ReadClosed(Shown(cell, unbreak), rest);
        assert ReadCells(Cells(row, unbreak))[1..] == ReadCells(rest);
      }
    }
  }

  /** A rendered row reads back exactly when each of its cells survives. */
  lemma RowRoundTrip(row: seq<string>, unbreak: bool)
    ensures ReadRow(RowText(row, unbreak)) == row <==> forall c :: 0 <= c < |row| ==> ReadsBack(row[c], unbreak)
  {
    CellsRoundTrip(row, unbreak);
    assert RowText(row, unbreak)[1..] == Cells(row, unbreak);
  }

  // ----- The table -----

  lemma {:induction false} DelimiterIsRow(n: nat)
    ensures Rules(n) == Cells(seq(n, _ => "---"), false)
    decreases n
  {
    if n > 0 {
      DelimiterIsRow(n - 1);
      assert seq(n, _ => "---")[1..] == seq(n - 1, _ => "---");
      assert Escape("---") == "---" by {
        assert "---"[1..] == "--" && "--"[1..] == "-";
      }
    }
  }

  lemma ReadDelimiter(n: nat)
    ensures ReadRow(DelimiterText(n)) == seq(n, _ => "---")
  {
    DelimiterIsRow(n);
    RowRoundTrip(seq(n, _ => "---"), false);
  }

  lemma {:induction false} NoBreaks(row: seq<string>, unbreak: bool)
    requires !unbreak ==> forall c :: 0 <= c < |row| ==> '\n' !in row[c]
    ensures '\n' !in Cells(row, unbreak)
    decreases |row|
  {
    if row != [] {
      NoBreaks(row[1..], unbreak);
      ShownBeforeEscape(row[0], unbreak);
      UnbreakFacts(row[0]);
      EscapeNoBreak(Shown(row[0], unbreak));
    }
  }

  lemma {:induction false} EscapeNoBreak(cell: string)
    requires '\n' !in cell
    ensures '\n' !in Escape(cell)
    decreases |cell|
  {
    if cell != "" {
      EscapeNoBreak(cell[1..]);
    }
  }

  lemma {:induction false} RulesNoBreak(n: nat)
    ensures '\n' !in Rules(n)
    decreases n
  {
    if n > 0 {
      RulesNoBreak(n - 1);
    }
  }

  lemma {:induction false} SplitLine(line: string, rest: string, cur: string)
    requires '\n' !in line
    ensures SplitLines(line + "\n" + rest, cur) == [cur + line] + SplitLines(rest, "")
    decreases |line|
  {
    var s := line + "\n" + rest;
    if line == "" {
      assert s[1..] == rest && cur + line == cur;
    } else {
      assert s[1..] == line[1..] + "\n" + rest;
      SplitLine(line[1..], rest, cur + [line[0]]);
      assert cur + [line[0]] + line[1..] == cur + line;
    }
  }

  lemma {:induction false} SplitJoined(lines: seq<string>)
    requires forall i :: 0 <= i < |lines| ==> '\n' !in lines[i]
    ensures SplitLines(Joined(lines), "") == lines
    decreases |lines|
  {
    if lines != [] {
      SplitLine(lines[0], Joined(lines[1..]), "");
      SplitJoined(lines[1..]);
      assert "" + lines[0] == lines[0];
    }
  }

  lemma LinesUnbroken(grid: seq<seq<string>>, unbreak: bool)
    requires grid != []
    requires !unbreak ==> forall r, c :: 0 <= r < |grid| && 0 <= c < |grid[r]| ==> '\n' !in grid[r][c]
    ensures forall i :: 0 <= i < |Lines(grid, unbreak)| ==> '\n' !in Lines(grid, unbreak)[i]
  {
    RulesNoBreak(|grid[0]|);
    forall r | 0 <= r < |grid| ensures '\n' !in RowText(grid[r], unbreak) {
      NoBreaks(grid[r], unbreak);
    }
  }

  // ----- A line break in a cell -----

  function Breaks(s: string): nat {
    if s == "" then 0 else (if s[0] == '\n' then 1 else 0) + Breaks(s[1..])
  }

  lemma {:induction false} BreaksConcat(s: string, t: string)
    ensures Breaks(s + t) == Breaks(s) + Breaks(t)
    decreases |s|
  {
    if s == "" {
      assert s + t == t;
    } else {
      assert (s + t)[1..] == s[1..] + t;
      BreaksConcat(s[1..], t);
    }
  }

  lemma {:induction false} BreaksAppear(s: string)
    requires '\n' in s
    ensures Breaks(s) > 0
    decreases |s|
  {
    if s[0] != '\n' {
      BreaksAppear(s[1..]);
    }
  }

  /** Each line break ends a line. */
  lemma {:induction false} SplitCount(s: string, cur: string)
    ensures |SplitLines(s, cur)| >= Breaks(s)
    decreases |s|
  {
    if s == "" {
    } else if s[0] == '\n' {
      SplitCount(s[1..], "");
    } else {
      SplitCount(s[1..], cur + [s[0]]);
    }
  }

  lemma {:induction false} JoinedBreaks(lines: seq<string>, i: nat)
    requires i < |lines|
    ensures Breaks(Joined(lines)) >= |lines| + Breaks(lines[i])
    decreases |lines|
  {
    var rest := Joined(lines[1..]);
    assert Joined(lines) == lines[0] + "\n" + rest;
    BreaksConcat(lines[0] + "\n", rest);
    BreaksConcat(lines[0], "\n");
    assert Breaks("\n") == 1;
    if i > 0 {
      JoinedBreaks(lines[1..], i - 1);
    } else if |lines| > 1 {
      JoinedBreaks(lines[1..], 0);
    }
  }

  lemma {:induction false} EscapeKeepsBreak(cell: string)
    requires '\n' in cell
    ensures '\n' in Escape(cell)
    decreases |cell|
  {
    if cell[0] != '\n' {
      EscapeKeepsBreak(cell[1..]);
    }
  }

  lemma {:induction false} CellsKeepBreak(row: seq<string>, c: nat)
    requires c < |row| && '\n' in row[c]
    ensures '\n' in Cells(row, false)
    decreases |row|
  {
    if c == 0 {
      EscapeKeepsBreak(row[0]);
    } else {
      CellsKeepBreak(row[1..], c - 1);
    }
  }

  /** Text tables keep a line break of a cell, and then there are more lines than rows. */
  lemma BrokenTable(grid: seq<seq<string>>, r: nat, c: nat)
    requires grid != [] && r < |grid| && c < |grid[r]| && '\n' in grid[r][c]
    ensures ReadTable(Joined(Lines(grid, false))) != Table(grid)
  {
    var lines := Lines(grid, false);
    var i := if r == 0 then 0 else r + 1;
    assert lines[i] == RowText(grid[r], false);
    CellsKeepBreak(grid[r], c);
    BreaksAppear(lines[i]);
    JoinedBreaks(lines, i);
    SplitCount(Joined(lines), "");
  }

  // ----- The round trip -----

  /** A cell that a rendered table can give back, whichever renderer writes it. */
  ghost predicate Survives(cell: string) { !EndsOpen(cell) && '\n' !in cell }

  /** A rendered table reads back as the grid exactly when every cell survives. */
  lemma TableRoundTrip(grid: seq<seq<string>>, unbreak: bool)
    requires grid != []
    ensures ReadTable(Joined(Lines(grid, unbreak))) == Table(grid) <==>
            forall r, c :: 0 <= r < |grid| && 0 <= c < |grid[r]| ==> Survives(grid[r][c])
  {
    if !unbreak && exists r, c :: 0 <= r < |grid| && 0 <= c < |grid[r]| && '\n' in grid[r][c] {
      var r, c :| 0 <= r < |grid| && 0 <= c < |grid[r]| && '\n' in grid[r][c];
      BrokenTable(grid, r, c);
    } else {
      UnbrokenTable(grid, unbreak);
    }
  }

  lemma UnbrokenTable(grid: seq<seq<string>>, unbreak: bool)
    requires grid != []
    requires !unbreak ==> forall r, c :: 0 <= r < |grid| && 0 <= c < |grid[r]| ==> '\n' !in grid[r][c]
    ensures ReadTable(Joined(Lines(grid, unbreak))) == Table(grid) <==>
            forall r, c :: 0 <= r < |grid| && 0 <= c < |grid[r]| ==> ReadsBack(grid[r][c], unbreak)
  {
    var lines := Lines(grid, unbreak);
    LinesUnbroken(grid, unbreak);
    SplitJoined(lines);
    ReadDelimiter(|grid[0]|);
    forall r | 0 <= r < |grid|
      ensures ReadRow(RowText(grid[r], unbreak)) == grid[r] <==> forall c :: 0 <= c < |grid[r]| ==> ReadsBack(grid[r][c], unbreak)
    {
      RowRoundTrip(grid[r], unbreak);
    }
    ReadLines(grid, unbreak);
  }

  /** The rows read from the rendered lines, row by row. */
  lemma ReadLines(grid: seq<seq<string>>, unbreak: bool)
    requires grid != []
    ensures [ReadRow(RowText(grid[0], unbreak))] + ReadRows(Lines(grid, unbreak)[2..]) == grid <==>
            forall r :: 0 <= r < |grid| ==> ReadRow(RowText(grid[r], unbreak)) == grid[r]
  {
    var rows := [ReadRow(RowText(grid[0], unbreak))] + ReadRows(Lines(grid, unbreak)[2..]);
    assert Lines(grid, unbreak)[2..] == RowTexts(grid[1..], unbreak);
    forall r | 0 <= r < |grid| ensures rows[r] == ReadRow(RowText(grid[r], unbreak)) {
    }
  }
}
