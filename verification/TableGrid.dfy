/** How characters are put into the grid of a table: renderTableMarkdown
    (internal/pdftomd/tables.go) and DetectTextTables (internal/pdftomd/text_tables.go)
    differ only in the slack around the boundaries. */
module TableGrid {
  datatype Char = Char(r: char, x: real, y: real)

  // ----- Which column or row a position belongs to -----

  /** The first interval, widened by the slack on both sides, that holds val; -1 if none. */
  function FindIdx(positions: seq<real>, slack: real, val: real): (i: int)
    ensures -1 <= i && (i >= 0 ==> i + 1 < |positions|)
  {
    FindFrom(positions, slack, val, 0)
  }

  predicate Holds(positions: seq<real>, slack: real, val: real, i: nat)
    requires i + 1 < |positions|
  {
    positions[i] - slack <= val < positions[i + 1] + slack
  }

  function FindFrom(positions: seq<real>, slack: real, val: real, i: nat): (r: int)
    ensures r == -1 || (i <= r && r + 1 < |positions| && Holds(positions, slack, val, r))
    ensures forall k :: i <= k < (if r == -1 then |positions| - 1 else r) ==> !Holds(positions, slack, val, k)
    decreases |positions| - i
  {
    if i + 1 >= |positions| then -1
    else if Holds(positions, slack, val, i) then i
    else FindFrom(positions, slack, val, i + 1)
  }

  method FindIdxLoop(positions: seq<real>, slack: real, val: real) returns (r: int)
    ensures r == FindIdx(positions, slack, val)
  {
    var i := 0;
    while i < |positions| - 1
      invariant FindFrom(positions, slack, val, i) == FindIdx(positions, slack, val)
      decreases |positions| - i
    {
      if val >= positions[i] - slack && val < positions[i + 1] + slack {
        return i;
      }
      i := i + 1;
    }
    return -1;
  }

  // ----- The text of a cell -----

  datatype Grid = Grid(xs: seq<real>, ys: seq<real>, slack: real) {
    predicate Valid() { |xs| >= 2 && |ys| >= 2 }

    function Row(ch: Char): int { FindIdx(ys, slack, ch.y) }

    function Col(ch: Char): int { FindIdx(xs, slack, ch.x) }

    predicate At(ch: Char, row: nat, col: nat) { Row(ch) == row && Col(ch) == col }
  }

  /** Appending one character: a space only after something that is not a space. */
  function Put(text: string, r: char): string {
    if r != ' ' then text + [r]
    else if text != "" && text[|text| - 1] != ' ' then text + " "
    else text
  }

  /** The characters of a cell, in page order. */
  function Members(chars: seq<Char>, g: Grid, row: nat, col: nat): seq<Char> {
    if chars == [] then []
    else Members(chars[..|chars| - 1], g, row, col) +
         if g.At(chars[|chars| - 1], row, col) then [chars[|chars| - 1]] else []
  }

  function Typed(chars: seq<Char>): string {
    if chars == [] then "" else Put(Typed(chars[..|chars| - 1]), chars[|chars| - 1].r)
  }

  ghost predicate Shaped(grid: seq<seq<string>>, g: Grid)
    requires g.Valid()
  {
    && |grid| == |g.ys| - 1
    && forall r :: 0 <= r < |grid| ==> |grid[r]| == |g.xs| - 1
  }

  ghost predicate Filled(grid: seq<seq<string>>, chars: seq<Char>, g: Grid)
    requires g.Valid()
  {
    && Shaped(grid, g)
    && forall r, c :: 0 <= r < |grid| && 0 <= c < |grid[r]| ==> grid[r][c] == Typed(Members(chars, g, r, c))
  }

  /** The character lies in the first interval, widened on both sides, that holds it. */
  ghost predicate FirstIn(positions: seq<real>, slack: real, v: real, i: nat) {
    && i + 1 < |positions| && positions[i] - slack <= v < positions[i + 1] + slack
    && forall k :: 0 <= k < i ==> !(positions[k] - slack <= v < positions[k + 1] + slack)
  }

  lemma FindIsFirst(positions: seq<real>, slack: real, v: real, i: nat)
    ensures FindIdx(positions, slack, v) == i <==> FirstIn(positions, slack, v, i)
  {
    var r := FindIdx(positions, slack, v);
    forall k: nat | k + 1 < |positions| ensures Holds(positions, slack, v, k) <==> positions[k] - slack <= v < positions[k + 1] + slack {
    }
    if FirstIn(positions, slack, v, i) { assert Holds(positions, slack, v, i); }
  }

  /** The characters whose height is in row r and whose position from the left is in column
      c, in page order. */
  ghost function InCell(chars: seq<Char>, g: Grid, r: nat, c: nat): string {
    if chars == [] then ""
    else
      var last := chars[|chars| - 1];
      InCell(chars[..|chars| - 1], g, r, c) +
      if FirstIn(g.ys, g.slack, last.y, r) && FirstIn(g.xs, g.slack, last.x, c) then [last.r] else ""
  }

  lemma {:induction false} MembersAreInCell(chars: seq<Char>, g: Grid, r: nat, c: nat)
    ensures Runes(Members(chars, g, r, c)) == InCell(chars, g, r, c)
    decreases |chars|
  {
    if chars != [] {
      var init, last := chars[..|chars| - 1], chars[|chars| - 1];
      MembersAreInCell(init, g, r, c);
      FindIsFirst(g.ys, g.slack, last.y, r);
      FindIsFirst(g.xs, g.slack, last.x, c);
      assert Runes(Members(init, g, r, c) + [last]) == Runes(Members(init, g, r, c)) + [last.r];
      assert Members(init, g, r, c) + [] == Members(init, g, r, c);
    }
  }

  /** Each cell has the words of its own characters, one space between them. */
  ghost predicate CellsRight(grid: seq<seq<string>>, chars: seq<Char>, g: Grid) {
    && |grid| + 1 == |g.ys| && (forall r :: 0 <= r < |grid| ==> |grid[r]| + 1 == |g.xs|)
    && forall r, c :: 0 <= r < |grid| && 0 <= c < |grid[r]| ==>
         IsSpaced(grid[r][c], InCell(chars, g, r, c))
  }

  /** The words of a text, one space apart, and a space at the end exactly if it has one
      behind a word. */
  ghost predicate IsSpaced(cell: string, text: string) {
    cell == Spaced(Words(text)) + if Words(text) != [] && text[|text| - 1] == ' ' then " " else ""
  }

  lemma CellIsSpaced(chars: seq<Char>)
    ensures IsSpaced(Typed(chars), Runes(chars))
  {
    CellKeepsInk(chars);
    CellKeepsWords(chars);
    NoWords(Typed(chars));
    SqueezedIsSpaced(Typed(chars));
  }

  lemma FilledIsRight(grid: seq<seq<string>>, chars: seq<Char>, g: Grid)
    requires g.Valid() && Filled(grid, chars, g)
    ensures CellsRight(grid, chars, g)
  {
    forall r, c | 0 <= r < |grid| && 0 <= c < |grid[r]|
      ensures IsSpaced(grid[r][c], InCell(chars, g, r, c))
    {
      MembersAreInCell(chars, g, r, c);
      CellIsSpaced(Members(chars, g, r, c));
    }
  }

  method FillGrid(chars: seq<Char>, g: Grid) returns (grid: seq<seq<string>>)
    requires g.Valid()
    ensures Filled(grid, chars, g)
    ensures CellsRight(grid, chars, g)
  {
    grid := seq(|g.ys| - 1, _ => seq(|g.xs| - 1, _ => ""));
    for i := 0 to |chars|
      invariant Filled(grid, chars[..i], g)
    {
      ghost var prev := grid;
      grid := PlaceChar(grid, chars[i], g);
      PlacedFills(prev, grid, chars[..i], chars[i], g);
      assert chars[..i + 1] == chars[..i] + [chars[i]];
    }
    assert chars[..|chars|] == chars;
    FilledIsRight(grid, chars, g);
  }

  /** The grid got at most one character more, in the given cell if there is one. */
  ghost predicate PutAt(prev: seq<seq<string>>, grid: seq<seq<string>>, row: int, col: int, r: char) {
    && |prev| == |grid|
    && (forall i :: 0 <= i < |grid| ==> |prev[i]| == |grid[i]|)
    && (row >= 0 && col >= 0 ==> row < |grid| && col < |grid[row]|)
    && (forall i, j :: 0 <= i < |grid| && 0 <= j < |grid[i]| ==>
          grid[i][j] == if i == row && j == col then Put(prev[i][j], r) else prev[i][j])
  }

  method PlaceChar(grid: seq<seq<string>>, ch: Char, g: Grid) returns (r: seq<seq<string>>)
    requires g.Valid() && Shaped(grid, g)
    ensures PutAt(grid, r, g.Row(ch), g.Col(ch), ch.r)
  {
    r := grid;
    var col := FindIdxLoop(g.xs, g.slack, ch.x);
    var row := FindIdxLoop(g.ys, g.slack, ch.y);
    if row >= 0 && col >= 0 {
      if ch.r == ' ' {
        if |r[row][col]| > 0 && r[row][col][|r[row][col]| - 1] != ' ' {
          r := r[row := r[row][col := r[row][col] + " "]];
        }
      } else {
        r := r[row := r[row][col := r[row][col] + [ch.r]]];
      }
    }
  }

  lemma PlacedFills(prev: seq<seq<string>>, grid: seq<seq<string>>, init: seq<Char>, ch: Char, g: Grid)
    requires g.Valid() && Filled(prev, init, g)
    requires PutAt(prev, grid, g.Row(ch), g.Col(ch), ch.r)
    ensures Filled(grid, init + [ch], g)
  {
    forall r, c | 0 <= r < |grid| && 0 <= c < |grid[r]| ensures grid[r][c] == Typed(Members(init + [ch], g, r, c)) {
      MembersAppend(init, ch, g, r, c);
      assert prev[r][c] == Typed(Members(init, g, r, c));
    }
  }

  lemma MembersAppend(chars: seq<Char>, ch: Char, g: Grid, row: nat, col: nat)
    ensures var m := Members(chars, g, row, col);
            && Members(chars + [ch], g, row, col) == (if g.At(ch, row, col) then m + [ch] else m)
            && Typed(Members(chars + [ch], g, row, col)) == (if g.At(ch, row, col) then Put(Typed(m), ch.r) else Typed(m))
  {
    var m := Members(chars, g, row, col);
    assert (chars + [ch])[..|chars|] == chars;
    assert (m + [ch])[..|m|] == m;
    assert m + [] == m;
  }

  // ----- What reaches the grid -----

  /** The characters that are not spaces. */
  function Ink(s: string): string {
    if s == "" then ""
    else Ink(s[..|s| - 1]) + if s[|s| - 1] == ' ' then "" else [s[|s| - 1]]
  }

  function Runes(chars: seq<Char>): string {
    seq(|chars|, i requires 0 <= i < |chars| => chars[i].r)
  }

  /** No leading space and no two spaces in a row. */
  ghost predicate Squeezed(s: string) {
    forall i :: 0 <= i < |s| && s[i] == ' ' ==> i > 0 && s[i - 1] != ' '
  }

  lemma InkAppend(s: string, r: char)
    ensures Ink(s + [r]) == Ink(s) + if r == ' ' then "" else [r]
  {
    assert (s + [r])[..|s|] == s;
  }

  /** A cell keeps every visible character of its members in order, and single spaces
      only between them. */
  lemma {:induction false} CellKeepsInk(chars: seq<Char>)
    ensures Ink(Typed(chars)) == Ink(Runes(chars))
    ensures Squeezed(Typed(chars))
    decreases |chars|
  {
    if chars == [] {
      assert Runes(chars) == "";
    } else {
      var init, r := chars[..|chars| - 1], chars[|chars| - 1].r;
      CellKeepsInk(init);
      PutKeepsInk(Typed(init), r);
      RunesAppend(chars);
    }
  }

  lemma RunesAppend(chars: seq<Char>)
    requires chars != []
    ensures var r := chars[|chars| - 1].r;
            Ink(Runes(chars)) == Ink(Runes(chars[..|chars| - 1])) + if r == ' ' then "" else [r]
  {
    var init, r := chars[..|chars| - 1], chars[|chars| - 1].r;
    assert Runes(chars) == Runes(init) + [r];
    InkAppend(Runes(init), r);
  }

  /** Nothing visible at the end. */
  predicate EndsBlank(s: string) { s == "" || s[|s| - 1] == ' ' }

  /** The longest stretches without a space. */
  function Words(s: string): seq<string> {
    if s == "" then []
    else
      var init, last := s[..|s| - 1], s[|s| - 1];
      if last == ' ' then Words(init)
      else if EndsBlank(init) || Words(init) == [] then Words(init) + [[last]]
      else Words(init)[|Words(init)| - 1 := Words(init)[|Words(init)| - 1] + [last]]
  }

  lemma WordsAppend(s: string, r: char)
    ensures Words(s + [r]) ==
            if r == ' ' then Words(s)
            else if EndsBlank(s) || Words(s) == [] then Words(s) + [[r]]
            else Words(s)[|Words(s)| - 1 := Words(s)[|Words(s)| - 1] + [r]]
  {
    assert (s + [r])[..|s|] == s;
  }

  /** Leaving out spaces at the start and after other spaces changes no word. */
  lemma {:induction false} CellKeepsWords(chars: seq<Char>)
    ensures Words(Typed(chars)) == Words(Runes(chars))
    ensures EndsBlank(Typed(chars)) <==> EndsBlank(Runes(chars))
    decreases |chars|
  {
    if chars != [] {
      var init, r := chars[..|chars| - 1], chars[|chars| - 1].r;
      CellKeepsWords(init);
      assert Runes(chars) == Runes(init) + [r];
      WordsAppend(Runes(init), r);
      WordsAppend(Typed(init), r);
    }
  }

  /** The words with one space between them. */
  function Spaced(words: seq<string>): string {
    if words == [] then ""
    else if |words| == 1 then words[0]
    else Spaced(words[..|words| - 1]) + " " + words[|words| - 1]
  }

  lemma SpacedLonger(words: seq<string>, r: char)
    requires words != []
    ensures var n := |words| - 1; Spaced(words[n := words[n] + [r]]) == Spaced(words) + [r]
  {
    var n := |words| - 1;
    assert words[n := words[n] + [r]][..n] == words[..n];
  }

  lemma SpacedMore(words: seq<string>, r: char)
    ensures Spaced(words + [[r]]) == if words == [] then [r] else Spaced(words) + " " + [r]
  {
    assert (words + [[r]])[..|words|] == words;
  }

  lemma {:induction false} NoWords(s: string)
    requires Squeezed(s)
    ensures Words(s) == [] <==> s == ""
    decreases |s|
  {
    if s != "" {
      var init := s[..|s| - 1];
      assert s[0] != ' ';
      NoWords(init);
    }
  }

  /** A text without leading and double spaces is its words, one space apart. */
  lemma {:induction false} SqueezedIsSpaced(s: string)
    requires Squeezed(s)
    ensures s == Spaced(Words(s)) + if s != "" && s[|s| - 1] == ' ' then " " else ""
    decreases |s|
  {
    if s != "" {
      var init, r := s[..|s| - 1], s[|s| - 1];
      SqueezedIsSpaced(init);
      NoWords(init);
      OneMoreSpaced(init, r);
      assert s == init + [r];
    }
  }

  lemma OneMoreSpaced(s: string, r: char)
    requires s == Spaced(Words(s)) + if s != "" && s[|s| - 1] == ' ' then " " else ""
    requires (Words(s) == [] <==> s == "") && (r == ' ' ==> !EndsBlank(s))
    ensures s + [r] == Spaced(Words(s + [r])) + if r == ' ' then " " else ""
  {
    hide Words;
    WordsAppend(s, r);
    if r != ' ' {
      if EndsBlank(s) { SpacedMore(Words(s), r); } else { SpacedLonger(Words(s), r); }
    }
  }

  lemma PutKeepsInk(s: string, r: char)
    requires Squeezed(s)
    ensures Ink(Put(s, r)) == Ink(s) + if r == ' ' then "" else [r]
    ensures Squeezed(Put(s, r))
  {
    InkAppend(s, r);
  }

  /** Visible characters in the first r rows. */
  function Count(grid: seq<seq<string>>, r: nat): nat
    requires r <= |grid|
  {
    if r == 0 then 0 else Count(grid, r - 1) + RowInk(grid[r - 1], |grid[r - 1]|)
  }

  function RowInk(row: seq<string>, c: nat): nat
    requires c <= |row|
  {
    if c == 0 then 0 else RowInk(row, c - 1) + |Ink(row[c - 1])|
  }

  /** The visible characters that fall in some cell. */
  function Landed(chars: seq<Char>, g: Grid): nat {
    if chars == [] then 0
    else
      var last := chars[|chars| - 1];
      Landed(chars[..|chars| - 1], g) + if last.r != ' ' && g.Row(last) >= 0 && g.Col(last) >= 0 then 1 else 0
  }

  lemma {:induction false} RowInkStep(row: seq<string>, next: seq<string>, c: nat, k: nat, d: nat)
    requires |row| == |next| && k <= |row|
    requires forall i :: 0 <= i < |row| && i != c ==> row[i] == next[i]
    requires c < |row| ==> |Ink(next[c])| == |Ink(row[c])| + d
    ensures RowInk(next, k) == RowInk(row, k) + if c < k then d else 0
    decreases k
  {
    if k > 0 {
      RowInkStep(row, next, c, k - 1, d);
    }
  }

  lemma {:induction false} CountStep(grid: seq<seq<string>>, next: seq<seq<string>>, r: nat, c: nat, k: nat, d: nat)
    requires |grid| == |next| && k <= |grid|
    requires forall i :: 0 <= i < |grid| && i != r ==> grid[i] == next[i]
    requires r < |grid| ==> |grid[r]| == |next[r]| && c < |grid[r]| && |Ink(next[r][c])| == |Ink(grid[r][c])| + d
    requires r < |grid| ==> forall i :: 0 <= i < |grid[r]| && i != c ==> grid[r][i] == next[r][i]
    ensures Count(next, k) == Count(grid, k) + if r < k then d else 0
    decreases k
  {
    if k > 0 {
      CountStep(grid, next, r, c, k - 1, d);
      if r == k - 1 {
        RowInkStep(grid[r], next[r], c, |grid[r]|, d);
      }
    }
  }

  ghost function FilledGrid(chars: seq<Char>, g: Grid): (grid: seq<seq<string>>)
    requires g.Valid()
    ensures Filled(grid, chars, g)
  {
    seq(|g.ys| - 1, r requires 0 <= r => seq(|g.xs| - 1, c requires 0 <= c => Typed(Members(chars, g, r, c))))
  }

  lemma {:induction false} EmptyCount(grid: seq<seq<string>>, k: nat)
    requires k <= |grid|
    requires forall r, c :: 0 <= r < |grid| && 0 <= c < |grid[r]| ==> grid[r][c] == ""
    ensures Count(grid, k) == 0
    decreases k
  {
    if k > 0 {
      EmptyCount(grid, k - 1);
      EmptyRow(grid[k - 1], |grid[k - 1]|);
    }
  }

  lemma {:induction false} EmptyRow(row: seq<string>, c: nat)
    requires c <= |row|
    requires forall i :: 0 <= i < |row| ==> row[i] == ""
    ensures RowInk(row, c) == 0
    decreases c
  {
    if c > 0 {
      EmptyRow(row, c - 1);
    }
  }

  /** Nothing is lost and nothing is counted twice: the grid holds exactly the visible
      characters that fall inside the table. */
  lemma {:induction false} GridConserves(grid: seq<seq<string>>, chars: seq<Char>, g: Grid)
    requires g.Valid() && Filled(grid, chars, g)
    ensures Count(grid, |grid|) == Landed(chars, g)
    decreases |chars|
  {
    if chars == [] {
      EmptyCount(grid, |grid|);
    } else {
      var init, ch := chars[..|chars| - 1], chars[|chars| - 1];
      var prev := FilledGrid(init, g);
      GridConserves(prev, init, g);
      assert chars == init + [ch];
      FilledStep(prev, grid, init, ch, g);
      ConservesStep(prev, grid, g.Row(ch), g.Col(ch), ch.r);
    }
  }

  lemma FilledStep(prev: seq<seq<string>>, grid: seq<seq<string>>, init: seq<Char>, ch: Char, g: Grid)
    requires g.Valid() && Filled(prev, init, g) && Filled(grid, init + [ch], g)
    ensures PutAt(prev, grid, g.Row(ch), g.Col(ch), ch.r)
  {
    forall r, c | 0 <= r < |grid| && 0 <= c < |grid[r]|
      ensures grid[r][c] == if g.At(ch, r, c) then Put(prev[r][c], ch.r) else prev[r][c]
    {
      MembersAppend(init, ch, g, r, c);
    }
  }

  lemma ConservesStep(prev: seq<seq<string>>, grid: seq<seq<string>>, row: int, col: int, r: char)
    requires PutAt(prev, grid, row, col, r)
    ensures Count(grid, |grid|) == Count(prev, |prev|) + if r != ' ' && row >= 0 && col >= 0 then 1 else 0
  {
    if row >= 0 && col >= 0 {
      InkAppend(prev[row][col], r);
      assert forall i :: 0 <= i < |grid| && i != row ==> grid[i] == prev[i];
      CountStep(prev, grid, row, col, |grid|, if r == ' ' then 0 else 1);
    } else {
      assert forall i :: 0 <= i < |grid| ==> grid[i] == prev[i];
      assert grid == prev;
    }
  }
}
