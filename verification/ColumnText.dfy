/** The text that columnToMarkdown (internal/pdftomd/markdown.go) writes for a column, said
    line by line without the state of the loop. */
module ColumnText {
  import opened Wrappers
  import opened Sorting
  import opened Rects
  import opened Spans
  import opened Markdown

  // ----- What a line is -----

  /** The characters of the spans, one after the other. */
  ghost function Characters(spans: seq<Span>): string {
    if spans == [] then "" else spans[0].text + Characters(spans[1..])
  }

  ghost predicate IsHeader(l: Line, f: Format) { l.spans != [] && f.header(l.spans[0].size) != "" }

  ghost predicate HasVisible(s: string, f: Format) { exists c :: c in s && !f.space(c) }

  /** Every span with a visible character has the style. */
  ghost predicate All(l: Line, f: Format, has: Style -> bool) {
    l.spans != [] && forall i :: 0 <= i < |l.spans| && HasVisible(l.spans[i].text, f) ==> has(l.spans[i].style)
  }

  ghost predicate IsCodeLine(l: Line, f: Format) { !IsHeader(l, f) && All(l, f, (s: Style) => s.mono) }

  ghost predicate IsPad(c: char) { c == ' ' || c == '\t' }

  /** The first character that is neither space nor tab is a bullet. */
  ghost predicate Bulleted(l: Line, f: Format) {
    var t := Characters(l.spans);
    || (exists k :: 0 <= k < |t| && !IsPad(t[k]) && f.bullet(t[k]) && forall j :: 0 <= j < k ==> IsPad(t[j]))
    || (f.bullet('\0') && forall j :: 0 <= j < |t| ==> IsPad(t[j]))
  }

  ghost predicate Centred(b: Rect, clip: Rect) {
    2.0 * clip.x0 <= b.x0 + b.x1 <= 2.0 * clip.x1 && 2.0 * clip.y0 <= b.y0 + b.y1 <= 2.0 * clip.y1
  }

  /** Blank lines are left out, and lines whose centre is within 2 of a table of the column. */
  ghost predicate Omitted(l: Line, tables: seq<Table>, clip: Rect, f: Format) {
    || !HasVisible(Characters(l.spans), f)
    || exists t :: t in tables && Centred(t.bbox, clip)
                   && Centred(l.bbox, Rect(t.bbox.x0 - 2.0, t.bbox.y0 - 2.0, t.bbox.x1 + 2.0, t.bbox.y1 + 2.0))
  }

  ghost function Remaining(lines: seq<Line>, tables: seq<Table>, clip: Rect, f: Format): seq<Line> {
    if lines == [] then []
    else
      var last := lines[|lines| - 1];
      Remaining(lines[..|lines| - 1], tables, clip, f) + if Omitted(last, tables, clip, f) then [] else [last]
  }

  // ----- What a line becomes -----

  ghost function OpeningMarks(l: Line, f: Format): string {
    (if All(l, f, (s: Style) => s.bold) then "**" else "") + (if All(l, f, (s: Style) => s.italic) then "_" else "")
    + (if All(l, f, (s: Style) => s.mono) then "`" else "")
  }

  ghost function ClosingMarks(l: Line, f: Format): string {
    (if All(l, f, (s: Style) => s.mono) then "`" else "") + (if All(l, f, (s: Style) => s.italic) then "_" else "")
    + (if All(l, f, (s: Style) => s.bold) then "**" else "")
  }

  /** Each formatted span that is not empty, followed by a space. */
  ghost function Formatted(spans: seq<Span>, f: Format): string {
    if spans == [] then ""
    else (if f.spanText(spans[0]) == "" then "" else f.spanText(spans[0]) + " ") + Formatted(spans[1..], f)
  }

  /** Two characters of indentation for each em of the first span right of the margin. */
  ghost function Indent(l: Line, clip: Rect): string {
    if l.spans == [] || l.spans[0].size <= 0.0 then ""
    else
      var ems := (l.bbox.x0 - clip.x0) / (l.spans[0].size * 0.5);
      if ems < 1.0 then "" else seq(ems.Floor, _ => ' ')
  }

  /** A header at the level of the header before it, and less than half its height below. */
  ghost predicate ContinuesHeader(prev: Line, l: Line, f: Format) {
    && IsHeader(prev, f) && IsHeader(l, f) && f.header(prev.spans[0].size) == f.header(l.spans[0].size)
    && prev.bbox.y1 > 0.0 && l.bbox.y0 - prev.bbox.y1 < (l.bbox.y1 - l.bbox.y0) * 0.5
  }

  /** An empty line for a new block, and one for a gap of more than half a line, a bracket,
      a bullet or a superscript. */
  ghost function EmptyLines(prev: Option<Line>, l: Line, f: Format): string {
    (if prev.Some? && prev.value.blockNo != l.blockNo && prev.value.blockNo >= 0 then "\n" else "") +
    (if || (prev.Some? && prev.value.bbox.y1 > 0.0 && l.bbox.y1 - prev.value.bbox.y1 > (l.bbox.y1 - l.bbox.y0) * 1.5)
        || Bulleted(l, f)
        || (l.spans != [] && (l.spans[0].style.superscript || (l.spans[0].text != "" && l.spans[0].text[0] == '[')))
     then "\n" else "")
  }

  /** A fence between a line of code and one that is not. */
  ghost function FenceBefore(prev: Option<Line>, l: Line, f: Format): string {
    if (prev.Some? && IsCodeLine(prev.value, f)) != IsCodeLine(l, f) then "```\n" else ""
  }

  ghost function Body(prev: Option<Line>, l: Line, clip: Rect, f: Format): string {
    if IsHeader(l, f) then
      (if prev.Some? && ContinuesHeader(prev.value, l, f) then "" else "\n" + f.header(l.spans[0].size))
      + (OpeningMarks(l, f) + Trim(Characters(l.spans), f.space) + ClosingMarks(l, f))
    else if IsCodeLine(l, f) then Indent(l, clip) + Trim(Characters(l.spans), f.space)
    else EmptyLines(prev, l, f) + if Bulleted(l, f) then f.bulletText(l, Characters(l.spans)) else Formatted(l.spans, f)
  }

  ghost function Own(prev: Option<Line>, l: Line, clip: Rect, f: Format): string {
    FenceBefore(prev, l, f) + Body(prev, l, clip, f)
  }

  /** A line that is continued is followed by a space, any other by a line break. */
  ghost function EndOf(l: Line, next: Option<Line>, f: Format): string {
    if next.Some? && ContinuesHeader(l, next.value, f) then " " else "\n"
  }

  ghost function Before(lines: seq<Line>, i: nat): Option<Line>
    requires i <= |lines|
  {
    if i == 0 then None else Some(lines[i - 1])
  }

  ghost function Following(lines: seq<Line>, i: nat): Option<Line>
    requires i < |lines|
  {
    if i + 1 == |lines| then None else Some(lines[i + 1])
  }

  /** The text of one line between its neighbours. */
  ghost function LineText(prev: Option<Line>, l: Line, next: Option<Line>, clip: Rect, f: Format): string {
    Own(prev, l, clip, f) + EndOf(l, next, f)
  }

  /** One text after the other. */
  ghost function Flow(n: nat, text: nat -> string): string {
    if n == 0 then "" else Flow(n - 1, text) + text(n - 1)
  }

  ghost function LineAt(lines: seq<Line>, clip: Rect, f: Format): nat -> string {
    (i: nat) => if i < |lines| then LineText(Before(lines, i), lines[i], Following(lines, i), clip, f) else ""
  }

  /** The text of the first n lines. */
  ghost function LinesText(lines: seq<Line>, n: nat, clip: Rect, f: Format): string {
    Flow(n, LineAt(lines, clip, f))
  }

  /** The tables of the column, each after an empty line. */
  ghost function TablesText(tables: seq<Table>, clip: Rect): string {
    if tables == [] then ""
    else
      var last := tables[|tables| - 1];
      TablesText(tables[..|tables| - 1], clip) + if Centred(last.bbox, clip) then "\n\n" + last.markdown else ""
  }

  /** Everything that is written for the column, before the clean-up. */
  ghost function WholeText(lines: seq<Line>, tables: seq<Table>, clip: Rect, f: Format): string {
    var rest := Remaining(lines, tables, clip, f);
    LinesText(rest, |rest|, clip, f)
    + (if rest != [] && IsCodeLine(rest[|rest| - 1], f) then "```\n" else "")
    + TablesText(tables, clip)
  }

  // ----- The functions of the loop say the same -----

  lemma {:induction false} RawIsCharacters(spans: seq<Span>)
    ensures RawText(spans) == Characters(spans)
    decreases |spans|
  {
    if spans != [] {
      var init, last := spans[..|spans| - 1], spans[|spans| - 1];
      RawIsCharacters(init);
      CharactersAppend(init, last);
      assert spans == init + [last];
    }
  }

  lemma {:induction false} CharactersAppend(spans: seq<Span>, s: Span)
    ensures Characters(spans + [s]) == Characters(spans) + s.text
    decreases |spans|
  {
    if spans == [] {
      assert ([] + [s])[1..] == [];
    } else {
      CharactersAppend(spans[1..], s);
      assert (spans + [s])[1..] == spans[1..] + [s];
    }
  }

  lemma {:induction false} TextsAreFormatted(spans: seq<Span>, f: Format)
    ensures SpanTexts(spans, f) == Formatted(spans, f)
    decreases |spans|
  {
    if spans != [] {
      var init, last := spans[..|spans| - 1], spans[|spans| - 1];
      TextsAreFormatted(init, f);
      FormattedAppend(init, last, f);
      assert spans == init + [last];
    }
  }

  lemma {:induction false} FormattedAppend(spans: seq<Span>, s: Span, f: Format)
    ensures Formatted(spans + [s], f) == Formatted(spans, f) + if f.spanText(s) == "" then "" else f.spanText(s) + " "
    decreases |spans|
  {
    if spans == [] {
      assert ([] + [s])[1..] == [];
    } else {
      FormattedAppend(spans[1..], s, f);
      assert (spans + [s])[1..] == spans[1..] + [s];
    }
  }

  lemma BlankIsInvisible(s: string, f: Format)
    ensures Blank(s, f.space) <==> !HasVisible(s, f)
  {
  }

  lemma AllIsAll(l: Line, f: Format, has: Style -> bool)
    ensures AllSpansHave(l.spans, has, f.space) <==> All(l, f, has)
  {
    forall i | 0 <= i < |l.spans| ensures Blank(l.spans[i].text, f.space) <==> !HasVisible(l.spans[i].text, f) {
      BlankIsInvisible(l.spans[i].text, f);
    }
  }

  lemma {:induction false} FirstIsFirst(t: string, f: Format)
    ensures f.bullet(FirstNonSpace(t)) <==>
            || (exists k :: 0 <= k < |t| && !IsPad(t[k]) && f.bullet(t[k]) && forall j :: 0 <= j < k ==> IsPad(t[j]))
            || (f.bullet('\0') && forall j :: 0 <= j < |t| ==> IsPad(t[j]))
    decreases |t|
  {
    if t != "" && IsPad(t[0]) {
      var rest := t[1..];
      FirstIsFirst(rest, f);
      if k :| 0 <= k < |t| && !IsPad(t[k]) && f.bullet(t[k]) && forall j :: 0 <= j < k ==> IsPad(t[j]) {
        assert rest[k - 1] == t[k] && forall j :: 0 <= j < k - 1 ==> rest[j] == t[j + 1];
      }
      if k :| 0 <= k < |rest| && !IsPad(rest[k]) && f.bullet(rest[k]) && forall j :: 0 <= j < k ==> IsPad(rest[j]) {
        assert t[k + 1] == rest[k] && forall j :: 0 < j < k + 1 ==> t[j] == rest[j - 1];
      }
    }
  }

  lemma BulletIsBulleted(l: Line, f: Format)
    ensures IsBulletLine(l, f) <==> Bulleted(l, f)
  {
    RawIsCharacters(l.spans);
    FirstIsFirst(Characters(l.spans), f);
  }

  lemma SkippedIsOmitted(l: Line, tables: seq<Table>, clip: Rect, f: Format)
    ensures Skipped(l, tables, clip, f) <==> Omitted(l, tables, clip, f)
  {
    RawIsCharacters(l.spans);
    BlankIsInvisible(RawText(l.spans), f);
    if t :| t in tables && Centred(t.bbox, clip)
            && Centred(l.bbox, Rect(t.bbox.x0 - 2.0, t.bbox.y0 - 2.0, t.bbox.x1 + 2.0, t.bbox.y1 + 2.0)) {
      var i :| 0 <= i < |tables| && tables[i] == t;
      assert InTable(l, tables, clip);
    }
  }

  lemma KindIs(l: Line, f: Format)
    ensures KindOf(l, f) == if IsHeader(l, f) then HeaderKind(f.header(l.spans[0].size))
                            else if IsCodeLine(l, f) then CodeKind else if Bulleted(l, f) then BulletKind else TextKind
  {
    AllIsAll(l, f, (s: Style) => s.mono);
    BulletIsBulleted(l, f);
  }

  lemma HeaderTextIs(l: Line, f: Format)
    ensures HeaderText(l, f) == OpeningMarks(l, f) + Trim(Characters(l.spans), f.space) + ClosingMarks(l, f)
  {
    RawIsCharacters(l.spans);
    AllIsAll(l, f, (s: Style) => s.mono);
    AllIsAll(l, f, (s: Style) => s.italic);
    AllIsAll(l, f, (s: Style) => s.bold);
    Wrapped(Trim(RawText(l.spans), f.space), Mono(l, f), Italic(l, f), Bold(l, f));
  }

  lemma Wrapped(t: string, mono: bool, italic: bool, bold: bool)
    ensures var t1 := if mono then "`" + t + "`" else t;
            var t2 := if italic then "_" + t1 + "_" else t1;
            (if bold then "**" + t2 + "**" else t2) ==
            ((if bold then "**" else "") + (if italic then "_" else "") + (if mono then "`" else "")) + t
            + ((if mono then "`" else "") + (if italic then "_" else "") + (if bold then "**" else ""))
  {
  }

  lemma CodeTextIs(l: Line, clip: Rect, f: Format)
    ensures CodeText(l, clip, f) == Indent(l, clip) + Trim(Characters(l.spans), f.space)
  {
    RawIsCharacters(l.spans);
  }

  // ----- The trace written out is this text -----

  ghost function Entries(lines: seq<Line>, clip: Rect, f: Format): (r: seq<Entry>)
    ensures |r| == |lines| && forall i :: 0 <= i < |lines| ==> r[i] == EntryOf(lines[i], clip, f)
  {
    seq(|lines|, i requires 0 <= i < |lines| => EntryOf(lines[i], clip, f))
  }

  lemma {:induction false} ShownAreRemaining(lines: seq<Line>, tables: seq<Table>, clip: Rect, f: Format)
    ensures Shown(lines, tables, clip, f) == Entries(Remaining(lines, tables, clip, f), clip, f)
    decreases |lines|
  {
    if lines != [] {
      var init, last := lines[..|lines| - 1], lines[|lines| - 1];
      ShownAreRemaining(init, tables, clip, f);
      SkippedIsOmitted(last, tables, clip, f);
      assert Shown(lines, tables, clip, f) == Shown(init, tables, clip, f) + Written(tables, clip, f)(last);
    }
  }

  ghost function EntryBefore(prev: Option<Line>, clip: Rect, f: Format): Option<Entry> {
    if prev.Some? then Some(EntryOf(prev.value, clip, f)) else None
  }

  lemma CodeEntry(prev: Option<Line>, clip: Rect, f: Format)
    ensures IsCode(EntryBefore(prev, clip, f)) <==> prev.Some? && IsCodeLine(prev.value, f)
  {
    if prev.Some? { KindIs(prev.value, f); }
  }

  lemma HeaderContinues(prev: Option<Line>, l: Line, clip: Rect, f: Format)
    ensures Continues(EntryBefore(prev, clip, f), EntryOf(l, clip, f)) <==> prev.Some? && ContinuesHeader(prev.value, l, f)
  {
    KindIs(l, f);
    if prev.Some? { KindIs(prev.value, f); }
  }

  lemma EmptyLinesAre(prev: Option<Line>, l: Line, clip: Rect, f: Format)
    ensures var p, e := EntryBefore(prev, clip, f), EntryOf(l, clip, f);
            EmptyLines(prev, l, f) == (if NewBlock(p, e) then "\n" else "") + (if NewParagraph(BoxOf(p), e) then "\n" else "")
  {
    BulletIsBulleted(l, f);
  }

  lemma ContentIs(l: Line, clip: Rect, f: Format)
    ensures ContentOf(l, clip, f).text ==
            if IsHeader(l, f) then OpeningMarks(l, f) + Trim(Characters(l.spans), f.space) + ClosingMarks(l, f)
            else if IsCodeLine(l, f) then Indent(l, clip) + Trim(Characters(l.spans), f.space)
            else if Bulleted(l, f) then f.bulletText(l, Characters(l.spans)) else Formatted(l.spans, f)
    ensures ContentOf(l, clip, f).kind == KindOf(l, f)
  {
    KindIs(l, f);
    HeaderTextIs(l, f);
    CodeTextIs(l, clip, f);
    RawIsCharacters(l.spans);
    BulletIsBulleted(l, f);
    TextsAreFormatted(l.spans, f);
  }

  lemma HeaderPieces(out: string, prev: Option<Line>, l: Line, clip: Rect, f: Format)
    requires IsHeader(l, f) && !(prev.Some? && ContinuesHeader(prev.value, l, f))
    ensures WriteAll(out, PiecesOf(EntryBefore(prev, clip, f), EntryOf(l, clip, f))) ==
            out + (Own(prev, l, clip, f) + "\n")
  {
    var p, e := EntryBefore(prev, clip, f), EntryOf(l, clip, f);
    CodeEntry(prev, clip, f);
    HeaderContinues(prev, l, clip, f);
    ContentIs(l, clip, f);
    KindIs(l, f);
    HeaderWritten(out, IsCode(p), f.header(l.spans[0].size), e.content.text);
  }

  lemma CodePieces(out: string, prev: Option<Line>, l: Line, clip: Rect, f: Format)
    requires IsCodeLine(l, f)
    ensures WriteAll(out, PiecesOf(EntryBefore(prev, clip, f), EntryOf(l, clip, f))) ==
            out + (Own(prev, l, clip, f) + "\n")
  {
    var p, e := EntryBefore(prev, clip, f), EntryOf(l, clip, f);
    CodeEntry(prev, clip, f);
    ContentIs(l, clip, f);
    KindIs(l, f);
    CodeWritten(out, IsCode(p), e.content.text);
  }

  lemma ProsePieces(out: string, prev: Option<Line>, l: Line, clip: Rect, f: Format)
    requires !IsHeader(l, f) && !IsCodeLine(l, f)
    ensures WriteAll(out, PiecesOf(EntryBefore(prev, clip, f), EntryOf(l, clip, f))) ==
            out + (Own(prev, l, clip, f) + "\n")
  {
    var p, e := EntryBefore(prev, clip, f), EntryOf(l, clip, f);
    CodeEntry(prev, clip, f);
    ContentIs(l, clip, f);
    KindIs(l, f);
    EmptyLinesAre(prev, l, clip, f);
    ProseWritten(out, IsCode(p), NewBlock(p, e), NewParagraph(BoxOf(p), e), e.content);
  }

  /** What is written for a line that continues no header. */
  lemma PiecesWritten(out: string, prev: Option<Line>, l: Line, clip: Rect, f: Format)
    requires !(prev.Some? && ContinuesHeader(prev.value, l, f))
    ensures WriteAll(out, PiecesOf(EntryBefore(prev, clip, f), EntryOf(l, clip, f))) ==
            out + (Own(prev, l, clip, f) + "\n")
  {
    if IsHeader(l, f) {
      HeaderPieces(out, prev, l, clip, f);
    } else if IsCodeLine(l, f) {
      CodePieces(out, prev, l, clip, f);
    } else {
      ProsePieces(out, prev, l, clip, f);
    }
  }

  lemma FenceWritten(out: string, needed: bool, open: bool)
    ensures WriteAll(out, if needed then [Fence(open)] else []) == out + if needed then "```\n" else ""
  {
    WriteOne(out, Fence(open));
    assert out + "" == out;
  }

  lemma HeaderWritten(out: string, code: bool, prefix: string, text: string)
    ensures WriteAll(out, Closing(code) + [Header(prefix, text)]) ==
            out + ((if code then "```\n" else "") + ("\n" + prefix + text) + "\n")
  {
    FenceWritten(out, code, false);
    WriteMore(out, Closing(code), Header(prefix, text));
  }

  lemma CodeWritten(out: string, code: bool, text: string)
    ensures WriteAll(out, Opening(code) + [Code(text)]) == out + ((if code then "" else "```\n") + text + "\n")
  {
    FenceWritten(out, !code, true);
    WriteMore(out, Opening(code), Code(text));
  }

  lemma ProseWritten(out: string, code: bool, a: bool, b: bool, c: Content)
    ensures WriteAll(out, Closing(code) + Breaks(a, b) + [ProsePiece(c)]) ==
            out + ((if code then "```\n" else "") + ((if a then "\n" else "") + (if b then "\n" else "") + c.text) + "\n")
  {
    FenceWritten(out, code, false);
    WriteProsePieces(out, Closing(code), a, b, c);
  }

  lemma {:induction false} FlowSame(n: nat, s: nat -> string, t: nat -> string)
    requires forall i: nat :: i < n ==> s(i) == t(i)
    ensures Flow(n, s) == Flow(n, t)
  {
    if n > 0 { FlowSame(n - 1, s, t); }
  }

  lemma EarlierLines(lines: seq<Line>, n: nat, clip: Rect, f: Format)
    requires n < |lines| - 1
    ensures LinesText(lines, n, clip, f) == LinesText(lines[..|lines| - 1], n, clip, f)
  {
    var init := lines[..|lines| - 1];
    forall i: nat | i < n ensures LineAt(lines, clip, f)(i) == LineAt(init, clip, f)(i) {
      SameNeighbours(lines, i);
    }
    FlowSame(n, LineAt(lines, clip, f), LineAt(init, clip, f));
  }

  lemma SameNeighbours(lines: seq<Line>, i: nat)
    requires i < |lines| - 2
    ensures var init := lines[..|lines| - 1];
            init[i] == lines[i] && Before(init, i) == Before(lines, i) && Following(init, i) == Following(lines, i)
  {
  }

  lemma LastLine(lines: seq<Line>, n: nat, clip: Rect, f: Format)
    requires n < |lines|
    ensures LinesText(lines, n + 1, clip, f) ==
            LinesText(lines, n, clip, f) + (Own(Before(lines, n), lines[n], clip, f) + EndOf(lines[n], Following(lines, n), f))
  {
    assert LineAt(lines, clip, f)(n) == LineText(Before(lines, n), lines[n], Following(lines, n), clip, f);
  }

  lemma OtherEnd(start: string, own: string)
    ensures var before := start + (own + "\n");
            before != "" && before[|before| - 1] == '\n' && before[..|before| - 1] + " " == start + (own + " ")
  {
  }

  /** One more line: the end of the line before it is what changes, if it is continued. */
  lemma NextLineText(lines: seq<Line>, clip: Rect, f: Format)
    requires |lines| > 1
    ensures var init := lines[..|lines| - 1];
            var before := LinesText(init, |init|, clip, f);
            && before != "" && before[|before| - 1] == '\n'
            && LinesText(lines, |init|, clip, f) ==
               if ContinuesHeader(init[|init| - 1], lines[|init|], f) then before[..|before| - 1] + " " else before
  {
    hide Own, ContinuesHeader;
    var init := lines[..|lines| - 1];
    var n := |init| - 1;
    EarlierLines(lines, n, clip, f);
    LastLine(init, n, clip, f);
    LastLine(lines, n, clip, f);
    assert Before(init, n) == Before(lines, n) && Following(init, n) == None && Following(lines, n) == Some(lines[|init|]);
    OtherEnd(LinesText(init, n, clip, f), Own(Before(init, n), init[n], clip, f));
  }

  ghost predicate AllVisible(lines: seq<Line>, f: Format) {
    forall i :: 0 <= i < |lines| ==> HasVisible(Characters(lines[i].spans), f)
  }

  lemma EntriesInOrder(lines: seq<Line>, clip: Rect, f: Format)
    requires AllVisible(lines, f) && f.space('\n')
    ensures HeadersOk(Entries(lines, clip, f))
  {
    forall i | 0 <= i < |lines| ensures HeaderOk(Entries(lines, clip, f)[i]) {
      RawIsCharacters(lines[i].spans);
      BlankIsInvisible(RawText(lines[i].spans), f);
      HeaderTextSolid(lines[i], clip, f);
    }
  }

  lemma EntriesAppend(lines: seq<Line>, clip: Rect, f: Format)
    requires lines != []
    ensures var init, all := lines[..|lines| - 1], Entries(lines, clip, f);
            && all[..|all| - 1] == Entries(init, clip, f) && all[|all| - 1] == EntryOf(lines[|lines| - 1], clip, f)
            && Last(Entries(init, clip, f)) == EntryBefore(Before(lines, |init|), clip, f)
  {
  }

  /** A continuation is written on the line of its header. */
  lemma ContinuationWritten(lines: seq<Line>, clip: Rect, f: Format)
    requires AllVisible(lines, f) && f.space('\n') && LastContinues(lines, f)
    requires AreRendered(lines[..|lines| - 1], clip, f)
    ensures AreRendered(lines, clip, f)
  {
    hide LinesTrace, Entries, EntryOf, Render, LinesText, AllVisible;
    ContinuedTrace(lines, clip, f);
    ContinuedLines(lines, clip, f);
  }

  lemma ContinuedTrace(lines: seq<Line>, clip: Rect, f: Format)
    requires AllVisible(lines, f) && f.space('\n') && LastContinues(lines, f)
    ensures var l, before := lines[|lines| - 1], Render(LinesTrace(Entries(lines[..|lines| - 1], clip, f)));
            && before != ""
            && Render(LinesTrace(Entries(lines, clip, f))) == before[..|before| - 1] + " " + EntryOf(l, clip, f).content.text + "\n"
  {
    hide LinesTrace, Entries, EntryOf, Render, AllVisible;
    var l := lines[|lines| - 1];
    var more := HeaderMore(f.header(l.spans[0].size), EntryOf(l, clip, f).content.text);
    ContinuationPiece(lines, clip, f);
    ContinuationTrims(lines, clip, f, more);
  }

  lemma ContinuedLines(lines: seq<Line>, clip: Rect, f: Format)
    requires LastContinues(lines, f)
    ensures var l, before := lines[|lines| - 1], LinesText(lines[..|lines| - 1], |lines| - 1, clip, f);
            && before != ""
            && LinesText(lines, |lines|, clip, f) == before[..|before| - 1] + " " + EntryOf(l, clip, f).content.text + "\n"
  {
    hide LinesText, EntryOf, Own, ContinuesHeader;
    var init, l := lines[..|lines| - 1], lines[|lines| - 1];
    NextLineText(lines, clip, f);
    LastLine(lines, |init|, clip, f);
    ContinuationText(Some(lines[|init| - 1]), l, clip, f);
    ContinuedText(LinesText(init, |init|, clip, f), EntryOf(l, clip, f).content.text);
  }

  lemma ContinuedText(before: string, text: string)
    requires before != ""
    ensures before[..|before| - 1] + " " + text + "\n" == (before[..|before| - 1] + " ") + (text + "\n")
  {
  }

  lemma ContinuationText(prev: Option<Line>, l: Line, clip: Rect, f: Format)
    requires prev.Some? && ContinuesHeader(prev.value, l, f)
    ensures Own(prev, l, clip, f) == EntryOf(l, clip, f).content.text
  {
    ContentIs(l, clip, f);
    KindIs(l, f);
  }

  /** The one piece of a continuation. */
  lemma ContinuationPiece(lines: seq<Line>, clip: Rect, f: Format)
    requires |lines| > 1 && ContinuesHeader(lines[|lines| - 2], lines[|lines| - 1], f)
    ensures var l := lines[|lines| - 1];
            LinesTrace(Entries(lines, clip, f)) ==
            LinesTrace(Entries(lines[..|lines| - 1], clip, f))
            + [HeaderMore(f.header(l.spans[0].size), EntryOf(l, clip, f).content.text)]
  {
    var l, prev := lines[|lines| - 1], Some(lines[|lines| - 2]);
    TraceAppend(lines, clip, f);
    HeaderContinues(prev, l, clip, f);
    CodeEntry(prev, clip, f);
    KindIs(l, f);
  }

  lemma ContinuationTrims(lines: seq<Line>, clip: Rect, f: Format, more: Piece)
    requires lines != [] && AllVisible(lines, f) && f.space('\n') && more.HeaderMore?
    requires var trace := LinesTrace(Entries(lines[..|lines| - 1], clip, f)); LinesTrace(Entries(lines, clip, f)) == trace + [more]
    ensures var trace := LinesTrace(Entries(lines[..|lines| - 1], clip, f));
            var before := Render(trace);
            before != "" && Render(trace + [more]) == before[..|before| - 1] + " " + more.text + "\n"
  {
    var trace := LinesTrace(Entries(lines[..|lines| - 1], clip, f));
    EntriesInOrder(lines, clip, f);
    LinesSound(Entries(lines, clip, f));
    ContinuationExtendsHeader(trace + [more]);
    assert (trace + [more])[..|trace|] == trace;
  }

  /** The pieces of the lines, written out, are their text. */
  ghost predicate AreRendered(lines: seq<Line>, clip: Rect, f: Format) {
    Render(LinesTrace(Entries(lines, clip, f))) == LinesText(lines, |lines|, clip, f)
  }

  ghost predicate LastContinues(lines: seq<Line>, f: Format) {
    |lines| > 1 && ContinuesHeader(lines[|lines| - 2], lines[|lines| - 1], f)
  }

  lemma {:induction false} LinesRendered(lines: seq<Line>, clip: Rect, f: Format)
    requires AllVisible(lines, f) && f.space('\n')
    ensures AreRendered(lines, clip, f)
    decreases |lines|
  {
    if lines != [] {
      VisibleInit(lines, f);
      hide *;
      LinesRendered(lines[..|lines| - 1], clip, f);
      if LastContinues(lines, f) {
        ContinuationWritten(lines, clip, f);
      } else {
        NextRendered(lines, clip, f);
      }
    }
  }

  lemma VisibleInit(lines: seq<Line>, f: Format)
    requires lines != [] && AllVisible(lines, f)
    ensures AllVisible(lines[..|lines| - 1], f)
  {
  }

  /** A line that starts on a new line. */
  lemma NextRendered(lines: seq<Line>, clip: Rect, f: Format)
    requires lines != [] && !LastContinues(lines, f) && AreRendered(lines[..|lines| - 1], clip, f)
    ensures AreRendered(lines, clip, f)
  {
    var init, l := lines[..|lines| - 1], lines[|lines| - 1];
    var prev := Before(lines, |init|);
    EntriesAppend(lines, clip, f);
    TraceAppend(lines, clip, f);
    RenderConcat(LinesTrace(Entries(init, clip, f)), PiecesOf(EntryBefore(prev, clip, f), EntryOf(l, clip, f)));
    PiecesWritten(Render(LinesTrace(Entries(init, clip, f))), prev, l, clip, f);
    LastLine(lines, |init|, clip, f);
    if init != [] { NextLineText(lines, clip, f); }
  }

  lemma TraceAppend(lines: seq<Line>, clip: Rect, f: Format)
    requires lines != []
    ensures var init := lines[..|lines| - 1];
            LinesTrace(Entries(lines, clip, f)) ==
            LinesTrace(Entries(init, clip, f)) + PiecesOf(EntryBefore(Before(lines, |init|), clip, f), EntryOf(lines[|init|], clip, f))
  {
    EntriesAppend(lines, clip, f);
  }

  lemma {:induction false} TablesRendered(out: string, tables: seq<Table>, clip: Rect)
    ensures WriteAll(out, TablesTrace(tables, clip)) == out + TablesText(tables, clip)
    decreases |tables|
  {
    if tables != [] {
      var init, last := tables[..|tables| - 1], tables[|tables| - 1];
      TablesRendered(out, init, clip);
      WriteGrid(out, TablesTrace(init, clip), last, clip);
      OneMoreTable(out, TablesText(init, clip), last.markdown);
      assert Mine(last, clip) <==> Centred(last.bbox, clip);
      assert TablesTrace(tables, clip) == TablesTrace(init, clip) + GridOf(last, clip);
    }
  }

  lemma OneMoreTable(out: string, before: string, markdown: string)
    ensures out + before + "\n\n" + markdown == out + (before + ("\n\n" + markdown))
    ensures before + "" == before
  {
  }

  lemma {:induction false} RemainingVisible(lines: seq<Line>, tables: seq<Table>, clip: Rect, f: Format)
    ensures AllVisible(Remaining(lines, tables, clip, f), f)
    decreases |lines|
  {
    if lines != [] { RemainingVisible(lines[..|lines| - 1], tables, clip, f); }
  }

  /** What follows the lines: the closing fence and the tables. */
  lemma RestRendered(trace: seq<Piece>, code: bool, tables: seq<Table>, clip: Rect)
    ensures Render(trace + Closing(code) + TablesTrace(tables, clip)) ==
            Render(trace) + (if code then "```\n" else "") + TablesText(tables, clip)
  {
    RenderConcat(trace, Closing(code));
    FenceWritten(Render(trace), code, false);
    RenderConcat(trace + Closing(code), TablesTrace(tables, clip));
    TablesRendered(Render(trace + Closing(code)), tables, clip);
  }

  /** The trace of the column, written out, is its text. */
  lemma TraceIsText(lines: seq<Line>, tables: seq<Table>, clip: Rect, f: Format)
    requires f.space('\n')
    ensures Render(ColumnTrace(Shown(lines, tables, clip, f), tables, clip)) == WholeText(lines, tables, clip, f)
  {
    var rest := Remaining(lines, tables, clip, f);
    var entries := Entries(rest, clip, f);
    ShownAreRemaining(lines, tables, clip, f);
    RemainingVisible(lines, tables, clip, f);
    LinesRendered(rest, clip, f);
    LastCode(rest, clip, f);
    RestRendered(LinesTrace(entries), IsCode(Last(entries)), tables, clip);
  }

  lemma LastCode(lines: seq<Line>, clip: Rect, f: Format)
    ensures IsCode(Last(Entries(lines, clip, f))) <==> lines != [] && IsCodeLine(lines[|lines| - 1], f)
  {
    CodeEntry(Before(lines, |lines|), clip, f);
  }
}
