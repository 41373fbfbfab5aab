/** columnToMarkdown (internal/pdftomd/markdown.go) as a whole, and what can be read in its
    result. */
module ColumnMarkdown {
  import opened Wrappers
  import opened Rects
  import opened Spans
  import opened Markdown
  import opened ColumnText
  import opened Cleaning

  // ----- What can be read -----

  ghost function SpansInk(spans: seq<Span>, f: Format): string {
    if spans == [] then "" else Visible(f.spanText(spans[0]), f.space) + SpansInk(spans[1..], f)
  }

  /** The visible characters of a line: its own between their marks, or as its bullet or its
      spans are formatted, behind the prefix of a new header and a fence where code begins or
      ends. */
  ghost function LineInk(prev: Option<Line>, l: Line, f: Format): string {
    Visible(FenceBefore(prev, l, f), f.space) + BodyInk(prev, l, f)
  }

  ghost function BodyInk(prev: Option<Line>, l: Line, f: Format): string {
    if IsHeader(l, f) then
      (if prev.Some? && ContinuesHeader(prev.value, l, f) then "" else Visible(f.header(l.spans[0].size), f.space))
      + (Visible(OpeningMarks(l, f), f.space) + Visible(Characters(l.spans), f.space) + Visible(ClosingMarks(l, f), f.space))
    else if IsCodeLine(l, f) then Visible(Characters(l.spans), f.space)
    else if Bulleted(l, f) then Visible(f.bulletText(l, Characters(l.spans)), f.space)
    else SpansInk(l.spans, f)
  }

  ghost function InkAt(lines: seq<Line>, f: Format): nat -> string {
    (i: nat) => if i < |lines| then LineInk(Before(lines, i), lines[i], f) else ""
  }

  ghost function LinesInk(lines: seq<Line>, n: nat, f: Format): string { Flow(n, InkAt(lines, f)) }

  ghost function TablesInk(tables: seq<Table>, clip: Rect, f: Format): string {
    if tables == [] then ""
    else
      var last := tables[|tables| - 1];
      TablesInk(tables[..|tables| - 1], clip, f) + if Centred(last.bbox, clip) then Visible(last.markdown, f.space) else ""
  }

  ghost function Ink(lines: seq<Line>, tables: seq<Table>, clip: Rect, f: Format): string {
    var rest := Remaining(lines, tables, clip, f);
    LinesInk(rest, |rest|, f)
    + (if rest != [] && IsCodeLine(rest[|rest| - 1], f) then Visible("```", f.space) else "")
    + TablesInk(tables, clip, f)
  }

  lemma BlankInk(s: string, space: char -> bool)
    requires Blank(s, space)
    ensures Visible(s, space) == ""
    decreases |s|
  {
    if s != "" {
      forall i | 0 <= i < |s[1..]| ensures space(s[1..][i]) {
        assert s[1..][i] == s[i + 1];
      }
      BlankInk(s[1..], space);
    }
  }

  lemma {:induction false} FormattedInk(spans: seq<Span>, f: Format)
    requires f.space(' ')
    ensures Visible(Formatted(spans, f), f.space) == SpansInk(spans, f)
    decreases |spans|
  {
    if spans != [] {
      FormattedInk(spans[1..], f);
      var t := f.spanText(spans[0]);
      BlankInk(" ", f.space);
      VisibleConcat(t, " ", f.space);
      VisibleConcat(if t == "" then "" else t + " ", Formatted(spans[1..], f), f.space);
    }
  }

  lemma Visible3(a: string, b: string, c: string, space: char -> bool)
    ensures Visible(a + b + c, space) == Visible(a, space) + Visible(b, space) + Visible(c, space)
  {
    VisibleConcat(a + b, c, space);
    VisibleConcat(a, b, space);
  }

  lemma BodyVisible(prev: Option<Line>, l: Line, clip: Rect, f: Format)
    requires f.space(' ') && f.space('\n')
    ensures Visible(Body(prev, l, clip, f), f.space) == BodyInk(prev, l, f)
  {
    if IsHeader(l, f) {
      HeaderVisible(prev, l, clip, f);
    } else if IsCodeLine(l, f) {
      TrimKeepsVisible(Characters(l.spans), f.space);
      BreaksVisible(Indent(l, clip), Trim(Characters(l.spans), f.space), f.space);
    } else {
      ProseVisible(prev, l, clip, f);
    }
  }

  lemma ProseVisible(prev: Option<Line>, l: Line, clip: Rect, f: Format)
    requires f.space(' ') && f.space('\n') && !IsHeader(l, f) && !IsCodeLine(l, f)
    ensures Visible(Body(prev, l, clip, f), f.space) == BodyInk(prev, l, f)
  {
    if Bulleted(l, f) {
      BreaksVisible(EmptyLines(prev, l, f), f.bulletText(l, Characters(l.spans)), f.space);
    } else {
      FormattedInk(l.spans, f);
      BreaksVisible(EmptyLines(prev, l, f), Formatted(l.spans, f), f.space);
    }
  }

  lemma BreaksVisible(breaks: string, text: string, space: char -> bool)
    requires Blank(breaks, space)
    ensures Visible(breaks + text, space) == Visible(text, space)
  {
    BlankInk(breaks, space);
    VisibleConcat(breaks, text, space);
  }

  lemma HeaderVisible(prev: Option<Line>, l: Line, clip: Rect, f: Format)
    requires f.space('\n') && IsHeader(l, f)
    ensures Visible(Body(prev, l, clip, f), f.space) == BodyInk(prev, l, f)
  {
    var text := OpeningMarks(l, f) + Trim(Characters(l.spans), f.space) + ClosingMarks(l, f);
    TrimKeepsVisible(Characters(l.spans), f.space);
    Visible3(OpeningMarks(l, f), Trim(Characters(l.spans), f.space), ClosingMarks(l, f), f.space);
    if prev.Some? && ContinuesHeader(prev.value, l, f) {
      assert Body(prev, l, clip, f) == "" + text == text;
    } else {
      PrefixVisible(f.header(l.spans[0].size), text, f.space);
    }
  }

  lemma PrefixVisible(prefix: string, text: string, space: char -> bool)
    requires space('\n')
    ensures Visible("\n" + prefix + text, space) == Visible(prefix, space) + Visible(text, space)
  {
    BlankInk("\n", space);
    Visible3("\n", prefix, text, space);
    assert "" + Visible(prefix, space) == Visible(prefix, space);
  }

  lemma LineVisible(prev: Option<Line>, l: Line, next: Option<Line>, clip: Rect, f: Format)
    requires f.space(' ') && f.space('\n')
    ensures Visible(LineText(prev, l, next, clip, f), f.space) == LineInk(prev, l, f)
  {
    BodyVisible(prev, l, clip, f);
    LineParts(FenceBefore(prev, l, f), Body(prev, l, clip, f), EndOf(l, next, f), f.space);
  }

  lemma LineParts(fence: string, body: string, end: string, space: char -> bool)
    requires Blank(end, space)
    ensures Visible(fence + body + end, space) == Visible(fence, space) + Visible(body, space)
  {
    BlankInk(end, space);
    Visible3(fence, body, end, space);
  }

  lemma {:induction false} FlowVisible(n: nat, text: nat -> string, ink: nat -> string, space: char -> bool)
    requires forall i: nat :: i < n ==> Visible(text(i), space) == ink(i)
    ensures Visible(Flow(n, text), space) == Flow(n, ink)
  {
    if n > 0 {
      FlowVisible(n - 1, text, ink, space);
      VisibleConcat(Flow(n - 1, text), text(n - 1), space);
    }
  }

  lemma LinesTextInk(lines: seq<Line>, clip: Rect, f: Format)
    requires f.space(' ') && f.space('\n')
    ensures Visible(LinesText(lines, |lines|, clip, f), f.space) == LinesInk(lines, |lines|, f)
  {
    forall i: nat | i < |lines| ensures Visible(LineAt(lines, clip, f)(i), f.space) == InkAt(lines, f)(i) {
      LineVisible(Before(lines, i), lines[i], Following(lines, i), clip, f);
    }
    FlowVisible(|lines|, LineAt(lines, clip, f), InkAt(lines, f), f.space);
  }

  lemma {:induction false} TablesTextInk(tables: seq<Table>, clip: Rect, f: Format)
    requires f.space('\n')
    ensures Visible(TablesText(tables, clip), f.space) == TablesInk(tables, clip, f)
    decreases |tables|
  {
    if tables != [] {
      var init, last := tables[..|tables| - 1], tables[|tables| - 1];
      TablesTextInk(init, clip, f);
      BlankInk("\n\n", f.space);
      VisibleConcat("\n\n", last.markdown, f.space);
      VisibleConcat(TablesText(init, clip), if Centred(last.bbox, clip) then "\n\n" + last.markdown else "", f.space);
    }
  }

  lemma FenceInk(needed: bool, space: char -> bool)
    requires space('\n')
    ensures Visible(if needed then "```\n" else "", space) == if needed then Visible("```", space) else ""
  {
    BlankInk("\n", space);
    VisibleConcat("```", "\n", space);
    assert "```" + "\n" == "```\n";
  }

  lemma WholeTextInk(lines: seq<Line>, tables: seq<Table>, clip: Rect, f: Format)
    requires f.space(' ') && f.space('\n')
    ensures Visible(WholeText(lines, tables, clip, f), f.space) == Ink(lines, tables, clip, f)
  {
    var rest := Remaining(lines, tables, clip, f);
    var code := rest != [] && IsCodeLine(rest[|rest| - 1], f);
    LinesTextInk(rest, clip, f);
    TablesTextInk(tables, clip, f);
    FenceInk(code, f.space);
    Visible3(LinesText(rest, |rest|, clip, f), if code then "```\n" else "", TablesText(tables, clip), f.space);
  }

  /** The whole function: the lines that are not left out, each as its kind demands and in
      order, then the tables, cleaned up; nothing visible is lost or added by the clean-up. */
  method ColumnToMarkdown(lines: seq<Line>, tables: seq<Table>, clip: Rect, f: Format) returns (md: string)
    requires f.space('\n') && f.space(' ')
    ensures IsCleaned(WholeText(lines, tables, clip, f), md, f.space)
    ensures Visible(md, f.space) == Ink(lines, tables, clip, f)
    ensures md == CleanUp(Render(ColumnTrace(Shown(lines, tables, clip, f), tables, clip)), f.space)
  {
    TraceIsText(lines, tables, clip, f);
    CleanUpIsCleaned(WholeText(lines, tables, clip, f), f.space);
    CleanUpKeepsVisible(WholeText(lines, tables, clip, f), f.space);
    WholeTextInk(lines, tables, clip, f);
    if lines == [] && tables == [] {
      assert WholeText(lines, tables, clip, f) == "";
      return "";
    }
    var out := WriteColumn(lines, tables, clip, f);
    md := CleanUp(out, f.space);
  }
}
