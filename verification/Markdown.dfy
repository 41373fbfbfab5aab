/** columnToMarkdown (internal/pdftomd/markdown.go) as a state machine over the lines of
    a column. What it writes is recorded as a trace of pieces. */
module Markdown {
  import opened Wrappers
  import opened Sorting
  import opened Rects
  import opened Spans

  datatype Line = Line(bbox: Rect, spans: seq<Span>, blockNo: int)

  datatype Table = Table(bbox: Rect, markdown: string)

  /** What other parts of the program decide: white space, header prefixes by font size,
      bullet characters, and the text of bullet lines and spans. */
  datatype Format = Format(
    space: char -> bool, header: real -> string, bullet: char -> bool,
    bulletText: (Line, string) -> string, spanText: Span -> string)

  datatype Piece =
    | Fence(open: bool)
    | Code(text: string)
    | Header(prefix: string, text: string)
    | HeaderMore(prefix: string, text: string)
    | Break
    | Bullet(text: string)
    | Text(text: string)
    | Grid(markdown: string)

  // ----- What a trace looks like on paper -----

  function TrimNewlines(s: string): string {
    if s != "" && s[|s| - 1] == '\n' then TrimNewlines(s[..|s| - 1]) else s
  }

  /** What writing one more piece makes of the text so far. */
  function Write(out: string, p: Piece): string {
    match p
    case Fence(_) => out + "```\n"
    case Code(text) => out + text + "\n"
    case Header(prefix, text) => out + "\n" + prefix + text + "\n"
    case HeaderMore(_, text) => TrimNewlines(out) + " " + text + "\n"
    case Break => out + "\n"
    case Bullet(text) => out + text + "\n"
    case Text(text) => out + text + "\n"
    case Grid(markdown) => out + "\n\n" + markdown
  }

  function Render(trace: seq<Piece>): string {
    if trace == [] then "" else Write(Render(trace[..|trace| - 1]), trace[|trace| - 1])
  }

  // ----- Fences -----

  /** Whether a fence is open at the end of the trace. */
  predicate InCode(trace: seq<Piece>) {
    if trace == [] then false
    else if trace[|trace| - 1].Fence? then !InCode(trace[..|trace| - 1])
    else InCode(trace[..|trace| - 1])
  }

  predicate Fits(p: Piece, inCode: bool) {
    match p
    case Fence(open) => open == !inCode
    case Code(_) => inCode
    case _ => !inCode
  }

  ghost predicate Fenced(trace: seq<Piece>) {
    trace == [] || (Fenced(trace[..|trace| - 1]) && Fits(trace[|trace| - 1], InCode(trace[..|trace| - 1])))
  }

  function Fences(trace: seq<Piece>): seq<bool> {
    if trace == [] then []
    else Fences(trace[..|trace| - 1]) + if trace[|trace| - 1].Fence? then [trace[|trace| - 1].open] else []
  }

  /** Fence markers alternate between opening and closing, starting with opening; if no
      fence is open at the end, they come in pairs. */
  lemma {:induction false} FencesAlternate(trace: seq<Piece>)
    requires Fenced(trace)
    ensures forall k :: 0 <= k < |Fences(trace)| ==> Fences(trace)[k] == (k % 2 == 0)
    ensures InCode(trace) <==> |Fences(trace)| % 2 == 1
    decreases |trace|
  {
    if trace != [] {
      FencesAlternate(trace[..|trace| - 1]);
    }
  }

  /** Each piece is on its side of the fences. */
  lemma {:induction false} PiecesInPlace(trace: seq<Piece>, i: nat)
    requires Fenced(trace) && i < |trace|
    ensures Fits(trace[i], InCode(trace[..i]))
    decreases |trace|
  {
    if i < |trace| - 1 {
      PiecesInPlace(trace[..|trace| - 1], i);
      assert trace[..|trace| - 1][..i] == trace[..i];
    }
  }

  // ----- Header lines -----

  predicate IsHeading(p: Piece) { p.Header? || p.HeaderMore? }

  /** A header text: something, not ending in a line break. */
  predicate Solid(text: string) { text != "" && text[|text| - 1] != '\n' }

  /** Header texts are solid, and a continuation directly follows a header line of the
      same level. */
  ghost predicate HeadedAt(trace: seq<Piece>, i: nat)
    requires i < |trace|
  {
    IsHeading(trace[i]) ==>
      && Solid(trace[i].text)
      && (trace[i].HeaderMore? ==> i > 0 && IsHeading(trace[i - 1]) && trace[i - 1].prefix == trace[i].prefix)
  }

  ghost predicate Headed(trace: seq<Piece>) {
    forall i {:trigger HeadedAt(trace, i)} :: 0 <= i < |trace| ==> HeadedAt(trace, i)
  }

  lemma HeadingEnds(trace: seq<Piece>)
    requires trace != [] && IsHeading(trace[|trace| - 1]) && Solid(trace[|trace| - 1].text)
    ensures var r, t := Render(trace), trace[|trace| - 1].text;
            |r| > |t| && r[|r| - 1] == '\n' && r[|r| - 1 - |t|..|r| - 1] == t && TrimNewlines(r) == r[..|r| - 1]
  {
    var r, t := Render(trace), trace[|trace| - 1].text;
    assert r[|r| - 2] == t[|t| - 1];
  }

  /** The trim of a continuation takes away exactly the line break of the header line
      before it, so the texts of one header end up on one line. */
  lemma ContinuationExtendsHeader(trace: seq<Piece>)
    requires Headed(trace) && trace != [] && trace[|trace| - 1].HeaderMore?
    ensures var before, last := trace[..|trace| - 1], trace[|trace| - 1];
            && before != [] && IsHeading(before[|before| - 1]) && before[|before| - 1].prefix == last.prefix
            && Render(before) != "" && Render(before)[|Render(before)| - 1] == '\n'
            && Render(trace) == Render(before)[..|Render(before)| - 1] + " " + last.text + "\n"
  {
    assert HeadedAt(trace, |trace| - 1) && HeadedAt(trace, |trace| - 2);
    HeadingEnds(trace[..|trace| - 1]);
  }

  // ----- Lines -----

  function Trim(s: string, space: char -> bool): string {
    if s == "" then ""
    else if space(s[0]) then Trim(s[1..], space)
    else if space(s[|s| - 1]) then Trim(s[..|s| - 1], space)
    else s
  }

  lemma {:induction false} TrimFacts(s: string, space: char -> bool)
    ensures Trim(s, space) == "" <==> Blank(s, space)
    ensures Trim(s, space) != "" ==> !space(Trim(s, space)[|Trim(s, space)| - 1])
    decreases |s|
  {
    if s != "" {
      if space(s[0]) {
        TrimFacts(s[1..], space);
        assert Blank(s, space) <==> Blank(s[1..], space) by {
          assert forall i :: 0 < i < |s| ==> s[i] == s[1..][i - 1];
        }
      } else if space(s[|s| - 1]) {
        TrimFacts(s[..|s| - 1], space);
        assert !Blank(s[..|s| - 1], space) by {
          assert s[..|s| - 1][0] == s[0];
        }
      }
    }
  }

  function FirstNonSpace(s: string): char {
    if s == "" then '\0' else if s[0] != ' ' && s[0] != '\t' then s[0] else FirstNonSpace(s[1..])
  }

  predicate Mono(l: Line, f: Format) { AllSpansHave(l.spans, (s: Style) => s.mono, f.space) }

  predicate Bold(l: Line, f: Format) { AllSpansHave(l.spans, (s: Style) => s.bold, f.space) }

  predicate Italic(l: Line, f: Format) { AllSpansHave(l.spans, (s: Style) => s.italic, f.space) }

  function Prefix(l: Line, f: Format): string { if l.spans == [] then "" else f.header(l.spans[0].size) }

  /** Emphasis around the text of a header. */
  function HeaderText(l: Line, f: Format): string {
    var t0 := Trim(RawText(l.spans), f.space);
    var t1 := if Mono(l, f) then "`" + t0 + "`" else t0;
    var t2 := if Italic(l, f) then "_" + t1 + "_" else t1;
    if Bold(l, f) then "**" + t2 + "**" else t2
  }

  function Spaces(n: int): string { if n <= 0 then "" else seq(n, _ => ' ') }

  function CodeText(l: Line, clip: Rect, f: Format): string {
    (if l.spans != [] && l.spans[0].size > 0.0
     then Spaces(((l.bbox.x0 - clip.x0) / (l.spans[0].size * 0.5)).Floor) else "") + Trim(RawText(l.spans), f.space)
  }

  function SpanTexts(spans: seq<Span>, f: Format): string {
    if spans == [] then ""
    else
      var t := f.spanText(spans[|spans| - 1]);
      SpanTexts(spans[..|spans| - 1], f) + if t != "" then t + " " else ""
  }

  predicate InTable(l: Line, tables: seq<Table>, clip: Rect) {
    var cx, cy := (l.bbox.x0 + l.bbox.x1) / 2.0, (l.bbox.y0 + l.bbox.y1) / 2.0;
    exists i :: 0 <= i < |tables| && Mine(tables[i], clip)
                && tables[i].bbox.x0 - 2.0 <= cx <= tables[i].bbox.x1 + 2.0
                && tables[i].bbox.y0 - 2.0 <= cy <= tables[i].bbox.y1 + 2.0
  }

  /** A table belongs to the column its centre lies in. */
  predicate Mine(t: Table, clip: Rect) {
    && clip.x0 <= (t.bbox.x0 + t.bbox.x1) / 2.0 <= clip.x1
    && clip.y0 <= (t.bbox.y0 + t.bbox.y1) / 2.0 <= clip.y1
  }

  predicate Skipped(l: Line, tables: seq<Table>, clip: Rect, f: Format) {
    Blank(RawText(l.spans), f.space) || InTable(l, tables, clip)
  }

  datatype Kind = HeaderKind(prefix: string) | CodeKind | BulletKind | TextKind

  /** What a line is written as. */
  function KindOf(l: Line, f: Format): Kind {
    if Prefix(l, f) != "" then HeaderKind(Prefix(l, f))
    else if Mono(l, f) then CodeKind
    else if IsBulletLine(l, f) then BulletKind
    else TextKind
  }

  datatype Content = Content(kind: Kind, text: string)

  function ContentOf(l: Line, clip: Rect, f: Format): Content {
    match KindOf(l, f)
    case HeaderKind(p) => Content(HeaderKind(p), HeaderText(l, f))
    case CodeKind => Content(CodeKind, CodeText(l, clip, f))
    case _ => Prose(l, f)
  }

  predicate IsBulletLine(l: Line, f: Format) { f.bullet(FirstNonSpace(RawText(l.spans))) }

  function Prose(l: Line, f: Format): Content {
    if IsBulletLine(l, f) then Content(BulletKind, f.bulletText(l, RawText(l.spans)))
    else Content(TextKind, SpanTexts(l.spans, f))
  }

  function ContentsOf(p: Piece): seq<Content> {
    match p
    case Code(text) => [Content(CodeKind, text)]
    case Header(prefix, text) => [Content(HeaderKind(prefix), text)]
    case HeaderMore(prefix, text) => [Content(HeaderKind(prefix), text)]
    case Bullet(text) => [Content(BulletKind, text)]
    case Text(text) => [Content(TextKind, text)]
    case _ => []
  }

  /** The lines of a trace without fences, breaks and tables. */
  function Contents(trace: seq<Piece>): seq<Content> {
    if trace == [] then [] else Contents(trace[..|trace| - 1]) + ContentsOf(trace[|trace| - 1])
  }

  function GridsOf(p: Piece): seq<string> { if p.Grid? then [p.markdown] else [] }

  function Grids(trace: seq<Piece>): seq<string> {
    if trace == [] then [] else Grids(trace[..|trace| - 1]) + GridsOf(trace[|trace| - 1])
  }

  /** What the writer needs to know of a line: what it is written as, where it stands,
      and whether its own look starts a paragraph. */
  datatype Entry = Entry(content: Content, blockNo: int, bbox: Rect, startsParagraph: bool)

  function EntryOf(l: Line, clip: Rect, f: Format): Entry {
    Entry(ContentOf(l, clip, f), l.blockNo, l.bbox, StartsParagraph(l, f))
  }

  /** A bracket, a bullet or a superscript at the start. */
  predicate StartsParagraph(l: Line, f: Format) {
    || IsBulletLine(l, f)
    || (l.spans != [] && (l.spans[0].style.superscript || (l.spans[0].text != "" && l.spans[0].text[0] == '[')))
  }

  /** The entry of a line that is written, none for one that is skipped. */
  function Written(tables: seq<Table>, clip: Rect, f: Format): Line -> seq<Entry> {
    (l: Line) => if Skipped(l, tables, clip, f) then [] else [EntryOf(l, clip, f)]
  }

  /** The lines that are written. */
  function Shown(lines: seq<Line>, tables: seq<Table>, clip: Rect, f: Format): seq<Entry> {
    Collect(lines, Written(tables, clip, f))
  }

  /** The tables of the column, in order. */
  function MineOf(tables: seq<Table>, clip: Rect): seq<string> {
    if tables == [] then []
    else
      var t := tables[|tables| - 1];
      MineOf(tables[..|tables| - 1], clip) + if Mine(t, clip) then [t.markdown] else []
  }

  // ----- What a line is written as, given the one before it -----

  predicate IsCode(e: Option<Entry>) { e.Some? && e.value.content.kind.CodeKind? }

  /** Close below: less than half the height of the line between them. */
  predicate Close(prevBox: Rect, box: Rect) {
    prevBox.y1 > 0.0 && box.y0 - prevBox.y1 < (box.y1 - box.y0) * 0.5
  }

  /** A header continues the line before it: same level, and close below it. */
  predicate Continues(prev: Option<Entry>, e: Entry) {
    prev.Some? && e.content.kind.HeaderKind? && prev.value.content.kind == e.content.kind && Close(prev.value.bbox, e.bbox)
  }

  predicate NewBlock(prev: Option<Entry>, e: Entry) {
    prev.Some? && prev.value.blockNo != e.blockNo && prev.value.blockNo >= 0
  }

  /** Far below the line before it, or by its own look. */
  predicate NewParagraph(prevBox: Rect, e: Entry) {
    (prevBox.y1 > 0.0 && e.bbox.y1 - prevBox.y1 > (e.bbox.y1 - e.bbox.y0) * 1.5) || e.startsParagraph
  }

  const NO_BOX: Rect := Rect(0.0, 0.0, 0.0, 0.0)

  function BoxOf(e: Option<Entry>): Rect { if e.Some? then e.value.bbox else NO_BOX }

  function Closing(inCode: bool): seq<Piece> { if inCode then [Fence(false)] else [] }

  function Opening(inCode: bool): seq<Piece> { if inCode then [] else [Fence(true)] }

  function Breaks(newBlock: bool, newParagraph: bool): seq<Piece> {
    (if newBlock then [Break] else []) + (if newParagraph then [Break] else [])
  }

  function Heading(continues: bool, prefix: string, text: string): Piece {
    if continues then HeaderMore(prefix, text) else Header(prefix, text)
  }

  function ProsePiece(c: Content): Piece {
    if c.kind.BulletKind? then Bullet(c.text) else Text(c.text)
  }

  /** The pieces of one line: they depend on that line and the one written before it. */
  function PiecesOf(prev: Option<Entry>, e: Entry): seq<Piece> {
    match e.content.kind
    case HeaderKind(prefix) => Closing(IsCode(prev)) + [Heading(Continues(prev, e), prefix, e.content.text)]
    case CodeKind => Opening(IsCode(prev)) + [Code(e.content.text)]
    case _ => Closing(IsCode(prev)) + Breaks(NewBlock(prev, e), NewParagraph(BoxOf(prev), e)) + [ProsePiece(e.content)]
  }

  function Last(entries: seq<Entry>): Option<Entry> { if entries == [] then None else Some(entries[|entries| - 1]) }

  function LinesTrace(entries: seq<Entry>): seq<Piece> {
    if entries == [] then []
    else
      var init := entries[..|entries| - 1];
      LinesTrace(init) + PiecesOf(Last(init), entries[|entries| - 1])
  }

  function GridOf(t: Table, clip: Rect): seq<Piece> { if Mine(t, clip) then [Grid(t.markdown)] else [] }

  function TablesTrace(tables: seq<Table>, clip: Rect): seq<Piece> {
    if tables == [] then []
    else
      var t := tables[|tables| - 1];
      TablesTrace(tables[..|tables| - 1], clip) + GridOf(t, clip)
  }

  /** All that is written for a column. */
  function ColumnTrace(entries: seq<Entry>, tables: seq<Table>, clip: Rect): seq<Piece> {
    LinesTrace(entries) + Closing(IsCode(Last(entries))) + TablesTrace(tables, clip)
  }

  // ----- The machine writes exactly that -----

  /** The local variables of the loop. */
  datatype Printer = Printer(out: string, inCode: bool, prevHeader: string, prevBlock: int, prevBox: Rect)

  function Level(k: Kind): string { if k.HeaderKind? then k.prefix else "" }

  /** The state after the line `prev`: no more is remembered than that line tells. */
  ghost predicate After(p: Printer, prev: Option<Entry>) {
    && p.inCode == IsCode(prev) && p.prevBox == BoxOf(prev)
    && p.prevHeader == (if prev.Some? then Level(prev.value.content.kind) else "")
    && p.prevBlock == (if prev.Some? then prev.value.blockNo else -1)
  }

  /** Writing piece after piece. */
  function WriteAll(out: string, pieces: seq<Piece>): string {
    if pieces == [] then out else Write(WriteAll(out, pieces[..|pieces| - 1]), pieces[|pieces| - 1])
  }

  lemma {:induction false} RenderConcat(a: seq<Piece>, b: seq<Piece>)
    ensures Render(a + b) == WriteAll(Render(a), b)
    decreases |b|
  {
    if b == [] {
      assert a + b == a;
    } else {
      assert (a + b)[..|a + b| - 1] == a + b[..|b| - 1];
      RenderConcat(a, b[..|b| - 1]);
    }
  }

  lemma WriteOne(out: string, p: Piece)
    ensures WriteAll(out, [p]) == Write(out, p)
  {
    assert [p][..0] == [];
  }

  lemma WriteMore(out: string, pieces: seq<Piece>, p: Piece)
    ensures WriteAll(out, pieces + [p]) == Write(WriteAll(out, pieces), p)
  {
    assert (pieces + [p])[..|pieces|] == pieces;
  }

  method CloseFence(p: Printer) returns (p': Printer)
    ensures p' == p.(out := WriteAll(p.out, Closing(p.inCode)), inCode := false)
  {
    p' := p;
    WriteOne(p.out, Fence(false));
    if p'.inCode {
      p' := p'.(out := p'.out + "```\n", inCode := false);
    }
  }

  method WriteHeader(p: Printer, e: Entry) returns (p': Printer)
    requires e.content.kind.HeaderKind?
    ensures var prefix := e.content.kind.prefix;
            var heading := Heading(prefix == p.prevHeader && Close(p.prevBox, e.bbox), prefix, e.content.text);
            p' == Printer(WriteAll(p.out, Closing(p.inCode) + [heading]), false, prefix, e.blockNo, e.bbox)
  {
    p' := CloseFence(p);
    var prefix, text := e.content.kind.prefix, e.content.text;
    var continues := prefix == p'.prevHeader && Close(p'.prevBox, e.bbox);
    WriteMore(p.out, Closing(p.inCode), Heading(continues, prefix, text));
    if continues {
      p' := p'.(out := TrimNewlines(p'.out) + " " + text + "\n");
    } else {
      p' := p'.(out := p'.out + "\n" + prefix + text + "\n");
    }
    p' := p'.(prevHeader := prefix, prevBox := e.bbox, prevBlock := e.blockNo);
  }

  method WriteCode(p: Printer, e: Entry) returns (p': Printer)
    ensures p' == Printer(WriteAll(p.out, Opening(p.inCode) + [Code(e.content.text)]), true, p.prevHeader, e.blockNo, e.bbox)
  {
    p' := p;
    WriteOne(p.out, Fence(true));
    if !p'.inCode {
      p' := p'.(out := p'.out + "```\n", inCode := true);
    }
    WriteMore(p.out, Opening(p.inCode), Code(e.content.text));
    p' := p'.(out := p'.out + e.content.text + "\n", prevBox := e.bbox, prevBlock := e.blockNo);
  }

  lemma Concat3<T>(a: seq<T>, b: seq<T>, c: seq<T>)
    ensures a + (b + c) == (a + b) + c
  {
  }

  function AddBreak(out: string, needed: bool): string { if needed then out + "\n" else out }

  lemma WriteBreak(start: string, before: seq<Piece>, needed: bool)
    ensures WriteAll(start, before + if needed then [Break] else []) == AddBreak(WriteAll(start, before), needed)
  {
    WriteMore(start, before, Break);
    assert before + [] == before;
  }

  lemma WriteBreaks(start: string, before: seq<Piece>, a: bool, b: bool)
    ensures WriteAll(start, before + Breaks(a, b)) == AddBreak(AddBreak(WriteAll(start, before), a), b)
  {
    WriteBreak(start, before, a);
    WriteBreak(start, before + if a then [Break] else [], b);
    Concat3(before, if a then [Break] else [], if b then [Break] else []);
  }

  lemma WriteProsePieces(start: string, closing: seq<Piece>, a: bool, b: bool, c: Content)
    ensures WriteAll(start, closing + Breaks(a, b) + [ProsePiece(c)]) ==
            AddBreak(AddBreak(WriteAll(start, closing), a), b) + c.text + "\n"
  {
    WriteBreaks(start, closing, a, b);
    WriteMore(start, closing + Breaks(a, b), ProsePiece(c));
  }

  method WriteProse(p: Printer, e: Entry) returns (p': Printer)
    ensures var breaks := Breaks(e.blockNo != p.prevBlock && p.prevBlock >= 0, NewParagraph(p.prevBox, e));
            p' == Printer(WriteAll(p.out, Closing(p.inCode) + breaks + [ProsePiece(e.content)]), false, p.prevHeader, e.blockNo, e.bbox)
  {
    p' := CloseFence(p);
    var out := p'.out;
    var newBlock := e.blockNo != p'.prevBlock && p'.prevBlock >= 0;
    if newBlock {
      out := out + "\n";
    }
    var needBreak := NewParagraph(p'.prevBox, e);
    if needBreak {
      out := out + "\n";
    }
    WriteProsePieces(p.out, Closing(p.inCode), newBlock, needBreak, e.content);
    p' := p'.(out := out + e.content.text + "\n", prevBox := e.bbox, prevBlock := e.blockNo);
  }

  /** One turn of the loop for a line that is not skipped. */
  method WriteLine(p: Printer, ghost prev: Option<Entry>, e: Entry) returns (p': Printer)
    requires After(p, prev) && HeaderOk(e) && (prev.Some? ==> HeaderOk(prev.value))
    ensures After(p', Some(e)) && p'.out == WriteAll(p.out, PiecesOf(prev, e))
  {
    if e.content.kind.HeaderKind? {
      p' := WriteHeader(p, e);
      return;
    }
    p' := p.(prevHeader := "");
    if e.content.kind.CodeKind? {
      p' := WriteCode(p', e);
      return;
    }
    p' := WriteProse(p', e);
  }

  /** A header line has a level and a text. */
  predicate HeaderOk(e: Entry) {
    e.content.kind.HeaderKind? ==> e.content.kind.prefix != "" && Solid(e.content.text)
  }

  ghost predicate HeadersOk(entries: seq<Entry>) { forall i :: 0 <= i < |entries| ==> HeaderOk(entries[i]) }

  lemma HeaderTextSolid(l: Line, clip: Rect, f: Format)
    requires f.space('\n') && !Blank(RawText(l.spans), f.space)
    ensures HeaderOk(EntryOf(l, clip, f))
  {
    TrimFacts(RawText(l.spans), f.space);
  }

  lemma {:induction false} ShownHeaders(lines: seq<Line>, tables: seq<Table>, clip: Rect, f: Format)
    requires f.space('\n')
    ensures HeadersOk(Shown(lines, tables, clip, f))
    decreases |lines|
  {
    if lines != [] {
      ShownHeaders(lines[..|lines| - 1], tables, clip, f);
      WrittenHeaders(lines[|lines| - 1], tables, clip, f);
    }
  }

  lemma WrittenHeaders(l: Line, tables: seq<Table>, clip: Rect, f: Format)
    requires f.space('\n')
    ensures HeadersOk(Written(tables, clip, f)(l))
  {
    if !Skipped(l, tables, clip, f) {
      HeaderTextSolid(l, clip, f);
    }
  }

  lemma NextLine(entries: seq<Entry>, e: Entry)
    ensures Render(LinesTrace(entries + [e])) == WriteAll(Render(LinesTrace(entries)), PiecesOf(Last(entries), e))
  {
    assert (entries + [e])[..|entries|] == entries;
    RenderConcat(LinesTrace(entries), PiecesOf(Last(entries), e));
  }

  /** What holds between two turns of the loop. */
  ghost predicate Printed(p: Printer, shown: seq<Entry>) {
    HeadersOk(shown) && After(p, Last(shown)) && p.out == Render(LinesTrace(shown))
  }

  /** The state when the first n lines are done. */
  ghost predicate PrintedTo(p: Printer, lines: seq<Line>, n: nat, tables: seq<Table>, clip: Rect, f: Format)
    requires n <= |lines|
  {
    Printed(p, Shown(lines[..n], tables, clip, f))
  }

  lemma ShownNext(lines: seq<Line>, i: nat, tables: seq<Table>, clip: Rect, f: Format)
    requires i < |lines|
    ensures Shown(lines[..i + 1], tables, clip, f) ==
            Shown(lines[..i], tables, clip, f) + if Skipped(lines[i], tables, clip, f) then [] else [EntryOf(lines[i], clip, f)]
  {
    assert lines[..i + 1] == lines[..i] + [lines[i]];
    CollectAppend(lines[..i], lines[i], Written(tables, clip, f));
  }

  /** One turn of the loop. */
  method Turn(p: Printer, lines: seq<Line>, i: nat, tables: seq<Table>, clip: Rect, f: Format) returns (p': Printer)
    requires i < |lines| && PrintedTo(p, lines, i, tables, clip, f) && f.space('\n')
    ensures PrintedTo(p', lines, i + 1, tables, clip, f)
  {
    ghost var shown := Shown(lines[..i], tables, clip, f);
    ShownNext(lines, i, tables, clip, f);
    p' := p;
    if Skipped(lines[i], tables, clip, f) {
      assert shown + [] == shown;
      return;
    }
    var e := EntryOf(lines[i], clip, f);
    HeaderTextSolid(lines[i], clip, f);
    LastOk(p, shown);
    p' := WriteLine(p, Last(shown), e);
    NextPrinted(p, p', shown, e);
  }

  lemma LastOk(p: Printer, shown: seq<Entry>)
    requires Printed(p, shown)
    ensures After(p, Last(shown)) && (Last(shown).Some? ==> HeaderOk(Last(shown).value))
  {
  }

  lemma NextPrinted(p: Printer, p': Printer, shown: seq<Entry>, e: Entry)
    requires Printed(p, shown) && HeaderOk(e)
    requires After(p', Some(e)) && p'.out == WriteAll(p.out, PiecesOf(Last(shown), e))
    ensures Printed(p', shown + [e])
  {
    NextLine(shown, e);
    NextHeaders(shown, e);
  }

  lemma NextHeaders(shown: seq<Entry>, e: Entry)
    requires HeadersOk(shown) && HeaderOk(e)
    ensures HeadersOk(shown + [e]) && Last(shown + [e]) == Some(e)
  {
  }

  method Start() returns (p: Printer)
    ensures Printed(p, [])
  {
    p := Printer("", false, "", -1, NO_BOX);
  }

  method WriteLines(lines: seq<Line>, tables: seq<Table>, clip: Rect, f: Format) returns (p: Printer)
    requires f.space('\n')
    ensures Printed(p, Shown(lines, tables, clip, f))
  {
    p := Start();
    assert lines[..0] == [];
    for i := 0 to |lines|
      invariant PrintedTo(p, lines, i, tables, clip, f)
    {
      p := Turn(p, lines, i, tables, clip, f);
    }
    assert lines[..|lines|] == lines;
  }

  lemma NextTable(out: string, tables: seq<Table>, i: nat, clip: Rect)
    requires i < |tables|
    ensures var before := WriteAll(out, TablesTrace(tables[..i], clip));
            WriteAll(out, TablesTrace(tables[..i + 1], clip)) ==
            if Mine(tables[i], clip) then before + "\n\n" + tables[i].markdown else before
  {
    var done := TablesTrace(tables[..i], clip);
    assert tables[..i + 1][..i] == tables[..i];
    assert TablesTrace(tables[..i + 1], clip) == done + GridOf(tables[i], clip);
    WriteGrid(out, done, tables[i], clip);
  }

  lemma WriteGrid(out: string, done: seq<Piece>, t: Table, clip: Rect)
    ensures WriteAll(out, done + GridOf(t, clip)) ==
            if Mine(t, clip) then WriteAll(out, done) + "\n\n" + t.markdown else WriteAll(out, done)
  {
    WriteMore(out, done, Grid(t.markdown));
    assert done + [] == done;
  }

  method AppendTables(out: string, tables: seq<Table>, clip: Rect) returns (out': string)
    ensures out' == WriteAll(out, TablesTrace(tables, clip))
  {
    out' := out;
    for i := 0 to |tables|
      invariant out' == WriteAll(out, TablesTrace(tables[..i], clip))
    {
      NextTable(out, tables, i, clip);
      if Mine(tables[i], clip) {
        out' := out' + "\n\n" + tables[i].markdown;
      }
    }
    assert tables[..|tables|] == tables;
  }

  /** The text of a column before the final clean-up. */
  method WriteColumn(lines: seq<Line>, tables: seq<Table>, clip: Rect, f: Format) returns (out: string)
    requires f.space('\n')
    ensures out == Render(ColumnTrace(Shown(lines, tables, clip, f), tables, clip))
  {
    ghost var shown := Shown(lines, tables, clip, f);
    var p := WriteLines(lines, tables, clip, f);
    p := CloseFence(p);
    RenderConcat(LinesTrace(shown), Closing(IsCode(Last(shown))));
    out := AppendTables(p.out, tables, clip);
    RenderConcat(LinesTrace(shown) + Closing(IsCode(Last(shown))), TablesTrace(tables, clip));
  }

  // ----- What holds of everything the machine writes -----

  lemma AppendHeaded(trace: seq<Piece>, piece: Piece)
    requires Headed(trace)
    requires IsHeading(piece) ==> Solid(piece.text)
    requires piece.HeaderMore? ==> trace != [] && IsHeading(trace[|trace| - 1]) && trace[|trace| - 1].prefix == piece.prefix
    ensures Headed(trace + [piece])
  {
    var next := trace + [piece];
    forall i | 0 <= i < |next| ensures HeadedAt(next, i) {
      if i < |trace| {
        assert HeadedAt(trace, i);
      }
    }
  }

  lemma Append(trace: seq<Piece>, piece: Piece)
    ensures Fenced(trace) && Fits(piece, InCode(trace)) ==> Fenced(trace + [piece])
    ensures InCode(trace + [piece]) == (InCode(trace) != piece.Fence?)
    ensures Render(trace + [piece]) == Write(Render(trace), piece)
    ensures Contents(trace + [piece]) == Contents(trace) + ContentsOf(piece)
    ensures Grids(trace + [piece]) == Grids(trace) + GridsOf(piece)
  {
    assert (trace + [piece])[..|trace|] == trace;
  }

  /** A trace in good order, and what it says. */
  ghost predicate Sound(trace: seq<Piece>, inCode: bool, contents: seq<Content>, grids: seq<string>) {
    Fenced(trace) && InCode(trace) == inCode && Headed(trace) && Contents(trace) == contents && Grids(trace) == grids
  }

  lemma SoundFence(trace: seq<Piece>, open: bool, contents: seq<Content>, grids: seq<string>)
    requires Sound(trace, !open, contents, grids)
    ensures Sound(trace + [Fence(open)], open, contents, grids)
  {
    AppendHeaded(trace, Fence(open));
    Append(trace, Fence(open));
  }

  lemma SoundBreak(trace: seq<Piece>, contents: seq<Content>, grids: seq<string>)
    requires Sound(trace, false, contents, grids)
    ensures Sound(trace + [Break], false, contents, grids)
  {
    AppendHeaded(trace, Break);
    Append(trace, Break);
  }

  lemma SoundContent(trace: seq<Piece>, inCode: bool, contents: seq<Content>, grids: seq<string>, p: Piece, c: Content)
    requires Sound(trace, inCode, contents, grids) && Fits(p, inCode) && ContentsOf(p) == [c]
    requires IsHeading(p) ==> Solid(p.text)
    requires p.HeaderMore? ==> trace != [] && IsHeading(trace[|trace| - 1]) && trace[|trace| - 1].prefix == p.prefix
    ensures Sound(trace + [p], inCode, contents + [c], grids)
  {
    AppendHeaded(trace, p);
    Append(trace, p);
  }

  lemma SoundGrid(trace: seq<Piece>, contents: seq<Content>, grids: seq<string>, markdown: string)
    requires Sound(trace, false, contents, grids)
    ensures Sound(trace + [Grid(markdown)], false, contents, grids + [markdown])
  {
    AppendHeaded(trace, Grid(markdown));
    Append(trace, Grid(markdown));
  }

  lemma SoundClosing(trace: seq<Piece>, inCode: bool, contents: seq<Content>, grids: seq<string>)
    requires Sound(trace, inCode, contents, grids)
    ensures Sound(trace + Closing(inCode), false, contents, grids)
  {
    if inCode {
      SoundFence(trace, false, contents, grids);
    } else {
      assert trace + [] == trace;
    }
  }

  lemma SoundBreaks(trace: seq<Piece>, a: bool, b: bool, contents: seq<Content>, grids: seq<string>)
    requires Sound(trace, false, contents, grids)
    ensures Sound(trace + Breaks(a, b), false, contents, grids)
  {
    var one := trace + if a then [Break] else [];
    assert trace + [] == trace && one + [] == one;
    if a {
      SoundBreak(trace, contents, grids);
    }
    if b {
      SoundBreak(one, contents, grids);
    }
    assert trace + Breaks(a, b) == one + if b then [Break] else [];
  }

  lemma SoundHeading(trace: seq<Piece>, inCode: bool, continues: bool, prefix: string, text: string, contents: seq<Content>)
    requires Sound(trace, inCode, contents, []) && Solid(text)
    requires continues ==> !inCode && trace != [] && IsHeading(trace[|trace| - 1]) && trace[|trace| - 1].prefix == prefix
    ensures Sound(trace + (Closing(inCode) + [Heading(continues, prefix, text)]), false, contents + [Content(HeaderKind(prefix), text)], [])
  {
    var closed, piece := trace + Closing(inCode), Heading(continues, prefix, text);
    SoundClosing(trace, inCode, contents, []);
    assert continues ==> closed == trace;
    SoundContent(closed, false, contents, [], piece, Content(HeaderKind(prefix), text));
    Concat3(trace, Closing(inCode), [piece]);
  }

  lemma SoundCode(trace: seq<Piece>, inCode: bool, text: string, contents: seq<Content>)
    requires Sound(trace, inCode, contents, [])
    ensures Sound(trace + (Opening(inCode) + [Code(text)]), true, contents + [Content(CodeKind, text)], [])
  {
    var fenced := trace + Opening(inCode);
    if inCode {
      assert fenced == trace;
    } else {
      SoundFence(trace, true, contents, []);
    }
    SoundContent(fenced, true, contents, [], Code(text), Content(CodeKind, text));
    Concat3(trace, Opening(inCode), [Code(text)]);
  }

  lemma SoundProse(trace: seq<Piece>, inCode: bool, a: bool, b: bool, piece: Piece, c: Content, contents: seq<Content>)
    requires Sound(trace, inCode, contents, []) && (piece.Bullet? || piece.Text?) && ContentsOf(piece) == [c]
    ensures Sound(trace + (Closing(inCode) + Breaks(a, b) + [piece]), false, contents + [c], [])
  {
    var closed := trace + Closing(inCode);
    var broken := closed + Breaks(a, b);
    SoundClosing(trace, inCode, contents, []);
    SoundBreaks(closed, a, b, contents, []);
    SoundContent(broken, false, contents, [], piece, c);
    Concat3(trace, Closing(inCode), Breaks(a, b));
    Concat3(trace, Closing(inCode) + Breaks(a, b), [piece]);
  }

  /** The trace ends with what its last line was written as. */
  ghost predicate EndsWith(trace: seq<Piece>, prev: Option<Entry>) {
    prev.Some? && prev.value.content.kind.HeaderKind? ==>
      trace != [] && IsHeading(trace[|trace| - 1]) && trace[|trace| - 1].prefix == prev.value.content.kind.prefix
  }

  lemma LineSound(trace: seq<Piece>, prev: Option<Entry>, e: Entry, contents: seq<Content>)
    requires Sound(trace, IsCode(prev), contents, []) && EndsWith(trace, prev) && HeaderOk(e)
    ensures Sound(trace + PiecesOf(prev, e), IsCode(Some(e)), contents + [e.content], [])
    ensures EndsWith(trace + PiecesOf(prev, e), Some(e))
  {
    match e.content.kind
    case HeaderKind(prefix) => SoundHeading(trace, IsCode(prev), Continues(prev, e), prefix, e.content.text, contents);
    case CodeKind => SoundCode(trace, IsCode(prev), e.content.text, contents);
    case _ =>
      SoundProse(trace, IsCode(prev), NewBlock(prev, e), NewParagraph(BoxOf(prev), e), ProsePiece(e.content), e.content, contents);
  }

  function ContentsOfEntries(entries: seq<Entry>): seq<Content> {
    if entries == [] then [] else ContentsOfEntries(entries[..|entries| - 1]) + [entries[|entries| - 1].content]
  }

  lemma {:induction false} LinesSound(entries: seq<Entry>)
    requires HeadersOk(entries)
    ensures Sound(LinesTrace(entries), IsCode(Last(entries)), ContentsOfEntries(entries), [])
    ensures EndsWith(LinesTrace(entries), Last(entries))
    decreases |entries|
  {
    if entries != [] {
      var init, e := entries[..|entries| - 1], entries[|entries| - 1];
      LinesSound(init);
      LineSound(LinesTrace(init), Last(init), e, ContentsOfEntries(init));
    }
  }

  lemma {:induction false} TablesSound(trace: seq<Piece>, tables: seq<Table>, clip: Rect, contents: seq<Content>)
    requires Sound(trace, false, contents, [])
    ensures Sound(trace + TablesTrace(tables, clip), false, contents, MineOf(tables, clip))
    decreases |tables|
  {
    if tables == [] {
      assert trace + [] == trace;
    } else {
      var init, t := tables[..|tables| - 1], tables[|tables| - 1];
      TablesSound(trace, init, clip, contents);
      Concat3(trace, TablesTrace(init, clip), GridOf(t, clip));
      TableSound(trace + TablesTrace(init, clip), contents, MineOf(init, clip), t, clip);
    }
  }

  lemma TableSound(trace: seq<Piece>, contents: seq<Content>, grids: seq<string>, t: Table, clip: Rect)
    requires Sound(trace, false, contents, grids)
    ensures Sound(trace + GridOf(t, clip), false, contents, grids + if Mine(t, clip) then [t.markdown] else [])
  {
    if Mine(t, clip) {
      SoundGrid(trace, contents, grids, t.markdown);
    } else {
      assert trace + [] == trace && grids + [] == grids;
    }
  }

  /** Whatever the lines and tables: fences end closed, code lines are inside and all
      other pieces outside them, continuations only follow headers of their level, every
      line that is not skipped is written once and in order, and then the tables. */
  lemma ColumnSound(lines: seq<Line>, tables: seq<Table>, clip: Rect, f: Format)
    requires f.space('\n')
    ensures var shown := Shown(lines, tables, clip, f);
            Sound(ColumnTrace(shown, tables, clip), false, ContentsOfEntries(shown), MineOf(tables, clip))
  {
    var shown := Shown(lines, tables, clip, f);
    ShownHeaders(lines, tables, clip, f);
    LinesSound(shown);
    SoundClosing(LinesTrace(shown), IsCode(Last(shown)), ContentsOfEntries(shown), []);
    TablesSound(LinesTrace(shown) + Closing(IsCode(Last(shown))), tables, clip, ContentsOfEntries(shown));
  }

  // ----- The final clean-up -----

  /** strings.ReplaceAll: one pass from the left. */
  function ReplaceText(s: string, pattern: string, sub: string): string
    requires pattern != ""
    decreases |s|
  {
    if |s| < |pattern| then s
    else if s[..|pattern|] == pattern then sub + ReplaceText(s[|pattern|..], pattern, sub)
    else [s[0]] + ReplaceText(s[1..], pattern, sub)
  }

  function CleanUp(s: string, space: char -> bool): string {
    Trim(ReplaceText(ReplaceText(s, " \n", "\n"), "\n\n\n", "\n\n"), space)
  }

  /** The characters that are not white space. */
  function Visible(s: string, space: char -> bool): string {
    if s == "" then "" else (if space(s[0]) then "" else [s[0]]) + Visible(s[1..], space)
  }

  lemma {:induction false} VisibleConcat(a: string, b: string, space: char -> bool)
    ensures Visible(a + b, space) == Visible(a, space) + Visible(b, space)
    decreases |a|
  {
    if a == "" {
      assert a + b == b;
    } else {
      assert (a + b)[1..] == a[1..] + b;
      VisibleConcat(a[1..], b, space);
    }
  }

  lemma {:induction false} ReplaceKeepsVisible(s: string, pattern: string, sub: string, space: char -> bool)
    requires pattern != "" && Visible(pattern, space) == Visible(sub, space)
    ensures Visible(ReplaceText(s, pattern, sub), space) == Visible(s, space)
    decreases |s|
  {
    if |s| >= |pattern| {
      if s[..|pattern|] == pattern {
        var rest := s[|pattern|..];
        ReplaceKeepsVisible(rest, pattern, sub, space);
        VisibleConcat(sub, ReplaceText(rest, pattern, sub), space);
        VisibleConcat(pattern, rest, space);
        assert s == pattern + rest;
      } else {
        var rest := ReplaceText(s[1..], pattern, sub);
        ReplaceKeepsVisible(s[1..], pattern, sub, space);
        assert ([s[0]] + rest)[1..] == rest;
      }
    }
  }

  lemma {:induction false} TrimKeepsVisible(s: string, space: char -> bool)
    ensures Visible(Trim(s, space), space) == Visible(s, space)
    decreases |s|
  {
    if s != "" {
      if space(s[0]) {
        TrimKeepsVisible(s[1..], space);
      } else if space(s[|s| - 1]) {
        var init, last := s[..|s| - 1], [s[|s| - 1]];
        TrimKeepsVisible(init, space);
        VisibleConcat(init, last, space);
        assert s == init + last && last[1..] == "";
      }
    }
  }

  /** The clean-up loses and moves no visible character. */
  lemma CleanUpKeepsVisible(s: string, space: char -> bool)
    requires space(' ') && space('\n')
    ensures Visible(CleanUp(s, space), space) == Visible(s, space)
  {
    assert " \n"[1..] == "\n" && "\n"[1..] == "" && "\n\n\n"[1..] == "\n\n" && "\n\n"[1..] == "\n";
    var once := ReplaceText(s, " \n", "\n");
    ReplaceKeepsVisible(s, " \n", "\n", space);
    ReplaceKeepsVisible(once, "\n\n\n", "\n\n", space);
    TrimKeepsVisible(ReplaceText(once, "\n\n\n", "\n\n"), space);
  }
}
