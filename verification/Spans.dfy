/** buildSpans and its readers (internal/pdftomd/lines.go, internal/pdftomd/markdown.go):
    the characters of a line as runs of equal style. */
module Spans {
  import opened Sorting

  datatype TextChar = TextChar(r: char, size: real, x: real, y: real, bold: bool, italic: bool, mono: bool, strikeout: bool)

  datatype Style = Style(bold: bool, italic: bool, mono: bool, strikeout: bool, superscript: bool)

  datatype Span = Span(style: Style, size: real, x0: real, text: string)

  // ----- Medians -----

  ghost predicate IsMedian(xs: seq<real>, m: real) {
    exists s :: Ascending(s) && Permutes(s, xs) && |s| > 0 && m == s[|s| / 2]
  }

  lemma MedianUnique(xs: seq<real>, ys: seq<real>, a: real, b: real)
    requires Permutes(xs, ys) && IsMedian(xs, a) && IsMedian(ys, b)
    ensures a == b
  {
    var s :| Ascending(s) && Permutes(s, xs) && |s| > 0 && a == s[|s| / 2];
    var t :| Ascending(t) && Permutes(t, ys) && |t| > 0 && b == t[|t| / 2];
    AscendingUnique(s, t);
  }

  method Median(xs: seq<real>) returns (m: real)
    requires xs != []
    ensures IsMedian(xs, m)
  {
    var s := SortReals(xs);
    PermutesFacts(s, xs);
    m := s[|s| / 2];
  }

  function Below(m: real): real -> seq<real> { (x: real) => if x < m then [x] else [] }

  function UpTo(m: real): real -> seq<real> { (x: real) => if x <= m then [x] else [] }

  lemma {:induction false} CountAtMost(s: seq<real>, f: real -> seq<real>)
    requires forall x :: |f(x)| <= 1
    ensures |Collect(s, f)| <= |s|
    decreases |s|
  {
    if s != [] { CountAtMost(s[..|s| - 1], f); }
  }

  lemma {:induction false} CountNone(s: seq<real>, f: real -> seq<real>)
    requires forall i :: 0 <= i < |s| ==> f(s[i]) == []
    ensures Collect(s, f) == []
    decreases |s|
  {
    if s != [] { CountNone(s[..|s| - 1], f); }
  }

  lemma {:induction false} CountAll(s: seq<real>, f: real -> seq<real>)
    requires forall i :: 0 <= i < |s| ==> |f(s[i])| == 1
    ensures |Collect(s, f)| == |s|
    decreases |s|
  {
    if s != [] { CountAll(s[..|s| - 1], f); }
  }

  lemma FewBelow(s: seq<real>, k: nat)
    requires Ascending(s) && k < |s|
    ensures |Collect(s, Below(s[k]))| <= k
  {
    assert s[..k] + s[k..] == s;
    CollectConcat(s[..k], s[k..], Below(s[k]));
    CountAtMost(s[..k], Below(s[k]));
    CountNone(s[k..], Below(s[k]));
  }

  lemma ManyUpTo(s: seq<real>, k: nat)
    requires Ascending(s) && k < |s|
    ensures |Collect(s, UpTo(s[k]))| > k
  {
    assert s[..k + 1] + s[k + 1..] == s;
    CollectConcat(s[..k + 1], s[k + 1..], UpTo(s[k]));
    CountAll(s[..k + 1], UpTo(s[k]));
  }

  lemma PermutesCount(a: seq<real>, b: seq<real>, f: real -> seq<real>)
    requires Permutes(a, b)
    ensures |Collect(a, f)| == |Collect(b, f)|
  {
    CollectPermutes(a, b, f);
    PermutesFacts(Collect(a, f), Collect(b, f));
  }

  /** The median is one of the values; at most half of them are below it, and more than
      half are up to it. */
  lemma MedianIsMiddle(xs: seq<real>, m: real)
    requires IsMedian(xs, m)
    ensures m in xs && |Collect(xs, Below(m))| <= |xs| / 2 < |Collect(xs, UpTo(m))|
  {
    var s :| Ascending(s) && Permutes(s, xs) && |s| > 0 && m == s[|s| / 2];
    PermutesFacts(s, xs);
    FewBelow(s, |s| / 2);
    ManyUpTo(s, |s| / 2);
    PermutesCount(s, xs, Below(m));
    PermutesCount(s, xs, UpTo(m));
  }

  // ----- Runs of equal style -----

  predicate IsSuperscript(ch: TextChar, medianSize: real, medianBaseline: real) {
    medianSize > 0.0 && ch.size < medianSize * 0.75 && medianBaseline > 0.0 && ch.y < medianBaseline - 1.0
  }

  function StyleOf(medianSize: real, medianBaseline: real): TextChar -> Style {
    (ch: TextChar) => Style(ch.bold, ch.italic, ch.mono, ch.strikeout, IsSuperscript(ch, medianSize, medianBaseline))
  }

  /** Where run i starts. */
  function Offset(spans: seq<Span>, i: nat): nat
    requires i <= |spans|
  {
    if i == 0 then 0 else Offset(spans, i - 1) + |spans[i - 1].text|
  }

  /** Span s is the run of characters from `from` on. */
  ghost predicate Covers(s: Span, chars: seq<TextChar>, from: nat, style: TextChar -> Style) {
    && s.text != "" && from + |s.text| <= |chars|
    && s.size == chars[from].size && s.x0 == chars[from].x
    && forall k :: 0 <= k < |s.text| ==> s.text[k] == chars[from + k].r && style(chars[from + k]) == s.style
  }

  lemma CharIn(s: Span, chars: seq<TextChar>, from: nat, style: TextChar -> Style, n: nat)
    requires Covers(s, chars, from, style)
    ensures from <= n < from + |s.text| ==> s.text[n - from] == chars[n].r && style(chars[n]) == s.style
  {
    if from <= n < from + |s.text| {
      var k := n - from;
      assert s.text[k] == chars[from + k].r;
    }
  }

  /** Span i is a run, and the one before it has another style. */
  ghost predicate RunAt(spans: seq<Span>, chars: seq<TextChar>, style: TextChar -> Style, i: nat)
    requires i < |spans|
  {
    && Covers(spans[i], chars, Offset(spans, i), style)
    && (i > 0 ==> spans[i - 1].style != spans[i].style)
  }

  /** A lossless encoding by maximal runs. */
  ghost predicate IsRunEncoding(spans: seq<Span>, chars: seq<TextChar>, style: TextChar -> Style) {
    && Offset(spans, |spans|) == |chars|
    && forall i {:trigger RunAt(spans, chars, style, i)} :: 0 <= i < |spans| ==> RunAt(spans, chars, style, i)
  }

  lemma {:induction false} OffsetOfPrefix(a: seq<Span>, b: seq<Span>, i: nat)
    requires i <= |a| && i <= |b| && a[..i] == b[..i]
    ensures Offset(a, i) == Offset(b, i)
    decreases i
  {
    if i > 0 {
      assert a[..i - 1] == a[..i][..i - 1] && b[..i - 1] == b[..i][..i - 1];
      assert a[i - 1] == a[..i][i - 1] && b[i - 1] == b[..i][i - 1];
      OffsetOfPrefix(a, b, i - 1);
    }
  }

  /** A character of another style starts a new run. */
  lemma StartRun(spans: seq<Span>, chars: seq<TextChar>, ch: TextChar, style: TextChar -> Style)
    requires IsRunEncoding(spans, chars, style)
    requires spans != [] ==> spans[|spans| - 1].style != style(ch)
    ensures IsRunEncoding(spans + [Span(style(ch), ch.size, ch.x, [ch.r])], chars + [ch], style)
  {
    var next := spans + [Span(style(ch), ch.size, ch.x, [ch.r])];
    forall i | 0 <= i <= |spans| ensures Offset(next, i) == Offset(spans, i) {
      OffsetOfPrefix(next, spans, i);
    }
    forall i | 0 <= i < |next| ensures RunAt(next, chars + [ch], style, i) {
      if i < |spans| {
        assert RunAt(spans, chars, style, i);
      }
    }
  }

  /** A character of the same style extends the last run. */
  lemma ExtendRun(done: seq<Span>, cur: Span, chars: seq<TextChar>, ch: TextChar, style: TextChar -> Style)
    requires IsRunEncoding(done + [cur], chars, style) && cur.style == style(ch)
    ensures IsRunEncoding(done + [cur.(text := cur.text + [ch.r])], chars + [ch], style)
  {
    var before, next := done + [cur], done + [cur.(text := cur.text + [ch.r])];
    forall i | 0 <= i <= |done| ensures Offset(next, i) == Offset(before, i) {
      OffsetOfPrefix(next, before, i);
    }
    forall i | 0 <= i < |next| ensures RunAt(next, chars + [ch], style, i) {
      assert RunAt(before, chars, style, i);
    }
  }

  /** The runs so far, with the run in progress last. */
  ghost predicate Building(spans: seq<Span>, cur: Span, buf: string, done: seq<TextChar>, style: TextChar -> Style) {
    if done == [] then spans == [] && buf == "" else IsRunEncoding(spans + [cur.(text := buf)], done, style)
  }

  lemma RunInProgress(spans: seq<Span>, cur: Span, done: seq<TextChar>, style: TextChar -> Style)
    requires IsRunEncoding(spans + [cur], done, style)
    ensures cur.text != ""
  {
    assert RunAt(spans + [cur], done, style, |spans|);
  }

  method AddChar(spans: seq<Span>, cur: Span, buf: string, ch: TextChar, medianSize: real, medianBaseline: real, ghost done: seq<TextChar>)
    returns (spans': seq<Span>, cur': Span, buf': string)
    requires Building(spans, cur, buf, done, StyleOf(medianSize, medianBaseline))
    requires done == [] ==> cur == Span(StyleOf(medianSize, medianBaseline)(ch), ch.size, ch.x, "")
    ensures Building(spans', cur', buf', done + [ch], StyleOf(medianSize, medianBaseline))
  {
    spans', cur', buf' := spans, cur, buf;
    ghost var style := StyleOf(medianSize, medianBaseline);
    var isSuper := IsSuperscript(ch, medianSize, medianBaseline);
    var sameStyle := ch.bold == cur.style.bold && ch.italic == cur.style.italic && ch.mono == cur.style.mono
                     && ch.strikeout == cur.style.strikeout && isSuper == cur.style.superscript;
    if !sameStyle {
      cur' := cur'.(text := buf');
      RunInProgress(spans, cur', done, style);
      if cur'.text != "" {
        spans' := spans' + [cur'];
      }
      StartRun(spans', done, ch, style);
      buf' := "";
      cur' := Span(Style(ch.bold, ch.italic, ch.mono, ch.strikeout, isSuper), ch.size, ch.x, "");
      assert buf' + [ch.r] == [ch.r];
    } else if done == [] {
      StartRun([], [], ch, style);
      assert buf' + [ch.r] == [ch.r];
    } else {
      ExtendRun(spans, cur.(text := buf), done, ch, style);
    }
    buf' := buf' + [ch.r];
  }

  /** A character with this style: its four flags, and superscript exactly if it is smaller
      than three quarters of the median size and more than 1 above the median baseline. */
  predicate ShownIn(style: Style, ch: TextChar, medianSize: real, medianBaseline: real) {
    && style.bold == ch.bold && style.italic == ch.italic && style.mono == ch.mono && style.strikeout == ch.strikeout
    && (style.superscript <==>
        medianSize > 0.0 && ch.size < 0.75 * medianSize && medianBaseline > 0.0 && medianBaseline - ch.y > 1.0)
  }

  /** Character k of a span that starts at place `from`. */
  predicate CharShown(s: Span, chars: seq<TextChar>, from: nat, k: nat, medianSize: real, medianBaseline: real)
    requires k < |s.text| && from + |s.text| <= |chars|
  {
    s.text[k] == chars[from + k].r && ShownIn(s.style, chars[from + k], medianSize, medianBaseline)
  }

  /** The characters of a span, from place `from` on, each with its style. */
  ghost predicate SpanShows(s: Span, chars: seq<TextChar>, from: nat, medianSize: real, medianBaseline: real) {
    && s.text != "" && from + |s.text| <= |chars| && s.size == chars[from].size && s.x0 == chars[from].x
    && forall k :: 0 <= k < |s.text| ==> CharShown(s, chars, from, k, medianSize, medianBaseline)
  }

  lemma StyleShows(ch: TextChar, medianSize: real, medianBaseline: real)
    ensures ShownIn(StyleOf(medianSize, medianBaseline)(ch), ch, medianSize, medianBaseline)
  {
  }

  lemma CharShows(s: Span, chars: seq<TextChar>, from: nat, k: nat, medianSize: real, medianBaseline: real)
    requires Covers(s, chars, from, StyleOf(medianSize, medianBaseline)) && k < |s.text|
    ensures from + |s.text| <= |chars| && CharShown(s, chars, from, k, medianSize, medianBaseline)
  {
    CharIn(s, chars, from, StyleOf(medianSize, medianBaseline), from + k);
    StyleShows(chars[from + k], medianSize, medianBaseline);
  }

  lemma FirstChar(s: Span, chars: seq<TextChar>, from: nat, style: TextChar -> Style)
    requires Covers(s, chars, from, style)
    ensures s.text != "" && from + |s.text| <= |chars| && s.size == chars[from].size && s.x0 == chars[from].x
  {
  }

  lemma CoveredShows(s: Span, chars: seq<TextChar>, from: nat, medianSize: real, medianBaseline: real)
    requires Covers(s, chars, from, StyleOf(medianSize, medianBaseline))
    ensures SpanShows(s, chars, from, medianSize, medianBaseline)
  {
    FirstChar(s, chars, from, StyleOf(medianSize, medianBaseline));
    forall k | 0 <= k < |s.text| ensures CharShown(s, chars, from, k, medianSize, medianBaseline) {
      CharShows(s, chars, from, k, medianSize, medianBaseline);
    }
  }

  lemma RunsShow(spans: seq<Span>, chars: seq<TextChar>, medianSize: real, medianBaseline: real)
    requires IsRunEncoding(spans, chars, StyleOf(medianSize, medianBaseline))
    ensures forall i :: 0 <= i < |spans| ==> SpanShows(spans[i], chars, Offset(spans, i), medianSize, medianBaseline)
  {
    hide SpanShows, Covers;
    forall i | 0 <= i < |spans| ensures SpanShows(spans[i], chars, Offset(spans, i), medianSize, medianBaseline) {
      assert RunAt(spans, chars, StyleOf(medianSize, medianBaseline), i);
      CoveredShows(spans[i], chars, Offset(spans, i), medianSize, medianBaseline);
    }
  }

  method BuildSpans(chars: seq<TextChar>) returns (spans: seq<Span>, ghost medianSize: real, ghost medianBaseline: real)
    ensures chars == [] ==> spans == []
    ensures chars != [] ==> IsMedian(Map(chars, (ch: TextChar) => ch.size), medianSize)
    ensures chars != [] ==> IsMedian(Map(chars, (ch: TextChar) => ch.y), medianBaseline)
    ensures IsRunEncoding(spans, chars, StyleOf(medianSize, medianBaseline))
    ensures forall i :: 0 <= i < |spans| ==> SpanShows(spans[i], chars, Offset(spans, i), medianSize, medianBaseline)
  {
    hide SpanShows;
    spans := [];
    if chars == [] {
      return spans, 0.0, 0.0;
    }
    var size := Median(Map(chars, (ch: TextChar) => ch.size));
    var baseline := Median(Map(chars, (ch: TextChar) => ch.y));
    medianSize, medianBaseline := size, baseline;
    ghost var style := StyleOf(size, baseline);
    var first := chars[0];
    var cur := Span(Style(first.bold, first.italic, first.mono, first.strikeout, IsSuperscript(first, size, baseline)),
                    first.size, first.x, "");
    var buf := "";
    for n := 0 to |chars|
      invariant n == 0 ==> cur == Span(style(first), first.size, first.x, "")
      invariant Building(spans, cur, buf, chars[..n], style)
    {
      assert chars[..n + 1] == chars[..n] + [chars[n]];
      spans, cur, buf := AddChar(spans, cur, buf, chars[n], size, baseline, chars[..n]);
    }
    assert chars[..|chars|] == chars;
    cur := cur.(text := buf);
    RunInProgress(spans, cur, chars, style);
    if cur.text != "" {
      spans := spans + [cur];
    }
    RunsShow(spans, chars, size, baseline);
  }

  // ----- The encoding determines and is determined by the characters -----

  lemma {:induction false} OffsetsGrow(spans: seq<Span>, i: nat, j: nat)
    requires i <= j <= |spans|
    ensures Offset(spans, i) <= Offset(spans, j)
    decreases j - i
  {
    if i < j {
      OffsetsGrow(spans, i, j - 1);
    }
  }

  lemma SameText(s: Span, t: Span, chars: seq<TextChar>, from: nat, style: TextChar -> Style)
    requires Covers(s, chars, from, style) && Covers(t, chars, from, style) && |s.text| == |t.text|
    ensures s == t
  {
    CharIn(s, chars, from, style, from);
    CharIn(t, chars, from, style, from);
    forall k | 0 <= k < |s.text| ensures s.text[k] == t.text[k] {
      CharIn(s, chars, from, style, from + k);
      CharIn(t, chars, from, style, from + k);
    }
  }

  /** While characters are left there is another run. */
  lemma MoreRuns(a: seq<Span>, b: seq<Span>, chars: seq<TextChar>, style: TextChar -> Style, i: nat)
    requires IsRunEncoding(a, chars, style) && IsRunEncoding(b, chars, style)
    requires i < |a| && i <= |b| && Offset(a, i) == Offset(b, i)
    ensures i < |b|
  {
    assert RunAt(a, chars, style, i);
  }

  /** Two encodings of the same characters agree run by run. */
  lemma {:induction false} SameRuns(a: seq<Span>, b: seq<Span>, chars: seq<TextChar>, style: TextChar -> Style, i: nat)
    requires IsRunEncoding(a, chars, style) && IsRunEncoding(b, chars, style)
    requires i <= |a|
    ensures i <= |b| && a[..i] == b[..i]
    decreases i
  {
    if i > 0 {
      SameRuns(a, b, chars, style, i - 1);
      OffsetOfPrefix(a, b, i - 1);
      var from := Offset(a, i - 1);
      assert RunAt(a, chars, style, i - 1);
      MoreRuns(a, b, chars, style, i - 1);
      assert RunAt(b, chars, style, i - 1);
      RunStops(a, chars, style, i - 1);
      RunStops(b, chars, style, i - 1);
      RunLength(a[i - 1], b[i - 1], chars, from, style);
      RunLength(b[i - 1], a[i - 1], chars, from, style);
      SameText(a[i - 1], b[i - 1], chars, from, style);
      assert a[..i] == a[..i - 1] + [a[i - 1]] && b[..i] == b[..i - 1] + [b[i - 1]];
    }
  }

  /** A run stops only at the end or where the style changes. */
  lemma RunStops(a: seq<Span>, chars: seq<TextChar>, style: TextChar -> Style, i: nat)
    requires IsRunEncoding(a, chars, style) && i < |a|
    ensures var next := Offset(a, i) + |a[i].text|;
            next == |chars| || (next < |chars| && style(chars[next]) != a[i].style)
  {
    assert RunAt(a, chars, style, i);
    if i + 1 < |a| {
      assert RunAt(a, chars, style, i + 1);
      CharIn(a[i + 1], chars, Offset(a, i + 1), style, Offset(a, i + 1));
    }
  }

  lemma RunLength(s: Span, t: Span, chars: seq<TextChar>, from: nat, style: TextChar -> Style)
    requires Covers(s, chars, from, style) && Covers(t, chars, from, style)
    requires from + |s.text| == |chars| || (from + |s.text| < |chars| && style(chars[from + |s.text|]) != s.style)
    ensures |s.text| >= |t.text|
  {
    CharIn(s, chars, from, style, from);
    CharIn(t, chars, from, style, from);
    CharIn(t, chars, from, style, from + |s.text|);
  }

  lemma EncodingUnique(a: seq<Span>, b: seq<Span>, chars: seq<TextChar>, style: TextChar -> Style)
    requires IsRunEncoding(a, chars, style) && IsRunEncoding(b, chars, style)
    ensures a == b
  {
    SameRuns(a, b, chars, style, |a|);
    SameRuns(b, a, chars, style, |b|);
  }

  function Runes(chars: seq<TextChar>): string { Map(chars, (ch: TextChar) => ch.r) }

  /** lineRawText. */
  function RawText(spans: seq<Span>): string {
    if spans == [] then "" else RawText(spans[..|spans| - 1]) + spans[|spans| - 1].text
  }

  method LineRawText(spans: seq<Span>) returns (buf: string)
    ensures buf == RawText(spans)
  {
    buf := "";
    for i := 0 to |spans|
      invariant buf == RawText(spans[..i])
    {
      assert spans[..i + 1][..i] == spans[..i];
      buf := buf + spans[i].text;
    }
    assert spans[..|spans|] == spans;
  }

  lemma {:induction false} RawTextOfRuns(spans: seq<Span>, chars: seq<TextChar>, style: TextChar -> Style, i: nat)
    requires IsRunEncoding(spans, chars, style) && i <= |spans|
    ensures Offset(spans, i) <= |chars| && RawText(spans[..i]) == Runes(chars)[..Offset(spans, i)]
    decreases i
  {
    if i > 0 {
      RawTextOfRuns(spans, chars, style, i - 1);
      assert spans[..i][..i - 1] == spans[..i - 1];
      var from := Offset(spans, i - 1);
      assert RunAt(spans, chars, style, i - 1);
      assert Runes(chars)[..Offset(spans, i)] == Runes(chars)[..from] + spans[i - 1].text;
    }
  }

  /** Reading the spans gives back the characters. */
  lemma RawTextInverts(spans: seq<Span>, chars: seq<TextChar>, style: TextChar -> Style)
    requires IsRunEncoding(spans, chars, style)
    ensures RawText(spans) == Runes(chars)
  {
    RawTextOfRuns(spans, chars, style, |spans|);
    assert spans[..|spans|] == spans;
    assert Runes(chars)[..|chars|] == Runes(chars);
  }

  // ----- Styles of a whole line -----

  /** strings.TrimSpace leaves nothing; `space` says which characters are white space. */
  predicate Blank(s: string, space: char -> bool) {
    forall i :: 0 <= i < |s| ==> space(s[i])
  }

  /** allSpansHaveStyle. */
  predicate AllSpansHave(spans: seq<Span>, check: Style -> bool, space: char -> bool) {
    spans != [] && forall i :: 0 <= i < |spans| ==> Blank(spans[i].text, space) || check(spans[i].style)
  }

  method AllSpansHaveStyle(spans: seq<Span>, check: Style -> bool, space: char -> bool) returns (all: bool)
    ensures all == AllSpansHave(spans, check, space)
  {
    if spans == [] {
      return false;
    }
    for i := 0 to |spans|
      invariant forall k :: 0 <= k < i ==> Blank(spans[k].text, space) || check(spans[k].style)
    {
      if !Blank(spans[i].text, space) && !check(spans[i].style) {
        return false;
      }
    }
    return true;
  }

  lemma {:induction false} SpanOf(spans: seq<Span>, chars: seq<TextChar>, style: TextChar -> Style, n: nat, i: nat) returns (k: nat)
    requires IsRunEncoding(spans, chars, style) && i <= |spans| && n < Offset(spans, i)
    ensures k < |spans| && Offset(spans, k) <= n < Offset(spans, k) + |spans[k].text|
    decreases i
  {
    if n >= Offset(spans, i - 1) {
      k := i - 1;
    } else {
      k := SpanOf(spans, chars, style, n, i - 1);
    }
  }

  /** The question asked of the spans is answered by the visible characters. */
  lemma AllSpansHaveIsAboutChars(spans: seq<Span>, chars: seq<TextChar>, style: TextChar -> Style, check: Style -> bool, space: char -> bool)
    requires IsRunEncoding(spans, chars, style)
    ensures AllSpansHave(spans, check, space) <==>
            chars != [] && forall n :: 0 <= n < |chars| ==> space(chars[n].r) || check(style(chars[n]))
  {
    if AllSpansHave(spans, check, space) {
      assert RunAt(spans, chars, style, 0);
      forall n | 0 <= n < |chars| ensures space(chars[n].r) || check(style(chars[n])) {
        var k := SpanOf(spans, chars, style, n, |spans|);
        assert RunAt(spans, chars, style, k);
        CharIn(spans[k], chars, Offset(spans, k), style, n);
      }
    }
    if chars != [] && forall n :: 0 <= n < |chars| ==> space(chars[n].r) || check(style(chars[n])) {
      forall i | 0 <= i < |spans| ensures Blank(spans[i].text, space) || check(spans[i].style) {
        var from := Offset(spans, i);
        assert RunAt(spans, chars, style, i);
        if !check(spans[i].style) {
          forall k | 0 <= k < |spans[i].text| ensures space(spans[i].text[k]) {
            CharIn(spans[i], chars, from, style, from + k);
          }
        }
      }
    }
  }
}
