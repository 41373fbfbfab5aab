/** convertPDF and its five ways to assemble a document from pages
    (internal/server/convert.go), with the fan-out to the VLM (internal/server/vlm.go). */
module Pages {
  import opened Wrappers
  import opened Errors

  datatype ExtractPage = ExtractPage(page: int, text: string, isScanned: bool)

  datatype RenderPage = RenderPage(page: int, image: string)

  datatype PageResult = PageResult(page: int, text: string, image: string, isScanned: bool)

  datatype Kind = Ocr | Visual

  datatype Work = Work(image: string, kind: Kind)

  type Answer = Result<string, Error>

  const SEPARATOR: string := "\n\n---\n\n"

  /** strings.Join. */
  function Join(parts: seq<string>): string {
    if parts == [] then "" else if |parts| == 1 then parts[0]
    else Join(parts[..|parts| - 1]) + SEPARATOR + parts[|parts| - 1]
  }

  /** Where part i begins when a separator of seven characters stands between the parts. */
  function Start(parts: seq<string>, i: nat): nat
    requires i <= |parts|
  {
    if i == 0 then 0 else Start(parts, i - 1) + |parts[i - 1]| + 7
  }

  /** A part stands at its place in the text, and behind it the separator or the end. */
  ghost predicate Stands(text: string, a: nat, part: string, last: bool) {
    var b := a + |part|;
    && b <= |text| && text[a..b] == part
    && if last then b == |text| else b + 7 <= |text| && text[b..b + 7] == "\n\n---\n\n"
  }

  ghost predicate PartAt(text: string, parts: seq<string>, i: nat)
    requires i < |parts|
  {
    Stands(text, Start(parts, i), parts[i], i == |parts| - 1)
  }

  /** The text is the parts in order with separators between them, and nothing else. */
  ghost predicate IsJoined(text: string, parts: seq<string>) {
    (parts == [] ==> text == "") && forall i :: 0 <= i < |parts| ==> PartAt(text, parts, i)
  }

  lemma {:induction false} StartOfPrefix(parts: seq<string>, i: nat)
    requires i <= |parts| - 1
    ensures Start(parts[..|parts| - 1], i) == Start(parts, i)
  {
    if i > 0 { StartOfPrefix(parts, i - 1); }
  }

  lemma {:induction false} JoinIsJoined(parts: seq<string>)
    ensures IsJoined(Join(parts), parts)
    decreases |parts|
  {
    if |parts| == 1 {
      assert Join(parts)[0..|parts[0]|] == parts[0];
    } else if |parts| > 1 {
      var before := Join(parts[..|parts| - 1]);
      JoinIsJoined(parts[..|parts| - 1]);
      OneMorePart(before, parts);
    }
  }

  lemma OneMorePart(before: string, parts: seq<string>)
    requires |parts| > 1 && IsJoined(before, parts[..|parts| - 1])
    ensures IsJoined(before + SEPARATOR + parts[|parts| - 1], parts)
  {
    var init, text := parts[..|parts| - 1], before + SEPARATOR + parts[|parts| - 1];
    forall i | 0 <= i < |parts| ensures PartAt(text, parts, i) {
      if i < |init| {
        assert PartAt(before, init, i);
        EarlierPart(before, parts, i);
      } else {
        assert PartAt(before, init, |init| - 1);
        FinalPart(before, parts);
      }
    }
  }

  lemma EarlierPart(before: string, parts: seq<string>, i: nat)
    requires |parts| > 1 && i < |parts| - 1 && PartAt(before, parts[..|parts| - 1], i)
    ensures PartAt(before + SEPARATOR + parts[|parts| - 1], parts, i)
  {
    StartOfPrefix(parts, i);
    StandsLonger(before, parts[|parts| - 1], Start(parts, i), parts[i], i == |parts| - 2);
  }

  lemma FinalPart(before: string, parts: seq<string>)
    requires |parts| > 1 && PartAt(before, parts[..|parts| - 1], |parts| - 2)
    ensures PartAt(before + SEPARATOR + parts[|parts| - 1], parts, |parts| - 1)
  {
    StartOfPrefix(parts, |parts| - 2);
    LastStands(before, parts[|parts| - 1]);
  }

  lemma StandsLonger(before: string, next: string, a: nat, part: string, last: bool)
    requires Stands(before, a, part, last)
    ensures Stands(before + SEPARATOR + next, a, part, false)
  {
    var text, b := before + SEPARATOR + next, a + |part|;
    assert text[a..b] == before[a..b];
    if !last { assert text[b..b + 7] == before[b..b + 7]; }
  }

  lemma LastStands(before: string, next: string)
    ensures Stands(before + SEPARATOR + next, |before| + 7, next, true)
  {
  }

  /** Reading a map the way Go does: absent keys give the empty string. */
  function Get(m: map<int, string>, k: int): string { if k in m then m[k] else "" }

  // ----- The fan-out -----

  /** The goroutines that wait for the gate, those that call the VLM, the answers stored
      so far, and how often the VLM was called for each key. */
  datatype Fan = Fan(waiting: set<int>, calling: set<int>, results: map<int, Answer>, cancelled: bool, calls: multiset<int>)

  /** The VLM, whether the context may end during the fan-out, and the error that a page
      gets instead of a call once it has ended. */
  datatype Vlm = Vlm(call: (int, Work) -> Answer, contextEnds: bool, contextError: Error)

  datatype Job = Job(work: map<int, Work>, vlm: Vlm)

  /** What is true of one key at any time. */
  ghost predicate KeyOk(f: Fan, j: Job, k: int) {
    if k !in j.work then k !in f.waiting && k !in f.calling && k !in f.results && f.calls[k] == 0
    else if k in f.waiting then k !in f.calling && k !in f.results && f.calls[k] == 0
    else if k in f.calling then k !in f.results && f.calls[k] == 1
    else k in f.results && (
           || (f.results[k] == j.vlm.call(k, j.work[k]) && f.calls[k] == 1)
           || (f.cancelled && f.results[k] == Failure(j.vlm.contextError) && f.calls[k] == 0))
  }

  ghost predicate FanOk(f: Fan, j: Job) {
    (f.cancelled ==> j.vlm.contextEnds) && forall k {:trigger KeyOk(f, j, k)} :: KeyOk(f, j, k)
  }

  function StartCall(f: Fan, k: int): Fan {
    f.(waiting := f.waiting - {k}, calling := f.calling + {k}, calls := f.calls + multiset{k})
  }

  function Abandon(f: Fan, j: Job, k: int): Fan {
    f.(waiting := f.waiting - {k}, results := f.results[k := Failure(j.vlm.contextError)])
  }

  function FinishCall(f: Fan, j: Job, k: int): Fan
    requires k in j.work
  {
    f.(calling := f.calling - {k}, results := f.results[k := j.vlm.call(k, j.work[k])])
  }

  lemma StepKeepsFan(f: Fan, j: Job, k: int, next: Fan)
    requires FanOk(f, j)
    requires || (k in f.waiting && next == StartCall(f, k))
             || (k in f.waiting && f.cancelled && next == Abandon(f, j, k))
             || (k in f.calling && k in j.work && next == FinishCall(f, j, k))
             || (j.vlm.contextEnds && next == f.(cancelled := true))
    ensures FanOk(next, j)
  {
    forall i ensures KeyOk(next, j, i) {
      assert KeyOk(f, j, i) && KeyOk(f, j, k);
    }
  }

  /** No goroutine at all: nothing waits, nothing is called. */
  function Idle(): Fan { Fan({}, {}, map[], false, multiset{}) }

  ghost predicate FromCall(f: Fan, j: Job, k: int) {
    k in j.work && k in f.results && f.results[k] == j.vlm.call(k, j.work[k]) && f.calls[k] == 1
  }

  ghost predicate Skipped(f: Fan, j: Job, k: int) {
    f.cancelled && k in f.results && f.results[k] == Failure(j.vlm.contextError) && f.calls[k] == 0
  }

  /** Every key has one answer: that of its one call, or the error of an ended context and
      then no call was made. No other key was called. */
  ghost predicate FanEnd(f: Fan, j: Job) {
    && f.results.Keys == j.work.Keys && (f.cancelled ==> j.vlm.contextEnds)
    && (forall k :: k in f.results ==> FromCall(f, j, k) || Skipped(f, j, k))
    && (forall k :: k !in j.work ==> f.calls[k] == 0)
  }

  /** One goroutine per key, interleaved in any way: each waits for the gate, calls the
      VLM and stores its answer, or stores the context's error if the context ends first. */
  method VlmParallelMixed(j: Job) returns (fan: Fan)
    ensures FanEnd(fan, j)
  {
    var f := Fan(j.work.Keys, {}, map[], false, multiset{});
    assert forall k :: KeyOk(f, j, k);
    while f.waiting != {} || f.calling != {}
      invariant FanOk(f, j)
      decreases |f.waiting|, |f.calling|, !f.cancelled
    {
      var before := f;
      var k: int := 0;
      if {
        case j.vlm.contextEnds && !f.cancelled =>
          f := f.(cancelled := true);
        case f.waiting != {} =>
          ghost var some := SomeMember(f.waiting);
          k :| k in f.waiting;
          f := StartCall(f, k);
        case f.waiting != {} && f.cancelled =>
          ghost var some := SomeMember(f.waiting);
          k :| k in f.waiting;
          f := Abandon(f, j, k);
        case f.calling != {} =>
          ghost var some := SomeMember(f.calling);
          k :| k in f.calling;
          assert KeyOk(f, j, k);
          f := FinishCall(f, j, k);
      }
      StepKeepsFan(before, j, k, f);
    }
    FanDone(f, j);
    fan := f;
  }

  lemma FanDone(f: Fan, j: Job)
    requires FanOk(f, j) && f.waiting == {} && f.calling == {}
    ensures FanEnd(f, j)
  {
    forall k ensures k in f.results <==> k in j.work {
      assert KeyOk(f, j, k);
    }
    forall k | k in f.results ensures FromCall(f, j, k) || Skipped(f, j, k) {
      assert KeyOk(f, j, k);
    }
    forall k | k !in j.work ensures f.calls[k] == 0 {
      assert KeyOk(f, j, k);
    }
  }

  // ----- Classification of the extracted pages -----

  function TextPages(pages: seq<ExtractPage>): map<int, string> {
    if pages == [] then map[]
    else
      var p := pages[|pages| - 1];
      if p.isScanned then TextPages(pages[..|pages| - 1]) else TextPages(pages[..|pages| - 1])[p.page := p.text]
  }

  function ScannedPages(pages: seq<ExtractPage>): seq<int> {
    if pages == [] then []
    else ScannedPages(pages[..|pages| - 1]) + if pages[|pages| - 1].isScanned then [pages[|pages| - 1].page] else []
  }

  method Classify(pages: seq<ExtractPage>) returns (textPages: map<int, string>, scanned: seq<int>)
    ensures textPages == TextPages(pages) && scanned == ScannedPages(pages)
  {
    textPages, scanned := map[], [];
    for i := 0 to |pages|
      invariant textPages == TextPages(pages[..i]) && scanned == ScannedPages(pages[..i])
    {
      assert pages[..i + 1][..i] == pages[..i];
      if pages[i].isScanned {
        scanned := scanned + [pages[i].page];
      } else {
        textPages := textPages[pages[i].page := pages[i].text];
      }
    }
    assert pages[..|pages|] == pages;
  }

  ghost predicate Distinct(pages: seq<ExtractPage>) {
    forall i, j :: 0 <= i < j < |pages| ==> pages[i].page != pages[j].page
  }

  lemma {:induction false} ClassifiedPages(pages: seq<ExtractPage>)
    ensures forall k :: k in TextPages(pages) ==> exists i :: 0 <= i < |pages| && pages[i] == ExtractPage(k, TextPages(pages)[k], false)
    ensures forall k :: k in ScannedPages(pages) <==> exists i :: 0 <= i < |pages| && pages[i].page == k && pages[i].isScanned
    ensures forall i :: 0 <= i < |pages| && !pages[i].isScanned ==> pages[i].page in TextPages(pages)
    decreases |pages|
  {
    if pages != [] {
      var init := pages[..|pages| - 1];
      ClassifiedPages(init);
      assert pages == init + [pages[|pages| - 1]];
      forall k | k in TextPages(pages)
        ensures exists i :: 0 <= i < |pages| && pages[i] == ExtractPage(k, TextPages(pages)[k], false)
      {
        if k in TextPages(init) && TextPages(pages)[k] == TextPages(init)[k] {
          var i :| 0 <= i < |init| && init[i] == ExtractPage(k, TextPages(init)[k], false);
          assert pages[i] == ExtractPage(k, TextPages(pages)[k], false);
        } else {
          assert pages[|pages| - 1] == ExtractPage(k, TextPages(pages)[k], false);
        }
      }
    }
  }

  /** With distinct page numbers every page lands on its side with its own text. */
  lemma EveryPageClassified(pages: seq<ExtractPage>, i: nat)
    requires Distinct(pages) && i < |pages|
    ensures pages[i].isScanned <==> pages[i].page in ScannedPages(pages)
    ensures pages[i].isScanned <==> pages[i].page !in TextPages(pages)
    ensures !pages[i].isScanned ==> TextPages(pages)[pages[i].page] == pages[i].text
  {
    ClassifiedPages(pages);
    var k := pages[i].page;
    if k in TextPages(pages) {
      var j :| 0 <= j < |pages| && pages[j] == ExtractPage(k, TextPages(pages)[k], false);
      assert i == j;
    }
    if k in ScannedPages(pages) {
      var j :| 0 <= j < |pages| && pages[j].page == k && pages[j].isScanned;
      assert i == j;
    }
  }

  /** renderedImages: the last image of each page number. */
  function Images(rendered: seq<RenderPage>): map<int, string> {
    if rendered == [] then map[]
    else Images(rendered[..|rendered| - 1])[rendered[|rendered| - 1].page := rendered[|rendered| - 1].image]
  }

  /** The last picture that was rendered for page k. */
  ghost predicate ShownAs(rendered: seq<RenderPage>, k: int, image: string) {
    exists i :: 0 <= i < |rendered| && rendered[i] == RenderPage(k, image) && forall j :: i < j < |rendered| ==> rendered[j].page != k
  }

  ghost predicate IsRendered(rendered: seq<RenderPage>, k: int) { exists i :: 0 <= i < |rendered| && rendered[i].page == k }

  /** The pictures by page number: each rendered page has its own, and no other page has one. */
  ghost predicate AreImages(rendered: seq<RenderPage>, images: map<int, string>) {
    forall k :: (k in images <==> IsRendered(rendered, k)) && (k in images ==> ShownAs(rendered, k, images[k]))
  }

  lemma {:induction false} ImagesOfPages(rendered: seq<RenderPage>)
    ensures AreImages(rendered, Images(rendered))
    decreases |rendered|
  {
    if rendered != [] {
      var init, last := rendered[..|rendered| - 1], rendered[|rendered| - 1];
      ImagesOfPages(init);
      forall k ensures k in Images(rendered) <==> IsRendered(rendered, k)
               ensures k in Images(rendered) ==> ShownAs(rendered, k, Images(rendered)[k])
      {
        ImageOfPage(rendered, k);
      }
    }
  }

  lemma ImageOfPage(rendered: seq<RenderPage>, k: int)
    requires rendered != [] && AreImages(rendered[..|rendered| - 1], Images(rendered[..|rendered| - 1]))
    ensures k in Images(rendered) <==> IsRendered(rendered, k)
    ensures k in Images(rendered) ==> ShownAs(rendered, k, Images(rendered)[k])
  {
    var init, n := rendered[..|rendered| - 1], |rendered| - 1;
    if rendered[n].page == k {
      assert rendered[n] == RenderPage(k, Images(rendered)[k]);
    } else {
      RenderedBefore(rendered, k);
      if k in Images(init) { ShownBefore(rendered, k, Images(init)[k]); }
    }
  }

  lemma RenderedBefore(rendered: seq<RenderPage>, k: int)
    requires rendered != [] && rendered[|rendered| - 1].page != k
    ensures IsRendered(rendered, k) <==> IsRendered(rendered[..|rendered| - 1], k)
  {
    var init := rendered[..|rendered| - 1];
    if i :| 0 <= i < |rendered| && rendered[i].page == k { assert init[i].page == k; }
    if i :| 0 <= i < |init| && init[i].page == k { assert rendered[i].page == k; }
  }

  lemma ShownBefore(rendered: seq<RenderPage>, k: int, image: string)
    requires rendered != [] && rendered[|rendered| - 1].page != k && ShownAs(rendered[..|rendered| - 1], k, image)
    ensures ShownAs(rendered, k, image)
  {
    var init := rendered[..|rendered| - 1];
    var i :| 0 <= i < |init| && init[i] == RenderPage(k, image) && forall j :: i < j < |init| ==> init[j].page != k;
    assert rendered[i] == RenderPage(k, image);
    forall j | i < j < |rendered| ensures rendered[j].page != k {
      if j < |init| { assert init[j].page != k; }
    }
  }

  method CollectImages(rendered: seq<RenderPage>) returns (images: map<int, string>)
    ensures images == Images(rendered) && AreImages(rendered, images)
  {
    images := map[];
    for i := 0 to |rendered|
      invariant images == Images(rendered[..i])
    {
      assert rendered[..i + 1][..i] == rendered[..i];
      images := images[rendered[i].page := rendered[i].image];
    }
    assert rendered[..|rendered|] == rendered;
    ImagesOfPages(rendered);
  }

  // ----- Documents -----

  datatype Document = Document(sections: seq<string>, pages: seq<PageResult>) {
    function Markdown(): string { Join(sections) }
  }

  type Converted = Result<Document, Error>

  function RenderFailure(err: Error): Error { Prefixed("render: ", err) }

  /** The text of page i for every i from 1 on. */
  function Sections(texts: map<int, string>, n: nat): seq<string> { seq(n, i => Get(texts, i + 1)) }

  method JoinPages(texts: map<int, string>, n: nat) returns (parts: seq<string>)
    ensures parts == Sections(texts, n)
  {
    parts := [];
    for i := 0 to n
      invariant parts == Sections(texts, i)
    {
      parts := parts + [Get(texts, i + 1)];
    }
  }

  method ConvertRaw(n: nat, textPages: map<int, string>) returns (r: Converted)
    ensures r == Success(Document(Sections(textPages, n), []))
  {
    var parts := JoinPages(textPages, n);
    r := Success(Document(parts, []));
  }

  method ConvertImages(rendered: Result<seq<RenderPage>, Error>, n: nat, textPages: map<int, string>, scanned: seq<int>)
    returns (r: Converted)
    ensures match rendered
            case Failure(err) => r == Failure(RenderFailure(err))
            case Success(images) =>
              r.Success? && r.value.sections == Sections(textPages, n) && |r.value.pages| == n
              && forall i :: 0 <= i < n ==>
                   r.value.pages[i] == PageResult(i + 1, Get(textPages, i + 1), Get(Images(images), i + 1), i + 1 in scanned)
  {
    if rendered.Failure? {
      return Failure(RenderFailure(rendered.error));
    }
    var images := CollectImages(rendered.value);
    var parts, pages := [], [];
    for i := 0 to n
      invariant parts == Sections(textPages, i) && |pages| == i
      invariant forall k :: 0 <= k < i ==> pages[k] == PageResult(k + 1, Get(textPages, k + 1), Get(images, k + 1), k + 1 in scanned)
    {
      parts := parts + [Get(textPages, i + 1)];
      pages := pages + [PageResult(i + 1, Get(textPages, i + 1), Get(images, i + 1), i + 1 in scanned)];
    }
    r := Success(Document(parts, pages));
  }

  // ----- Mode vlm -----

  predicate Answered(results: map<int, Answer>, k: int) { k in results && results[k].Success? }

  predicate AllAnswered(results: map<int, Answer>, n: int) { forall i :: 1 <= i <= n ==> Answered(results, i) }

  predicate FirstUnanswered(results: map<int, Answer>, n: nat, i: int) {
    1 <= i <= n && !Answered(results, i) && AllAnswered(results, i - 1)
  }

  function UnansweredError(results: map<int, Answer>, i: int): Error
    requires !Answered(results, i)
  {
    if i in results then results[i].error else Plain("missing result")
  }

  /** Section i is the answer for page i; one missing or failed page fails the document,
      with the error of the first such page. */
  ghost predicate VlmDocument(results: map<int, Answer>, n: nat, r: Converted) {
    if AllAnswered(results, n) then
      && r.Success? && |r.value.sections| == n && r.value.pages == []
      && forall i :: 1 <= i <= n && Answered(results, i) ==> r.value.sections[i - 1] == results[i].value
    else
      exists i :: FirstUnanswered(results, n, i) && r == Failure(AtStage(UnansweredError(results, i), OcrFailed))
  }

  method AssembleVlm(results: map<int, Answer>, n: nat) returns (r: Converted)
    ensures VlmDocument(results, n, r)
  {
    var parts: seq<string> := [];
    var firstError: Option<Error> := None;
    ghost var first := 0;
    for i := 1 to n + 1
      invariant |parts| == i - 1
      invariant forall k :: 1 <= k < i && Answered(results, k) ==> parts[k - 1] == results[k].value
      invariant firstError.None? ==> AllAnswered(results, i - 1)
      invariant firstError.Some? ==> FirstUnanswered(results, n, first) && firstError == Some(UnansweredError(results, first))
    {
      if i !in results || results[i].Failure? {
        if firstError.None? {
          firstError := Some(if i in results then results[i].error else Plain("missing result"));
          first := i;
        }
        parts := parts + [""];
      } else {
        parts := parts + [results[i].value];
      }
    }
    if firstError.Some? {
      assert !Answered(results, first);
      return Failure(AtStage(firstError.value, OcrFailed));
    }
    r := Success(Document(parts, []));
  }

  /** Every rendered page, for OCR. */
  function VlmWork(images: map<int, string>): map<int, Work> { map k | k in images :: Work(images[k], Ocr) }

  /** Each rendered page is sent, and the document is assembled from what came back. */
  method ConvertVlm(rendered: Result<seq<RenderPage>, Error>, n: nat, vlm: Vlm) returns (r: Converted, fan: Fan)
    ensures rendered.Failure? ==> r == Failure(RenderFailure(rendered.error)) && fan == Idle()
    ensures rendered.Success? ==>
              FanEnd(fan, Job(VlmWork(Images(rendered.value)), vlm)) && VlmDocument(fan.results, n, r)
  {
    fan := Idle();
    if rendered.Failure? {
      return Failure(RenderFailure(rendered.error)), fan;
    }
    var images := CollectImages(rendered.value);
    fan := VlmParallelMixed(Job(VlmWork(images), vlm));
    r := AssembleVlm(fan.results, n);
  }

  // ----- Modes text and vision -----

  /** The scanned pages that were rendered, each for OCR. */
  function OcrWork(scanned: seq<int>, images: map<int, string>): map<int, Work> {
    map k | k in scanned && k in images :: Work(images[k], Ocr)
  }

  method CollectOcrWork(scanned: seq<int>, images: map<int, string>) returns (work: map<int, Work>)
    ensures work == OcrWork(scanned, images)
  {
    work := map[];
    for i := 0 to |scanned|
      invariant work == OcrWork(scanned[..i], images)
    {
      assert scanned[..i + 1] == scanned[..i] + [scanned[i]];
      if scanned[i] in images {
        work := work[scanned[i] := Work(images[scanned[i]], Ocr)];
      }
    }
    assert scanned[..|scanned|] == scanned;
  }

  predicate OcrText(work: map<int, Work>, results: map<int, Answer>, k: int) {
    k in work && work[k].kind == Ocr && Answered(results, k)
  }

  predicate OcrFailure(work: map<int, Work>, results: map<int, Answer>, k: int) {
    k in work && work[k].kind == Ocr && k in results && results[k].Failure?
  }

  predicate Described(work: map<int, Work>, results: map<int, Answer>, describe: string -> Option<string>, k: int) {
    k in work && work[k].kind == Visual && Answered(results, k) && describe(results[k].value).Some?
  }

  /** The text of page k once the answers are in. */
  function TextAfter(texts: map<int, string>, work: map<int, Work>, results: map<int, Answer>, k: int): Option<string> {
    if OcrText(work, results, k) then Some(results[k].value)
    else if k in texts then Some(texts[k])
    else None
  }

  /** The visual description of page k, if one is worth keeping. */
  function DescriptionAfter(work: map<int, Work>, results: map<int, Answer>, describe: string -> Option<string>, k: int): Option<string> {
    if Described(work, results, describe, k) then describe(results[k].value) else None
  }

  function Lookup<T>(m: map<int, T>, k: int): Option<T> { if k in m then Some(m[k]) else None }

  /** All that the loop over the answers leaves behind. */
  ghost predicate Absorbed(texts: map<int, string>, work: map<int, Work>, results: map<int, Answer>,
                           describe: string -> Option<string>, texts': map<int, string>, descriptions: map<int, string>) {
    && (forall k {:trigger Lookup(texts', k)} :: Lookup(texts', k) == TextAfter(texts, work, results, k))
    && (forall k {:trigger Lookup(descriptions, k)} :: Lookup(descriptions, k) == DescriptionAfter(work, results, describe, k))
  }

  ghost predicate ErrorOf(work: map<int, Work>, results: map<int, Answer>, firstError: Option<Error>) {
    match firstError
    case None => forall k :: k in results ==> !OcrFailure(work, results, k)
    case Some(e) => exists k :: OcrFailure(work, results, k) && e == results[k].error
  }

  method AbsorbOne(texts: map<int, string>, ghost start: map<int, string>, descriptions: map<int, string>, firstError: Option<Error>,
                   work: map<int, Work>, ghost seen: map<int, Answer>, idx: int, answer: Answer, describe: string -> Option<string>)
    returns (texts': map<int, string>, descriptions': map<int, string>, firstError': Option<Error>)
    requires idx in work && idx !in seen
    requires Absorbed(start, work, seen, describe, texts, descriptions) && ErrorOf(work, seen, firstError)
    ensures Absorbed(start, work, seen[idx := answer], describe, texts', descriptions')
    ensures ErrorOf(work, seen[idx := answer], firstError')
  {
    texts', descriptions', firstError' := texts, descriptions, firstError;
    if answer.Failure? {
      if work[idx].kind == Ocr && firstError.None? {
        firstError' := Some(answer.error);
      }
    } else if work[idx].kind == Ocr {
      texts' := texts[idx := answer.value];
    } else {
      var d := describe(answer.value);
      if d.Some? {
        descriptions' := descriptions[idx := d.value];
      }
    }
    ghost var next := seen[idx := answer];
    forall k ensures Lookup(texts', k) == TextAfter(start, work, next, k) {
      assert Lookup(texts, k) == TextAfter(start, work, seen, k);
    }
    forall k ensures Lookup(descriptions', k) == DescriptionAfter(work, next, describe, k) {
      assert Lookup(descriptions, k) == DescriptionAfter(work, seen, describe, k);
    }
    ErrorStep(work, seen, idx, answer, firstError, firstError');
  }

  lemma ErrorStep(work: map<int, Work>, seen: map<int, Answer>, idx: int, answer: Answer, e: Option<Error>, e': Option<Error>)
    requires idx in work && idx !in seen && ErrorOf(work, seen, e)
    requires e' == if answer.Failure? && work[idx].kind == Ocr && e.None? then Some(answer.error) else e
    ensures ErrorOf(work, seen[idx := answer], e')
  {
    var next := seen[idx := answer];
    if e.Some? {
      var k :| OcrFailure(work, seen, k) && e.value == seen[k].error;
      assert OcrFailure(work, next, k);
    } else {
      assert OcrFailure(work, next, idx) <==> answer.Failure? && work[idx].kind == Ocr;
      forall k | k in next && k != idx ensures !OcrFailure(work, next, k) {
        assert !OcrFailure(work, seen, k);
      }
    }
  }

  /** The answers still to come and those already taken. */
  ghost predicate Splits(results: map<int, Answer>, remaining: set<int>, seen: map<int, Answer>) {
    && remaining <= results.Keys && seen.Keys == results.Keys - remaining
    && forall k :: k in seen ==> seen[k] == results[k]
  }

  lemma SplitsStep(results: map<int, Answer>, remaining: set<int>, seen: map<int, Answer>, idx: int)
    requires Splits(results, remaining, seen) && idx in remaining
    ensures idx !in seen && Splits(results, remaining - {idx}, seen[idx := results[idx]])
  {
  }

  lemma SplitsEnd(results: map<int, Answer>, seen: map<int, Answer>)
    requires Splits(results, {}, seen)
    ensures seen == results
  {
    assert seen.Keys == results.Keys;
    assert forall k :: k in results ==> k in seen && seen[k] == results[k];
  }

  /** The loop over the answers, in the arbitrary order of a Go map. */
  method Absorb(texts: map<int, string>, work: map<int, Work>, results: map<int, Answer>, describe: string -> Option<string>)
    returns (texts': map<int, string>, descriptions: map<int, string>, firstError: Option<Error>)
    requires results.Keys == work.Keys
    ensures Absorbed(texts, work, results, describe, texts', descriptions)
    ensures ErrorOf(work, results, firstError)
  {
    texts', descriptions, firstError := texts, map[], None;
    var remaining := results.Keys;
    ghost var seen: map<int, Answer> := map[];
    while remaining != {}
      invariant Splits(results, remaining, seen)
      invariant Absorbed(texts, work, seen, describe, texts', descriptions)
      invariant ErrorOf(work, seen, firstError)
      decreases |remaining|
    {
      ghost var some := SomeMember(remaining);
      var idx :| idx in remaining;
      SplitsStep(results, remaining, seen, idx);
      texts', descriptions, firstError :=
        AbsorbOne(texts', texts, descriptions, firstError, work, seen, idx, results[idx], describe);
      remaining := remaining - {idx};
      seen := seen[idx := results[idx]];
    }
    SplitsEnd(results, seen);
  }

  function OrEmpty(t: Option<string>): string { if t.Some? then t.value else "" }

  /** What mode text returns for the OCR answers it got. */
  ghost predicate TextDocument(textPages: map<int, string>, work: map<int, Work>, results: map<int, Answer>, n: nat, r: Converted) {
    match r
    case Failure(e) => exists k :: OcrFailure(work, results, k) && e == AtStage(results[k].error, OcrFailed)
    case Success(d) =>
      && (forall k :: k in results ==> !OcrFailure(work, results, k))
      && |d.sections| == n && d.pages == []
      && forall i :: 0 <= i < n ==> d.sections[i] == OrEmpty(TextAfter(textPages, work, results, i + 1))
  }

  method ConvertText(rendered: Result<seq<RenderPage>, Error>, n: nat, scanned: seq<int>, textPages: map<int, string>, vlm: Vlm)
    returns (r: Converted, fan: Fan)
    ensures scanned == [] ==> r == Success(Document(Sections(textPages, n), [])) && fan == Idle()
    ensures scanned != [] && rendered.Failure? ==> r == Failure(RenderFailure(rendered.error)) && fan == Idle()
    ensures scanned != [] && rendered.Success? ==>
              var work := OcrWork(scanned, Images(rendered.value));
              FanEnd(fan, Job(work, vlm)) && TextDocument(textPages, work, fan.results, n, r)
  {
    fan := Idle();
    var texts := textPages;
    ghost var work: map<int, Work> := map[];
    if |scanned| > 0 {
      if rendered.Failure? {
        return Failure(RenderFailure(rendered.error)), fan;
      }
      var images := CollectImages(rendered.value);
      var ocrWork := CollectOcrWork(scanned, images);
      work := ocrWork;
      if |ocrWork| > 0 {
        fan := VlmParallelMixed(Job(ocrWork, vlm));
        var descriptions, firstError;
        texts, descriptions, firstError := Absorb(textPages, ocrWork, fan.results, _ => None);
        if firstError.Some? {
          return Failure(AtStage(firstError.value, OcrFailed)), fan;
        }
      } else {
        assert work == map[];
      }
    }
    var parts := JoinPages(texts, n);
    r := Success(Document(parts, []));
    SectionsAfter(texts, textPages, work, fan.results, n);
  }

  lemma SectionsAfter(texts: map<int, string>, textPages: map<int, string>, work: map<int, Work>, results: map<int, Answer>, n: nat)
    requires forall k {:trigger Lookup(texts, k)} :: Lookup(texts, k) == TextAfter(textPages, work, results, k)
    ensures forall i :: 0 <= i < n ==> Sections(texts, n)[i] == OrEmpty(TextAfter(textPages, work, results, i + 1))
  {
    forall i | 0 <= i < n ensures Sections(texts, n)[i] == OrEmpty(TextAfter(textPages, work, results, i + 1)) {
      assert Lookup(texts, i + 1) == TextAfter(textPages, work, results, i + 1);
    }
  }

  const VISUAL_HEADING: string := "\n\n## Visual Elements\n\n"

  /** Every page goes to the VLM: scanned ones for OCR, the others for a description. */
  function VisionWork(scanned: seq<int>, textPages: map<int, string>, images: map<int, string>): map<int, Work> {
    map k | k in images && (k in scanned || k in textPages) :: Work(images[k], if k in textPages then Visual else Ocr)
  }

  method CollectVisionWork(scanned: seq<int>, textPages: map<int, string>, images: map<int, string>) returns (work: map<int, Work>)
    ensures work == VisionWork(scanned, textPages, images)
  {
    work := CollectOcrWork(scanned, images);
    var remaining := textPages.Keys;
    while remaining != {}
      invariant remaining <= textPages.Keys
      invariant work == VisionWork(scanned, textPages - remaining, images)
      decreases |remaining|
    {
      ghost var some := SomeMember(remaining);
      var page :| page in remaining;
      if page in images {
        work := work[page := Work(images[page], Visual)];
      }
      remaining := remaining - {page};
    }
    assert textPages - remaining == textPages;
  }

  function VisionSection(textPages: map<int, string>, work: map<int, Work>, results: map<int, Answer>,
                         describe: string -> Option<string>, i: int): string {
    OrEmpty(TextAfter(textPages, work, results, i)) +
    match DescriptionAfter(work, results, describe, i)
    case Some(d) => VISUAL_HEADING + d
    case None => ""
  }

  ghost predicate VisionDocument(textPages: map<int, string>, work: map<int, Work>, results: map<int, Answer>,
                                 describe: string -> Option<string>, n: nat, r: Converted) {
    match r
    case Failure(e) => exists k :: OcrFailure(work, results, k) && e == AtStage(results[k].error, OcrFailed)
    case Success(d) =>
      && (forall k :: k in results ==> !OcrFailure(work, results, k))
      && |d.sections| == n && d.pages == []
      && forall i :: 0 <= i < n ==> d.sections[i] == VisionSection(textPages, work, results, describe, i + 1)
  }

  method ConvertVision(rendered: Result<seq<RenderPage>, Error>, n: nat, scanned: seq<int>, textPages: map<int, string>,
                       vlm: Vlm, describe: string -> Option<string>)
    returns (r: Converted, fan: Fan)
    ensures rendered.Failure? ==> r == Failure(RenderFailure(rendered.error)) && fan == Idle()
    ensures rendered.Success? ==>
              var work := VisionWork(scanned, textPages, Images(rendered.value));
              FanEnd(fan, Job(work, vlm)) && VisionDocument(textPages, work, fan.results, describe, n, r)
  {
    fan := Idle();
    if rendered.Failure? {
      return Failure(RenderFailure(rendered.error)), fan;
    }
    var images := CollectImages(rendered.value);
    var work := CollectVisionWork(scanned, textPages, images);
    fan := VlmParallelMixed(Job(work, vlm));
    var texts, descriptions, firstError := Absorb(textPages, work, fan.results, describe);
    if firstError.Some? {
      return Failure(AtStage(firstError.value, OcrFailed)), fan;
    }
    var parts := JoinVision(texts, descriptions, n);
    r := Success(Document(parts, []));
    forall i | 0 <= i < n ensures parts[i] == VisionSection(textPages, work, fan.results, describe, i + 1) {
      assert Lookup(texts, i + 1) == TextAfter(textPages, work, fan.results, i + 1);
      assert Lookup(descriptions, i + 1) == DescriptionAfter(work, fan.results, describe, i + 1);
    }
  }

  method JoinVision(texts: map<int, string>, descriptions: map<int, string>, n: nat) returns (parts: seq<string>)
    ensures |parts| == n
    ensures forall i :: 0 <= i < n ==>
              parts[i] == Get(texts, i + 1) + if i + 1 in descriptions then VISUAL_HEADING + descriptions[i + 1] else ""
  {
    parts := [];
    for i := 0 to n
      invariant |parts| == i
      invariant forall k :: 0 <= k < i ==>
                  parts[k] == Get(texts, k + 1) + if k + 1 in descriptions then VISUAL_HEADING + descriptions[k + 1] else ""
    {
      var md := Get(texts, i + 1);
      if i + 1 in descriptions {
        md := md + VISUAL_HEADING + descriptions[i + 1];
        assert md == Get(texts, i + 1) + (VISUAL_HEADING + descriptions[i + 1]);
      } else {
        assert md == md + "";
      }
      parts := parts + [md];
    }
  }

  // ----- What a document says about its pages -----

  /** The numbers that the PDF parser gives its pages. */
  ghost predicate Numbered(pages: seq<ExtractPage>) { forall i :: 0 <= i < |pages| ==> pages[i].page == i + 1 }

  /** What modes raw and images show of page i. */
  function PlainText(p: ExtractPage): string { if p.isScanned then "" else p.text }

  /** Born-digital text arrives verbatim in modes raw and images. */
  lemma PlainSections(pages: seq<ExtractPage>)
    requires Numbered(pages)
    ensures forall i :: 0 <= i < |pages| ==> Sections(TextPages(pages), |pages|)[i] == PlainText(pages[i])
  {
    PlainPages(pages);
    SectionsAre(TextPages(pages), pages);
  }

  lemma SectionsAre(texts: map<int, string>, pages: seq<ExtractPage>)
    requires forall i :: 0 <= i < |pages| ==> Get(texts, i + 1) == PlainText(pages[i])
    ensures forall i :: 0 <= i < |pages| ==> Sections(texts, |pages|)[i] == PlainText(pages[i])
  {
  }

  lemma PlainSection(pages: seq<ExtractPage>, i: nat)
    requires Numbered(pages) && i < |pages|
    ensures Get(TextPages(pages), i + 1) == PlainText(pages[i])
  {
    EveryPageClassified(pages, i);
  }

  lemma {:induction false} ScannedNumbers(pages: seq<ExtractPage>, k: int)
    requires Numbered(pages)
    ensures k in ScannedPages(pages) <==> 1 <= k <= |pages| && pages[k - 1].isScanned
    decreases |pages|
  {
    if pages != [] {
      var init, last := pages[..|pages| - 1], pages[|pages| - 1];
      ScannedNumbers(init, k);
      assert last.page == |pages|;
      assert 1 <= k <= |init| ==> init[k - 1] == pages[k - 1];
    }
  }

  lemma TextNumbers(pages: seq<ExtractPage>, k: int)
    requires Numbered(pages)
    ensures k in TextPages(pages) <==> 1 <= k <= |pages| && !pages[k - 1].isScanned
  {
    ClassifiedPages(pages);
    if k in TextPages(pages) {
      var i :| 0 <= i < |pages| && pages[i] == ExtractPage(k, TextPages(pages)[k], false);
    }
  }

  /** The VLM was called once for page k, as `w`, and answered `text`. */
  ghost predicate AnsweredAs(fan: Fan, vlm: Vlm, k: int, w: Work, text: string) {
    fan.calls[k] == 1 && vlm.call(k, w) == Success(text)
  }

  /** Page k was to be sent as `w` and `e` came back: from its one call, or without a call
      because the context had ended. */
  ghost predicate FailedAs(fan: Fan, vlm: Vlm, k: int, w: Work, e: Error) {
    || (fan.calls[k] == 1 && vlm.call(k, w) == Failure(e))
    || (fan.calls[k] == 0 && fan.cancelled && e == vlm.contextError)
  }

  /** Only `wanted` pages are sent, none twice, and all of them unless the context ends. */
  ghost predicate Sends(fan: Fan, vlm: Vlm, wanted: set<int>) {
    && (fan.cancelled ==> vlm.contextEnds)
    && forall k :: fan.calls[k] <= 1 && (fan.calls[k] == 1 ==> k in wanted) && (k in wanted && !fan.cancelled ==> fan.calls[k] == 1)
  }

  lemma FanSends(fan: Fan, j: Job)
    requires FanEnd(fan, j)
    ensures Sends(fan, j.vlm, j.work.Keys)
  {
    forall k
      ensures fan.calls[k] <= 1 && (fan.calls[k] == 1 ==> k in j.work) && (k in j.work && !fan.cancelled ==> fan.calls[k] == 1)
    {
      assert k in j.work ==> FromCall(fan, j, k) || Skipped(fan, j, k);
    }
  }

  /** A text is the answer of the page's own call; an error is that of its call or of the
      ended context. */
  lemma FanAnswers(fan: Fan, j: Job, k: int)
    requires FanEnd(fan, j) && k in j.work
    ensures k in fan.results
    ensures fan.results[k].Success? ==> AnsweredAs(fan, j.vlm, k, j.work[k], fan.results[k].value)
    ensures fan.results[k].Failure? ==> FailedAs(fan, j.vlm, k, j.work[k], fan.results[k].error)
  {
    assert FromCall(fan, j, k) || Skipped(fan, j, k);
  }

  /** In mode vlm page k is the answer to its own image. */
  ghost predicate VlmPage(images: map<int, string>, vlm: Vlm, fan: Fan, k: int, section: string) {
    k in images && AnsweredAs(fan, vlm, k, Work(images[k], Ocr), section)
  }

  ghost predicate VlmArrived(images: map<int, string>, vlm: Vlm, fan: Fan, k: int) {
    k in images && fan.calls[k] == 1 && vlm.call(k, Work(images[k], Ocr)).Success?
  }

  ghost predicate VlmLost(images: map<int, string>, vlm: Vlm, fan: Fan, k: int, cause: Error) {
    if k in images then FailedAs(fan, vlm, k, Work(images[k], Ocr), cause) else cause == Plain("missing result")
  }

  /** All pages are answers, or the first page that has none gives the error. */
  ghost predicate VlmByPage(images: map<int, string>, vlm: Vlm, fan: Fan, n: nat, r: Converted) {
    match r
    case Success(d) =>
      |d.sections| == n && d.pages == [] && forall i :: 0 <= i < n ==> VlmPage(images, vlm, fan, i + 1, d.sections[i])
    case Failure(e) =>
      exists k, cause ::
        && 1 <= k <= n && VlmLost(images, vlm, fan, k, cause) && e == AtStage(cause, OcrFailed)
        && forall i :: 1 <= i < k ==> VlmArrived(images, vlm, fan, i)
  }

  lemma VlmSections(images: map<int, string>, vlm: Vlm, fan: Fan, n: nat, r: Converted)
    requires FanEnd(fan, Job(VlmWork(images), vlm)) && VlmDocument(fan.results, n, r)
    ensures VlmByPage(images, vlm, fan, n, r)
  {
    var j := Job(VlmWork(images), vlm);
    forall k | Answered(fan.results, k) ensures VlmPage(images, vlm, fan, k, fan.results[k].value) {
      FanAnswers(fan, j, k);
    }
    if AllAnswered(fan.results, n) {
      forall i | 0 <= i < n ensures VlmPage(images, vlm, fan, i + 1, r.value.sections[i]) {
        assert Answered(fan.results, i + 1);
      }
    } else {
      var k :| FirstUnanswered(fan.results, n, k) && r == Failure(AtStage(UnansweredError(fan.results, k), OcrFailed));
      if k in images { FanAnswers(fan, j, k); }
      assert VlmLost(images, vlm, fan, k, UnansweredError(fan.results, k));
      forall i | 1 <= i < k ensures VlmArrived(images, vlm, fan, i) {
        assert Answered(fan.results, i);
      }
    }
  }

  /** A scanned page is the answer to its own image, or empty without a call if it was not
      rendered. */
  ghost predicate ScanPage(images: map<int, string>, vlm: Vlm, fan: Fan, k: int, section: string) {
    if k in images then AnsweredAs(fan, vlm, k, Work(images[k], Ocr), section) else section == "" && fan.calls[k] == 0
  }

  /** In mode text a born-digital page is its own text, and is not sent. */
  ghost predicate TextPage(p: ExtractPage, images: map<int, string>, vlm: Vlm, fan: Fan, section: string) {
    if p.isScanned then ScanPage(images, vlm, fan, p.page, section) else section == p.text && fan.calls[p.page] == 0
  }

  /** What follows the text of a born-digital page in mode vision: the description, if the
      page was rendered, its call was made and succeeded, and the answer is worth keeping. */
  ghost function Visuals(images: map<int, string>, vlm: Vlm, fan: Fan, describe: string -> Option<string>, k: int): string {
    if k !in images || fan.calls[k] == 0 then ""
    else match vlm.call(k, Work(images[k], Visual))
      case Failure(_) => ""
      case Success(answer) => match describe(answer) case Some(d) => "\n\n## Visual Elements\n\n" + d case None => ""
  }

  ghost predicate VisionPage(p: ExtractPage, images: map<int, string>, vlm: Vlm, fan: Fan,
                             describe: string -> Option<string>, section: string) {
    if p.isScanned then ScanPage(images, vlm, fan, p.page, section)
    else section == p.text + Visuals(images, vlm, fan, describe, p.page)
  }

  /** A rendered scan whose text did not arrive. */
  ghost predicate ScanLost(p: ExtractPage, images: map<int, string>, vlm: Vlm, fan: Fan, cause: Error) {
    p.isScanned && p.page in images && FailedAs(fan, vlm, p.page, Work(images[p.page], Ocr), cause)
  }

  ghost predicate SomeScanLost(pages: seq<ExtractPage>, images: map<int, string>, vlm: Vlm, fan: Fan, e: Error) {
    exists i, cause :: 0 <= i < |pages| && ScanLost(pages[i], images, vlm, fan, cause) && e == AtStage(cause, OcrFailed)
  }

  ghost predicate TextByPage(pages: seq<ExtractPage>, images: map<int, string>, vlm: Vlm, fan: Fan, r: Converted) {
    match r
    case Success(d) =>
      |d.sections| == |pages| && d.pages == [] && forall i :: 0 <= i < |pages| ==> TextPage(pages[i], images, vlm, fan, d.sections[i])
    case Failure(e) => SomeScanLost(pages, images, vlm, fan, e)
  }

  ghost predicate VisionByPage(pages: seq<ExtractPage>, images: map<int, string>, vlm: Vlm, fan: Fan,
                               describe: string -> Option<string>, r: Converted) {
    match r
    case Success(d) =>
      && |d.sections| == |pages| && d.pages == []
      && forall i :: 0 <= i < |pages| ==> VisionPage(pages[i], images, vlm, fan, describe, d.sections[i])
    case Failure(e) => SomeScanLost(pages, images, vlm, fan, e)
  }

  function RenderedScans(pages: seq<ExtractPage>, images: map<int, string>): set<int> {
    set k | k in images && 1 <= k <= |pages| && pages[k - 1].isScanned
  }

  function RenderedPages(pages: seq<ExtractPage>, images: map<int, string>): set<int> {
    set k | k in images && 1 <= k <= |pages|
  }

  lemma OcrWorkKeys(pages: seq<ExtractPage>, images: map<int, string>)
    requires Numbered(pages)
    ensures OcrWork(ScannedPages(pages), images).Keys == RenderedScans(pages, images)
  {
    forall k ensures k in OcrWork(ScannedPages(pages), images) <==> k in RenderedScans(pages, images) {
      ScannedNumbers(pages, k);
    }
  }

  /** In mode text the VLM is called for no page but the scanned and rendered ones, once
      each, and for all of them unless the context ends. */
  lemma OcrOnlyForScans(pages: seq<ExtractPage>, images: map<int, string>, vlm: Vlm, fan: Fan)
    requires Numbered(pages) && FanEnd(fan, Job(OcrWork(ScannedPages(pages), images), vlm))
    ensures Sends(fan, vlm, RenderedScans(pages, images))
  {
    OcrWorkKeys(pages, images);
    FanSends(fan, Job(OcrWork(ScannedPages(pages), images), vlm));
  }

  /** Mode vision sends every rendered page, the scanned ones for OCR and the others for a
      description. */
  lemma VisionWorkIs(pages: seq<ExtractPage>, images: map<int, string>, k: int)
    requires Numbered(pages)
    ensures var work := VisionWork(ScannedPages(pages), TextPages(pages), images);
            && (k in work <==> k in RenderedPages(pages, images))
            && (k in work ==> work[k] == Work(images[k], if pages[k - 1].isScanned then Ocr else Visual))
  {
    ScannedNumbers(pages, k);
    TextNumbers(pages, k);
  }

  lemma VisionSends(pages: seq<ExtractPage>, images: map<int, string>, vlm: Vlm, fan: Fan)
    requires Numbered(pages) && FanEnd(fan, Job(VisionWork(ScannedPages(pages), TextPages(pages), images), vlm))
    ensures Sends(fan, vlm, RenderedPages(pages, images))
  {
    var work := VisionWork(ScannedPages(pages), TextPages(pages), images);
    forall k ensures k in work <==> k in RenderedPages(pages, images) {
      VisionWorkIs(pages, images, k);
    }
    assert work.Keys == RenderedPages(pages, images);
    FanSends(fan, Job(work, vlm));
  }

  /** An OCR answer that failed belongs to a scanned and rendered page. */
  lemma LostScan(pages: seq<ExtractPage>, images: map<int, string>, j: Job, fan: Fan, k: int)
    requires Numbered(pages) && FanEnd(fan, j) && OcrFailure(j.work, fan.results, k)
    requires 1 <= k <= |pages| && pages[k - 1].isScanned && k in images && j.work[k] == Work(images[k], Ocr)
    ensures SomeScanLost(pages, images, j.vlm, fan, AtStage(fan.results[k].error, OcrFailed))
  {
    FanAnswers(fan, j, k);
    assert ScanLost(pages[k - 1], images, j.vlm, fan, fan.results[k].error);
  }

  /** In mode text the sections are the pages in order: born-digital text verbatim, for a
      rendered scan the answer to its image, and nothing for a scan that was not rendered. */
  lemma TextSections(pages: seq<ExtractPage>, images: map<int, string>, vlm: Vlm, fan: Fan, r: Converted)
    requires Numbered(pages)
    requires var work := OcrWork(ScannedPages(pages), images);
             FanEnd(fan, Job(work, vlm)) && TextDocument(TextPages(pages), work, fan.results, |pages|, r)
    ensures TextByPage(pages, images, vlm, fan, r)
  {
    var work := OcrWork(ScannedPages(pages), images);
    OcrWorkKeys(pages, images);
    match r {
      case Failure(e) =>
        var k :| OcrFailure(work, fan.results, k) && e == AtStage(fan.results[k].error, OcrFailed);
        assert k in RenderedScans(pages, images);
        LostScan(pages, images, Job(work, vlm), fan, k);
      case Success(d) =>
        forall i | 0 <= i < |pages| ensures TextPage(pages[i], images, vlm, fan, d.sections[i]) {
          TextSection(pages, images, vlm, fan, d.sections[i], i);
        }
    }
  }

  lemma TextSection(pages: seq<ExtractPage>, images: map<int, string>, vlm: Vlm, fan: Fan, section: string, i: nat)
    requires Numbered(pages) && i < |pages|
    requires var work := OcrWork(ScannedPages(pages), images);
             && FanEnd(fan, Job(work, vlm)) && !OcrFailure(work, fan.results, i + 1)
             && section == OrEmpty(TextAfter(TextPages(pages), work, fan.results, i + 1))
    ensures TextPage(pages[i], images, vlm, fan, section)
  {
    hide ScannedPages, TextPages;
    var work := OcrWork(ScannedPages(pages), images);
    EveryPageClassified(pages, i);
    ScannedNumbers(pages, i + 1);
    if i + 1 in work { FanAnswers(fan, Job(work, vlm), i + 1); }
  }

  /** In mode vision every page keeps its place: a rendered scan is the answer to its image,
      another scan is empty, and born-digital text is kept and followed by its description
      if one arrived. */
  lemma VisionSections(pages: seq<ExtractPage>, images: map<int, string>, vlm: Vlm, fan: Fan,
                       describe: string -> Option<string>, r: Converted)
    requires Numbered(pages)
    requires var work := VisionWork(ScannedPages(pages), TextPages(pages), images);
             FanEnd(fan, Job(work, vlm)) && VisionDocument(TextPages(pages), work, fan.results, describe, |pages|, r)
    ensures VisionByPage(pages, images, vlm, fan, describe, r)
  {
    var work := VisionWork(ScannedPages(pages), TextPages(pages), images);
    match r {
      case Failure(e) =>
        var k :| OcrFailure(work, fan.results, k) && e == AtStage(fan.results[k].error, OcrFailed);
        VisionWorkIs(pages, images, k);
        LostScan(pages, images, Job(work, vlm), fan, k);
      case Success(d) =>
        forall i | 0 <= i < |pages| ensures VisionPage(pages[i], images, vlm, fan, describe, d.sections[i]) {
          VisionSectionFacts(pages, images, vlm, fan, describe, d.sections[i], i);
        }
    }
  }

  lemma VisionSectionFacts(pages: seq<ExtractPage>, images: map<int, string>, vlm: Vlm, fan: Fan,
                           describe: string -> Option<string>, section: string, i: nat)
    requires Numbered(pages) && i < |pages|
    requires var work := VisionWork(ScannedPages(pages), TextPages(pages), images);
             && FanEnd(fan, Job(work, vlm)) && !OcrFailure(work, fan.results, i + 1)
             && section == VisionSection(TextPages(pages), work, fan.results, describe, i + 1)
    ensures VisionPage(pages[i], images, vlm, fan, describe, section)
  {
    EveryPageClassified(pages, i);
    VisionWorkIs(pages, images, i + 1);
    VisionSectionIs(pages[i], images, TextPages(pages), Job(VisionWork(ScannedPages(pages), TextPages(pages), images), vlm), fan, describe);
  }

  lemma VisionSectionIs(p: ExtractPage, images: map<int, string>, textPages: map<int, string>, j: Job, fan: Fan,
                        describe: string -> Option<string>)
    requires p.page in textPages <==> !p.isScanned
    requires p.page in textPages ==> textPages[p.page] == p.text
    requires p.page in j.work <==> p.page in images
    requires p.page in images ==> j.work[p.page] == Work(images[p.page], if p.isScanned then Ocr else Visual)
    requires FanEnd(fan, j) && !OcrFailure(j.work, fan.results, p.page)
    ensures VisionPage(p, images, j.vlm, fan, describe, VisionSection(textPages, j.work, fan.results, describe, p.page))
  {
    var k := p.page;
    if k in images { FanAnswers(fan, j, k); }
    var text := OrEmpty(TextAfter(textPages, j.work, fan.results, k));
    assert text + "" == text;
    assert text == if !p.isScanned then p.text else if k in images then fan.results[k].value else "";
    assert p.isScanned ==> DescriptionAfter(j.work, fan.results, describe, k) == None;
  }

  // ----- All modes -----

  datatype Mode = RawMode | ImagesMode | VlmMode | VisionMode | TextMode

  /** The numbers of the rendered pages. */
  function PageNumbers(rendered: seq<RenderPage>): set<int> { set p | p in rendered :: p.page }

  lemma NumbersAreKeys(rendered: seq<RenderPage>, images: map<int, string>)
    requires AreImages(rendered, images)
    ensures PageNumbers(rendered) == images.Keys
  {
    forall k ensures k in PageNumbers(rendered) <==> k in images {
      if IsRendered(rendered, k) {
        var i :| 0 <= i < |rendered| && rendered[i].page == k;
        assert rendered[i] in rendered;
      }
    }
  }

  /** The pages that a mode sends to the VLM. */
  function Wanted(mode: Mode, pages: seq<ExtractPage>, rendered: Result<seq<RenderPage>, Error>): set<int> {
    if rendered.Failure? then {}
    else match mode
      case RawMode => {}
      case ImagesMode => {}
      case VlmMode => PageNumbers(rendered.value)
      case VisionMode => set k | k in PageNumbers(rendered.value) && 1 <= k <= |pages|
      case TextMode => set k | k in PageNumbers(rendered.value) && 1 <= k <= |pages| && pages[k - 1].isScanned
  }

  /** Modes raw and images show the text layer of each page. */
  ghost predicate PlainByPage(pages: seq<ExtractPage>, sections: seq<string>) {
    |sections| == |pages| && forall i :: 0 <= i < |pages| ==> sections[i] == PlainText(pages[i])
  }

  ghost predicate ImagesByPage(pages: seq<ExtractPage>, images: map<int, string>, results: seq<PageResult>) {
    && |results| == |pages|
    && forall i :: 0 <= i < |pages| ==>
         results[i] == PageResult(i + 1, PlainText(pages[i]), Get(images, i + 1), pages[i].isScanned)
  }

  predicate AllDigital(pages: seq<ExtractPage>) { forall i :: 0 <= i < |pages| ==> !pages[i].isScanned }

  /** What each mode makes of the pages, in terms of the calls that were made. */
  ghost predicate ByPage(mode: Mode, pages: seq<ExtractPage>, rendered: Result<seq<RenderPage>, Error>, vlm: Vlm, fan: Fan,
                         describe: string -> Option<string>, r: Converted) {
    if mode.RawMode? || (mode.TextMode? && AllDigital(pages)) then
      r.Success? && r.value.pages == [] && PlainByPage(pages, r.value.sections)
    else match rendered
      case Failure(err) => r == Failure(Prefixed("render: ", err))
      case Success(pics) => exists images :: AreImages(pics, images) && ByImages(mode, pages, images, vlm, fan, describe, r)
  }

  ghost predicate ByImages(mode: Mode, pages: seq<ExtractPage>, images: map<int, string>, vlm: Vlm, fan: Fan,
                           describe: string -> Option<string>, r: Converted) {
    match mode
    case RawMode => true
    case ImagesMode => r.Success? && PlainByPage(pages, r.value.sections) && ImagesByPage(pages, images, r.value.pages)
    case VlmMode => VlmByPage(images, vlm, fan, |pages|, r)
    case VisionMode => VisionByPage(pages, images, vlm, fan, describe, r)
    case TextMode => TextByPage(pages, images, vlm, fan, r)
  }

  /** Every mode, page by page: what section i is, which pages are sent to the VLM, and
      which failure a failed conversion reports. */
  method ConvertPdf(mode: Mode, pages: seq<ExtractPage>, rendered: Result<seq<RenderPage>, Error>, vlm: Vlm,
                    describe: string -> Option<string>)
    returns (r: Converted, fan: Fan)
    requires Numbered(pages)
    ensures Sends(fan, vlm, Wanted(mode, pages, rendered))
    ensures ByPage(mode, pages, rendered, vlm, fan, describe, r)
    ensures r.Success? ==> |r.value.sections| == |pages| && IsJoined(r.value.Markdown(), r.value.sections)
  {
    fan := Idle();
    var textPages, scanned := Classify(pages);
    PlainSections(pages);
    ScansOrNone(pages);
    ghost var images: map<int, string> := map[];
    if rendered.Success? {
      images := Images(rendered.value);
      ImagesOfPages(rendered.value);
      NumbersAreKeys(rendered.value, images);
    }
    match mode {
      case RawMode => r := ConvertRaw(|pages|, textPages);
      case ImagesMode =>
        r := ConvertImages(rendered, |pages|, textPages, scanned);
        if r.Success? { ImagePages(pages, images, r.value.pages); }
      case VlmMode =>
        r, fan := ConvertVlm(rendered, |pages|, vlm);
        if rendered.Success? { VlmConverted(images, vlm, fan, |pages|, r); }
      case VisionMode =>
        r, fan := ConvertVision(rendered, |pages|, scanned, textPages, vlm, describe);
        if rendered.Success? {
          VisionSends(pages, images, vlm, fan);
          VisionSections(pages, images, vlm, fan, describe, r);
        }
      case TextMode =>
        r, fan := ConvertText(rendered, |pages|, scanned, textPages, vlm);
        if rendered.Success? && scanned != [] {
          OcrOnlyForScans(pages, images, vlm, fan);
          TextSections(pages, images, vlm, fan, r);
        }
    }
    if rendered.Success? && !mode.RawMode? && !(mode.TextMode? && AllDigital(pages)) {
      assert ByImages(mode, pages, images, vlm, fan, describe, r);
    }
    if r.Success? { JoinIsJoined(r.value.sections); }
  }

  lemma VlmConverted(images: map<int, string>, vlm: Vlm, fan: Fan, n: nat, r: Converted)
    requires FanEnd(fan, Job(VlmWork(images), vlm)) && VlmDocument(fan.results, n, r)
    ensures Sends(fan, vlm, images.Keys) && VlmByPage(images, vlm, fan, n, r)
  {
    FanSends(fan, Job(VlmWork(images), vlm));
    assert VlmWork(images).Keys == images.Keys;
    VlmSections(images, vlm, fan, n, r);
  }

  lemma ScansOrNone(pages: seq<ExtractPage>)
    requires Numbered(pages)
    ensures ScannedPages(pages) == [] <==> AllDigital(pages)
  {
    PlainPages(pages);
    if ScannedPages(pages) != [] {
      ScannedNumbers(pages, ScannedPages(pages)[0]);
    }
  }

  lemma PlainPages(pages: seq<ExtractPage>)
    requires Numbered(pages)
    ensures forall i :: 0 <= i < |pages| ==> Get(TextPages(pages), i + 1) == PlainText(pages[i])
    ensures forall i :: 0 <= i < |pages| ==> (pages[i].isScanned <==> i + 1 in ScannedPages(pages))
  {
    forall i | 0 <= i < |pages| ensures Get(TextPages(pages), i + 1) == PlainText(pages[i]) {
      PlainSection(pages, i);
    }
    forall i | 0 <= i < |pages| ensures pages[i].isScanned <==> i + 1 in ScannedPages(pages) {
      ScannedNumbers(pages, i + 1);
    }
  }

  lemma ImagePages(pages: seq<ExtractPage>, images: map<int, string>, results: seq<PageResult>)
    requires Numbered(pages) && |results| == |pages|
    requires forall i :: 0 <= i < |pages| ==>
               results[i] == PageResult(i + 1, Get(TextPages(pages), i + 1), Get(images, i + 1), i + 1 in ScannedPages(pages))
    ensures ImagesByPage(pages, images, results)
  {
    PlainPages(pages);
  }
}
