/** Error chains and their classification (internal/processing/errors.go). A chain is a
    cause with any number of wrappers around it. */
module Errors {
  import opened Wrappers

  /** Code is a string type: Unknown stands for any string that is none of the constants. */
  datatype Code =
    | Failed | Empty | ExtractionFailed | RenderFailed | ParserFailed | ParserTimeout
    | ParserOutputLimit | ParserUnavailable | ParserInvalidResponse | ParserBusy
    | OcrFailed | OcrUnavailable | OcrTimeout | Canceled
    | Unknown(text: string)

  datatype Error =
    | Plain(text: string)
    | ContextCanceled
    | DeadlineExceeded
    | ParserResponse(status: int, retryAfter: nat)   // parserResponseError
    | ApiResponse(status: int)                       // the VLM client's error
    | Prefixed(text: string, cause: Error)           // fmt.Errorf with %w, url.Error, ...
    | Classified(code: Code, cause: Error)

  function Normalize(code: Code): Code { if code.Unknown? then Failed else code }

  function Wrap(err: Error, code: Code): Error { Classified(Normalize(code), err) }

  /** errors.Is for a sentinel. */
  predicate Is(err: Error, target: Error)
    requires target.ContextCanceled? || target.DeadlineExceeded?
  {
    err == target || match err
                     case Prefixed(_, cause) => Is(cause, target)
                     case Classified(_, cause) => Is(cause, target)
                     case _ => false
  }

  /** errors.As for *Error. */
  function FirstClassified(err: Error): Option<Code> {
    match err
    case Classified(code, _) => Some(code)
    case Prefixed(_, cause) => FirstClassified(cause)
    case _ => None
  }

  /** errors.As for *parserResponseError. */
  function FirstResponse(err: Error): Option<Error> {
    match err
    case ParserResponse(_, _) => Some(err)
    case Prefixed(_, cause) => FirstResponse(cause)
    case Classified(_, cause) => FirstResponse(cause)
    case _ => None
  }

  /** errors.As for the VLM client's error. */
  function FirstApi(err: Error): Option<int> {
    match err
    case ApiResponse(status) => Some(status)
    case Prefixed(_, cause) => FirstApi(cause)
    case Classified(_, cause) => FirstApi(cause)
    case _ => None
  }

  function CodeOf(err: Error): Code {
    if Is(err, ContextCanceled) then Canceled
    else match FirstClassified(err)
         case Some(code) => Normalize(code)
         case None => Failed
  }

  predicate Unspecific(code: Code) { code == Failed || code == ParserFailed }

  function AtStage(err: Error, stage: Code): Error {
    if Unspecific(CodeOf(err)) then Wrap(err, stage) else err
  }

  // ----- Classification sees only part of a chain -----

  /** What a chain consists of, from the outside in, without any text. */
  datatype Layer =
    | CanceledLayer
    | DeadlineLayer
    | ResponseLayer(status: int, retryAfter: nat)
    | ApiLayer(status: int)
    | ClassifiedLayer(code: Code)

  /** The code of a layer, with untrusted codes made anonymous. */
  function Layers(err: Error): seq<Layer> {
    match err
    case Plain(_) => []
    case ContextCanceled => [CanceledLayer]
    case DeadlineExceeded => [DeadlineLayer]
    case ParserResponse(status, retryAfter) => [ResponseLayer(status, retryAfter)]
    case ApiResponse(status) => [ApiLayer(status)]
    case Prefixed(_, cause) => Layers(cause)
    case Classified(code, cause) => [ClassifiedLayer(Normalize(code))] + Layers(cause)
  }

  /** The public code of a chain, by position: cancellation anywhere, else the first
      classified layer, else none. */
  ghost predicate Verdict(layers: seq<Layer>, code: Code) {
    if CanceledLayer in layers then code == Canceled
    else if forall k :: 0 <= k < |layers| ==> !layers[k].ClassifiedLayer? then code == Failed
    else FirstClassifiedIs(layers, code)
  }

  ghost predicate FirstClassifiedIs(layers: seq<Layer>, code: Code) {
    exists k :: 0 <= k < |layers| && layers[k] == ClassifiedLayer(code) && forall j :: 0 <= j < k ==> !layers[j].ClassifiedLayer?
  }

  lemma {:induction false} CanceledIsLayer(err: Error)
    ensures Is(err, ContextCanceled) <==> CanceledLayer in Layers(err)
    decreases err
  {
    match err
    case Prefixed(_, cause) => CanceledIsLayer(cause);
    case Classified(_, cause) => CanceledIsLayer(cause);
    case _ =>
  }

  lemma {:induction false} DeadlineIsLayer(err: Error)
    ensures Is(err, DeadlineExceeded) <==> DeadlineLayer in Layers(err)
    decreases err
  {
    match err
    case Prefixed(_, cause) => DeadlineIsLayer(cause);
    case Classified(_, cause) => DeadlineIsLayer(cause);
    case _ =>
  }

  /** The status of the VLM client's error, if there is one in the chain. */
  ghost predicate FirstApiIs(layers: seq<Layer>, status: int) {
    exists k :: 0 <= k < |layers| && layers[k] == ApiLayer(status) && forall j :: 0 <= j < k ==> !layers[j].ApiLayer?
  }

  lemma {:induction false} FirstApiIsLayer(err: Error)
    ensures match FirstApi(err)
            case None => forall k :: 0 <= k < |Layers(err)| ==> !Layers(err)[k].ApiLayer?
            case Some(status) => FirstApiIs(Layers(err), status)
    decreases err
  {
    match err
    case Prefixed(_, cause) => FirstApiIsLayer(cause);
    case Classified(code, cause) =>
      FirstApiIsLayer(cause);
      if FirstApi(cause).Some? {
        var k :| 0 <= k < |Layers(cause)| && Layers(cause)[k] == ApiLayer(FirstApi(cause).value)
                 && forall j :: 0 <= j < k ==> !Layers(cause)[j].ApiLayer?;
        assert Layers(err)[k + 1] == Layers(cause)[k];
      }
    case ApiResponse(status) => assert Layers(err)[0] == ApiLayer(status);
    case _ =>
  }

  lemma {:induction false} FirstClassifiedIsLayer(err: Error)
    ensures match FirstClassified(err)
            case None => forall k :: 0 <= k < |Layers(err)| ==> !Layers(err)[k].ClassifiedLayer?
            case Some(code) => FirstClassifiedIs(Layers(err), Normalize(code))
    decreases err
  {
    match err
    case Prefixed(_, cause) => FirstClassifiedIsLayer(cause);
    case Classified(code, _) => assert Layers(err)[0] == ClassifiedLayer(Normalize(code));
    case _ =>
  }

  /** CodeOf answers the verdict on the layers. */
  lemma ClassificationIsVerdict(err: Error)
    ensures Verdict(Layers(err), CodeOf(err))
  {
    CanceledIsLayer(err);
    FirstClassifiedIsLayer(err);
  }

  lemma VerdictUnique(layers: seq<Layer>, a: Code, b: Code)
    requires Verdict(layers, a) && Verdict(layers, b)
    ensures a == b
  {
    if CanceledLayer !in layers && !(forall k :: 0 <= k < |layers| ==> !layers[k].ClassifiedLayer?) {
      var i :| 0 <= i < |layers| && layers[i] == ClassifiedLayer(a) && forall j :: 0 <= j < i ==> !layers[j].ClassifiedLayer?;
      var k :| 0 <= k < |layers| && layers[k] == ClassifiedLayer(b) && forall j :: 0 <= j < k ==> !layers[j].ClassifiedLayer?;
      assert i == k;
    }
  }

  /** Texts never matter, nor how often and where a chain was prefixed. */
  lemma TextNeverMatters(a: Error, b: Error, stage: Code)
    requires Layers(a) == Layers(b)
    ensures CodeOf(a) == CodeOf(b)
    ensures CodeOf(AtStage(a, stage)) == CodeOf(AtStage(b, stage))
    ensures FirstResponse(a) == FirstResponse(b)
  {
    ClassificationIsVerdict(a);
    ClassificationIsVerdict(b);
    VerdictUnique(Layers(a), CodeOf(a), CodeOf(b));
    CanceledIsLayer(a);
    CanceledIsLayer(b);
    ResponseIsLayer(a);
    ResponseIsLayer(b);
  }

  ghost function ResponseIn(layers: seq<Layer>): Option<Error> {
    if layers == [] then None
    else match layers[0]
         case ResponseLayer(status, retryAfter) => Some(ParserResponse(status, retryAfter))
         case _ => ResponseIn(layers[1..])
  }

  lemma {:induction false} ResponseIsLayer(err: Error)
    ensures FirstResponse(err) == ResponseIn(Layers(err))
    decreases err
  {
    match err
    case Prefixed(_, cause) => ResponseIsLayer(cause);
    case Classified(_, cause) =>
      ResponseIsLayer(cause);
      assert Layers(err)[1..] == Layers(cause);
    case _ =>
  }

  // ----- The way of an error to the caller -----

  /** What the functions on the way do to an error. */
  datatype Hop = Prefix(text: string) | Restage(stage: Code) | Rewrap(code: Code)

  function Travel(err: Error, hops: seq<Hop>): Error
    decreases |hops|
  {
    if hops == [] then err
    else
      var e := Travel(err, hops[..|hops| - 1]);
      match hops[|hops| - 1]
      case Prefix(text) => Prefixed(text, e)
      case Restage(stage) => AtStage(e, stage)
      case Rewrap(code) => Wrap(e, code)
  }

  predicate Keeps(hops: seq<Hop>) { forall i :: 0 <= i < |hops| ==> !hops[i].Rewrap? }

  /** A specific code survives every later prefix and every later stage. */
  lemma {:induction false} SpecificSurvives(err: Error, hops: seq<Hop>)
    requires !Unspecific(CodeOf(err)) && Keeps(hops)
    ensures CodeOf(Travel(err, hops)) == CodeOf(err)
    decreases |hops|
  {
    if hops != [] {
      SpecificSurvives(err, hops[..|hops| - 1]);
    }
  }

  /** The first stage wins: the code is fixed there and later stages cannot change it. */
  lemma FirstStageWins(err: Error, stage: Code, hops: seq<Hop>)
    requires !Unspecific(Normalize(stage)) && Keeps(hops)
    ensures CodeOf(Travel(AtStage(err, stage), hops)) == if Unspecific(CodeOf(err)) then stage else CodeOf(err)
  {
    SpecificSurvives(AtStage(err, stage), hops);
  }

  /** Nothing on the way hides a parser response or cancellation. */
  lemma {:induction false} TravelKeepsCauses(err: Error, hops: seq<Hop>)
    ensures FirstResponse(Travel(err, hops)) == FirstResponse(err)
    ensures Is(Travel(err, hops), ContextCanceled) == Is(err, ContextCanceled)
    decreases |hops|
  {
    if hops != [] {
      TravelKeepsCauses(err, hops[..|hops| - 1]);
    }
  }

  /** Cancellation inside a chain is always reported as such. */
  lemma CancellationPrevails(err: Error, hops: seq<Hop>)
    requires Is(err, ContextCanceled)
    ensures CodeOf(Travel(err, hops)) == Canceled
  {
    TravelKeepsCauses(err, hops);
  }
}
