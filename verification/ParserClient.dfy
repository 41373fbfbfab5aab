/** How the outcome of a parser run crosses to the router as a status and a code and
    becomes the answer to the caller: cmd/parserd/main.go, internal/server/parser_client.go,
    internal/server/vlm.go and internal/server/main.go. */
module ParserClient {
  import opened Wrappers
  import opened Errors

  const OK: int := 200
  const BAD_REQUEST: int := 400
  const TOO_LARGE: int := 413
  const UNPROCESSABLE: int := 422
  const TOO_MANY: int := 429
  const SERVER_ERROR: int := 500
  const UNAUTHORIZED: int := 401
  const FORBIDDEN: int := 403
  const MAX_ERROR_BYTES: nat := 4096
  const BUSY_SECONDS: int := 5

  // ----- The router's side -----

  /** The body of a response and, when it is an error payload, the code decoded from it. */
  datatype Read = ReadError(err: Error) | Body(bytes: string, code: Option<Code>)

  /** One HTTP exchange; retryHeader is 0 when the header is no number. */
  datatype Exchange =
    | BadRequest(err: Error)
    | NoResponse(err: Error)
    | Response(status: int, retryHeader: int, read: Read)

  /** The codes a broker may hand over. */
  predicate Trusted(code: Code) {
    code == Empty || code == ParserFailed || code == ParserTimeout || code == ParserOutputLimit
    || code == ParserUnavailable || code == Canceled
  }

  function RetryAfter(header: int): nat { if 1 <= header <= 60 then header else 0 }

  function TimeoutOr(err: Error, code: Code): Code {
    if Is(err, DeadlineExceeded) then ParserTimeout else code
  }

  /** What parserPost makes of an exchange. */
  function Outcome(x: Exchange, maxOutput: nat): Result<string, Error> {
    match x
    case BadRequest(err) => Failure(err)
    case NoResponse(err) => Failure(Wrap(err, TimeoutOr(err, ParserUnavailable)))
    case Response(status, header, read) =>
      var response := ParserResponse(status, RetryAfter(header));
      if status == TOO_MANY then Failure(response)
      else match read
           case ReadError(err) => Failure(Wrap(err, TimeoutOr(err, ParserInvalidResponse)))
           case Body(bytes, code) =>
             if |bytes| > (if status == OK then maxOutput else MAX_ERROR_BYTES) then
               Failure(Wrap(Plain("parser response too large"), ParserOutputLimit))
             else if status == OK then Success(bytes)
             else if status >= SERVER_ERROR then Failure(Wrap(response, ParserUnavailable))
             else if status == UNPROCESSABLE && code.Some? && Trusted(code.value) then Failure(Wrap(response, code.value))
             else Failure(response)
  }

  method ParserPost(x: Exchange, maxOutput: nat) returns (r: Result<string, Error>)
    ensures r == Outcome(x, maxOutput)
  {
    if x.BadRequest? {
      return Failure(x.err);
    }
    if x.NoResponse? {
      var code := ParserUnavailable;
      if Is(x.err, DeadlineExceeded) {
        code := ParserTimeout;
      }
      return Failure(Wrap(x.err, code));
    }
    var retryAfter := x.retryHeader;
    if retryAfter < 1 || retryAfter > 60 {
      retryAfter := 0;
    }
    var responseError := ParserResponse(x.status, retryAfter);
    if x.status == TOO_MANY {
      return Failure(responseError);
    }
    var maxResponseBytes := maxOutput;
    if x.status != OK {
      maxResponseBytes := MAX_ERROR_BYTES;
    }
    if x.read.ReadError? {
      var code := ParserInvalidResponse;
      if Is(x.read.err, DeadlineExceeded) {
        code := ParserTimeout;
      }
      return Failure(Wrap(x.read.err, code));
    }
    if |x.read.bytes| > maxResponseBytes {
      return Failure(Wrap(Plain("parser response too large"), ParserOutputLimit));
    }
    if x.status != OK {
      if x.status >= SERVER_ERROR {
        return Failure(Wrap(responseError, ParserUnavailable));
      }
      if x.status == UNPROCESSABLE && x.read.code.Some? {
        match x.read.code.value {
          case Empty | ParserFailed | ParserTimeout | ParserOutputLimit | ParserUnavailable | Canceled =>
            return Failure(Wrap(responseError, x.read.code.value));
          case _ =>
        }
      }
      return Failure(responseError);
    }
    return Success(x.read.bytes);
  }

  /** A body is handed on only whole and only with status 200. */
  lemma SuccessIsCompleteBody(x: Exchange, maxOutput: nat)
    ensures Outcome(x, maxOutput).Success? <==>
            x.Response? && x.status == OK && x.read.Body? && |x.read.bytes| <= maxOutput
    ensures Outcome(x, maxOutput).Success? ==> Outcome(x, maxOutput).value == x.read.bytes
  {
  }

  // ----- The answer to the caller -----

  datatype Reply =
    | Backpressure(retryAfter: nat)     // 429; the header is sent unless it would be 0
    | BadGateway(code: Code)            // 502

  /** The error branch of handleConvert with writeParserBackpressure. */
  function PublicReply(err: Error): Reply {
    match FirstResponse(err)
    case Some(response) =>
      if response.ParserResponse? && response.status == TOO_MANY then Backpressure(response.retryAfter)
      else BadGateway(Normalize(CodeOf(err)))
    case None => BadGateway(Normalize(CodeOf(err)))
  }

  // ----- Where the errors of a conversion start -----

  /** The stages of sidecarExtract and sidecarRender. */
  predicate ParserStage(stage: Code) { stage == ExtractionFailed || stage == RenderFailed }

  /** Errors of libraries: neither classified nor a parser response. */
  predicate Foreign(err: Error) { FirstClassified(err).None? && FirstResponse(err).None? }

  predicate ForeignExchange(x: Exchange) {
    match x
    case BadRequest(err) => Foreign(err)
    case NoResponse(err) => Foreign(err)
    case Response(_, _, read) => read.ReadError? ==> Foreign(read.err)
  }

  /** vlmCall: the code of a failed completion. */
  function OcrError(err: Error): Error {
    if Is(err, ContextCanceled) || Is(err, DeadlineExceeded) then
      Wrap(err, if Is(err, DeadlineExceeded) then OcrTimeout else OcrFailed)
    else match FirstApi(err)
         case None => Wrap(err, OcrUnavailable)
         case Some(status) =>
           Wrap(err, if status == UNAUTHORIZED || status == FORBIDDEN || status >= SERVER_ERROR then OcrUnavailable else OcrFailed)
  }

  datatype Origin =
    | ParserCall(exchange: Exchange, maxOutput: nat, stage: Code)
    | ParserJson(err: Error)                 // the body does not decode
    | OcrUninitialized
    | OcrCall(err: Error)
    | OcrEmpty
    | OcrAbandoned(err: Error)               // the context ended at the VLM gate
    | PageMissing(page: nat)
    | PoolEnded(err: Error)                  // no conversion failed, but the context ended

  /** The pool returns the bare error of its context, without a stage. That context is the
      one of the HTTP request, which ends when the client leaves; no code of the router
      gives it a deadline, so its error is the cancellation. */
  predicate OriginOk(o: Origin) {
    match o
    case ParserCall(x, max, stage) => ForeignExchange(x) && ParserStage(stage) && Outcome(x, max).Failure?
    case ParserJson(err) => Foreign(err)
    case OcrCall(err) => Foreign(err)
    case OcrAbandoned(err) => err == ContextCanceled || err == DeadlineExceeded
    case PoolEnded(err) => err == ContextCanceled
    case _ => true
  }

  /** The error as its first caller sees it, after the stage of that caller. */
  function ErrorAt(o: Origin): Error
    requires OriginOk(o)
  {
    match o
    case ParserCall(x, max, stage) => AtStage(Outcome(x, max).error, stage)
    case ParserJson(err) => Wrap(err, ParserInvalidResponse)
    case OcrUninitialized => AtStage(Wrap(Plain("VLM client not initialized"), OcrUnavailable), OcrFailed)
    case OcrCall(err) => AtStage(OcrError(err), OcrFailed)
    case OcrEmpty => AtStage(Wrap(Plain("vlm: empty response"), OcrFailed), OcrFailed)
    case OcrAbandoned(err) => AtStage(err, OcrFailed)
    case PageMissing(page) => AtStage(Plain("missing result"), OcrFailed)
    case PoolEnded(err) => err
  }

  /** The codes a caller can see with status 502. */
  predicate Public(code: Code) {
    !code.Failed? && !code.ParserFailed? && !code.ParserBusy? && !code.Unknown?
  }

  lemma ErrorAtIsPublic(o: Origin)
    requires OriginOk(o)
    ensures Public(CodeOf(ErrorAt(o)))
  {
    match o
    case ParserCall(x, max, stage) => StagedIsPublic(x, max, stage);
    case OcrCall(err) => OcrIsPublic(err);
    case _ =>
  }

  lemma OcrIsPublic(err: Error)
    requires Foreign(err)
    ensures CodeOf(AtStage(OcrError(err), OcrFailed)) in {OcrFailed, OcrUnavailable, OcrTimeout, Canceled}
  {
  }

  lemma StagedIsPublic(x: Exchange, maxOutput: nat, stage: Code)
    requires ForeignExchange(x) && ParserStage(stage) && Outcome(x, maxOutput).Failure?
    ensures Public(CodeOf(AtStage(Outcome(x, maxOutput).error, stage)))
  {
    var e := Outcome(x, maxOutput).error;
    FirstStageWins(e, stage, []);
    assert Travel(AtStage(e, stage), []) == AtStage(e, stage);
  }

  /** Whatever goes wrong, and however the error is prefixed and staged on its way, the
      caller gets 429 exactly for a busy broker and otherwise one of the public codes;
      the generic parser failure never reaches a caller. */
  lemma CallersSeePublicCodes(o: Origin, hops: seq<Hop>)
    requires OriginOk(o) && Keeps(hops)
    ensures var reply := PublicReply(Travel(ErrorAt(o), hops));
            if o.ParserCall? && o.exchange.Response? && o.exchange.status == TOO_MANY
            then reply == Backpressure(RetryAfter(o.exchange.retryHeader))
            else reply == BadGateway(CodeOf(ErrorAt(o))) && Public(reply.code)
  {
    var e := ErrorAt(o);
    ErrorAtIsPublic(o);
    SpecificSurvives(e, hops);
    TravelKeepsCauses(e, hops);
    OriginResponse(o);
  }

  // ----- The public code of every failure -----

  /** The code of a parser call that failed with no response to speak of, or whose body
      could not be read: a cancelled or late call by its reason, any other as given. */
  ghost function ByReason(err: Error, code: Code): Code {
    if CanceledLayer in Layers(err) then Canceled else if DeadlineLayer in Layers(err) then ParserTimeout else code
  }

  /** What the caller is told when a call of the parser fails at a stage. */
  ghost function ParserReply(x: Exchange, maxOutput: nat, stage: Code): Reply {
    match x
    case BadRequest(err) => BadGateway(if CanceledLayer in Layers(err) then Canceled else stage)
    case NoResponse(err) => BadGateway(ByReason(err, ParserUnavailable))
    case Response(status, header, read) =>
      if status == 429 then Backpressure(if 1 <= header <= 60 then header else 0)
      else match read
           case ReadError(err) => BadGateway(ByReason(err, ParserInvalidResponse))
           case Body(bytes, code) =>
             if |bytes| > (if status == 200 then maxOutput else 4096) then BadGateway(ParserOutputLimit)
             else if status >= 500 then BadGateway(ParserUnavailable)
             else if status == 422 && code.Some?
                     && code.value in {Empty, ParserTimeout, ParserOutputLimit, ParserUnavailable, Canceled}
             then BadGateway(code.value)
             else BadGateway(stage)
  }

  /** A refused connection, a deadline, a full broker, a broken or too long body, and every
      status: the reply to the caller, through any prefixes and later stages. */
  lemma ParserReplies(x: Exchange, maxOutput: nat, stage: Code, hops: seq<Hop>)
    requires ForeignExchange(x) && ParserStage(stage) && Outcome(x, maxOutput).Failure? && Keeps(hops)
    ensures PublicReply(Travel(AtStage(Outcome(x, maxOutput).error, stage), hops)) == ParserReply(x, maxOutput, stage)
  {
    CallersSeePublicCodes(ParserCall(x, maxOutput, stage), hops);
    if !(x.Response? && x.status == 429) { ParserCodes(x, maxOutput, stage); }
  }

  lemma ParserCodes(x: Exchange, maxOutput: nat, stage: Code)
    requires ForeignExchange(x) && ParserStage(stage) && Outcome(x, maxOutput).Failure?
    requires !(x.Response? && x.status == 429)
    ensures ParserReply(x, maxOutput, stage) == BadGateway(CodeOf(AtStage(Outcome(x, maxOutput).error, stage)))
  {
    match x
    case BadRequest(err) => CanceledIsLayer(err);
    case NoResponse(err) => CanceledIsLayer(err); DeadlineIsLayer(err);
    case Response(status, header, ReadError(err)) => CanceledIsLayer(err); DeadlineIsLayer(err);
    case Response(status, header, Body(bytes, code)) => BodyCodes(status, header, bytes, code, maxOutput, stage);
  }

  lemma StagedCode(e: Error, stage: Code)
    requires ParserStage(stage)
    ensures CodeOf(AtStage(e, stage)) == if Unspecific(CodeOf(e)) then stage else CodeOf(e)
  {
    FirstStageWins(e, stage, []);
    assert Travel(AtStage(e, stage), []) == AtStage(e, stage);
  }

  lemma WrappedCode(response: Error, code: Code)
    requires response.ParserResponse? || response.Plain?
    ensures CodeOf(response) == Failed && CodeOf(Wrap(response, code)) == Normalize(code)
  {
  }

  lemma BodyCodes(status: int, header: int, bytes: string, code: Option<Code>, maxOutput: nat, stage: Code)
    requires ParserStage(stage) && status != 429
    requires var x := Response(status, header, Body(bytes, code)); Outcome(x, maxOutput).Failure?
    ensures var x := Response(status, header, Body(bytes, code));
            ParserReply(x, maxOutput, stage) == BadGateway(CodeOf(AtStage(Outcome(x, maxOutput).error, stage)))
  {
    var response := ParserResponse(status, RetryAfter(header));
    StagedCode(Outcome(Response(status, header, Body(bytes, code)), maxOutput).error, stage);
    WrappedCode(response, ParserUnavailable);
    WrappedCode(Plain("parser response too large"), ParserOutputLimit);
    if code.Some? { WrappedCode(response, code.value); }
  }

  /** What the caller is told when a call of the VLM fails: cancelled and late calls by
      their reason; refused credentials, server errors and errors without a status as
      unavailable; other statuses as failed. */
  ghost predicate OcrCodeIs(err: Error, code: Code) {
    var layers := Layers(err);
    if CanceledLayer in layers then code == Canceled
    else if DeadlineLayer in layers then code == OcrTimeout
    else if forall k :: 0 <= k < |layers| ==> !layers[k].ApiLayer? then code == OcrUnavailable
    else exists status :: FirstApiIs(layers, status)
                          && code == if status == 401 || status == 403 || status >= 500 then OcrUnavailable else OcrFailed
  }

  lemma OcrReplies(err: Error, hops: seq<Hop>)
    requires Foreign(err) && Keeps(hops)
    ensures var reply := PublicReply(Travel(AtStage(OcrError(err), OcrFailed), hops));
            reply.BadGateway? && OcrCodeIs(err, reply.code)
  {
    CallersSeePublicCodes(OcrCall(err), hops);
    CanceledIsLayer(err);
    DeadlineIsLayer(err);
    FirstApiIsLayer(err);
    OcrCode(err);
  }

  lemma OcrCode(err: Error)
    requires Foreign(err)
    ensures CodeOf(AtStage(OcrError(err), OcrFailed)) ==
            if Is(err, ContextCanceled) then Canceled
            else if Is(err, DeadlineExceeded) then OcrTimeout
            else match FirstApi(err)
                 case None => OcrUnavailable
                 case Some(status) => if status == 401 || status == 403 || status >= 500 then OcrUnavailable else OcrFailed
  {
  }

  /** The failures without a cause of their own. */
  lemma OtherReplies(o: Origin, hops: seq<Hop>)
    requires OriginOk(o) && Keeps(hops) && !o.ParserCall? && !o.OcrCall?
    ensures PublicReply(Travel(ErrorAt(o), hops)) ==
            match o
            case ParserJson(err) => BadGateway(if CanceledLayer in Layers(err) then Canceled else ParserInvalidResponse)
            case OcrUninitialized => BadGateway(OcrUnavailable)
            case OcrAbandoned(err) => BadGateway(if err == ContextCanceled then Canceled else OcrFailed)
            case PoolEnded(_) => BadGateway(Canceled)
            case _ => BadGateway(OcrFailed)
  {
    CallersSeePublicCodes(o, hops);
    match o
    case ParserJson(err) => CanceledIsLayer(err);
    case _ =>
  }

  /** Were the context of a request given a deadline, the bare error of the pool would have
      the generic code. */
  lemma PoolEndedIsPublic(err: Error)
    requires err == ContextCanceled || err == DeadlineExceeded
    ensures PublicReply(err) == BadGateway(CodeOf(err)) && (Public(CodeOf(err)) <==> err == ContextCanceled)
  {
  }

  lemma OriginResponse(o: Origin)
    requires OriginOk(o)
    ensures FirstResponse(ErrorAt(o)) ==
            if o.ParserCall? then FirstResponse(Outcome(o.exchange, o.maxOutput).error) else None
    ensures FirstResponse(ErrorAt(o)).Some? ==>
              o.ParserCall? && o.exchange.Response?
              && FirstResponse(ErrorAt(o)).value == ParserResponse(o.exchange.status, RetryAfter(o.exchange.retryHeader))
  {
  }

  // ----- The broker's side -----

  /** How a parse request ends in the broker. */
  datatype Parse =
    | BadName | BadDpi | DocumentTooLarge
    | Busy                         // no parser slot within the queue timeout
    | Parsed(output: string)
    | ParseFailed(err: Error)      // parser.Run returned an error

  function CodeText(code: Code): (s: string)
    ensures |s| <= 40 || code.Unknown?
  {
    match code
    case Failed => "document_processing_failed"
    case Empty => "document_empty"
    case ExtractionFailed => "document_extraction_failed"
    case RenderFailed => "document_render_failed"
    case ParserFailed => "document_parser_failed"
    case ParserTimeout => "document_parser_timeout"
    case ParserOutputLimit => "document_parser_output_limit"
    case ParserUnavailable => "document_parser_unavailable"
    case ParserInvalidResponse => "document_parser_invalid_response"
    case ParserBusy => "document_parser_busy"
    case OcrFailed => "document_ocr_failed"
    case OcrUnavailable => "document_ocr_unavailable"
    case OcrTimeout => "document_ocr_timeout"
    case Canceled => "document_processing_canceled"
    case Unknown(text) => text
  }

  /** writeParserError: the JSON object with the code. */
  function Payload(code: Code): Read {
    Body("{\"code\":\"" + CodeText(code) + "\"}\n", Some(code))
  }

  function BrokerReply(p: Parse): Exchange {
    match p
    case BadName => Response(BAD_REQUEST, 0, Body("invalid document name\n", None))
    case BadDpi => Response(BAD_REQUEST, 0, Body("invalid dpi\n", None))
    case DocumentTooLarge => Response(TOO_LARGE, 0, Body("document too large\n", None))
    case Busy => Response(TOO_MANY, BUSY_SECONDS, Body("parser busy\n", None))
    case Parsed(output) => Response(OK, 0, Body(output, None))
    case ParseFailed(err) => Response(UNPROCESSABLE, 0, Payload(CodeOf(err)))
  }

  /** The specific reasons of a parser run that a caller is told. */
  predicate Kept(code: Code) { Trusted(code) && code != ParserFailed }

  lemma PayloadFits(err: Error)
    ensures Payload(CodeOf(err)).Body? && |Payload(CodeOf(err)).bytes| <= MAX_ERROR_BYTES
  {
  }

  /** The trip from the broker's error to the caller's code, however the error was built
      and whatever happens to it later: specific reasons arrive, every other failure
      arrives as the stage, and a busy broker as backpressure with its own delay. */
  lemma CodeTrip(p: Parse, maxOutput: nat, stage: Code, hops: seq<Hop>)
    requires ParserStage(stage) && Keeps(hops) && !p.Parsed?
    ensures var r := Outcome(BrokerReply(p), maxOutput);
            && r.Failure?
            && PublicReply(Travel(AtStage(r.error, stage), hops)) ==
               match p
               case Busy => Backpressure(BUSY_SECONDS)
               case ParseFailed(err) => BadGateway(if Kept(CodeOf(err)) then CodeOf(err) else stage)
               case _ => BadGateway(stage)
  {
    var o := ParserCall(BrokerReply(p), maxOutput, stage);
    if p.ParseFailed? {
      PayloadFits(p.err);
    }
    CallersSeePublicCodes(o, hops);
    FirstStageWins(Outcome(BrokerReply(p), maxOutput).error, stage, []);
  }

  /** A document that parsed arrives unchanged unless it exceeds the router's limit. */
  lemma DocumentTrip(output: string, maxOutput: nat, stage: Code)
    ensures Outcome(BrokerReply(Parsed(output)), maxOutput) ==
            if |output| <= maxOutput then Success(output)
            else Failure(Wrap(Plain("parser response too large"), ParserOutputLimit))
  {
  }
}
