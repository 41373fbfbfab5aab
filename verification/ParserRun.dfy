/** A sandboxed parser run (internal/parser/runner.go): two capped output buffers and
    the select that decides how the run ended. */
module ParserRun {
  import opened Wrappers
  import opened Errors
  import opened ParserClient

  const MAX_STDERR: nat := 1048576

  // ----- The capped buffer -----

  /** What a buffer holds and how often its signal channel was closed. */
  datatype Capped = Capped(content: seq<byte>, exceeded: bool, closes: nat)

  const FRESH := Capped([], false, 0)

  function Accept(b: Capped, limit: nat, data: seq<byte>): Capped {
    var remaining := limit - |b.content|;
    var content := if remaining <= 0 then b.content else b.content + if |data| > remaining then data[..remaining] else data;
    if |data| > remaining && !b.exceeded then Capped(content, true, b.closes + 1) else Capped(content, b.exceeded, b.closes)
  }

  function Feed(limit: nat, chunks: seq<seq<byte>>): Capped {
    if chunks == [] then FRESH else Accept(Feed(limit, chunks[..|chunks| - 1]), limit, chunks[|chunks| - 1])
  }

  function Concat(chunks: seq<seq<byte>>): seq<byte> {
    if chunks == [] then [] else Concat(chunks[..|chunks| - 1]) + chunks[|chunks| - 1]
  }

  function Prefix(s: seq<byte>, n: nat): seq<byte> { if |s| <= n then s else s[..n] }

  /** However the bytes arrive, the buffer holds the first `limit` of them and its signal
      has been closed once if there were more, never otherwise. */
  lemma {:induction false} FeedIsPrefix(limit: nat, chunks: seq<seq<byte>>)
    ensures var all := Concat(chunks);
            Feed(limit, chunks) == Capped(Prefix(all, limit), |all| > limit, if |all| > limit then 1 else 0)
    decreases |chunks|
  {
    if chunks != [] {
      var init, last := chunks[..|chunks| - 1], chunks[|chunks| - 1];
      FeedIsPrefix(limit, init);
      AcceptPrefix(limit, Concat(init), last);
    }
  }

  lemma AcceptPrefix(limit: nat, all: seq<byte>, data: seq<byte>)
    ensures var before := Capped(Prefix(all, limit), |all| > limit, if |all| > limit then 1 else 0);
            var next := all + data;
            Accept(before, limit, data) == Capped(Prefix(next, limit), |next| > limit, if |next| > limit then 1 else 0)
  {
    var next := all + data;
    if |next| > limit && |all| <= limit {
      assert next[..limit] == all + data[..limit - |all|];
    } else if |all| > limit {
      assert next[..limit] == all[..limit];
    }
  }

  class LimitedBuffer {
    const limit: nat
    var buffer: seq<byte>
    var wasExceeded: bool
    var signalClosed: bool
    var onceDone: bool
    ghost var closes: nat

    ghost predicate Valid()
      reads this
    {
      wasExceeded == signalClosed == onceDone && closes == if signalClosed then 1 else 0
    }

    ghost function State(): Capped
      reads this
    {
      Capped(buffer, wasExceeded, closes)
    }

    constructor (limit: nat)
      ensures Valid() && State() == FRESH && this.limit == limit
    {
      this.limit := limit;
      buffer, wasExceeded, signalClosed, onceDone, closes := [], false, false, false, 0;
    }

    /** Always accepts everything; what does not fit is dropped. */
    method Write(data: seq<byte>) returns (n: nat)
      requires Valid()
      modifies this
      ensures Valid() && n == |data|
      ensures State() == Accept(old(State()), limit, data)
    {
      n := |data|;
      var kept := data;
      var remaining := limit - |buffer|;
      if remaining > 0 {
        if |kept| > remaining {
          kept := kept[..remaining];
        }
        buffer := buffer + kept;
      }
      if n > remaining {
        if !onceDone {
          onceDone := true;
          wasExceeded := true;
          CloseSignal();
        }
      }
    }

    /** Closing a channel twice would panic. */
    method CloseSignal()
      requires !signalClosed
      modifies this`signalClosed, this`closes
      ensures signalClosed && closes == old(closes) + 1
    {
      signalClosed := true;
      closes := closes + 1;
    }
  }

  // ----- One run -----

  datatype Write = Out(data: seq<byte>) | Err(data: seq<byte>)

  /** What the child does: whether it starts, everything it writes, and its exit status. */
  datatype Child = Child(startError: Option<Error>, writes: seq<Write>, status: Option<Error>)

  datatype Context = Alive | Cancelled | TimedOut

  datatype Pick = Done | ContextDone | StdoutFull | StderrFull

  /** One possible course of a run: the select fires when `seen` writes have arrived and
      takes `pick`; Wait returns `waitError` when `delivered` writes have arrived. */
  datatype Course = Course(seen: nat, pick: Pick, delivered: nat, waitError: Option<Error>, context: Context, contextAtEnd: Context)

  function Stream(writes: seq<Write>, out: bool): seq<seq<byte>> {
    if writes == [] then []
    else Stream(writes[..|writes| - 1], out) +
         if writes[|writes| - 1].Out? == out then [writes[|writes| - 1].data] else []
  }

  function Stdout(writes: seq<Write>): seq<byte> { Concat(Stream(writes, true)) }

  function Stderr(writes: seq<Write>): seq<byte> { Concat(Stream(writes, false)) }

  /** The courses the operating system and the select statement allow: a case is taken
      only when it is ready, and Wait returns no error only when the child exited with
      success and everything it wrote has been copied. */
  ghost predicate Possible(c: Child, s: Course, maxOutput: nat) {
    && s.seen <= s.delivered <= |c.writes|
    && (s.waitError.None? ==> s.delivered == |c.writes| && c.status.None?)
    && (s.context != Alive ==> s.contextAtEnd == s.context)
    && match s.pick
       case Done => s.delivered == s.seen
       case ContextDone => s.context != Alive
       case StdoutFull => |Stdout(c.writes[..s.seen])| > maxOutput
       case StderrFull => |Stderr(c.writes[..s.seen])| > MAX_STDERR
  }

  function Exceeded(writes: seq<Write>, maxOutput: nat): bool {
    |Stdout(writes)| > maxOutput || |Stderr(writes)| > MAX_STDERR
  }

  /** The result of a run, from the bytes that had arrived when the child was reaped. */
  function RunResult(c: Child, s: Course, maxOutput: nat): Result<seq<byte>, Error>
    requires s.delivered <= |c.writes|
  {
    match c.startError
    case Some(err) => Failure(Wrap(err, ParserUnavailable))
    case None =>
      var arrived := c.writes[..s.delivered];
      if s.pick == ContextDone then
        Failure(if s.context == TimedOut then Wrap(DeadlineExceeded, ParserTimeout) else ContextCanceled)
      else if Exceeded(arrived, maxOutput) then Failure(Wrap(Plain("parser output limit exceeded"), ParserOutputLimit))
      else if s.contextAtEnd == TimedOut then Failure(Wrap(DeadlineExceeded, ParserTimeout))
      else match s.waitError
           case Some(err) => Failure(Wrap(err, ParserFailed))
           case None => Success(Stdout(arrived))
  }

  lemma StreamAppend(writes: seq<Write>, w: Write, out: bool)
    ensures Stream(writes + [w], out) == Stream(writes, out) + if w.Out? == out then [w.data] else []
  {
    assert (writes + [w])[..|writes|] == writes;
  }

  lemma FeedAppend(limit: nat, chunks: seq<seq<byte>>, data: seq<byte>)
    ensures Feed(limit, chunks + [data]) == Accept(Feed(limit, chunks), limit, data)
  {
    assert (chunks + [data])[..|chunks|] == chunks;
  }

  /** The copying goroutines of the two streams, for one write of the child. */
  method DeliverOne(ghost done: seq<Write>, w: Write, stdout: LimitedBuffer, stderr: LimitedBuffer)
    requires stdout != stderr && stdout.Valid() && stderr.Valid()
    requires stdout.State() == Feed(stdout.limit, Stream(done, true))
    requires stderr.State() == Feed(stderr.limit, Stream(done, false))
    modifies stdout, stderr
    ensures stdout.Valid() && stderr.Valid()
    ensures stdout.State() == Feed(stdout.limit, Stream(done + [w], true))
    ensures stderr.State() == Feed(stderr.limit, Stream(done + [w], false))
  {
    ghost var out, err := Stream(done, true), Stream(done, false);
    StreamAppend(done, w, true);
    StreamAppend(done, w, false);
    assert out + [] == out && err + [] == err;
    FeedAppend(stdout.limit, out, w.data);
    FeedAppend(stderr.limit, err, w.data);
    var n;
    match w {
      case Out(data) => n := stdout.Write(data);
      case Err(data) => n := stderr.Write(data);
    }
  }

  method Deliver(writes: seq<Write>, from: nat, to: nat, stdout: LimitedBuffer, stderr: LimitedBuffer)
    requires from <= to <= |writes| && stdout != stderr && stdout.Valid() && stderr.Valid()
    requires stdout.State() == Feed(stdout.limit, Stream(writes[..from], true))
    requires stderr.State() == Feed(stderr.limit, Stream(writes[..from], false))
    modifies stdout, stderr
    ensures stdout.Valid() && stderr.Valid()
    ensures stdout.State() == Feed(stdout.limit, Stream(writes[..to], true))
    ensures stderr.State() == Feed(stderr.limit, Stream(writes[..to], false))
    decreases |writes| - from
  {
    if from < to {
      assert writes[..from + 1] == writes[..from] + [writes[from]];
      DeliverOne(writes[..from], writes[from], stdout, stderr);
      Deliver(writes, from + 1, to, stdout, stderr);
    }
  }

  /** The buffer has received a stream: it holds what fits, and its signal tells whether all did. */
  ghost predicate Received(b: LimitedBuffer, chunks: seq<seq<byte>>)
    reads b
  {
    && b.Valid() && b.State() == Feed(b.limit, chunks)
    && b.wasExceeded == (|Concat(chunks)| > b.limit) && b.buffer == Prefix(Concat(chunks), b.limit)
  }

  method Receive(writes: seq<Write>, from: nat, to: nat, stdout: LimitedBuffer, stderr: LimitedBuffer)
    requires from <= to <= |writes| && stdout != stderr && stdout.Valid() && stderr.Valid()
    requires stdout.State() == Feed(stdout.limit, Stream(writes[..from], true))
    requires stderr.State() == Feed(stderr.limit, Stream(writes[..from], false))
    modifies stdout, stderr
    ensures Received(stdout, Stream(writes[..to], true)) && Received(stderr, Stream(writes[..to], false))
  {
    Deliver(writes, from, to, stdout, stderr);
    FeedIsPrefix(stdout.limit, Stream(writes[..to], true));
    FeedIsPrefix(stderr.limit, Stream(writes[..to], false));
  }

  /** runParserProcess on one possible course; `reaped` counts the receives from the
      channel that Wait reports to, `killed` the kills of the process group. */
  method RunParserProcess(c: Child, s: Course, maxOutput: nat)
    returns (r: Result<seq<byte>, Error>, reaped: nat, killed: nat)
    requires Possible(c, s, maxOutput)
    ensures r == RunResult(c, s, maxOutput)
    ensures reaped == if c.startError.Some? then 0 else 1
    ensures killed == if c.startError.Some? || s.pick == Done then 0 else 1
  {
    reaped, killed := 0, 0;
    var stdout := new LimitedBuffer(maxOutput);
    var stderr := new LimitedBuffer(MAX_STDERR);
    if c.startError.Some? {
      return Failure(Wrap(c.startError.value, ParserUnavailable)), reaped, killed;
    }
    Receive(c.writes, 0, s.seen, stdout, stderr);
    var runErr: Option<Error>;
    var limitName := "";
    match s.pick {
      case Done =>
        runErr, reaped := s.waitError, reaped + 1;
      case ContextDone =>
        killed := killed + 1;
        Receive(c.writes, s.seen, s.delivered, stdout, stderr);
        runErr, reaped := s.waitError, reaped + 1;
        if s.context == TimedOut {
          return Failure(Wrap(DeadlineExceeded, ParserTimeout)), reaped, killed;
        }
        return Failure(ContextCanceled), reaped, killed;
      case StdoutFull =>
        assert stdout.signalClosed;
        limitName := "stdout";
        killed := killed + 1;
        Receive(c.writes, s.seen, s.delivered, stdout, stderr);
        runErr, reaped := s.waitError, reaped + 1;
      case StderrFull =>
        assert stderr.signalClosed;
        limitName := "stderr";
        killed := killed + 1;
        Receive(c.writes, s.seen, s.delivered, stdout, stderr);
        runErr, reaped := s.waitError, reaped + 1;
    }
    StreamsGrow(c.writes, s.seen, s.delivered);
    r := Conclude(limitName, stdout, stderr, s.contextAtEnd, runErr);
  }

  /** The checks after the child has been reaped, in their order. */
  method Conclude(selected: string, stdout: LimitedBuffer, stderr: LimitedBuffer, contextAtEnd: Context, runErr: Option<Error>)
    returns (r: Result<seq<byte>, Error>)
    ensures r == if selected != "" || stdout.wasExceeded || stderr.wasExceeded then
                   Failure(Wrap(Plain("parser output limit exceeded"), ParserOutputLimit))
                 else if contextAtEnd == TimedOut then Failure(Wrap(DeadlineExceeded, ParserTimeout))
                 else match runErr case Some(err) => Failure(Wrap(err, ParserFailed)) case None => Success(stdout.buffer)
  {
    var limitName := selected;
    if stdout.wasExceeded {
      limitName := "stdout";
    } else if stderr.wasExceeded {
      limitName := "stderr";
    }
    if limitName != "" {
      return Failure(Wrap(Plain("parser output limit exceeded"), ParserOutputLimit));
    }
    if contextAtEnd == TimedOut {
      return Failure(Wrap(DeadlineExceeded, ParserTimeout));
    }
    if runErr.Some? {
      return Failure(Wrap(runErr.value, ParserFailed));
    }
    r := Success(stdout.buffer);
  }

  lemma {:induction false} StreamsGrow(writes: seq<Write>, a: nat, b: nat)
    requires a <= b <= |writes|
    ensures |Stdout(writes[..a])| <= |Stdout(writes[..b])|
    ensures |Stderr(writes[..a])| <= |Stderr(writes[..b])|
    decreases b - a
  {
    if a < b {
      StreamsGrow(writes, a, b - 1);
      assert writes[..b] == writes[..b - 1] + [writes[b - 1]];
      StreamAppend(writes[..b - 1], writes[b - 1], true);
      StreamAppend(writes[..b - 1], writes[b - 1], false);
      ConcatAppend(Stream(writes[..b - 1], true), writes[b - 1].data);
      ConcatAppend(Stream(writes[..b - 1], false), writes[b - 1].data);
    }
  }

  lemma ConcatAppend(chunks: seq<seq<byte>>, data: seq<byte>)
    ensures Concat(chunks + [data]) == Concat(chunks) + data
    ensures chunks + [] == chunks
  {
    assert (chunks + [data])[..|chunks|] == chunks;
  }

  // ----- The two streams, byte by byte -----

  /** How many bytes the first i writes sent to a stream. */
  function Sent(writes: seq<Write>, out: bool, i: nat): nat
    requires i <= |writes|
  {
    if i == 0 then 0 else Sent(writes, out, i - 1) + if writes[i - 1].Out? == out then |writes[i - 1].data| else 0
  }

  /** The bytes of one stream: every write to it stands where those before it end. */
  ghost predicate IsStream(bytes: seq<byte>, writes: seq<Write>, out: bool) {
    && |bytes| == Sent(writes, out, |writes|)
    && forall i :: 0 <= i < |writes| && writes[i].Out? == out ==> StandsAt(bytes, Sent(writes, out, i), writes[i].data)
  }

  predicate StandsAt(bytes: seq<byte>, a: nat, data: seq<byte>) { a + |data| <= |bytes| && bytes[a..a + |data|] == data }

  lemma {:induction false} SentByPrefix(writes: seq<Write>, out: bool, n: nat, i: nat)
    requires i <= n <= |writes|
    ensures Sent(writes[..n], out, i) == Sent(writes, out, i)
  {
    if i > 0 { SentByPrefix(writes, out, n, i - 1); }
  }

  lemma {:induction false} ConcatIsStream(writes: seq<Write>, out: bool)
    ensures IsStream(Concat(Stream(writes, out)), writes, out)
    decreases |writes|
  {
    if writes != [] {
      var init, last := writes[..|writes| - 1], writes[|writes| - 1];
      ConcatIsStream(init, out);
      assert init + [last] == writes;
      StreamAppend(init, last, out);
      ConcatAppend(Stream(init, out), last.data);
      OneMoreWrite(Concat(Stream(init, out)), init, last, out);
    }
  }

  lemma OneMoreWrite(bytes: seq<byte>, writes: seq<Write>, w: Write, out: bool)
    requires IsStream(bytes, writes, out)
    ensures IsStream(bytes + if w.Out? == out then w.data else [], writes + [w], out)
  {
    hide StandsAt;
    var rest, more := if w.Out? == out then w.data else [], writes + [w];
    LastSent(writes, w, out);
    forall i | 0 <= i < |more| && more[i].Out? == out ensures StandsAt(bytes + rest, Sent(more, out, i), more[i].data) {
      if i < |writes| {
        SentMore(writes, w, out, i);
        StandsLater(bytes, rest, Sent(writes, out, i), writes[i].data);
      } else {
        StandsLast(bytes, rest);
      }
    }
  }

  lemma SentMore(writes: seq<Write>, w: Write, out: bool, i: nat)
    requires i <= |writes|
    ensures Sent(writes + [w], out, i) == Sent(writes, out, i)
  {
    assert (writes + [w])[..|writes|] == writes;
    SentByPrefix(writes + [w], out, |writes|, i);
  }

  lemma LastSent(writes: seq<Write>, w: Write, out: bool)
    ensures Sent(writes + [w], out, |writes|) == Sent(writes, out, |writes|)
    ensures Sent(writes + [w], out, |writes| + 1) == Sent(writes, out, |writes|) + if w.Out? == out then |w.data| else 0
  {
    SentMore(writes, w, out, |writes|);
  }

  lemma StandsLast(bytes: seq<byte>, data: seq<byte>)
    ensures StandsAt(bytes + data, |bytes|, data)
  {
  }

  lemma StandsLater(bytes: seq<byte>, rest: seq<byte>, a: nat, data: seq<byte>)
    requires StandsAt(bytes, a, data)
    ensures StandsAt(bytes + rest, a, data)
  {
    assert (bytes + rest)[a..a + |data|] == bytes[a..a + |data|];
  }

  lemma OutputsAreStreams(writes: seq<Write>)
    ensures IsStream(Stdout(writes), writes, true)
    ensures IsStream(Stderr(writes), writes, false)
  {
    ConcatIsStream(writes, true);
    ConcatIsStream(writes, false);
  }

  lemma PartSent(writes: seq<Write>, n: nat)
    requires n <= |writes|
    ensures |Stdout(writes[..n])| == Sent(writes, true, n)
    ensures |Stderr(writes[..n])| == Sent(writes, false, n)
  {
    OutputsAreStreams(writes[..n]);
    SentByPrefix(writes, true, n, n);
    SentByPrefix(writes, false, n, n);
  }

  // ----- What a result says about the child -----

  /** No error means that the child succeeded, that the result is everything it wrote to
      stdout and that both streams stayed within their limits. */
  lemma SuccessIsComplete(c: Child, s: Course, maxOutput: nat)
    requires Possible(c, s, maxOutput) && RunResult(c, s, maxOutput).Success?
    ensures c.startError.None? && c.status.None?
    ensures IsStream(RunResult(c, s, maxOutput).value, c.writes, true)
    ensures Sent(c.writes, true, |c.writes|) <= maxOutput && Sent(c.writes, false, |c.writes|) <= 1048576
  {
    assert c.writes[..|c.writes|] == c.writes;
    OutputsAreStreams(c.writes);
  }

  /** A well-behaved child within its limits and its time is never refused. */
  lemma WellBehavedSucceeds(c: Child, s: Course, maxOutput: nat)
    requires Possible(c, s, maxOutput) && c.startError.None?
    requires s.waitError.None? && s.contextAtEnd == Alive && !Exceeded(c.writes, maxOutput)
    ensures RunResult(c, s, maxOutput) == Success(Stdout(c.writes))
  {
    assert c.writes[..|c.writes|] == c.writes;
    assert s.context == Alive;
  }

  /** Too much output is never passed off as a result, whatever the select saw first. */
  lemma OverflowNeverSucceeds(c: Child, s: Course, maxOutput: nat)
    requires Possible(c, s, maxOutput) && c.startError.None? && Exceeded(c.writes[..s.delivered], maxOutput)
    ensures RunResult(c, s, maxOutput).Failure?
    ensures CodeOf(RunResult(c, s, maxOutput).error) in {ParserOutputLimit, ParserTimeout, Canceled}
    ensures s.context == Alive ==> CodeOf(RunResult(c, s, maxOutput).error) == ParserOutputLimit
  {
  }

  /** Library errors of starting and waiting: unclassified and not a cancellation. */
  predicate Unrelated(e: Option<Error>) {
    e.Some? ==> Foreign(e.value) && !Is(e.value, ContextCanceled)
  }

  /** The code of a failed run. */
  function RunCode(c: Child, s: Course, maxOutput: nat): Code
    requires s.delivered <= |c.writes|
  {
    if c.startError.Some? then ParserUnavailable
    else if s.pick == ContextDone then (if s.context == TimedOut then ParserTimeout else Canceled)
    else if Sent(c.writes, true, s.delivered) > maxOutput || Sent(c.writes, false, s.delivered) > 1048576 then ParserOutputLimit
    else if s.contextAtEnd == TimedOut then ParserTimeout
    else ParserFailed
  }

  lemma RunCodeIsCode(c: Child, s: Course, maxOutput: nat)
    requires Possible(c, s, maxOutput) && RunResult(c, s, maxOutput).Failure?
    requires Unrelated(c.startError) && Unrelated(s.waitError)
    ensures CodeOf(RunResult(c, s, maxOutput).error) == RunCode(c, s, maxOutput)
  {
    PartSent(c.writes, s.delivered);
  }

  /** When a run fails: exactly if the child could not be started, the select saw the end of
      the context, a stream sent too much, the time was up at the end, or Wait failed. */
  lemma RunFailsIff(c: Child, s: Course, maxOutput: nat)
    requires Possible(c, s, maxOutput)
    ensures RunResult(c, s, maxOutput).Failure? <==>
            || c.startError.Some? || s.pick == ContextDone || s.contextAtEnd == TimedOut || s.waitError.Some?
            || Sent(c.writes, true, s.delivered) > maxOutput || Sent(c.writes, false, s.delivered) > 1048576
  {
    PartSent(c.writes, s.delivered);
  }

  /** The whole way of a failed run: limit, timeout, start failure and cancellation are
      told to the caller; every other failure is told as the stage it happened in. */
  lemma RunToCaller(c: Child, s: Course, maxOutput: nat, routerLimit: nat, stage: Code, hops: seq<Hop>)
    requires Possible(c, s, maxOutput) && RunResult(c, s, maxOutput).Failure?
    requires Unrelated(c.startError) && Unrelated(s.waitError)
    requires ParserStage(stage) && Keeps(hops)
    ensures var code := RunCode(c, s, maxOutput);
            var r := Outcome(BrokerReply(ParseFailed(RunResult(c, s, maxOutput).error)), routerLimit);
            r.Failure? && PublicReply(Travel(AtStage(r.error, stage), hops)) == BadGateway(if code == ParserFailed then stage else code)
  {
    RunCodeIsCode(c, s, maxOutput);
    CodeTrip(ParseFailed(RunResult(c, s, maxOutput).error), routerLimit, stage, hops);
  }
}
