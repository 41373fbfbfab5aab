/** Every request of the router at once: acquireRequestSlot, body buffering, the
    worker pool and the deferred release, over any number of requests, files and
    pages and any gate capacities. A step is one channel operation, one context
    event or one return of code that touches no gate. */
module Admission {
  import opened Sums
  import opened Wrappers
  import opened WorkerPool

  datatype Outcome =
    | QueueFull                       // 429, nothing was held
    | QueueTimeout                    // 429 after waiting for an active slot
    | ClientLeft                      // context ended in the queue
    | Rejected                        // malformed request body
    | Answered(results: seq<Option<string>>)
    | ConversionFailed(error: FileError)
    | ContextEnded                    // nil pool error but the context is over

  datatype Phase =
    | Arriving                        // before the select that tries the queue
    | Queued                          // holds a queue token, waits for an active slot
    | Admitted                        // holds both, about to return the queue token
    | Leaving(outcome: Outcome)       // gave up, about to return the queue token
    | Buffering                       // holds an active token and reads the body
    | Converting(pool: Pool)          // holds an active token
    | Releasing(outcome: Outcome)     // deferred release still to run
    | Finished(outcome: Outcome)

  datatype Request = Request(files: seq<File>, clientGone: bool, phase: Phase)

  datatype State = State(gates: Gates, requests: seq<Request>)

  datatype Action =
    | Enqueue | Refuse | Activate | DrainQueue | GiveUp | TimeOut | LeaveQueue
    | Reject | StartPool | Work(worker: nat, action: WorkerAction) | Join | Release | ClientLeaves

  /** Steps that only a timer or a cancellation can cause or enable. */
  predicate External(a: Action) {
    || a.TimeOut? || a.ClientLeaves? || a.GiveUp?
    || (a.Work? && (a.action.SeeDone? || a.action.AbandonJob? || a.action.PageAbandon?))
  }

  /** What convertUploadedFilesWith returns once both workers are done. */
  function JoinOutcome(clientGone: bool, p: Pool): Outcome {
    match p.firstError
    case Some(e) => ConversionFailed(e)
    case None => if clientGone || p.cancelled then ContextEnded else Answered(p.results)
  }

  function RequestStep(cap: Gates, g: Gates, r: Request, a: Action): Option<(Gates, Request)> {
    var ph := r.phase;
    match a
    case Enqueue =>
      if ph.Arriving? && g.queue < cap.queue then Some((g.(queue := g.queue + 1), r.(phase := Queued))) else None
    case Refuse =>
      if ph.Arriving? && g.queue >= cap.queue then Some((g, r.(phase := Finished(QueueFull)))) else None
    case Activate =>
      if ph.Queued? && g.active < cap.active then Some((g.(active := g.active + 1), r.(phase := Admitted))) else None
    case DrainQueue =>
      if ph.Admitted? && g.queue > 0 then Some((g.(queue := g.queue - 1), r.(phase := Buffering))) else None
    case GiveUp => if ph.Queued? && r.clientGone then Some((g, r.(phase := Leaving(ClientLeft)))) else None
    case TimeOut => if ph.Queued? then Some((g, r.(phase := Leaving(QueueTimeout)))) else None
    case LeaveQueue =>
      if ph.Leaving? && g.queue > 0 then Some((g.(queue := g.queue - 1), r.(phase := Finished(ph.outcome)))) else None
    case Reject => if ph.Buffering? then Some((g, r.(phase := Releasing(Rejected)))) else None
    case StartPool =>
      if ph.Buffering? && r.files != [] then Some((g, r.(phase := Converting(NewPool(r.files))))) else None
    case Work(k, wa) =>
      if !ph.Converting? then None
      else (match PoolStep(cap, r.files, r.clientGone, g, ph.pool, k, wa)
        case None => None
        case Some((g', p')) => Some((g', r.(phase := Converting(p')))))
    case Join =>
      if ph.Converting? && forall k :: 0 <= k < |ph.pool.workers| ==> ph.pool.workers[k].Exited? then
        Some((g, r.(phase := Releasing(JoinOutcome(r.clientGone, ph.pool)))))
      else None
    case Release =>
      if ph.Releasing? && g.active > 0 then Some((g.(active := g.active - 1), r.(phase := Finished(ph.outcome)))) else None
    case ClientLeaves =>
      if !r.clientGone && !ph.Finished? then Some((g, r.(clientGone := true))) else None
  }

  function Step(cap: Gates, s: State, i: nat, a: Action): Option<State> {
    if i >= |s.requests| then None
    else match RequestStep(cap, s.gates, s.requests[i], a)
      case None => None
      case Some((g', r')) => Some(State(g', s.requests[i := r']))
  }

  // ----- Token accounting -----

  function QueueHeld(r: Request): nat {
    if r.phase.Queued? || r.phase.Admitted? || r.phase.Leaving? then 1 else 0
  }

  function ActiveHeld(r: Request): nat {
    if r.phase.Admitted? || r.phase.Buffering? || r.phase.Converting? || r.phase.Releasing? then 1 else 0
  }

  function DocumentHeld(r: Request): nat {
    if r.phase.Converting? then Sum(r.phase.pool.workers, DocumentHolds) else 0
  }

  function VlmHeld(r: Request): nat {
    if r.phase.Converting? then Sum(r.phase.pool.workers, VlmHolds) else 0
  }

  /** Every gate holds exactly the tokens of its holders, and no gate overflows. */
  ghost predicate Accounted(cap: Gates, s: State) {
    && s.gates.queue == Sum(s.requests, QueueHeld) <= cap.queue
    && s.gates.active == Sum(s.requests, ActiveHeld) <= cap.active
    && s.gates.document == Sum(s.requests, DocumentHeld) <= cap.document
    && s.gates.vlm == Sum(s.requests, VlmHeld) <= cap.vlm
  }

  function Rank(r: Request): nat {
    (if r.clientGone then 0 else 1) +
    match r.phase
    case Arriving => Backlog(r.files, 0) + 8
    case Queued => Backlog(r.files, 0) + 7
    case Admitted => Backlog(r.files, 0) + 6
    case Buffering => Backlog(r.files, 0) + 5
    case Converting(p) => PoolRank(r.files, p) + 2
    case Leaving(_) => 1
    case Releasing(_) => 1
    case Finished(_) => 0
  }

  ghost predicate OutcomeOk(r: Request, o: Outcome) {
    match o
    case Answered(results) =>
      && |results| == |r.files| > 0
      && forall i :: 0 <= i < |r.files| ==> results[i] == Some(r.files[i].document)
    case ConversionFailed(e) => e.cause != PoolCancelled && (e.cause == ClientGone ==> r.clientGone)
    case ContextEnded => r.clientGone
    case ClientLeft => r.clientGone
    case _ => true
  }

  ghost predicate RequestOk(r: Request) {
    match r.phase
    case Converting(p) => r.files != [] && PoolOk(r.files, r.clientGone, p)
    case Leaving(o) => OutcomeOk(r, o)
    case Releasing(o) => OutcomeOk(r, o)
    case Finished(o) => OutcomeOk(r, o)
    case _ => true
  }

  ghost predicate Inv(cap: Gates, s: State) {
    && Accounted(cap, s)
    && forall i :: 0 <= i < |s.requests| ==> RequestOk(s.requests[i])
  }

  ghost predicate Init(s: State) {
    && s.gates == Gates(0, 0, 0, 0)
    && forall i :: 0 <= i < |s.requests| ==> s.requests[i].phase.Arriving?
  }

  lemma RequestStepAccounts(cap: Gates, g: Gates, r: Request, a: Action)
    requires RequestStep(cap, g, r, a).Some?
    ensures var (g', r') := RequestStep(cap, g, r, a).value;
            && g'.queue + QueueHeld(r) == g.queue + QueueHeld(r')
            && g'.active + ActiveHeld(r) == g.active + ActiveHeld(r')
            && g'.document + DocumentHeld(r) == g.document + DocumentHeld(r')
            && g'.vlm + VlmHeld(r) == g.vlm + VlmHeld(r')
            && (g'.queue <= g.queue || g'.queue <= cap.queue)
            && (g'.active <= g.active || g'.active <= cap.active)
            && (g'.document <= g.document || g'.document <= cap.document)
            && (g'.vlm <= g.vlm || g'.vlm <= cap.vlm)
            && Rank(r') < Rank(r)
  {
    match a {
      case Work(k, wa) =>
        PoolStepAccounts(cap, r.files, r.clientGone, g, r.phase.pool, k, wa);
      case StartPool => NewPoolOk(r.files, r.clientGone);
      case Join => ExitedHoldNothing(r.phase.pool);
      case _ =>
    }
  }

  lemma ExitedHoldNothing(p: Pool)
    requires AllExited(p)
    ensures Sum(p.workers, DocumentHolds) == 0 && Sum(p.workers, VlmHolds) == 0
  {
    SumConstant(p.workers, DocumentHolds, 0);
    SumConstant(p.workers, VlmHolds, 0);
  }

  lemma RequestStepKeepsOk(cap: Gates, g: Gates, r: Request, a: Action)
    requires RequestOk(r) && RequestStep(cap, g, r, a).Some?
    ensures RequestOk(RequestStep(cap, g, r, a).value.1)
    ensures RequestStep(cap, g, r, a).value.1.files == r.files
  {
    var (g', r') := RequestStep(cap, g, r, a).value;
    match a {
      case Work(k, wa) => PoolStepKeepsOk(cap, r.files, r.clientGone, g, r.phase.pool, k, wa, r'.phase.pool);
      case StartPool => NewPoolOk(r.files, r.clientGone);
      case Join =>
        if r'.phase.outcome.Answered? {
          JoinedResults(r.files, r.clientGone, r.phase.pool);
        }
      case ClientLeaves =>
        if r.phase.Converting? { PoolOkMonotone(r.files, r.phase.pool); }
      case _ =>
    }
  }

  lemma StepKeepsInv(cap: Gates, s: State, i: nat, a: Action)
    requires Inv(cap, s) && Step(cap, s, i, a).Some?
    ensures Inv(cap, Step(cap, s, i, a).value)
    ensures Sum(Step(cap, s, i, a).value.requests, Rank) < Sum(s.requests, Rank)
  {
    var r := s.requests[i];
    var (g', r') := RequestStep(cap, s.gates, r, a).value;
    RequestStepAccounts(cap, s.gates, r, a);
    RequestStepKeepsOk(cap, s.gates, r, a);
    SumUpdate(s.requests, QueueHeld, i, r');
    SumUpdate(s.requests, ActiveHeld, i, r');
    SumUpdate(s.requests, DocumentHeld, i, r');
    SumUpdate(s.requests, VlmHeld, i, r');
    SumUpdate(s.requests, Rank, i, r');
  }

  lemma InitInv(cap: Gates, s: State)
    requires Init(s)
    ensures Inv(cap, s)
  {
    SumConstant(s.requests, QueueHeld, 0);
    SumConstant(s.requests, ActiveHeld, 0);
    SumConstant(s.requests, DocumentHeld, 0);
    SumConstant(s.requests, VlmHeld, 0);
  }

  // ----- Runs -----

  ghost predicate Moves(cap: Gates, s: State, s': State) {
    exists i: nat, a: Action :: Step(cap, s, i, a) == Some(s')
  }

  ghost predicate IsRun(cap: Gates, run: seq<State>) {
    && run != [] && Init(run[0])
    && forall n :: 0 <= n < |run| - 1 ==> Moves(cap, run[n], run[n + 1])
  }

  /** Safety over every run and interleaving, and a bound on its length. */
  lemma {:induction false} RunInv(cap: Gates, run: seq<State>)
    requires IsRun(cap, run)
    ensures Inv(cap, run[|run| - 1])
    ensures Sum(run[|run| - 1].requests, Rank) + |run| - 1 <= Sum(run[0].requests, Rank)
    decreases |run|
  {
    if |run| == 1 {
      InitInv(cap, run[0]);
    } else {
      var before := run[..|run| - 1];
      forall n | 0 <= n < |before| - 1 ensures Moves(cap, before[n], before[n + 1]) {
        assert Moves(cap, run[n], run[n + 1]);
      }
      RunInv(cap, before);
      var s, s' := run[|run| - 2], run[|run| - 1];
      assert Moves(cap, s, s');
      var i: nat, a: Action :| Step(cap, s, i, a) == Some(s');
      StepKeepsInv(cap, s, i, a);
    }
  }

  // ----- Admission bounds -----

  function HoldsBody(r: Request): nat {
    if r.phase.Buffering? || r.phase.Converting? || r.phase.Releasing? then 1 else 0
  }

  function InService(r: Request): nat {
    if r.phase.Arriving? || r.phase.Finished? then 0 else 1
  }

  /** The limits compose as maxActive + maxQueued, bodies are held by active requests
      only, no request runs more than two conversions, and a worker about to return
      a token finds one to return. */
  lemma AdmissionBounds(cap: Gates, s: State)
    requires Inv(cap, s)
    ensures Sum(s.requests, HoldsBody) <= cap.active
    ensures Sum(s.requests, InService) <= cap.active + cap.queue
    ensures forall i :: 0 <= i < |s.requests| ==> DocumentHeld(s.requests[i]) <= 2
    ensures forall i :: 0 <= i < |s.requests| ==>
              var r := s.requests[i];
              && (QueueHeld(r) > 0 ==> s.gates.queue > 0)
              && (ActiveHeld(r) > 0 ==> s.gates.active > 0)
              && (DocumentHeld(r) > 0 ==> s.gates.document > 0)
              && (VlmHeld(r) > 0 ==> s.gates.vlm > 0)
  {
    SumCompare(s.requests, HoldsBody, s.requests, ActiveHeld);
    SumPlus(s.requests, ActiveHeld, QueueHeld, InService);
    forall i | 0 <= i < |s.requests|
      ensures DocumentHeld(s.requests[i]) <= 2
      ensures var r := s.requests[i];
              && (QueueHeld(r) > 0 ==> s.gates.queue > 0)
              && (ActiveHeld(r) > 0 ==> s.gates.active > 0)
              && (DocumentHeld(r) > 0 ==> s.gates.document > 0)
              && (VlmHeld(r) > 0 ==> s.gates.vlm > 0)
    {
      SumTerm(s.requests, QueueHeld, i);
      SumTerm(s.requests, ActiveHeld, i);
      SumTerm(s.requests, DocumentHeld, i);
      SumTerm(s.requests, VlmHeld, i);
      AtMostTwoConversions(s.requests[i]);
    }
  }

  lemma AtMostTwoConversions(r: Request)
    requires RequestOk(r)
    ensures DocumentHeld(r) <= 2
  {
    if r.phase.Converting? {
      var ws := r.phase.pool.workers;
      SumCompare(ws, DocumentHolds, ws, (w: Worker) => 1);
      SumConstant(ws, (w: Worker) => 1, 1);
      assert Sum(ws, DocumentHolds) <= |ws|;
    }
  }

  // ----- Progress -----

  ghost predicate AllFinished(s: State) {
    forall i :: 0 <= i < |s.requests| ==> s.requests[i].phase.Finished?
  }

  ghost predicate Positive(cap: Gates) {
    cap.queue > 0 && cap.active > 0 && cap.document > 0 && cap.vlm > 0
  }

  /** Every gate opens for a request exactly while fewer requests hold its tokens than it
      has; only a full queue refuses, and it always does. */
  lemma GatesOpenExactly(cap: Gates, s: State, i: nat)
    requires Inv(cap, s) && i < |s.requests|
    ensures var ph := s.requests[i].phase;
            && (Step(cap, s, i, Enqueue).Some? <==> ph.Arriving? && Sum(s.requests, QueueHeld) < cap.queue)
            && (Step(cap, s, i, Refuse).Some? <==> ph.Arriving? && Sum(s.requests, QueueHeld) == cap.queue)
            && (Step(cap, s, i, Activate).Some? <==> ph.Queued? && Sum(s.requests, ActiveHeld) < cap.active)
            && (Step(cap, s, i, GiveUp).Some? <==> ph.Queued? && s.requests[i].clientGone)
            && (Step(cap, s, i, TimeOut).Some? <==> ph.Queued?)
            && forall k :: ph.Converting? && 0 <= k < |ph.pool.workers| ==> WorkerGatesOpen(cap, s, i, k)
  {
    var ph := s.requests[i].phase;
    if ph.Converting? {
      forall k | 0 <= k < |ph.pool.workers| ensures WorkerGatesOpen(cap, s, i, k) {
        WorkerGatesOpenExactly(cap, s, i, k);
      }
    }
  }

  ghost predicate WorkerGatesOpen(cap: Gates, s: State, i: nat, k: nat)
    requires i < |s.requests| && s.requests[i].phase.Converting? && k < |s.requests[i].phase.pool.workers|
  {
    var w := s.requests[i].phase.pool.workers[k];
    && (Step(cap, s, i, Work(k, AcquireDocument)).Some? <==> w.Gating? && Sum(s.requests, DocumentHeld) < cap.document)
    && forall n: nat :: Step(cap, s, i, Work(k, PageAcquire(n))).Some? <==>
                        w.Recognizing? && n < |w.pages| && w.pages[n].Waiting? && Sum(s.requests, VlmHeld) < cap.vlm
  }

  lemma WorkerGatesOpenExactly(cap: Gates, s: State, i: nat, k: nat)
    requires Inv(cap, s) && i < |s.requests| && s.requests[i].phase.Converting? && k < |s.requests[i].phase.pool.workers|
    ensures WorkerGatesOpen(cap, s, i, k)
  {
  }

  /** Deadlock freedom: with positive capacities some step that needs neither a timer
      nor a cancellation is enabled until every request has finished. */
  lemma Progress(cap: Gates, s: State) returns (i: nat, a: Action)
    requires Inv(cap, s) && Positive(cap) && !AllFinished(s)
    ensures !External(a) && Step(cap, s, i, a).Some?
  {
    if s.gates.vlm > 0 {
      i, a := VlmHolderMoves(cap, s);
    } else if s.gates.document > 0 {
      i, a := DocumentHolderMoves(cap, s);
    } else if s.gates.active > 0 {
      i, a := ActiveHolderMoves(cap, s);
    } else {
      i :| 0 <= i < |s.requests| && !s.requests[i].phase.Finished?;
      SumTerm(s.requests, ActiveHeld, i);
      SumTerm(s.requests, QueueHeld, i);
      match s.requests[i].phase {
        case Arriving => a := if s.gates.queue < cap.queue then Enqueue else Refuse;
        case Queued => a := Activate;
        case Leaving(_) => a := LeaveQueue;
      }
    }
  }

  lemma VlmHolderMoves(cap: Gates, s: State) returns (i: nat, a: Action)
    requires Inv(cap, s) && s.gates.vlm > 0
    ensures !External(a) && Step(cap, s, i, a).Some?
  {
    i := PositiveTerm(s.requests, VlmHeld);
    var r := s.requests[i];
    var k := PositiveTerm(r.phase.pool.workers, VlmHolds);
    var wa := CallerMoves(cap, r.files, r.clientGone, s.gates, r.phase.pool, k);
    a := Work(k, wa);
  }

  lemma DocumentHolderMoves(cap: Gates, s: State) returns (i: nat, a: Action)
    requires Inv(cap, s) && s.gates.document > 0 && s.gates.vlm == 0 < cap.vlm
    ensures !External(a) && Step(cap, s, i, a).Some?
  {
    i := PositiveTerm(s.requests, DocumentHeld);
    var r := s.requests[i];
    var k := PositiveTerm(r.phase.pool.workers, DocumentHolds);
    SumTerm(s.requests, VlmHeld, i);
    SumTerm(r.phase.pool.workers, VlmHolds, k);
    var wa := HolderMoves(cap, r.files, r.clientGone, s.gates, r.phase.pool, k);
    a := Work(k, wa);
  }

  lemma ActiveHolderMoves(cap: Gates, s: State) returns (i: nat, a: Action)
    requires Inv(cap, s) && s.gates.active > 0 && s.gates.document == 0 < cap.document
    ensures !External(a) && Step(cap, s, i, a).Some?
  {
    i := PositiveTerm(s.requests, ActiveHeld);
    var r := s.requests[i];
    SumTerm(s.requests, QueueHeld, i);
    SumTerm(s.requests, DocumentHeld, i);
    assert RequestOk(r);
    match r.phase {
      case Admitted => a := DrainQueue;
      case Buffering => a := Reject;
      case Releasing(_) => a := Release;
      case Converting(p) =>
        if AllExited(p) {
          a := Join;
        } else {
          forall k | 0 <= k < |p.workers| ensures DocumentHolds(p.workers[k]) == 0 {
            SumTerm(p.workers, DocumentHolds, k);
          }
          var k, wa := IdlePoolMoves(cap, r.files, r.clientGone, s.gates, p);
          a := Work(k, wa);
        }
    }
  }

  ghost predicate Stuck(cap: Gates, s: State) {
    forall i: nat, a: Action :: Step(cap, s, i, a).None?
  }

  /** Every run that cannot be extended has finished every request, returned every
      token, and was no longer than the work it started with. */
  lemma MaximalRunsFinish(cap: Gates, run: seq<State>)
    requires IsRun(cap, run) && Positive(cap) && Stuck(cap, run[|run| - 1])
    ensures AllFinished(run[|run| - 1])
    ensures run[|run| - 1].gates == Gates(0, 0, 0, 0)
    ensures |run| <= Sum(run[0].requests, Rank) + 1
  {
    var s := run[|run| - 1];
    RunInv(cap, run);
    if !AllFinished(s) {
      var i, a := Progress(cap, s);
      assert false;
    }
    SumConstant(s.requests, QueueHeld, 0);
    SumConstant(s.requests, ActiveHeld, 0);
    SumConstant(s.requests, DocumentHeld, 0);
    SumConstant(s.requests, VlmHeld, 0);
  }

  /** Over all interleavings: an answer holds the result of every file at its index, and
      a reported error is never the pool's own cancellation. */
  lemma RunOutcomes(cap: Gates, run: seq<State>, i: nat)
    requires IsRun(cap, run) && i < |run[|run| - 1].requests|
    requires run[|run| - 1].requests[i].phase.Finished?
    ensures var r := run[|run| - 1].requests[i];
            && (r.phase.outcome.Answered? ==>
                 && |r.phase.outcome.results| == |r.files|
                 && forall n :: 0 <= n < |r.files| ==> r.phase.outcome.results[n] == Some(r.files[n].document))
            && (r.phase.outcome.ConversionFailed? ==> r.phase.outcome.error.cause != PoolCancelled)
            && (r.phase.outcome.ContextEnded? ==> r.clientGone)
  {
    RunInv(cap, run);
    assert RequestOk(run[|run| - 1].requests[i]);
  }
}
