/** convertUploadedFilesWith and the page fan-out below it as a step system: two
    workers over a closed job channel, one token of the document gate around every
    conversion, one token of the VLM gate around every page but none around the call for a
    standalone image, first error cancels. */
module WorkerPool {
  import opened Sums
  import opened Wrappers

  /** Tokens in the four bounded channels; also used for their capacities. */
  datatype Gates = Gates(queue: nat, active: nat, document: nat, vlm: nat)

  /** An uploaded file, and what a successful conversion of it returns: one with so many
      pages for the VLM, each under the VLM gate, or a standalone image that the mode of the
      request sends to the VLM, which takes one call without the gate. */
  datatype File = Paged(document: string, pages: nat) | Picture(document: string)

  /** Why a conversion failed: by itself, because the caller's context ended, or
      because it saw the cancellation of its own pool. */
  datatype Cause = Intrinsic | ClientGone | PoolCancelled

  datatype Conversion = Converted(document: string) | Failed(cause: Cause)

  datatype FileError = FileError(index: nat, cause: Cause)

  datatype Page = Waiting | Calling | Resolved

  datatype Worker =
    | Looping                                        // at the select over ctx and jobs
    | Gating(job: nat)                               // waiting for the document gate
    | Extracting(job: nat)                           // converting, before the fan-out
    | Recognizing(job: nat, pages: seq<Page>)        // converting, one goroutine per page
    | Reading(job: nat)                              // converting, its image is with the VLM
    | Returned(job: nat, outcome: Conversion)        // converted, token not yet returned
    | Recording(job: nat, outcome: Conversion)       // token returned, result not yet stored
    | Cancelling                                     // first error stored, cancel() not yet called
    | Exited

  predicate InFlight(w: Worker) {
    !w.Looping? && !w.Cancelling? && !w.Exited?
  }

  /** `taken` jobs have left the channel, `started` logs the calls of convert. */
  datatype Pool = Pool(
    taken: nat, workers: seq<Worker>, results: seq<Option<string>>,
    firstError: Option<FileError>, cancelled: bool, started: seq<nat>)

  datatype WorkerAction =
    | SeeDone | TakeJob | JobsClosed | AcquireDocument | AbandonJob | FanOut | CallImage
    | PageAcquire(page: nat) | PageAbandon(page: nat) | PageFinish(page: nat)
    | Return(outcome: Conversion) | ReleaseDocument | Record | Cancel

  function NewPool(files: seq<File>): Pool {
    Pool(0, seq(if |files| < 2 then |files| else 2, _ => Looping), seq(|files|, _ => None), None, false, [])
  }

  /** What a conversion may return: its file's document, an error of its own, or an
      error caused by a context that has really ended. */
  predicate MayReturn(files: seq<File>, clientGone: bool, cancelled: bool, job: nat, outcome: Conversion) {
    match outcome
    case Converted(d) => job < |files| && d == files[job].document
    case Failed(Intrinsic) => true
    case Failed(ClientGone) => clientGone
    case Failed(PoolCancelled) => cancelled
  }

  type Next = Option<(Gates, Pool, Worker)>

  /** One step of worker `w`. The result carries the gates, the shared pool fields
      and the worker itself; None means the step is not enabled. */
  function WorkerStep(cap: Gates, files: seq<File>, clientGone: bool, g: Gates, p: Pool, w: Worker, a: WorkerAction): Next
  {
    var done := clientGone || p.cancelled;
    match a
    case SeeDone => if w.Looping? && done then Some((g, p, Exited)) else None
    case TakeJob =>
      if w.Looping? && p.taken < |files| then Some((g, p.(taken := p.taken + 1), Gating(p.taken))) else None
    case JobsClosed => if w.Looping? && p.taken >= |files| then Some((g, p, Exited)) else None
    case AcquireDocument =>
      if w.Gating? && g.document < cap.document then
        Some((g.(document := g.document + 1), p.(started := p.started + [w.job]), Extracting(w.job)))
      else None
    case AbandonJob => if w.Gating? && done then Some((g, p, Exited)) else None
    case FanOut =>
      if w.Extracting? && w.job < |files| && files[w.job].Paged? then
        Some((g, p, Recognizing(w.job, seq(files[w.job].pages, _ => Waiting))))
      else None
    case CallImage =>
      if w.Extracting? && w.job < |files| && files[w.job].Picture? then Some((g, p, Reading(w.job))) else None
    case PageAcquire(i) =>
      if w.Recognizing? && i < |w.pages| && w.pages[i].Waiting? && g.vlm < cap.vlm then
        Some((g.(vlm := g.vlm + 1), p, w.(pages := w.pages[i := Calling])))
      else None
    case PageAbandon(i) =>
      if w.Recognizing? && i < |w.pages| && w.pages[i].Waiting? && done then
        Some((g, p, w.(pages := w.pages[i := Resolved])))
      else None
    case PageFinish(i) =>
      if w.Recognizing? && i < |w.pages| && w.pages[i].Calling? && g.vlm > 0 then
        Some((g.(vlm := g.vlm - 1), p, w.(pages := w.pages[i := Resolved])))
      else None
    case Return(outcome) =>
      if MayFinish(w) && MayReturn(files, clientGone, p.cancelled, w.job, outcome) then
        Some((g, p, Returned(w.job, outcome)))
      else None
    case ReleaseDocument =>
      if w.Returned? && g.document > 0 then
        Some((g.(document := g.document - 1), p, Recording(w.job, w.outcome)))
      else None
    case Record =>
      if !w.Recording? || w.job >= |p.results| then None
      else (match w.outcome
        case Converted(d) => Some((g, p.(results := p.results[w.job := Some(d)]), Looping))
        case Failed(cause) =>
          // sync.Once: the first failure stores its error; a later one waits until the
          // first has called cancel, and stores nothing.
          if p.firstError.None? then Some((g, p.(firstError := Some(FileError(w.job, cause))), Cancelling))
          else if p.cancelled then Some((g, p, Exited))
          else None)
    case Cancel => if w.Cancelling? then Some((g, p.(cancelled := true), Exited)) else None
  }

  /** Extraction alone may end a conversion, or the call for an image; a fan-out ends when
      every page has. */
  predicate MayFinish(w: Worker) {
    || w.Extracting?
    || w.Reading?
    || (w.Recognizing? && forall i :: 0 <= i < |w.pages| ==> w.pages[i].Resolved?)
  }

  function PoolStep(cap: Gates, files: seq<File>, clientGone: bool, g: Gates, p: Pool, k: nat, a: WorkerAction): Option<(Gates, Pool)> {
    if k >= |p.workers| then None
    else match WorkerStep(cap, files, clientGone, g, p, p.workers[k], a)
      case None => None
      case Some((g', p', w')) => Some((g', p'.(workers := p.workers[k := w'])))
  }

  // ----- Who holds a token -----

  function PageHolds(page: Page): nat { if page.Calling? then 1 else 0 }

  function VlmHolds(w: Worker): nat { if w.Recognizing? then Sum(w.pages, PageHolds) else 0 }

  function DocumentHolds(w: Worker): nat {
    if w.Extracting? || w.Recognizing? || w.Reading? || w.Returned? then 1 else 0
  }

  /** The call for an image holds no token of the VLM gate. */
  function UngatedCalls(w: Worker): nat { if w.Reading? then 1 else 0 }

  // ----- How much work is left -----

  function PageRank(page: Page): nat {
    match page case Waiting => 2 case Calling => 1 case Resolved => 0
  }

  function JobCost(file: File): nat { 6 + if file.Paged? then 2 * file.pages else 0 }

  function Backlog(files: seq<File>, taken: nat): nat {
    if taken >= |files| then 0 else Sum(files[taken..], JobCost)
  }

  function WorkerRank(files: seq<File>, w: Worker): nat {
    match w
    case Looping => 1
    case Gating(j) => if j < |files| then JobCost(files[j]) else 6
    case Extracting(j) => if j < |files| then JobCost(files[j]) - 1 else 5
    case Recognizing(_, pages) => 4 + Sum(pages, PageRank)
    case Reading(_) => 4
    case Returned(_, _) => 3
    case Recording(_, _) => 2
    case Cancelling => 1
    case Exited => 0
  }

  function RankIn(files: seq<File>): Worker -> nat { w => WorkerRank(files, w) }

  function PoolRank(files: seq<File>, p: Pool): nat {
    Sum(p.workers, RankIn(files)) + Backlog(files, p.taken)
  }

  lemma BacklogTake(files: seq<File>, taken: nat)
    requires taken < |files|
    ensures Backlog(files, taken) == JobCost(files[taken]) + Backlog(files, taken + 1)
  {
    assert files[taken..][1..] == files[taken + 1..];
  }

  /** A worker's step moves exactly the tokens it starts or stops holding, respects
      the capacities and leaves the admission gates alone. */
  lemma WorkerStepAccounts(cap: Gates, files: seq<File>, clientGone: bool, g: Gates, p: Pool, w: Worker, a: WorkerAction)
    requires WorkerStep(cap, files, clientGone, g, p, w, a).Some?
    ensures var (g', p', w') := WorkerStep(cap, files, clientGone, g, p, w, a).value;
            && g'.queue == g.queue && g'.active == g.active
            && g'.document + DocumentHolds(w) == g.document + DocumentHolds(w')
            && g'.vlm + VlmHolds(w) == g.vlm + VlmHolds(w')
            && (g'.document <= g.document || g'.document <= cap.document)
            && (g'.vlm <= g.vlm || g'.vlm <= cap.vlm)
  {
    var (g', p', w') := WorkerStep(cap, files, clientGone, g, p, w, a).value;
    match a {
      case FanOut => SumConstant(w'.pages, PageHolds, 0);
      case PageAcquire(i) => SumUpdate(w.pages, PageHolds, i, Calling);
      case PageAbandon(i) => SumUpdate(w.pages, PageHolds, i, Resolved);
      case PageFinish(i) => SumUpdate(w.pages, PageHolds, i, Resolved);
      case Return(_) =>
        if w.Recognizing? { SumConstant(w.pages, PageHolds, 0); }
      case _ =>
    }
  }

  /** Every step of a worker uses up work. */
  lemma WorkerStepWorks(cap: Gates, files: seq<File>, clientGone: bool, g: Gates, p: Pool, w: Worker, a: WorkerAction)
    requires WorkerStep(cap, files, clientGone, g, p, w, a).Some?
    ensures var (g', p', w') := WorkerStep(cap, files, clientGone, g, p, w, a).value;
            WorkerRank(files, w') + Backlog(files, p'.taken) < WorkerRank(files, w) + Backlog(files, p.taken)
  {
    var (g', p', w') := WorkerStep(cap, files, clientGone, g, p, w, a).value;
    match a {
      case TakeJob => BacklogTake(files, p.taken);
      case FanOut => SumConstant(w'.pages, PageRank, 2);
      case PageAcquire(i) => SumUpdate(w.pages, PageRank, i, Calling);
      case PageAbandon(i) => SumUpdate(w.pages, PageRank, i, Resolved);
      case PageFinish(i) => SumUpdate(w.pages, PageRank, i, Resolved);
      case _ =>
    }
  }

  lemma PoolStepAccounts(cap: Gates, files: seq<File>, clientGone: bool, g: Gates, p: Pool, k: nat, a: WorkerAction)
    requires PoolStep(cap, files, clientGone, g, p, k, a).Some?
    ensures var (g', p') := PoolStep(cap, files, clientGone, g, p, k, a).value;
            && g'.queue == g.queue && g'.active == g.active
            && g'.document + Sum(p.workers, DocumentHolds) == g.document + Sum(p'.workers, DocumentHolds)
            && g'.vlm + Sum(p.workers, VlmHolds) == g.vlm + Sum(p'.workers, VlmHolds)
            && (g'.document <= g.document || g'.document <= cap.document)
            && (g'.vlm <= g.vlm || g'.vlm <= cap.vlm)
            && PoolRank(files, p') < PoolRank(files, p)
  {
    var w := p.workers[k];
    var (g', p', w') := WorkerStep(cap, files, clientGone, g, p, w, a).value;
    WorkerStepAccounts(cap, files, clientGone, g, p, w, a);
    WorkerStepWorks(cap, files, clientGone, g, p, w, a);
    SumUpdate(p.workers, DocumentHolds, k, w');
    SumUpdate(p.workers, VlmHolds, k, w');
    SumUpdate(p.workers, RankIn(files), k, w');
  }

  // ----- The pool invariant -----

  ghost predicate Settled(p: Pool, i: nat)
    requires i < |p.results|
  {
    p.results[i].Some? || exists k :: 0 <= k < |p.workers| && InFlight(p.workers[k]) && p.workers[k].job == i
  }

  ghost predicate WorkerOk(files: seq<File>, clientGone: bool, p: Pool, w: Worker) {
    && (InFlight(w) ==> w.job < p.taken)
    && (InFlight(w) ==> (w.Gating? <==> w.job !in p.started))
    && (w.Returned? || w.Recording? ==> MayReturn(files, clientGone, p.cancelled, w.job, w.outcome))
    && (w.Recognizing? ==> w.job < |files| && files[w.job].Paged? && |w.pages| == files[w.job].pages)
    && (w.Reading? ==> w.job < |files| && files[w.job].Picture?)
    && (w.Cancelling? ==> p.firstError.Some?)
    && (w.Exited? ==> p.taken == |files| || clientGone || p.firstError.Some?)
  }

  ghost predicate Shaped(files: seq<File>, p: Pool) {
    && |p.results| == |files|
    && |p.workers| == (if |files| < 2 then |files| else 2)
    && p.taken <= |files|
  }

  ghost predicate WorkersOk(files: seq<File>, clientGone: bool, p: Pool) {
    forall k :: 0 <= k < |p.workers| ==> WorkerOk(files, clientGone, p, p.workers[k])
  }

  /** No file is in two hands, and none is converted twice. */
  ghost predicate NoSharing(p: Pool) {
    && (forall k, l :: 0 <= k < l < |p.workers| && InFlight(p.workers[k]) && InFlight(p.workers[l]) ==>
          p.workers[k].job != p.workers[l].job)
    && (forall i :: 0 <= i < |p.started| ==> p.started[i] < p.taken)
    && (forall i, j :: 0 <= i < j < |p.started| ==> p.started[i] != p.started[j])
  }

  /** A stored result is the result of converting the file at its position. */
  ghost predicate ResultsRight(files: seq<File>, p: Pool)
    requires |p.results| == |files|
  {
    forall i :: 0 <= i < |files| && p.results[i].Some? ==>
      p.results[i].value == files[i].document && i in p.started
  }

  /** No taken job disappears unless the request is failing anyway. */
  ghost predicate NothingLost(clientGone: bool, p: Pool)
    requires p.taken <= |p.results|
  {
    p.firstError.None? && !clientGone ==> forall i :: 0 <= i < p.taken ==> Settled(p, i)
  }

  /** The pool is cancelled only after its first error is known, so that error was
      not caused by the cancellation. */
  ghost predicate ErrorFirst(clientGone: bool, p: Pool) {
    && (p.cancelled ==> p.firstError.Some?)
    && (p.firstError.Some? ==> p.firstError.value.cause != PoolCancelled)
    && (p.firstError.Some? && p.firstError.value.cause == ClientGone ==> clientGone)
    && (p.firstError.Some? && !p.cancelled ==> exists k :: 0 <= k < |p.workers| && p.workers[k].Cancelling?)
  }

  ghost predicate PoolOk(files: seq<File>, clientGone: bool, p: Pool) {
    && Shaped(files, p)
    && WorkersOk(files, clientGone, p)
    && NoSharing(p)
    && ResultsRight(files, p)
    && NothingLost(clientGone, p)
    && ErrorFirst(clientGone, p)
  }

  lemma NewPoolOk(files: seq<File>, clientGone: bool)
    ensures PoolOk(files, clientGone, NewPool(files))
    ensures Sum(NewPool(files).workers, DocumentHolds) == 0
    ensures Sum(NewPool(files).workers, VlmHolds) == 0
    ensures PoolRank(files, NewPool(files)) <= 2 + Backlog(files, 0)
  {
    var p := NewPool(files);
    SumConstant(p.workers, DocumentHolds, 0);
    SumConstant(p.workers, VlmHolds, 0);
    SumConstant(p.workers, RankIn(files), 1);
  }

  lemma PoolOkMonotone(files: seq<File>, p: Pool)
    requires PoolOk(files, false, p)
    ensures PoolOk(files, true, p)
  {
    forall k | 0 <= k < |p.workers| ensures WorkerOk(files, true, p, p.workers[k]) {
      assert WorkerOk(files, false, p, p.workers[k]);
    }
  }

  /** What each kind of step does to the shared fields, and to the worker's job. */
  lemma WorkerStepShape(cap: Gates, files: seq<File>, clientGone: bool, g: Gates, p: Pool, w: Worker, a: WorkerAction)
    requires WorkerStep(cap, files, clientGone, g, p, w, a).Some?
    ensures var (_, p', w') := WorkerStep(cap, files, clientGone, g, p, w, a).value;
            && p'.workers == p.workers
            && (a.TakeJob? || InFlight(w) || !InFlight(w'))
            && (!a.TakeJob? && InFlight(w') ==> w'.job == w.job)
            && (!a.TakeJob? ==> p'.taken == p.taken)
            && (!a.AcquireDocument? ==> p'.started == p.started)
            && (!a.Record? ==> p'.results == p.results && p'.firstError == p.firstError)
            && (!a.Cancel? ==> p'.cancelled == p.cancelled)
  {
  }

  lemma StepKeepsWorkersOk(cap: Gates, files: seq<File>, clientGone: bool, g: Gates, p: Pool, k: nat, a: WorkerAction, p': Pool)
    requires PoolOk(files, clientGone, p)
    requires PoolStep(cap, files, clientGone, g, p, k, a).Some?
    requires p' == PoolStep(cap, files, clientGone, g, p, k, a).value.1
    ensures Shaped(files, p') && WorkersOk(files, clientGone, p')
  {
    WorkerStepShape(cap, files, clientGone, g, p, p.workers[k], a);
    assert WorkerOk(files, clientGone, p, p.workers[k]);
    WorkerStepKeepsOk(cap, files, clientGone, g, p, k, a, p');
    forall j | 0 <= j < |p.workers| && j != k ensures WorkerOk(files, clientGone, p', p'.workers[j]) {
      OthersStayOk(cap, files, clientGone, g, p, k, a, p', j);
    }
  }

  lemma WorkerStepKeepsOk(cap: Gates, files: seq<File>, clientGone: bool, g: Gates, p: Pool, k: nat, a: WorkerAction, p': Pool)
    requires PoolOk(files, clientGone, p)
    requires PoolStep(cap, files, clientGone, g, p, k, a).Some?
    requires p' == PoolStep(cap, files, clientGone, g, p, k, a).value.1
    ensures Shaped(files, p') && WorkerOk(files, clientGone, p', p'.workers[k])
  {
    assert WorkerOk(files, clientGone, p, p.workers[k]);
  }

  lemma OthersStayOk(cap: Gates, files: seq<File>, clientGone: bool, g: Gates, p: Pool, k: nat, a: WorkerAction, p': Pool, j: nat)
    requires PoolOk(files, clientGone, p)
    requires PoolStep(cap, files, clientGone, g, p, k, a).Some?
    requires p' == PoolStep(cap, files, clientGone, g, p, k, a).value.1
    requires j < |p.workers| && j != k
    ensures WorkerOk(files, clientGone, p', p'.workers[j])
  {
    assert WorkerOk(files, clientGone, p, p.workers[j]) && WorkerOk(files, clientGone, p, p.workers[k]);
    assert p'.workers[j] == p.workers[j];
    if InFlight(p.workers[j]) { OthersKeepJob(cap, files, clientGone, g, p, k, a, p', j); }
  }

  /** Only the job of the stepping worker is started. */
  lemma OthersKeepJob(cap: Gates, files: seq<File>, clientGone: bool, g: Gates, p: Pool, k: nat, a: WorkerAction, p': Pool, j: nat)
    requires PoolOk(files, clientGone, p)
    requires PoolStep(cap, files, clientGone, g, p, k, a).Some?
    requires p' == PoolStep(cap, files, clientGone, g, p, k, a).value.1
    requires j < |p.workers| && j != k && InFlight(p.workers[j])
    ensures p.taken <= p'.taken && (p.workers[j].job in p'.started <==> p.workers[j].job in p.started)
  {
    if a.AcquireDocument? {
      assert p.workers[j].job != p.workers[k].job by {
        if j < k { assert InFlight(p.workers[j]) && InFlight(p.workers[k]); }
      }
    }
  }

  lemma StepKeepsNoSharing(cap: Gates, files: seq<File>, clientGone: bool, g: Gates, p: Pool, k: nat, a: WorkerAction, p': Pool)
    requires PoolOk(files, clientGone, p)
    requires PoolStep(cap, files, clientGone, g, p, k, a).Some?
    requires p' == PoolStep(cap, files, clientGone, g, p, k, a).value.1
    ensures NoSharing(p')
  {
    WorkerStepShape(cap, files, clientGone, g, p, p.workers[k], a);
    assert WorkerOk(files, clientGone, p, p.workers[k]);
    forall j | 0 <= j < |p.workers| && j != k && InFlight(p.workers[j]) ensures p.workers[j].job < p.taken {
      assert WorkerOk(files, clientGone, p, p.workers[j]);
    }
  }

  lemma StepKeepsNothingLost(cap: Gates, files: seq<File>, clientGone: bool, g: Gates, p: Pool, k: nat, a: WorkerAction, p': Pool)
    requires PoolOk(files, clientGone, p)
    requires PoolStep(cap, files, clientGone, g, p, k, a).Some?
    requires p' == PoolStep(cap, files, clientGone, g, p, k, a).value.1
    ensures p'.taken <= |p'.results| == |p.results| && NothingLost(clientGone, p')
  {
    WorkerStepShape(cap, files, clientGone, g, p, p.workers[k], a);
    assert WorkerOk(files, clientGone, p, p.workers[k]);
    forall i | 0 <= i < p'.taken && p'.firstError.None? && !clientGone ensures Settled(p', i) {
      if i < p.taken {
        assert Settled(p, i);
        if p.results[i].None? {
          var j :| 0 <= j < |p.workers| && InFlight(p.workers[j]) && p.workers[j].job == i;
          assert (InFlight(p'.workers[j]) && p'.workers[j].job == i) || p'.results[i].Some?;
        }
      } else {
        assert InFlight(p'.workers[k]) && p'.workers[k].job == i;
      }
    }
  }

  lemma StepKeepsErrorFirst(cap: Gates, files: seq<File>, clientGone: bool, g: Gates, p: Pool, k: nat, a: WorkerAction, p': Pool)
    requires PoolOk(files, clientGone, p)
    requires PoolStep(cap, files, clientGone, g, p, k, a).Some?
    requires p' == PoolStep(cap, files, clientGone, g, p, k, a).value.1
    ensures ErrorFirst(clientGone, p')
  {
    WorkerStepShape(cap, files, clientGone, g, p, p.workers[k], a);
    assert WorkerOk(files, clientGone, p, p.workers[k]);
    if p'.firstError.Some? && !p'.cancelled {
      if p.firstError.Some? {
        var j :| 0 <= j < |p.workers| && p.workers[j].Cancelling?;
        assert p'.workers[j].Cancelling?;
      } else {
        assert p'.workers[k].Cancelling?;
      }
    }
  }

  lemma PoolStepKeepsOk(cap: Gates, files: seq<File>, clientGone: bool, g: Gates, p: Pool, k: nat, a: WorkerAction, p': Pool)
    requires PoolOk(files, clientGone, p)
    requires PoolStep(cap, files, clientGone, g, p, k, a).Some?
    requires p' == PoolStep(cap, files, clientGone, g, p, k, a).value.1
    ensures PoolOk(files, clientGone, p')
  {
    StepKeepsWorkersOk(cap, files, clientGone, g, p, k, a, p');
    StepKeepsNoSharing(cap, files, clientGone, g, p, k, a, p');
    StepKeepsNothingLost(cap, files, clientGone, g, p, k, a, p');
    StepKeepsErrorFirst(cap, files, clientGone, g, p, k, a, p');
    assert WorkerOk(files, clientGone, p, p.workers[k]);
  }

  // ----- What the pool returns -----

  ghost predicate AllExited(p: Pool) {
    forall k :: 0 <= k < |p.workers| ==> p.workers[k].Exited?
  }

  /** After wait.Wait() a nil error means that every file was converted exactly once
      and that results[i] is what converting files[i] returned. */
  lemma JoinedResults(files: seq<File>, clientGone: bool, p: Pool)
    requires PoolOk(files, clientGone, p) && AllExited(p)
    requires files != [] && p.firstError.None? && !clientGone && !p.cancelled
    ensures |p.results| == |files|
    ensures forall i :: 0 <= i < |files| ==> p.results[i] == Some(files[i].document)
    ensures forall i :: 0 <= i < |files| ==> i in p.started
    ensures forall i, j :: 0 <= i < j < |p.started| ==> p.started[i] != p.started[j]
    ensures forall i :: 0 <= i < |p.started| ==> p.started[i] < |files|
  {
    assert WorkerOk(files, clientGone, p, p.workers[0]);
    assert p.taken == |files|;
    forall i | 0 <= i < |files| ensures p.results[i].Some? {
      assert Settled(p, i);
    }
  }

  /** A worker inside a conversion can always move once no page call is running. */
  lemma HolderMoves(cap: Gates, files: seq<File>, clientGone: bool, g: Gates, p: Pool, k: nat) returns (a: WorkerAction)
    requires PoolOk(files, clientGone, p)
    requires k < |p.workers| && DocumentHolds(p.workers[k]) > 0
    requires g.document > 0 && g.vlm < cap.vlm && VlmHolds(p.workers[k]) == 0
    ensures PoolStep(cap, files, clientGone, g, p, k, a).Some?
    ensures !a.SeeDone? && !a.AbandonJob? && !a.PageAbandon?
  {
    var w := p.workers[k];
    assert WorkerOk(files, clientGone, p, w);
    match w {
      case Extracting(j) => a := if files[j].Paged? then FanOut else CallImage;
      case Reading(_) => a := Return(Failed(Intrinsic));
      case Returned(_, _) => a := ReleaseDocument;
      case Recognizing(_, pages) =>
        if i :| 0 <= i < |pages| && !pages[i].Resolved? {
          SumTerm(pages, PageHolds, i);
          a := PageAcquire(i);
        } else {
          a := Return(Failed(Intrinsic));
        }
    }
  }

  /** A page call that holds a VLM token can always finish and return it. */
  lemma CallerMoves(cap: Gates, files: seq<File>, clientGone: bool, g: Gates, p: Pool, k: nat) returns (a: WorkerAction)
    requires k < |p.workers| && VlmHolds(p.workers[k]) > 0 && g.vlm > 0
    ensures a.PageFinish? && PoolStep(cap, files, clientGone, g, p, k, a).Some?
  {
    var i := PositiveTerm(p.workers[k].pages, PageHolds);
    a := PageFinish(i);
  }

  /** With both gates empty some worker of an unfinished pool can move, without any
      help from timers or cancellation. */
  lemma IdlePoolMoves(cap: Gates, files: seq<File>, clientGone: bool, g: Gates, p: Pool) returns (k: nat, a: WorkerAction)
    requires PoolOk(files, clientGone, p) && !AllExited(p)
    requires g.document < cap.document
    requires forall k :: 0 <= k < |p.workers| ==> DocumentHolds(p.workers[k]) == 0
    ensures k < |p.workers| && PoolStep(cap, files, clientGone, g, p, k, a).Some?
    ensures !a.SeeDone? && !a.AbandonJob? && !a.PageAbandon?
  {
    k :| 0 <= k < |p.workers| && !p.workers[k].Exited?;
    assert WorkerOk(files, clientGone, p, p.workers[k]);
    match p.workers[k] {
      case Looping => a := if p.taken < |files| then TakeJob else JobsClosed;
      case Gating(_) => a := AcquireDocument;
      case Cancelling => a := Cancel;
      case Recording(_, outcome) =>
        if outcome.Failed? && p.firstError.Some? && !p.cancelled {
          k :| 0 <= k < |p.workers| && p.workers[k].Cancelling?;
          a := Cancel;
        } else {
          a := Record;
        }
    }
  }
}
