/** How every request ends, told by the steps that were taken for it: which requests are
    answered and with what, and what each failure comes from. */
module Outcomes {
  import opened Admission
  import opened WorkerPool
  import opened Wrappers

  // ----- Runs with their steps -----

  datatype Label = Label(request: nat, action: Action)

  ghost predicate IsTrace(cap: Gates, run: seq<State>, labels: seq<Label>) {
    && |run| == |labels| + 1 && Init(run[0])
    && forall n :: 0 <= n < |labels| ==> Step(cap, run[n], labels[n].request, labels[n].action) == Some(run[n + 1])
  }

  /** Every run has its steps. */
  lemma {:induction false} RunHasTrace(cap: Gates, run: seq<State>) returns (labels: seq<Label>)
    requires IsRun(cap, run)
    ensures IsTrace(cap, run, labels)
    decreases |run|
  {
    if |run| == 1 {
      labels := [];
    } else {
      var before := run[..|run| - 1];
      RunPrefix(cap, run);
      var first := RunHasTrace(cap, before);
      assert Moves(cap, run[|run| - 2], run[|run| - 1]);
      var i: nat, a: Action :| Step(cap, run[|run| - 2], i, a) == Some(run[|run| - 1]);
      labels := first + [Label(i, a)];
      forall n | 0 <= n < |labels| ensures Step(cap, run[n], labels[n].request, labels[n].action) == Some(run[n + 1]) {
        assert n < |first| ==> before[n] == run[n] && before[n + 1] == run[n + 1] && labels[n] == first[n];
      }
    }
  }

  lemma RunPrefix(cap: Gates, run: seq<State>)
    requires IsRun(cap, run) && |run| > 1
    ensures IsRun(cap, run[..|run| - 1])
  {
    var before := run[..|run| - 1];
    forall n | 0 <= n < |before| - 1 ensures Moves(cap, before[n], before[n + 1]) {
      assert Moves(cap, run[n], run[n + 1]);
    }
  }

  // ----- The history of one request -----

  /** A step taken for a request, and the request as it was before. */
  datatype Event = Event(before: Request, action: Action)

  ghost function History(run: seq<State>, labels: seq<Label>, i: nat): seq<Event>
    requires |run| == |labels| + 1
    requires forall n :: 0 <= n < |run| ==> i < |run[n].requests|
    decreases |labels|
  {
    if labels == [] then []
    else
      var n := |labels| - 1;
      History(run[..n + 1], labels[..n], i) +
      if labels[n].request == i then [Event(run[n].requests[i], labels[n].action)] else []
  }

  ghost predicate Took(h: seq<Event>, a: Action) { exists e :: e in h && e.action == a }

  /** The conversion of file `job` returned this. */
  ghost predicate IsReturn(e: Event, job: nat, outcome: Conversion) {
    && e.before.phase.Converting? && e.action.Work? && e.action.action == Return(outcome)
    && e.action.worker < |e.before.phase.pool.workers|
    && InFlight(e.before.phase.pool.workers[e.action.worker])
    && e.before.phase.pool.workers[e.action.worker].job == job
  }

  ghost predicate ReturnedFor(h: seq<Event>, job: nat, outcome: Conversion) { exists e :: e in h && IsReturn(e, job, outcome) }

  ghost predicate SomeFailed(h: seq<Event>) { exists job: nat, cause :: ReturnedFor(h, job, Failed(cause)) }

  // ----- What the history tells about the state -----

  /** The outcome of a request, by its steps alone. */
  ghost predicate Explained(h: seq<Event>, gone: bool, r: Request, o: Outcome) {
    && (o.QueueFull? <==> Took(h, Refuse))
    && (o.QueueTimeout? <==> Took(h, TimeOut))
    && (o.ClientLeft? <==> Took(h, GiveUp))
    && (o.Rejected? <==> Took(h, Reject))
    && (o.Answered? || o.ConversionFailed? || o.ContextEnded? <==> Took(h, StartPool))
    && (o.ConversionFailed? <==> SomeFailed(h))
    && (o.ConversionFailed? ==> ReturnedFor(h, o.error.index, Failed(o.error.cause)))
    && (o.ContextEnded? ==> gone || Took(h, ClientLeaves))
    && (o.Answered? ==> RightResults(r.files, o.results))
  }

  ghost predicate RightResults(files: seq<File>, results: seq<Option<string>>) {
    |results| == |files| && forall n :: 0 <= n < |files| ==> results[n] == Some(files[n].document)
  }

  /** No step has decided the outcome yet. */
  ghost predicate Undecided(h: seq<Event>) {
    && !Took(h, Refuse) && !Took(h, TimeOut) && !Took(h, GiveUp) && !Took(h, Reject)
    && !Took(h, StartPool) && !SomeFailed(h)
  }

  /** The failures that a pool still carries are those that were returned. */
  ghost predicate FailuresTold(h: seq<Event>, p: Pool) {
    && (p.firstError.Some? ==> ReturnedFor(h, p.firstError.value.index, Failed(p.firstError.value.cause)))
    && (forall k :: 0 <= k < |p.workers| ==> Carries(h, p.workers[k]))
    && (SomeFailed(h) ==> p.firstError.Some? || exists k :: 0 <= k < |p.workers| && HoldsFailure(p.workers[k]))
  }

  ghost predicate HoldsFailure(w: Worker) { (w.Returned? || w.Recording?) && w.outcome.Failed? }

  ghost predicate Carries(h: seq<Event>, w: Worker) { HoldsFailure(w) ==> ReturnedFor(h, w.job, w.outcome) }

  ghost predicate Told(h: seq<Event>, gone: bool, r: Request) {
    && (r.clientGone ==> gone || Took(h, ClientLeaves))
    && match r.phase
       case Leaving(o) => Explained(h, gone, r, o)
       case Releasing(o) => Explained(h, gone, r, o)
       case Finished(o) => Explained(h, gone, r, o)
       case Converting(p) =>
         && !Took(h, Refuse) && !Took(h, TimeOut) && !Took(h, GiveUp) && !Took(h, Reject)
         && Took(h, StartPool) && FailuresTold(h, p)
       case _ => Undecided(h)
  }

  lemma TookMore(h: seq<Event>, e: Event, a: Action)
    ensures Took(h + [e], a) <==> Took(h, a) || e.action == a
  {
    if Took(h, a) {
      var x :| x in h && x.action == a;
      assert x in h + [e];
    }
    if e.action == a { assert e in h + [e]; }
  }

  lemma ReturnedMore(h: seq<Event>, e: Event, job: nat, outcome: Conversion)
    ensures ReturnedFor(h + [e], job, outcome) <==> ReturnedFor(h, job, outcome) || IsReturn(e, job, outcome)
  {
    if ReturnedFor(h, job, outcome) {
      var x :| x in h && IsReturn(x, job, outcome);
      assert x in h + [e];
    }
    if IsReturn(e, job, outcome) { assert e in h + [e]; }
  }

  ghost predicate FailedReturn(e: Event) { exists job: nat, cause :: IsReturn(e, job, Failed(cause)) }

  lemma FailedMore(h: seq<Event>, e: Event)
    ensures SomeFailed(h + [e]) <==> SomeFailed(h) || FailedReturn(e)
  {
    if SomeFailed(h) {
      var job: nat, cause :| ReturnedFor(h, job, Failed(cause));
      ReturnedMore(h, e, job, Failed(cause));
    }
    if FailedReturn(e) {
      var job: nat, cause :| IsReturn(e, job, Failed(cause));
      ReturnedMore(h, e, job, Failed(cause));
    }
    if SomeFailed(h + [e]) {
      var job: nat, cause :| ReturnedFor(h + [e], job, Failed(cause));
      ReturnedMore(h, e, job, Failed(cause));
    }
  }

  /** What one more event adds. */
  lemma Grows(h: seq<Event>, e: Event)
    ensures forall a {:trigger Took(h + [e], a)} :: Took(h + [e], a) <==> Took(h, a) || e.action == a
    ensures forall job: nat, outcome {:trigger ReturnedFor(h + [e], job, outcome)} ::
              ReturnedFor(h + [e], job, outcome) <==> ReturnedFor(h, job, outcome) || IsReturn(e, job, outcome)
    ensures SomeFailed(h + [e]) <==> SomeFailed(h) || FailedReturn(e)
  {
    forall a ensures Took(h + [e], a) <==> Took(h, a) || e.action == a {
      TookMore(h, e, a);
    }
    forall job: nat, outcome ensures ReturnedFor(h + [e], job, outcome) <==> ReturnedFor(h, job, outcome) || IsReturn(e, job, outcome) {
      ReturnedMore(h, e, job, outcome);
    }
    FailedMore(h, e);
  }

  // ----- One step -----

  /** A worker's step that is not a failed return passes the failures on. */
  lemma WorkTold(cap: Gates, h: seq<Event>, g: Gates, r: Request, k: nat, a: WorkerAction, p': Pool)
    requires r.phase.Converting? && FailuresTold(h, r.phase.pool) && RequestOk(r)
    requires PoolStep(cap, r.files, r.clientGone, g, r.phase.pool, k, a).Some?
    requires p' == PoolStep(cap, r.files, r.clientGone, g, r.phase.pool, k, a).value.1
    ensures FailuresTold(h + [Event(r, Work(k, a))], p')
  {
    var e, p := Event(r, Work(k, a)), r.phase.pool;
    Grows(h, e);
    assert Carries(h, p.workers[k]);
    StepCarries(cap, h, g, r, k, a, p');
    forall l | 0 <= l < |p'.workers| && l != k ensures Carries(h + [e], p'.workers[l]) {
      assert p'.workers[l] == p.workers[l] && Carries(h, p.workers[l]);
    }
    if SomeFailed(h + [e]) && p'.firstError.None? {
      FailureIsHeld(cap, h, g, r, k, a, p');
    }
  }

  lemma StepCarries(cap: Gates, h: seq<Event>, g: Gates, r: Request, k: nat, a: WorkerAction, p': Pool)
    requires r.phase.Converting? && FailuresTold(h, r.phase.pool)
    requires PoolStep(cap, r.files, r.clientGone, g, r.phase.pool, k, a).Some?
    requires p' == PoolStep(cap, r.files, r.clientGone, g, r.phase.pool, k, a).value.1
    ensures Carries(h + [Event(r, Work(k, a))], p'.workers[k])
    ensures p'.firstError.Some? ==>
              ReturnedFor(h + [Event(r, Work(k, a))], p'.firstError.value.index, Failed(p'.firstError.value.cause))
  {
    var e, p := Event(r, Work(k, a)), r.phase.pool;
    Grows(h, e);
    assert Carries(h, p.workers[k]);
    if a.Return? { assert IsReturn(e, p.workers[k].job, a.outcome); }
  }

  lemma FailureIsHeld(cap: Gates, h: seq<Event>, g: Gates, r: Request, k: nat, a: WorkerAction, p': Pool)
    requires r.phase.Converting? && FailuresTold(h, r.phase.pool)
    requires PoolStep(cap, r.files, r.clientGone, g, r.phase.pool, k, a).Some?
    requires p' == PoolStep(cap, r.files, r.clientGone, g, r.phase.pool, k, a).value.1
    requires SomeFailed(h + [Event(r, Work(k, a))]) && p'.firstError.None?
    ensures exists l :: 0 <= l < |p'.workers| && HoldsFailure(p'.workers[l])
  {
    var e, p := Event(r, Work(k, a)), r.phase.pool;
    Grows(h, e);
    if FailedReturn(e) {
      var job: nat, cause :| IsReturn(e, job, Failed(cause));
      assert HoldsFailure(p'.workers[k]);
    } else {
      var l :| 0 <= l < |p.workers| && HoldsFailure(p.workers[l]);
      if l == k { StillHolds(cap, r.files, r.clientGone, g, p, p.workers[k], a); }
      assert HoldsFailure(p'.workers[l]);
    }
  }

  /** A failure is held until it is recorded or another one has been. */
  lemma StillHolds(cap: Gates, files: seq<File>, clientGone: bool, g: Gates, p: Pool, w: Worker, a: WorkerAction)
    requires HoldsFailure(w) && WorkerStep(cap, files, clientGone, g, p, w, a).Some?
    ensures var (_, p', w') := WorkerStep(cap, files, clientGone, g, p, w, a).value; HoldsFailure(w') || p'.firstError.Some?
  {
  }

  /** Steps after the outcome is decided leave it explained. */
  lemma StaysExplained(h: seq<Event>, gone: bool, r: Request, e: Event, o: Outcome)
    requires Explained(h, gone, r, o)
    requires e.action.LeaveQueue? || e.action.Release? || e.action.ClientLeaves?
    ensures Explained(h + [e], gone, r, o)
  {
    Grows(h, e);
  }

  /** When both workers have exited the outcome follows from what was returned. */
  lemma JoinTold(h: seq<Event>, gone: bool, r: Request, o: Outcome)
    requires r.phase.Converting? && RequestOk(r) && AllExited(r.phase.pool) && Told(h, gone, r)
    requires o == JoinOutcome(r.clientGone, r.phase.pool)
    ensures Explained(h + [Event(r, Join)], gone, r, o)
  {
    var p := r.phase.pool;
    Grows(h, Event(r, Join));
    if p.firstError.None? {
      assert !SomeFailed(h);
      if !r.clientGone && !p.cancelled { JoinedResults(r.files, r.clientGone, p); }
    } else {
      assert SomeFailed(h);
    }
  }

  lemma StepTold(cap: Gates, h: seq<Event>, gone: bool, g: Gates, r: Request, a: Action)
    requires RequestOk(r) && Told(h, gone, r) && RequestStep(cap, g, r, a).Some?
    ensures Told(h + [Event(r, a)], gone, RequestStep(cap, g, r, a).value.1)
  {
    var e := Event(r, a);
    var r' := RequestStep(cap, g, r, a).value.1;
    Grows(h, e);
    match a {
      case Work(k, wa) => WorkTold(cap, h, g, r, k, wa, r'.phase.pool);
      case Join => JoinTold(h, gone, r, r'.phase.outcome);
      case LeaveQueue => StaysExplained(h, gone, r, e, r.phase.outcome);
      case Release => StaysExplained(h, gone, r, e, r.phase.outcome);
      case ClientLeaves => GoneTold(h, gone, r);
      case StartPool => StartTold(h, r);
      case _ =>
    }
  }

  lemma GoneTold(h: seq<Event>, gone: bool, r: Request)
    requires Told(h, gone, r) && !r.clientGone
    ensures Told(h + [Event(r, ClientLeaves)], gone, r.(clientGone := true))
  {
    var e := Event(r, ClientLeaves);
    Grows(h, e);
    if r.phase.Converting? {
      forall k | 0 <= k < |r.phase.pool.workers| ensures Carries(h + [e], r.phase.pool.workers[k]) {
        assert Carries(h, r.phase.pool.workers[k]);
      }
    }
  }

  lemma StartTold(h: seq<Event>, r: Request)
    requires Undecided(h) && r.files != []
    ensures FailuresTold(h + [Event(r, StartPool)], NewPool(r.files))
  {
    Grows(h, Event(r, StartPool));
  }

  // ----- Whole runs -----

  ghost predicate Has(run: seq<State>, i: nat) { forall n :: 0 <= n < |run| ==> i < |run[n].requests| }

  lemma {:induction false} SameRequests(cap: Gates, run: seq<State>, labels: seq<Label>, n: nat)
    requires IsTrace(cap, run, labels) && n < |run|
    ensures |run[n].requests| == |run[0].requests|
  {
    if n > 0 {
      SameRequests(cap, run, labels, n - 1);
      assert Step(cap, run[n - 1], labels[n - 1].request, labels[n - 1].action) == Some(run[n]);
    }
  }

  lemma TraceIsRun(cap: Gates, run: seq<State>, labels: seq<Label>)
    requires IsTrace(cap, run, labels)
    ensures IsRun(cap, run)
  {
    forall n | 0 <= n < |run| - 1 ensures Moves(cap, run[n], run[n + 1]) {
      assert Step(cap, run[n], labels[n].request, labels[n].action) == Some(run[n + 1]);
    }
  }

  lemma {:induction false} TraceTold(cap: Gates, run: seq<State>, labels: seq<Label>, i: nat)
    requires IsTrace(cap, run, labels) && Has(run, i)
    ensures Told(History(run, labels, i), run[0].requests[i].clientGone, run[|run| - 1].requests[i])
    decreases |labels|
  {
    if labels != [] {
      var n := |labels| - 1;
      TraceTold(cap, run[..n + 1], labels[..n], i);
      TraceIsRun(cap, run[..n + 1], labels[..n]);
      RunInv(cap, run[..n + 1]);
      assert Step(cap, run[n], labels[n].request, labels[n].action) == Some(run[n + 1]);
      var h, r := History(run[..n + 1], labels[..n], i), run[n].requests[i];
      if labels[n].request == i {
        assert RequestOk(r);
        StepTold(cap, h, run[0].requests[i].clientGone, run[n].gates, r, labels[n].action);
      } else {
        assert h + [] == h;
      }
    }
  }

  /** How a request ends, on every run: what was done for it decides the outcome. */
  lemma OutcomeOfRun(cap: Gates, run: seq<State>, labels: seq<Label>, i: nat)
    requires IsTrace(cap, run, labels) && i < |run[0].requests|
    ensures Has(run, i)
    ensures var r := run[|run| - 1].requests[i];
            r.phase.Finished? ==> Explained(History(run, labels, i), run[0].requests[i].clientGone, r, r.phase.outcome)
    ensures run[|run| - 1].requests[i].files == run[0].requests[i].files
  {
    forall n | 0 <= n < |run| ensures i < |run[n].requests| {
      SameRequests(cap, run, labels, n);
    }
    TraceTold(cap, run, labels, i);
    TraceKeepsFiles(cap, run, labels, i, |run| - 1);
  }

  lemma {:induction false} TraceKeepsFiles(cap: Gates, run: seq<State>, labels: seq<Label>, i: nat, n: nat)
    requires IsTrace(cap, run, labels) && Has(run, i) && n < |run|
    ensures run[n].requests[i].files == run[0].requests[i].files
  {
    if n > 0 {
      TraceKeepsFiles(cap, run, labels, i, n - 1);
      assert Step(cap, run[n - 1], labels[n - 1].request, labels[n - 1].action) == Some(run[n]);
    }
  }

  /** A request whose conversion was started, whose client stayed, and none of whose
      conversions failed is answered with the document of every file at its index. */
  lemma GoodRequestIsAnswered(cap: Gates, run: seq<State>, labels: seq<Label>, i: nat)
    requires IsTrace(cap, run, labels) && i < |run[0].requests| && Has(run, i)
    requires var h := History(run, labels, i); Took(h, StartPool) && !Took(h, ClientLeaves) && !SomeFailed(h)
    requires !run[0].requests[i].clientGone && run[|run| - 1].requests[i].phase.Finished?
    ensures var o, files := run[|run| - 1].requests[i].phase.outcome, run[0].requests[i].files;
            o.Answered? && |o.results| == |files| && forall n :: 0 <= n < |files| ==> o.results[n] == Some(files[n].document)
  {
    OutcomeOfRun(cap, run, labels, i);
  }
}
