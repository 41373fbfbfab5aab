/** How many calls of the VLM run at once. The gate is described as one budget for the whole
    service (internal/server/main.go:50-52), but a standalone image is sent without it
    (internal/server/convert.go:78), so the budget can be exceeded. This module says by how
    much, and for exactly which uploads. */
module Budget {
  import opened Admission
  import opened Sums
  import opened WorkerPool
  import opened Wrappers

  function UngatedHeld(r: Request): nat {
    if r.phase.Converting? then Sum(r.phase.pool.workers, UngatedCalls) else 0
  }

  /** Calls for pages, each under a token of the gate, and calls for images. */
  function CallsInFlight(s: State): nat { Sum(s.requests, VlmHeld) + Sum(s.requests, UngatedHeld) }

  // ----- Upper bounds -----

  /** Every call runs inside a conversion, so images can add at most one call for each
      document token, and none for a token whose pages use the gate. */
  lemma InFlightBound(cap: Gates, s: State)
    requires Inv(cap, s) && cap.vlm > 0 && cap.document > 0
    ensures CallsInFlight(s) <= cap.vlm + cap.document - 1
  {
    forall i | 0 <= i < |s.requests| ensures UngatedHeld(s.requests[i]) <= DocumentHeld(s.requests[i]) {
      UngatedInDocument(s.requests[i]);
    }
    SumCompare(s.requests, UngatedHeld, s.requests, DocumentHeld);
    if Sum(s.requests, VlmHeld) > 0 {
      var i := PositiveTerm(s.requests, VlmHeld);
      GatedTakesDocument(s.requests[i]);
      SumStrict(s.requests, UngatedHeld, DocumentHeld, i);
    }
  }

  lemma RunBound(cap: Gates, run: seq<State>)
    requires IsRun(cap, run) && cap.vlm > 0 && cap.document > 0
    ensures CallsInFlight(run[|run| - 1]) <= cap.vlm + cap.document - 1
  {
    RunInv(cap, run);
    InFlightBound(cap, run[|run| - 1]);
  }

  lemma UngatedInDocument(r: Request)
    ensures UngatedHeld(r) <= DocumentHeld(r)
  {
    if r.phase.Converting? {
      SumCompare(r.phase.pool.workers, UngatedCalls, r.phase.pool.workers, DocumentHolds);
    }
  }

  lemma GatedTakesDocument(r: Request)
    requires VlmHeld(r) > 0
    ensures UngatedHeld(r) < DocumentHeld(r)
  {
    var k := PositiveTerm(r.phase.pool.workers, VlmHolds);
    SumStrict(r.phase.pool.workers, UngatedCalls, DocumentHolds, k);
  }

  // ----- Which files can be in conversion at once -----

  /** Up to two files of one request, named by their index. */
  datatype Choice = Choice(files: seq<File>, picks: seq<nat>)

  predicate ChoiceOk(c: Choice) {
    && |c.picks| <= 2
    && (forall k :: 0 <= k < |c.picks| ==> c.picks[k] < |c.files|)
    && (|c.picks| == 2 ==> c.picks[0] != c.picks[1])
  }

  function IsPicture(files: seq<File>): nat -> nat {
    (j: nat) => if j < |files| && files[j].Picture? then 1 else 0
  }

  function PageCount(files: seq<File>): nat -> nat {
    (j: nat) => if j < |files| && files[j].Paged? then files[j].pages else 0
  }

  function Documents(c: Choice): nat { |c.picks| }

  function Active(c: Choice): nat { if c.picks == [] then 0 else 1 }

  function Pictures(c: Choice): nat { Sum(c.picks, IsPicture(c.files)) }

  function Pages(c: Choice): nat { Sum(c.picks, PageCount(c.files)) }

  /** One choice for each request, within the capacities for requests and documents. */
  ghost predicate Plan(cap: Gates, s: State, plan: seq<Choice>) {
    && |plan| == |s.requests|
    && (forall i :: 0 <= i < |plan| ==> ChoiceOk(plan[i]) && plan[i].files == s.requests[i].files)
    && Sum(plan, Documents) <= cap.document
    && Sum(plan, Active) <= cap.active
  }

  /** n, but no more than the capacity. */
  function AtMost(cap: nat, n: nat): nat { if n < cap then n else cap }

  /** The calls that the files of a plan can have in flight together. */
  function PlanCalls(cap: Gates, plan: seq<Choice>): nat {
    Sum(plan, Pictures) + AtMost(cap.vlm, Sum(plan, Pages))
  }

  /** Some files that may be in conversion together take more calls than the budget. */
  ghost predicate Overload(cap: Gates, s: State) {
    exists plan :: Plan(cap, s, plan) && PlanCalls(cap, plan) > cap.vlm
  }

  // ----- No more calls than some plan has -----

  function InConversion(ws: seq<Worker>): seq<nat> {
    if ws == [] then []
    else (if ws[0].Recognizing? || ws[0].Reading? then [ws[0].job] else []) + InConversion(ws[1..])
  }

  lemma {:induction false} InConversionFacts(files: seq<File>, clientGone: bool, p: Pool, ws: seq<Worker>)
    requires forall k :: 0 <= k < |ws| ==> WorkerOk(files, clientGone, p, ws[k])
    ensures |InConversion(ws)| <= Sum(ws, DocumentHolds)
    ensures Sum(InConversion(ws), IsPicture(files)) == Sum(ws, UngatedCalls)
    ensures Sum(InConversion(ws), PageCount(files)) >= Sum(ws, VlmHolds)
  {
    if ws != [] {
      InConversionFacts(files, clientGone, p, ws[1..]);
      var w := ws[0];
      assert WorkerOk(files, clientGone, p, w);
      if w.Recognizing? || w.Reading? {
        assert InConversion(ws) == [w.job] + InConversion(ws[1..]);
        assert InConversion(ws)[1..] == InConversion(ws[1..]);
        if w.Recognizing? { PagesBoundCalls(w.pages); }
      } else {
        assert InConversion(ws) == InConversion(ws[1..]);
      }
    }
  }

  lemma PagesBoundCalls(pages: seq<Page>)
    ensures Sum(pages, PageHolds) <= |pages|
  {
    SumCompare(pages, PageHolds, pages, (p: Page) => 1);
    SumConstant(pages, (p: Page) => 1, 1);
  }

  function ChoiceOf(r: Request): Choice {
    Choice(r.files, if r.phase.Converting? then InConversion(r.phase.pool.workers) else [])
  }

  lemma ChoiceOfFacts(r: Request)
    requires RequestOk(r)
    ensures ChoiceOk(ChoiceOf(r))
    ensures Documents(ChoiceOf(r)) <= DocumentHeld(r) && Active(ChoiceOf(r)) <= ActiveHeld(r)
    ensures Pictures(ChoiceOf(r)) == UngatedHeld(r) && Pages(ChoiceOf(r)) >= VlmHeld(r)
  {
    if r.phase.Converting? {
      var ws := r.phase.pool.workers;
      InConversionFacts(r.files, r.clientGone, r.phase.pool, ws);
      TwoPicks(r.files, r.clientGone, r.phase.pool);
    }
  }

  lemma TwoPicks(files: seq<File>, clientGone: bool, p: Pool)
    requires PoolOk(files, clientGone, p)
    ensures ChoiceOk(Choice(files, InConversion(p.workers)))
  {
    var ws := p.workers;
    forall k | 0 <= k < |ws| && InFlight(ws[k]) ensures ws[k].job < |files| {
      assert WorkerOk(files, clientGone, p, ws[k]);
    }
    if |ws| > 0 {
      assert |ws| == 2 ==> ws[1..][0] == ws[1] && InConversion(ws[1..][1..]) == [];
      assert |ws| == 1 ==> InConversion(ws[1..]) == [];
    }
  }

  lemma InFlightIsPlanned(cap: Gates, s: State)
    requires Inv(cap, s)
    ensures exists plan :: Plan(cap, s, plan) && PlanCalls(cap, plan) >= CallsInFlight(s)
  {
    var plan := seq(|s.requests|, i requires 0 <= i < |s.requests| => ChoiceOf(s.requests[i]));
    forall i | 0 <= i < |plan|
      ensures ChoiceOk(plan[i]) && Documents(plan[i]) <= DocumentHeld(s.requests[i]) && Active(plan[i]) <= ActiveHeld(s.requests[i])
      ensures UngatedHeld(s.requests[i]) <= Pictures(plan[i]) && VlmHeld(s.requests[i]) <= Pages(plan[i])
    {
      ChoiceOfFacts(s.requests[i]);
    }
    SumCompare(plan, Documents, s.requests, DocumentHeld);
    SumCompare(plan, Active, s.requests, ActiveHeld);
    SumCompare(s.requests, UngatedHeld, plan, Pictures);
    SumCompare(s.requests, VlmHeld, plan, Pages);
    assert Plan(cap, s, plan);
  }

  ghost predicate SameFiles(s: State, t: State) {
    |s.requests| == |t.requests| && forall i :: 0 <= i < |s.requests| ==> s.requests[i].files == t.requests[i].files
  }

  lemma {:induction false} RunKeepsFiles(cap: Gates, run: seq<State>)
    requires IsRun(cap, run)
    ensures SameFiles(run[0], run[|run| - 1])
    decreases |run|
  {
    if |run| > 1 {
      var before := run[..|run| - 1];
      forall n | 0 <= n < |before| - 1 ensures Moves(cap, before[n], before[n + 1]) {
        assert Moves(cap, run[n], run[n + 1]);
      }
      RunKeepsFiles(cap, before);
      RunInv(cap, before);
      var s, t := run[|run| - 2], run[|run| - 1];
      assert Moves(cap, s, t);
      var i: nat, a: Action :| Step(cap, s, i, a) == Some(t);
      assert RequestOk(s.requests[i]);
      RequestStepKeepsOk(cap, s.gates, s.requests[i], a);
    }
  }

  lemma PlanMoves(cap: Gates, s: State, t: State, plan: seq<Choice>)
    requires SameFiles(s, t) && Plan(cap, t, plan)
    ensures Plan(cap, s, plan)
  {
  }

  /** No run has more calls in flight than some plan for its uploads. */
  lemma RunIsPlanned(cap: Gates, run: seq<State>)
    requires IsRun(cap, run)
    ensures exists plan :: Plan(cap, run[0], plan) && PlanCalls(cap, plan) >= CallsInFlight(run[|run| - 1])
  {
    var s := run[|run| - 1];
    RunInv(cap, run);
    RunKeepsFiles(cap, run);
    InFlightIsPlanned(cap, s);
    var plan :| Plan(cap, s, plan) && PlanCalls(cap, plan) >= CallsInFlight(s);
    PlanMoves(cap, run[0], s, plan);
  }
}
