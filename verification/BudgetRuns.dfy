/** Runs that put all files of a plan into conversion at once, and with them the exact
    condition under which the budget of VLM calls holds. */
module BudgetRuns {
  import opened Admission
  import opened Budget
  import opened Sums
  import opened WorkerPool
  import opened Wrappers

  // ----- Reachability -----

  ghost predicate Path(cap: Gates, run: seq<State>) {
    run != [] && forall n :: 0 <= n < |run| - 1 ==> Moves(cap, run[n], run[n + 1])
  }

  ghost predicate Reach(cap: Gates, s: State, t: State) {
    exists run :: Path(cap, run) && run[0] == s && run[|run| - 1] == t
  }

  lemma ReachSelf(cap: Gates, s: State)
    ensures Reach(cap, s, s)
  {
    assert Path(cap, [s]);
  }

  lemma ReachStep(cap: Gates, s: State, i: nat, a: Action)
    requires Step(cap, s, i, a).Some?
    ensures Reach(cap, s, Step(cap, s, i, a).value)
  {
    var run := [s, Step(cap, s, i, a).value];
    assert Moves(cap, run[0], run[1]);
    assert Path(cap, run);
  }

  lemma ReachThen(cap: Gates, s: State, t: State, u: State)
    requires Reach(cap, s, t) && Reach(cap, t, u)
    ensures Reach(cap, s, u)
  {
    var first :| Path(cap, first) && first[0] == s && first[|first| - 1] == t;
    var second :| Path(cap, second) && second[0] == t && second[|second| - 1] == u;
    var run := first + second[1..];
    forall n | 0 <= n < |run| - 1 ensures Moves(cap, run[n], run[n + 1]) {
      if n < |first| - 1 {
        assert Moves(cap, first[n], first[n + 1]);
      } else {
        var m := n - (|first| - 1);
        assert Moves(cap, second[m], second[m + 1]);
        assert run[n] == second[m] && run[n + 1] == second[m + 1];
      }
    }
    assert Path(cap, run);
  }

  // ----- One worker -----

  /** Request i converts with pool p while the gates are at g. */
  function At(s: State, i: nat, g: Gates, p: Pool): State
    requires i < |s.requests|
  {
    State(g, s.requests[i := s.requests[i].(phase := Converting(p))])
  }

  lemma Works(cap: Gates, s: State, i: nat, g: Gates, p: Pool, k: nat, a: WorkerAction)
    requires i < |s.requests|
    requires PoolStep(cap, s.requests[i].files, s.requests[i].clientGone, g, p, k, a).Some?
    ensures var (g', p') := PoolStep(cap, s.requests[i].files, s.requests[i].clientGone, g, p, k, a).value;
            Reach(cap, At(s, i, g, p), At(s, i, g', p'))
  {
    var (g', p') := PoolStep(cap, s.requests[i].files, s.requests[i].clientGone, g, p, k, a).value;
    var before, after := At(s, i, g, p), At(s, i, g', p');
    assert before.requests[i := after.requests[i]] == after.requests;
    assert Step(cap, before, i, Work(k, a)) == Some(after);
    ReachStep(cap, before, i, Work(k, a));
  }

  /** A worker between two files, and room for one more document. */
  ghost predicate Free(cap: Gates, s: State, i: nat, g: Gates, p: Pool, k: nat) {
    && i < |s.requests| && |p.results| == |s.requests[i].files|
    && k < |p.workers| && p.workers[k].Looping? && p.taken < |s.requests[i].files|
    && g.document < cap.document
  }

  /** The worker takes the next file and the document token. */
  lemma Opens(cap: Gates, s: State, i: nat, g: Gates, p: Pool, k: nat) returns (g': Gates, p': Pool)
    requires Free(cap, s, i, g, p, k)
    ensures Reach(cap, At(s, i, g, p), At(s, i, g', p'))
    ensures g' == g.(document := g.document + 1)
    ensures p'.workers == p.workers[k := Extracting(p.taken)] && p'.taken == p.taken + 1
    ensures p'.results == p.results
  {
    var files, gone := s.requests[i].files, s.requests[i].clientGone;
    Works(cap, s, i, g, p, k, TakeJob);
    var p1 := PoolStep(cap, files, gone, g, p, k, TakeJob).value.1;
    Works(cap, s, i, g, p1, k, AcquireDocument);
    g', p' := PoolStep(cap, files, gone, g, p1, k, AcquireDocument).value.0, PoolStep(cap, files, gone, g, p1, k, AcquireDocument).value.1;
    ReachThen(cap, At(s, i, g, p), At(s, i, g, p1), At(s, i, g', p'));
  }

  /** The worker converts the next file and is free again. */
  lemma ConvertsNext(cap: Gates, s: State, i: nat, g: Gates, p: Pool, k: nat) returns (p': Pool)
    requires Free(cap, s, i, g, p, k)
    ensures Reach(cap, At(s, i, g, p), At(s, i, g, p'))
    ensures p'.workers == p.workers && p'.taken == p.taken + 1 && |p'.results| == |p.results|
  {
    var g1, p1 := Opens(cap, s, i, g, p, k);
    p' := Closes(cap, s, i, g1, p1, k, p.taken);
    ReachThen(cap, At(s, i, g, p), At(s, i, g1, p1), At(s, i, g, p'));
    assert p.workers[k := Extracting(p.taken)][k := Looping] == p.workers;
  }

  /** The conversion returns, the token goes back, and the result is stored. */
  lemma Closes(cap: Gates, s: State, i: nat, g: Gates, p: Pool, k: nat, job: nat) returns (p': Pool)
    requires i < |s.requests| && job < |s.requests[i].files| == |p.results|
    requires k < |p.workers| && p.workers[k] == Extracting(job) && g.document > 0
    ensures Reach(cap, At(s, i, g, p), At(s, i, g.(document := g.document - 1), p'))
    ensures p'.workers == p.workers[k := Looping] && p'.taken == p.taken && |p'.results| == |p.results|
  {
    var outcome := Conversion.Converted(s.requests[i].files[job].document);
    Works(cap, s, i, g, p, k, Return(outcome));
    var p1 := p.(workers := p.workers[k := Returned(job, outcome)]);
    p' := Stores(cap, s, i, g, p1, k, job, outcome);
    ReachThen(cap, At(s, i, g, p), At(s, i, g, p1), At(s, i, g.(document := g.document - 1), p'));
    assert p1.workers[k := Looping] == p.workers[k := Looping];
  }

  lemma Stores(cap: Gates, s: State, i: nat, g: Gates, p: Pool, k: nat, job: nat, outcome: Conversion) returns (p': Pool)
    requires i < |s.requests| && job < |p.results| && outcome.Converted?
    requires k < |p.workers| && p.workers[k] == Returned(job, outcome) && g.document > 0
    ensures Reach(cap, At(s, i, g, p), At(s, i, g.(document := g.document - 1), p'))
    ensures p'.workers == p.workers[k := Looping] && p'.taken == p.taken && |p'.results| == |p.results|
  {
    var g1 := g.(document := g.document - 1);
    Works(cap, s, i, g, p, k, ReleaseDocument);
    var p1 := p.(workers := p.workers[k := Recording(job, outcome)]);
    Works(cap, s, i, g1, p1, k, Record);
    p' := p1.(workers := p1.workers[k := Looping], results := p.results[job := Some(outcome.document)]);
    ReachThen(cap, At(s, i, g, p), At(s, i, g1, p1), At(s, i, g1, p'));
    assert p1.workers[k := Looping] == p.workers[k := Looping];
  }

  lemma {:induction false} SkipsTo(cap: Gates, s: State, i: nat, g: Gates, p: Pool, k: nat, job: nat) returns (p': Pool)
    requires Free(cap, s, i, g, p, k) && p.taken <= job < |s.requests[i].files|
    ensures Reach(cap, At(s, i, g, p), At(s, i, g, p'))
    ensures Free(cap, s, i, g, p', k) && p'.taken == job && p'.workers == p.workers
    decreases job - p.taken
  {
    if p.taken == job {
      p' := p;
      ReachSelf(cap, At(s, i, g, p));
    } else {
      var p1 := ConvertsNext(cap, s, i, g, p, k);
      p' := SkipsTo(cap, s, i, g, p1, k, job);
      ReachThen(cap, At(s, i, g, p), At(s, i, g, p1), At(s, i, g, p'));
    }
  }

  // ----- The calls of one file -----

  /** A fan-out whose first c pages are with the VLM. */
  function Started(n: nat, c: nat): seq<Page> { seq(n, x => if x < c then Calling else Waiting) }

  lemma {:induction false} StartedCalls(n: nat, c: nat)
    requires c <= n
    ensures Sum(Started(n, c), PageHolds) == c
    decreases c
  {
    if c == 0 {
      SumConstant(Started(n, 0), PageHolds, 0);
    } else {
      StartedCalls(n, c - 1);
      SumUpdate(Started(n, c - 1), PageHolds, c - 1, Calling);
      assert Started(n, c - 1)[c - 1 := Calling] == Started(n, c);
    }
  }

  function Calls(g: Gates, c: nat): Gates { g.(vlm := g.vlm + c) }

  function Fanned(p: Pool, k: nat, job: nat, n: nat, c: nat): Pool
    requires k < |p.workers|
  {
    p.(workers := p.workers[k := Recognizing(job, Started(n, c))])
  }

  lemma StartsPage(cap: Gates, s: State, i: nat, g: Gates, p: Pool, k: nat, job: nat, n: nat, c: nat)
    requires i < |s.requests| && k < |p.workers|
    requires c < n && g.vlm + c < cap.vlm
    ensures Reach(cap, At(s, i, Calls(g, c), Fanned(p, k, job, n, c)), At(s, i, Calls(g, c + 1), Fanned(p, k, job, n, c + 1)))
  {
    var now, next := Fanned(p, k, job, n, c), Fanned(p, k, job, n, c + 1);
    assert Started(n, c)[c := Calling] == Started(n, c + 1);
    assert now.workers[k := Recognizing(job, Started(n, c + 1))] == next.workers;
    Works(cap, s, i, Calls(g, c), now, k, PageAcquire(c));
  }

  lemma {:induction false} StartsPages(cap: Gates, s: State, i: nat, g: Gates, p: Pool, k: nat, job: nat, n: nat, c: nat)
    requires i < |s.requests| && k < |p.workers|
    requires c <= n && g.vlm + c <= cap.vlm
    ensures Reach(cap, At(s, i, g, Fanned(p, k, job, n, 0)), At(s, i, Calls(g, c), Fanned(p, k, job, n, c)))
    decreases c
  {
    var start := At(s, i, g, Fanned(p, k, job, n, 0));
    if c == 0 {
      ReachSelf(cap, start);
    } else {
      StartsPages(cap, s, i, g, p, k, job, n, c - 1);
      StartsPage(cap, s, i, g, p, k, job, n, c - 1);
      ReachThen(cap, start, At(s, i, Calls(g, c - 1), Fanned(p, k, job, n, c - 1)), At(s, i, Calls(g, c), Fanned(p, k, job, n, c)));
    }
  }

  /** The worker goes to a file and starts as many of its calls as the gate allows. */
  lemma Occupies(cap: Gates, s: State, i: nat, g: Gates, p: Pool, k: nat, job: nat)
    returns (g': Gates, p': Pool, w: Worker)
    requires Free(cap, s, i, g, p, k) && p.taken <= job < |s.requests[i].files| && g.vlm <= cap.vlm
    ensures Reach(cap, At(s, i, g, p), At(s, i, g', p'))
    ensures p'.workers == p.workers[k := w] && p'.taken == job + 1 && |p'.results| == |p.results|
    ensures var files := s.requests[i].files;
            && g' == g.(document := g.document + 1, vlm := AtMost(cap.vlm, g.vlm + PageCount(files)(job)))
            && UngatedCalls(w) == IsPicture(files)(job)
  {
    var files, gone := s.requests[i].files, s.requests[i].clientGone;
    var p0 := SkipsTo(cap, s, i, g, p, k, job);
    var g1, p1 := Opens(cap, s, i, g, p0, k);
    ReachThen(cap, At(s, i, g, p), At(s, i, g, p0), At(s, i, g1, p1));
    if files[job].Picture? {
      Works(cap, s, i, g1, p1, k, CallImage);
      w := Reading(job);
      g', p' := g1, p1.(workers := p1.workers[k := w]);
      ReachThen(cap, At(s, i, g, p), At(s, i, g1, p1), At(s, i, g', p'));
    } else {
      var n := files[job].pages;
      var c := AtMost(cap.vlm - g.vlm, n);
      Works(cap, s, i, g1, p1, k, FanOut);
      var p2 := Fanned(p1, k, job, n, 0);
      assert Started(n, 0) == seq(n, _ => Waiting);
      StartsPages(cap, s, i, g1, p1, k, job, n, c);
      w := Recognizing(job, Started(n, c));
      g', p' := Calls(g1, c), Fanned(p1, k, job, n, c);
      ReachThen(cap, At(s, i, g, p), At(s, i, g1, p1), At(s, i, g1, p2));
      ReachThen(cap, At(s, i, g, p), At(s, i, g1, p2), At(s, i, g', p'));
    }
  }

  // ----- One request -----

  /** An arriving request passes the queue and starts its pool. */
  lemma Admits(cap: Gates, s: State, i: nat)
    requires i < |s.requests| && s.requests[i].phase.Arriving? && s.requests[i].files != []
    requires s.gates.queue < cap.queue && s.gates.active < cap.active
    ensures Reach(cap, s, At(s, i, s.gates.(active := s.gates.active + 1), NewPool(s.requests[i].files)))
  {
    var g, r := s.gates, s.requests[i];
    var s1 := Moved(cap, s, i, Enqueue, g.(queue := g.queue + 1), r.(phase := Queued));
    var s2 := Moved(cap, s1, i, Activate, s1.gates.(active := g.active + 1), r.(phase := Admitted));
    var s3 := Moved(cap, s2, i, DrainQueue, g.(active := g.active + 1), r.(phase := Buffering));
    var s4 := Moved(cap, s3, i, StartPool, s3.gates, r.(phase := Converting(NewPool(r.files))));
    ReachThen(cap, s, s1, s2);
    ReachThen(cap, s, s2, s3);
    ReachThen(cap, s, s3, s4);
    assert s4.requests == s.requests[i := r.(phase := Converting(NewPool(r.files)))];
  }

  lemma Moved(cap: Gates, s: State, i: nat, a: Action, g: Gates, r: Request) returns (t: State)
    requires i < |s.requests| && RequestStep(cap, s.gates, s.requests[i], a) == Some((g, r))
    ensures Reach(cap, s, t) && t == State(g, s.requests[i := r])
  {
    t := State(g, s.requests[i := r]);
    ReachStep(cap, s, i, a);
  }

  /** What has changed when a request has its chosen files in conversion. */
  ghost predicate Served(cap: Gates, s: State, i: nat, c: Choice, t: State) {
    && |t.requests| == |s.requests| && i < |s.requests| && t.requests == s.requests[i := t.requests[i]]
    && t.requests[i].files == s.requests[i].files
    && t.gates == Gates(s.gates.queue, s.gates.active + Active(c), s.gates.document + Documents(c),
                        AtMost(cap.vlm, s.gates.vlm + Pages(c)))
    && UngatedHeld(t.requests[i]) == Pictures(c)
  }

  lemma ServedAt(cap: Gates, s: State, i: nat, g: Gates, p: Pool, c: Choice)
    requires i < |s.requests| && Sum(p.workers, UngatedCalls) == Pictures(c)
    requires g == Gates(s.gates.queue, s.gates.active + Active(c), s.gates.document + Documents(c),
                        AtMost(cap.vlm, s.gates.vlm + Pages(c)))
    ensures Served(cap, s, i, c, At(s, i, g, p))
  {
    var t := At(s, i, g, p);
    assert t.requests == s.requests[i := t.requests[i]];
  }

  /** Room to serve the chosen files of an arriving request. */
  ghost predicate Room(cap: Gates, s: State, i: nat, c: Choice) {
    && i < |s.requests| && s.requests[i].phase.Arriving? && s.requests[i].files == c.files && ChoiceOk(c)
    && s.gates.queue < cap.queue && s.gates.active + Active(c) <= cap.active
    && s.gates.document + Documents(c) <= cap.document && s.gates.vlm <= cap.vlm
  }

  /** One worker on its file; a second one, if there is one, is between two files. */
  lemma ServesOne(cap: Gates, s: State, i: nat, files: seq<File>, job: nat) returns (g: Gates, p: Pool, w: Worker)
    requires Room(cap, s, i, Choice(files, [job]))
    ensures Reach(cap, s, At(s, i, g, p))
    ensures g == s.gates.(active := s.gates.active + 1, document := s.gates.document + 1,
                          vlm := AtMost(cap.vlm, s.gates.vlm + PageCount(files)(job)))
    ensures p.workers == if |files| < 2 then [w] else [w, Looping]
    ensures UngatedCalls(w) == IsPicture(files)(job) && p.taken == job + 1 && |p.results| == |files|
  {
    var g0, p0 := s.gates.(active := s.gates.active + 1), NewPool(files);
    assert Choice(files, [job]).picks[0] < |files|;
    Admits(cap, s, i);
    assert p0.workers == if |files| < 2 then [Looping] else [Looping, Looping];
    g, p, w := Occupies(cap, s, i, g0, p0, 0, job);
    ReachThen(cap, s, At(s, i, g0, p0), At(s, i, g, p));
  }

  lemma ServesTwo(cap: Gates, s: State, i: nat, files: seq<File>, a: nat, b: nat) returns (g: Gates, p: Pool)
    requires Room(cap, s, i, Choice(files, [a, b])) && a < b
    ensures Reach(cap, s, At(s, i, g, p))
    ensures g == s.gates.(active := s.gates.active + 1, document := s.gates.document + 2,
                          vlm := AtMost(cap.vlm, s.gates.vlm + PageCount(files)(a) + PageCount(files)(b)))
    ensures Sum(p.workers, UngatedCalls) == IsPicture(files)(a) + IsPicture(files)(b)
  {
    var g1, p1, w := ServesOne(cap, s, i, files, a);
    var v;
    g, p, v := Occupies(cap, s, i, g1, p1, 1, b);
    ReachThen(cap, s, At(s, i, g1, p1), At(s, i, g, p));
    assert p.workers == [w, v];
    SumOfTwo(w, v, UngatedCalls);
  }

  lemma BothFiles(files: seq<File>, a: nat, b: nat)
    ensures Pictures(Choice(files, [a, b])) == IsPicture(files)(a) + IsPicture(files)(b)
    ensures Pages(Choice(files, [a, b])) == PageCount(files)(a) + PageCount(files)(b)
  {
    SumOfTwo(a, b, IsPicture(files));
    SumOfTwo(a, b, PageCount(files));
  }

  lemma Serves(cap: Gates, s: State, i: nat, c: Choice) returns (t: State)
    requires Room(cap, s, i, c)
    ensures Reach(cap, s, t) && Served(cap, s, i, c, t)
  {
    if |c.picks| == 0 {
      t := s;
      ReachSelf(cap, s);
    } else if |c.picks| == 1 {
      var a := c.picks[0];
      assert c.picks == [a];
      var g, p, w := ServesOne(cap, s, i, c.files, a);
      SumOfOne(a, IsPicture(c.files));
      SumOfOne(a, PageCount(c.files));
      SumOfOne(w, UngatedCalls);
      SumOfTwo(w, Looping, UngatedCalls);
      ServedAt(cap, s, i, g, p, c);
      t := At(s, i, g, p);
    } else {
      var a, b := c.picks[0], c.picks[1];
      assert c.picks == [a, b];
      var g, p;
      if a < b {
        g, p := ServesTwo(cap, s, i, c.files, a, b);
      } else {
        g, p := ServesTwo(cap, s, i, c.files, b, a);
      }
      BothFiles(c.files, a, b);
      ServedAt(cap, s, i, g, p, c);
      t := At(s, i, g, p);
    }
  }

  // ----- All requests -----

  /** Requests n and on have not been touched, and there is room for what is planned for them. */
  ghost predicate Fits(cap: Gates, s: State, plan: seq<Choice>, n: nat) {
    && |plan| == |s.requests| && n <= |plan|
    && (forall i :: n <= i < |plan| ==>
          ChoiceOk(plan[i]) && plan[i].files == s.requests[i].files && s.requests[i].phase.Arriving?)
    && s.gates.queue < cap.queue && s.gates.vlm <= cap.vlm
    && s.gates.active + Sum(plan[n..], Active) <= cap.active
    && s.gates.document + Sum(plan[n..], Documents) <= cap.document
  }

  lemma SumRest(plan: seq<Choice>, n: nat, f: Choice -> nat)
    requires n < |plan|
    ensures Sum(plan[n..], f) == f(plan[n]) + Sum(plan[n + 1..], f)
  {
    assert plan[n..][1..] == plan[n + 1..];
  }

  lemma ServedFits(cap: Gates, s: State, plan: seq<Choice>, n: nat, t: State)
    requires Fits(cap, s, plan, n) && n < |plan| && Served(cap, s, n, plan[n], t)
    ensures Fits(cap, t, plan, n + 1)
    ensures Sum(t.requests, UngatedHeld) == Sum(s.requests, UngatedHeld) + Pictures(plan[n])
  {
    SumRest(plan, n, Active);
    SumRest(plan, n, Documents);
    SumUpdate(s.requests, UngatedHeld, n, t.requests[n]);
    assert UngatedHeld(s.requests[n]) == 0;
    forall i | n < i < |plan| ensures t.requests[i] == s.requests[i] {
      assert s.requests[n := t.requests[n]][i] == s.requests[i];
    }
  }

  /** The calls of the requests from n on have been added. */
  ghost predicate Filled(cap: Gates, s: State, plan: seq<Choice>, n: nat, t: State)
    requires n <= |plan|
  {
    && t.gates.vlm == AtMost(cap.vlm, s.gates.vlm + Sum(plan[n..], Pages))
    && Sum(t.requests, UngatedHeld) == Sum(s.requests, UngatedHeld) + Sum(plan[n..], Pictures)
  }

  lemma FilledStep(cap: Gates, s: State, plan: seq<Choice>, n: nat, s1: State, t: State)
    requires n < |plan| && Filled(cap, s1, plan, n + 1, t)
    requires s1.gates.vlm == AtMost(cap.vlm, s.gates.vlm + Pages(plan[n]))
    requires Sum(s1.requests, UngatedHeld) == Sum(s.requests, UngatedHeld) + Pictures(plan[n])
    ensures Filled(cap, s, plan, n, t)
  {
    SumRest(plan, n, Pages);
    SumRest(plan, n, Pictures);
  }

  lemma RoomFor(cap: Gates, s: State, plan: seq<Choice>, n: nat)
    requires Fits(cap, s, plan, n) && n < |plan|
    ensures Room(cap, s, n, plan[n])
  {
    SumRest(plan, n, Active);
    SumRest(plan, n, Documents);
  }

  lemma {:induction false} ServesAll(cap: Gates, s: State, plan: seq<Choice>, n: nat) returns (t: State)
    requires Fits(cap, s, plan, n)
    ensures Reach(cap, s, t) && Filled(cap, s, plan, n, t)
    decreases |plan| - n
  {
    if n == |plan| {
      t := s;
      ReachSelf(cap, s);
    } else {
      RoomFor(cap, s, plan, n);
      var s1 := Serves(cap, s, n, plan[n]);
      ServedFits(cap, s, plan, n, s1);
      t := ServesAll(cap, s1, plan, n + 1);
      ReachThen(cap, s, s1, t);
      FilledStep(cap, s, plan, n, s1, t);
    }
  }

  // ----- The budget -----

  /** Every plan is the calls in flight of some run. */
  lemma PlanIsReached(cap: Gates, start: State, plan: seq<Choice>) returns (run: seq<State>)
    requires Init(start) && Positive(cap) && Plan(cap, start, plan)
    ensures IsRun(cap, run) && run[0] == start && CallsInFlight(run[|run| - 1]) == PlanCalls(cap, plan)
  {
    assert plan[0..] == plan;
    var t := ServesAll(cap, start, plan, 0);
    run :| Path(cap, run) && run[0] == start && run[|run| - 1] == t;
    SumConstant(start.requests, UngatedHeld, 0);
    RunInv(cap, run);
  }

  /** The budget is kept on every run that starts with these uploads. */
  ghost predicate BudgetKept(cap: Gates, start: State) {
    forall run :: IsRun(cap, run) && run[0] == start ==> CallsInFlight(run[|run| - 1]) <= cap.vlm
  }

  /** The budget is kept exactly if no files that may be in conversion together take more
      calls than it allows. */
  lemma BudgetExactly(cap: Gates, start: State)
    requires Init(start) && Positive(cap)
    ensures BudgetKept(cap, start) <==> !Overload(cap, start)
  {
    if Overload(cap, start) {
      var plan :| Plan(cap, start, plan) && PlanCalls(cap, plan) > cap.vlm;
      var run := PlanIsReached(cap, start, plan);
    } else {
      forall run | IsRun(cap, run) && run[0] == start ensures CallsInFlight(run[|run| - 1]) <= cap.vlm {
        RunIsPlanned(cap, run);
      }
    }
  }

  // ----- Conditions to check before a run -----

  ghost predicate NoPictures(s: State) {
    forall i :: 0 <= i < |s.requests| ==> forall j :: 0 <= j < |s.requests[i].files| ==> s.requests[i].files[j].Paged?
  }

  /** Without standalone images the gate is the budget. */
  lemma NoPicturesKeepBudget(cap: Gates, start: State)
    requires Init(start) && Positive(cap) && NoPictures(start)
    ensures BudgetKept(cap, start)
  {
    forall plan: seq<Choice> | Plan(cap, start, plan) ensures PlanCalls(cap, plan) <= cap.vlm {
      forall i | 0 <= i < |plan| ensures Pictures(plan[i]) == 0 {
        SumZero(plan[i].picks, IsPicture(plan[i].files));
      }
      SumZero(plan, Pictures);
    }
    BudgetExactly(cap, start);
  }

  /** A request with a document of as many pages as the gate admits, and an image. */
  function Upload(cap: Gates): State {
    State(Gates(0, 0, 0, 0), [Request([Paged("", cap.vlm), Picture("")], false, Arriving)])
  }

  /** The budget is kept whatever is uploaded exactly if only one document is converted at
      a time. */
  lemma BudgetForAllUploads(cap: Gates)
    requires Positive(cap)
    ensures (forall start :: Init(start) ==> BudgetKept(cap, start)) <==> cap.document == 1
  {
    if cap.document == 1 {
      forall start | Init(start) ensures BudgetKept(cap, start) {
        forall run | IsRun(cap, run) && run[0] == start ensures CallsInFlight(run[|run| - 1]) <= cap.vlm {
          RunBound(cap, run);
        }
      }
    } else {
      UploadOverloads(cap);
      BudgetExactly(cap, Upload(cap));
    }
  }

  lemma UploadOverloads(cap: Gates)
    requires Positive(cap) && cap.document >= 2
    ensures Init(Upload(cap)) && Overload(cap, Upload(cap))
  {
    var files := Upload(cap).requests[0].files;
    var c := Choice(files, [0, 1]);
    BothFiles(files, 0, 1);
    SumOfOne(c, Documents);
    SumOfOne(c, Active);
    SumOfOne(c, Pictures);
    SumOfOne(c, Pages);
    assert Plan(cap, Upload(cap), [c]);
  }

  /** The capacities that the router starts with. */
  const DEFAULTS := Gates(16, 4, 4, 8)

  /** One document of eight pages and three images, in two requests. */
  function BusyUploads(): State {
    State(Gates(0, 0, 0, 0),
          [Request([Paged("", 8), Picture("")], false, Arriving), Request([Picture(""), Picture("")], false, Arriving)])
  }

  /** With the default capacities eleven calls run at once where the budget says eight; by
      RunBound no run has more. */
  lemma DefaultBudgetExceeded() returns (run: seq<State>)
    ensures IsRun(DEFAULTS, run) && run[0] == BusyUploads()
    ensures CallsInFlight(run[|run| - 1]) == 11 == DEFAULTS.vlm + DEFAULTS.document - 1
  {
    var start := BusyUploads();
    var c, d := Choice(start.requests[0].files, [0, 1]), Choice(start.requests[1].files, [0, 1]);
    BothFiles(c.files, 0, 1);
    BothFiles(d.files, 0, 1);
    SumOfTwo(c, d, Documents);
    SumOfTwo(c, d, Active);
    SumOfTwo(c, d, Pictures);
    SumOfTwo(c, d, Pages);
    run := PlanIsReached(DEFAULTS, start, [c, d]);
  }
}
