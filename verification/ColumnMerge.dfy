/** The merging loops of joinPhase3 (internal/pdftomd/columns.go). */
module ColumnMerge {
  import opened Rects

  // ----- Phase 3: merges that engulf no third rectangle -----

  /** How many rectangles of the list the rectangle touches. */
  function Touching(t: Rect, rs: seq<Rect>): nat {
    if rs == [] then 0
    else Touching(t, rs[..|rs| - 1]) + if Touch(t, rs[|rs| - 1]) then 1 else 0
  }

  /** The first pending rectangle may take in the i-th: they are not beside each other
      and their union touches at most two rectangles of all that are left. */
  predicate Joinable(pending: seq<Rect>, done: seq<Rect>, i: nat)
    requires pending != [] && i < |pending|
  {
    && !(pending[i].x0 > pending[0].x1 || pending[i].x1 < pending[0].x0)
    && Touching(Union(pending[0], pending[i]), pending + done) <= 2
  }

  function JoinAt(pending: seq<Rect>, i: nat): (r: seq<Rect>)
    requires 0 < i < |pending|
    ensures |r| == |pending| - 1
  {
    var all := pending[0 := Union(pending[0], pending[i])];
    all[..i] + all[i + 1..]
  }

  /** One pass over the candidates, from the last down to index i. */
  function Pass(pending: seq<Rect>, done: seq<Rect>, i: nat): (r: seq<Rect>)
    requires i < |pending|
    ensures 0 < |r| <= |pending|
    decreases i
  {
    if i == 0 then pending
    else if Joinable(pending, done, i) then Pass(JoinAt(pending, i), done, i - 1)
    else Pass(pending, done, i - 1)
  }

  /** Passes until nothing changes. */
  function Settle(pending: seq<Rect>, done: seq<Rect>): (r: seq<Rect>)
    requires pending != []
    ensures 0 < |r| <= |pending|
    decreases |pending|
  {
    var p := Pass(pending, done, |pending| - 1);
    if |p| < |pending| then Settle(p, done) else p
  }

  function Merge(pending: seq<Rect>, done: seq<Rect>): seq<Rect>
    decreases |pending|
  {
    if pending == [] then done
    else
      var p := Settle(pending, done);
      Merge(p[1..], done + [p[0]])
  }

  /** Once settled the first rectangle can take in no other. */
  lemma {:induction false} PassUnchanged(pending: seq<Rect>, done: seq<Rect>, i: nat, k: nat)
    requires i < |pending| && |Pass(pending, done, i)| == |pending| && 0 < k <= i
    ensures Pass(pending, done, i) == pending && !Joinable(pending, done, k)
    decreases i
  {
    if i > 1 && k < i {
      PassUnchanged(pending, done, i - 1, k);
    } else if i > 1 {
      PassUnchanged(pending, done, i - 1, i - 1);
    }
  }

  lemma {:induction false} SettledIsNotJoinable(pending: seq<Rect>, done: seq<Rect>, k: nat)
    requires pending != [] && 0 < k < |Settle(pending, done)|
    ensures !Joinable(Settle(pending, done), done, k)
    decreases |pending|
  {
    var p := Pass(pending, done, |pending| - 1);
    if |p| < |pending| {
      SettledIsNotJoinable(p, done, k);
    } else {
      PassUnchanged(pending, done, |pending| - 1, k);
    }
  }

  lemma {:induction false} TouchingFew(t: Rect, rs: seq<Rect>, i: nat, j: nat)
    requires forall m :: 0 <= m < |rs| && m != i && m != j ==> !Touch(t, rs[m])
    ensures Touching(t, rs) <= (if i < |rs| then 1 else 0) + if j < |rs| && i != j then 1 else 0
    decreases |rs|
  {
    if rs != [] { TouchingFew(t, rs[..|rs| - 1], i, j); }
  }

  /** A settled rectangle could take in any other that is not beside it, were there no
      third one in the way of their union. */
  lemma SettledIsMaximal(pending: seq<Rect>, done: seq<Rect>, k: nat)
    requires pending != [] && 0 < k < |Settle(pending, done)|
    ensures var p := Settle(pending, done);
            || p[k].x0 > p[0].x1 || p[k].x1 < p[0].x0
            || exists m :: 0 < m < |p + done| && m != k && Touch(Union(p[0], p[k]), (p + done)[m])
  {
    var p := Settle(pending, done);
    SettledIsNotJoinable(pending, done, k);
    if forall m :: 0 < m < |p + done| && m != k ==> !Touch(Union(p[0], p[k]), (p + done)[m]) {
      TouchingFew(Union(p[0], p[k]), p + done, 0, k);
    }
  }

  // ----- Merging keeps apart what is apart -----

  lemma {:induction false} TouchingConcat(t: Rect, a: seq<Rect>, b: seq<Rect>)
    ensures Touching(t, a + b) == Touching(t, a) + Touching(t, b)
    decreases |b|
  {
    if b == [] {
      assert a + b == a;
    } else {
      assert (a + b)[..|a + b| - 1] == a + b[..|b| - 1];
      TouchingConcat(t, a, b[..|b| - 1]);
    }
  }

  lemma {:induction false} TouchingThree(t: Rect, rs: seq<Rect>, i: nat, j: nat, k: nat)
    requires i < j < |rs| && k < |rs| && k != i && k != j
    requires Touch(t, rs[i]) && Touch(t, rs[j]) && Touch(t, rs[k])
    ensures Touching(t, rs) >= 3
  {
    var lo, mid, hi := if k < i then k else i, if k < i then i else if k < j then k else j, if k < j then j else k;
    TouchingSplit(t, rs, lo, mid, hi);
  }

  lemma TouchingSplit(t: Rect, rs: seq<Rect>, lo: nat, mid: nat, hi: nat)
    requires lo < mid < hi < |rs| && Touch(t, rs[lo]) && Touch(t, rs[mid]) && Touch(t, rs[hi])
    ensures Touching(t, rs) >= 3
  {
    TouchingAt(t, rs, hi);
    TouchingAt(t, rs[..hi], mid);
    TouchingAt(t, rs[..hi][..mid], lo);
  }

  lemma TouchingAt(t: Rect, rs: seq<Rect>, k: nat)
    requires k < |rs| && Touch(t, rs[k])
    ensures Touching(t, rs) >= Touching(t, rs[..k]) + 1
  {
    assert rs == rs[..k + 1] + rs[k + 1..] && rs[..k + 1][..k] == rs[..k];
    TouchingConcat(t, rs[..k + 1], rs[k + 1..]);
  }

  lemma TouchesPart(t: Rect, r: Rect)
    requires Contains(t, r) && !IsEmpty(r)
    ensures Touch(t, r)
  {
  }

  lemma TouchSymmetric(a: Rect, b: Rect)
    ensures Touch(a, b) <==> Touch(b, a)
  {
  }

  /** A merge of two non-empty rectangles touches no third one. */
  lemma JoinTouchesNoThird(pending: seq<Rect>, done: seq<Rect>, i: nat, k: nat)
    requires AllNonEmpty(pending + done) && 0 < i < |pending| && Joinable(pending, done, i)
    requires 0 < k < |pending + done| && k != i
    ensures !Touch(Union(pending[0], pending[i]), (pending + done)[k])
  {
    var all, u := pending + done, Union(pending[0], pending[i]);
    assert all[0] == pending[0] && all[i] == pending[i];
    TouchesPart(u, all[0]);
    TouchesPart(u, all[i]);
    if Touch(u, all[k]) { TouchingThree(u, all, 0, i, k); }
  }

  lemma JoinKeepsApart(pending: seq<Rect>, done: seq<Rect>, i: nat)
    requires AllNonEmpty(pending + done) && PairwiseApart(pending + done)
    requires 0 < i < |pending| && Joinable(pending, done, i)
    ensures PairwiseApart(JoinAt(pending, i) + done) && AllNonEmpty(JoinAt(pending, i) + done)
  {
    var all, u := pending + done, Union(pending[0], pending[i]);
    var next := JoinAt(pending, i) + done;
    forall k | 0 < k < |next| ensures !Touch(u, next[k]) && next[k] == all[if k < i then k else k + 1] {
      JoinTouchesNoThird(pending, done, i, if k < i then k else k + 1);
    }
    assert next[0] == u;
    LargerNonEmpty(u, all[0]);
    forall a, b | 0 <= a < b < |next| ensures !Touch(next[a], next[b]) {
    }
  }

  lemma JoinRegroups(pending: seq<Rect>, done: seq<Rect>, i: nat)
    requires 0 < i < |pending|
    ensures Regroups(pending + done, JoinAt(pending, i) + done)
  {
    var all, u := pending + done, Union(pending[0], pending[i]);
    var next := JoinAt(pending, i) + done;
    assert all[0] == pending[0] && all[i] == pending[i] && next[0] == u;
    forall t | t in all ensures t == pending[0] || t == pending[i] || t in next {
      var k :| 0 <= k < |all| && all[k] == t;
      if 0 < k < i { assert next[k] == t; }
      if k > i { assert next[k - 1] == t; }
    }
    forall t | t in next ensures t == u || t in all {
      var k :| 0 <= k < |next| && next[k] == t;
      if 0 < k < i { assert all[k] == t; }
      if k >= i { assert all[k + 1] == t; }
    }
    MergeRegroups(all, next, pending[0], pending[i]);
  }

  /** What a step of the merge keeps of the rectangles that are left. */
  ghost predicate Kept(before: seq<Rect>, after: seq<Rect>) {
    && Regroups(before, after)
    && (AllNonEmpty(before) && PairwiseApart(before) ==> AllNonEmpty(after) && PairwiseApart(after))
  }

  lemma KeptTransitive(a: seq<Rect>, b: seq<Rect>, c: seq<Rect>)
    requires Kept(a, b) && Kept(b, c)
    ensures Kept(a, c)
  {
    RegroupsTransitive(a, b, c);
  }

  lemma {:induction false} PassKeeps(pending: seq<Rect>, done: seq<Rect>, i: nat)
    requires i < |pending|
    ensures Kept(pending + done, Pass(pending, done, i) + done)
    decreases i
  {
    if i == 0 {
      RegroupsSelf(pending + done);
    } else if Joinable(pending, done, i) {
      JoinRegroups(pending, done, i);
      if AllNonEmpty(pending + done) && PairwiseApart(pending + done) { JoinKeepsApart(pending, done, i); }
      PassKeeps(JoinAt(pending, i), done, i - 1);
      KeptTransitive(pending + done, JoinAt(pending, i) + done, Pass(pending, done, i) + done);
    } else {
      PassKeeps(pending, done, i - 1);
    }
  }

  lemma {:induction false} SettleKeeps(pending: seq<Rect>, done: seq<Rect>)
    requires pending != []
    ensures Kept(pending + done, Settle(pending, done) + done)
    decreases |pending|
  {
    var p := Pass(pending, done, |pending| - 1);
    PassKeeps(pending, done, |pending| - 1);
    if |p| < |pending| {
      SettleKeeps(p, done);
      KeptTransitive(pending + done, p + done, Settle(p, done) + done);
    }
  }

  lemma MoveToDone(p: seq<Rect>, done: seq<Rect>)
    requires p != []
    ensures Kept(p + done, p[1..] + (done + [p[0]]))
  {
    var a, b := p + done, p[1..] + (done + [p[0]]);
    var n := |a|;
    assert forall k :: 0 <= k < n - 1 ==> b[k] == a[k + 1];
    assert b[n - 1] == a[0];
    forall r ensures r in a <==> r in b {
      if r in a {
        var k :| 0 <= k < n && a[k] == r;
        assert r == b[if k == 0 then n - 1 else k - 1];
      }
      if r in b {
        var k :| 0 <= k < n && b[k] == r;
        assert r == a[if k == n - 1 then 0 else k + 1];
      }
    }
    SameElementsRegroup(a, b);
    if PairwiseApart(a) {
      forall i, j | 0 <= i < j < n ensures !Touch(b[i], b[j]) {
        TouchSymmetric(a[0], b[i]);
      }
    }
  }

  /** Phase 3 loses no rectangle, keeps the hull, and leaves rectangles apart that
      were apart before. */
  lemma {:induction false} MergeKeeps(pending: seq<Rect>, done: seq<Rect>)
    ensures Kept(pending + done, Merge(pending, done))
    decreases |pending|
  {
    if pending == [] {
      assert pending + done == done;
      RegroupsSelf(done);
    } else {
      var p := Settle(pending, done);
      SettleKeeps(pending, done);
      MoveToDone(p, done);
      MergeKeeps(p[1..], done + [p[0]]);
      KeptTransitive(pending + done, p + done, p[1..] + (done + [p[0]]));
      KeptTransitive(pending + done, p[1..] + (done + [p[0]]), Merge(pending, done));
    }
  }

  // ----- The loops of phase 3 -----

  method CountTouching(temp: Rect, rects: seq<Rect>) returns (touching: nat)
    ensures touching == Touching(temp, rects)
  {
    touching := 0;
    for i := 0 to |rects|
      invariant touching == Touching(temp, rects[..i])
    {
      assert rects[..i + 1][..i] == rects[..i];
      if !IsEmpty(Intersect(temp, rects[i])) {
        touching := touching + 1;
      }
    }
    assert rects[..|rects|] == rects;
  }

  method MergePass(pending: seq<Rect>, done: seq<Rect>) returns (prects: seq<Rect>, changed: bool)
    requires pending != []
    ensures prects == Pass(pending, done, |pending| - 1)
    ensures changed <==> |prects| < |pending|
  {
    prects, changed := pending, false;
    var i := |prects| - 1;
    while i > 0
      invariant 0 <= i < |prects|
      invariant Pass(prects, done, i) == Pass(pending, done, |pending| - 1)
      invariant changed <==> |prects| < |pending|
      invariant |prects| <= |pending|
    {
      var r0, r1 := prects[0], prects[i];
      if r1.x0 > r0.x1 || r1.x1 < r0.x0 {
        i := i - 1;
        continue;
      }
      var temp := Union(r0, r1);
      var touching := CountTouching(temp, prects + done);
      if touching <= 2 {
        prects := prects[0 := temp];
        prects := prects[..i] + prects[i + 1..];
        changed := true;
      }
      i := i - 1;
    }
  }

  /** The merging loops of joinPhase3, tied to the merge they compute. */
  method MergeCompatible(blocks: seq<Rect>) returns (result: seq<Rect>)
    ensures result == Merge(blocks, [])
    ensures Regroups(blocks, result)
    ensures AllNonEmpty(blocks) && PairwiseApart(blocks) ==> PairwiseApart(result)
  {
    var prects := blocks;
    result := [];
    while prects != []
      invariant Merge(prects, result) == Merge(blocks, [])
      decreases |prects|
    {
      ghost var before := prects;
      var changed := true;
      while changed
        invariant prects != [] && |prects| <= |before|
        invariant if changed then Settle(prects, result) == Settle(before, result) else prects == Settle(before, result)
        decreases |prects|, changed
      {
        prects, changed := MergePass(prects, result);
      }
      result := result + [prects[0]];
      prects := prects[1..];
    }
    MergeKeeps(blocks, []);
    assert blocks + [] == blocks;
  }
}
