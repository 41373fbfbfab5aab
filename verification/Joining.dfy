/** The interval merge inside joinEdges (internal/pdftomd/tables.go): one line's
    segments, sorted by their start, joined across gaps of at most `tol`. */
module Joining {
  import opened Wrappers

  datatype Interval = Interval(lo: real, hi: real)

  predicate Proper(r: Interval) { r.lo <= r.hi }

  ghost predicate AllProper(s: seq<Interval>) { forall i :: 0 <= i < |s| ==> Proper(s[i]) }

  ghost predicate ByStart(s: seq<Interval>) { forall i, j :: 0 <= i < j < |s| ==> s[i].lo <= s[j].lo }

  ghost predicate Spaced(s: seq<Interval>, tol: real) {
    forall i, j :: 0 <= i < j < |s| ==> s[i].hi + tol < s[j].lo
  }

  function Hull(a: Interval, b: Interval): Interval {
    Interval(a.lo, if b.hi > a.hi then b.hi else a.hi)
  }

  /** The merge loop: `last` is the interval still being extended. */
  function JoinFrom(last: Interval, rest: seq<Interval>, tol: real): (r: seq<Interval>)
    ensures r != [] && r[0].lo == last.lo
    decreases |rest|
  {
    if rest == [] then [last]
    else if rest[0].lo <= last.hi + tol then JoinFrom(Hull(last, rest[0]), rest[1..], tol)
    else [last] + JoinFrom(rest[0], rest[1..], tol)
  }

  function Join(s: seq<Interval>, tol: real): seq<Interval> {
    if s == [] then [] else JoinFrom(s[0], s[1..], tol)
  }

  // ----- Maximal runs: what the merge computes, said without it -----

  /** r spans a maximal group of intervals of S that can be walked from left to right
      over gaps of at most tol. */
  ghost predicate IsRun(S: set<Interval>, r: Interval, tol: real) {
    && (exists a :: a in S && a.lo == r.lo)
    && (exists b :: b in S && r.lo <= b.lo && b.hi == r.hi)
    && (forall c :: c in S && c.lo < r.lo ==> c.hi + tol < r.lo)
    && (forall c :: c in S && c.lo > r.hi ==> c.lo > r.hi + tol)
    && (forall c :: c in S && r.lo <= c.lo <= r.hi ==> c.hi <= r.hi)
    && (forall c {:trigger Reached(S, r.lo, c, tol)} :: c in S && r.lo < c.lo <= r.hi ==> Reached(S, r.lo, c, tol))
  }

  ghost predicate Reached(S: set<Interval>, lo: real, c: Interval, tol: real) {
    exists d :: d in S && lo <= d.lo < c.lo && c.lo <= d.hi + tol
  }

  ghost function Elements(s: seq<Interval>): set<Interval> { set i | 0 <= i < |s| :: s[i] }

  lemma AbsorbForward(last: Interval, c: Interval, R: set<Interval>, r: Interval, tol: real)
    requires tol >= 0.0 && Proper(last) && Proper(c) && last.lo <= c.lo <= last.hi + tol
    requires forall x :: x in R ==> Proper(x) && c.lo <= x.lo
    requires IsRun({last, c} + R, r, tol)
    ensures IsRun({Hull(last, c)} + R, r, tol)
  {
    var S, H := {last, c} + R, Hull(last, c);
    var S' := {H} + R;
    var a :| a in S && a.lo == r.lo;
    assert r.lo == last.lo || r.lo > last.hi + tol by {
      assert last in S;
      if r.lo > last.lo { assert last.hi + tol < r.lo; }
    }
    if a == last || a == c { assert H in S' && H.lo == r.lo; } else { assert a in S'; }
    var b :| b in S && r.lo <= b.lo && b.hi == r.hi;
    if b == last || b == c {
      assert last in S && c in S;
      assert r.lo == last.lo;
      assert r.lo <= c.lo;
      assert last.hi <= r.hi;
      assert c.lo <= r.hi && c.hi <= r.hi;
      assert H in S' && H.hi == r.hi;
    } else {
      assert b in S';
    }
    assert last in S && c in S;
    forall x | x in S' && r.lo < x.lo <= r.hi ensures Reached(S', r.lo, x, tol) {
      assert x in R;
      assert x in S;
      assert Reached(S, r.lo, x, tol);
      var d :| d in S && r.lo <= d.lo < x.lo && x.lo <= d.hi + tol;
      if d == last || d == c { assert H in S' && r.lo <= H.lo < x.lo && x.lo <= H.hi + tol; } else { assert d in S'; }
    }
  }

  lemma AbsorbBackward(last: Interval, c: Interval, R: set<Interval>, r: Interval, tol: real)
    requires tol >= 0.0 && Proper(last) && Proper(c) && last.lo <= c.lo <= last.hi + tol
    requires forall x :: x in R ==> Proper(x) && c.lo <= x.lo
    requires IsRun({Hull(last, c)} + R, r, tol)
    ensures IsRun({last, c} + R, r, tol)
  {
    var S, H := {last, c} + R, Hull(last, c);
    var S' := {H} + R;
    assert H in S' && last in S && c in S;
    var a :| a in S' && a.lo == r.lo;
    if a == H { assert last.lo == r.lo; } else { assert a in S; }
    var b :| b in S' && r.lo <= b.lo && b.hi == r.hi;
    if b == H {
      if c.hi > last.hi { assert c.hi == r.hi && r.lo <= c.lo; } else { assert last.hi == r.hi && r.lo <= last.lo; }
    } else {
      assert b in S;
    }
    assert r.lo == H.lo || H.hi + tol < r.lo by {
      assert r.lo >= H.lo;
    }
    forall x | x in S && r.lo < x.lo <= r.hi ensures Reached(S, r.lo, x, tol) {
      assert r.lo == last.lo || x in R;
      if x in R {
        assert x in S';
        ReachedThroughParts(last, c, R, r.lo, x, tol);
      } else {
        assert x == c;
        assert last.lo < c.lo <= last.hi + tol;
      }
    }
  }

  lemma ReachedThroughParts(last: Interval, c: Interval, R: set<Interval>, lo: real, x: Interval, tol: real)
    requires tol >= 0.0 && last.lo <= c.lo <= last.hi + tol && c.lo <= x.lo
    requires Reached({Hull(last, c)} + R, lo, x, tol)
    ensures Reached({last, c} + R, lo, x, tol)
  {
    var S := {last, c} + R;
    assert last in S && c in S;
    var d :| d in {Hull(last, c)} + R && lo <= d.lo < x.lo && x.lo <= d.hi + tol;
    if d == Hull(last, c) {
      if c.lo < x.lo && c.hi > last.hi {
        assert lo <= c.lo < x.lo && x.lo <= c.hi + tol;
      } else {
        assert last.lo < x.lo && x.lo <= last.hi + tol;
      }
    } else {
      assert d in S;
    }
  }

  lemma LastIsRun(last: Interval, S: set<Interval>, tol: real)
    requires tol >= 0.0 && Proper(last)
    requires forall x :: x in S ==> x.lo > last.hi + tol
    ensures IsRun({last} + S, last, tol)
  {
    assert last in {last} + S;
  }

  lemma RunBehindGap(last: Interval, S: set<Interval>, r: Interval, tol: real)
    requires tol >= 0.0 && Proper(last)
    requires forall x :: x in S ==> Proper(x) && x.lo > last.hi + tol
    requires IsRun(S, r, tol)
    ensures IsRun({last} + S, r, tol)
  {
    var T := {last} + S;
    var a :| a in S && a.lo == r.lo;
    var b :| b in S && r.lo <= b.lo && b.hi == r.hi;
    assert a in T && b in T;
    forall x | x in T && r.lo < x.lo <= r.hi ensures Reached(T, r.lo, x, tol) {
      assert x in S && Reached(S, r.lo, x, tol);
      var d :| d in S && r.lo <= d.lo < x.lo && x.lo <= d.hi + tol;
      assert d in T;
    }
  }

  /** Past a gap wider than tol a new run begins and the old one is complete. */
  lemma SplitRuns(last: Interval, c: Interval, R: set<Interval>, r: Interval, tol: real)
    requires tol >= 0.0 && Proper(last) && Proper(c) && last.hi + tol < c.lo
    requires forall x :: x in R ==> Proper(x) && c.lo <= x.lo
    ensures IsRun({last, c} + R, r, tol) <==> r == last || IsRun({c} + R, r, tol)
  {
    var S := {c} + R;
    assert {last, c} + R == {last} + S;
    assert forall x :: x in S ==> Proper(x) && x.lo > last.hi + tol;
    LastIsRun(last, S, tol);
    if IsRun({last} + S, r, tol) && r != last { SplitForward(last, S, r, tol); }
    if IsRun(S, r, tol) { RunBehindGap(last, S, r, tol); }
  }

  lemma SplitForward(last: Interval, S: set<Interval>, r: Interval, tol: real)
    requires tol >= 0.0 && Proper(last)
    requires forall x :: x in S ==> Proper(x) && x.lo > last.hi + tol
    requires IsRun({last} + S, r, tol) && r != last
    ensures IsRun(S, r, tol)
  {
    var T := {last} + S;
    assert last in T;
    var a :| a in T && a.lo == r.lo;
    var b :| b in T && r.lo <= b.lo && b.hi == r.hi;
    if r.lo == last.lo {
      // some interval of S starts inside r; the leftmost such cannot be reached
      assert b != last;
      LeftmostUnreached(last, S, r, tol, b);
      assert false;
    }
    assert a in S;
    assert b in S;
    forall x | x in S && r.lo < x.lo <= r.hi ensures Reached(S, r.lo, x, tol) {
      assert x in T && Reached(T, r.lo, x, tol);
      var d :| d in T && r.lo <= d.lo < x.lo && x.lo <= d.hi + tol;
      assert d in S;
    }
  }

  lemma {:induction false} LeftmostUnreached(last: Interval, S: set<Interval>, r: Interval, tol: real, b: Interval)
    requires tol >= 0.0 && Proper(last) && r.lo == last.lo
    requires forall x :: x in S ==> Proper(x) && x.lo > last.hi + tol
    requires forall c {:trigger Reached({last} + S, r.lo, c, tol)} :: c in {last} + S && r.lo < c.lo <= r.hi ==> Reached({last} + S, r.lo, c, tol)
    requires b in S && b.lo <= r.hi
    ensures false
    decreases |set x | x in S && x.lo < b.lo|
  {
    var T := {last} + S;
    assert b in T && Reached(T, r.lo, b, tol);
    var d :| d in T && r.lo <= d.lo < b.lo && b.lo <= d.hi + tol;
    assert d in S;
    var smaller, below := set x | x in S && x.lo < d.lo, set x | x in S && x.lo < b.lo;
    assert smaller < below by { assert d in below && d !in smaller; }
    ProperSubsetSmaller(smaller, below);
    LeftmostUnreached(last, S, r, tol, d);
  }

  lemma ProperSubsetSmaller(a: set<Interval>, b: set<Interval>)
    requires a < b
    ensures |a| < |b|
  {
    var x :| x in b && x !in a;
    assert a <= b - {x};
    SubsetSize(a, b - {x});
  }

  lemma ElementsCons(s: seq<Interval>)
    requires s != []
    ensures Elements(s) == {s[0]} + Elements(s[1..])
  {
    forall x | x in Elements(s) ensures x in {s[0]} + Elements(s[1..]) {
      var i :| 0 <= i < |s| && s[i] == x;
      if i > 0 { assert s[1..][i - 1] == x; }
    }
    forall x | x in Elements(s[1..]) ensures x in Elements(s) {
      var i :| 0 <= i < |s[1..]| && s[1..][i] == x;
      assert s[i + 1] == x;
    }
  }

  lemma {:induction false} JoinFromIsRuns(last: Interval, rest: seq<Interval>, tol: real, r: Interval)
    requires tol >= 0.0 && Proper(last) && AllProper(rest) && ByStart(rest)
    requires rest != [] ==> last.lo <= rest[0].lo
    ensures r in JoinFrom(last, rest, tol) <==> IsRun({last} + Elements(rest), r, tol)
    decreases |rest|
  {
    if rest == [] {
      assert {last} + Elements(rest) == {last};
      if r == last { assert last in {last}; }
    } else {
      var c, tail := rest[0], rest[1..];
      ElementsCons(rest);
      var R := Elements(tail);
      assert {last} + Elements(rest) == {last, c} + R;
      assert forall x :: x in R ==> Proper(x) && c.lo <= x.lo;
      if c.lo <= last.hi + tol {
        JoinFromIsRuns(Hull(last, c), tail, tol, r);
        if IsRun({last, c} + R, r, tol) { AbsorbForward(last, c, R, r, tol); }
        if IsRun({Hull(last, c)} + R, r, tol) { AbsorbBackward(last, c, R, r, tol); }
      } else {
        JoinFromIsRuns(c, tail, tol, r);
        SplitRuns(last, c, R, r, tol);
      }
    }
  }

  /** The merge loop computes exactly the maximal runs of its input. */
  lemma JoinIsRuns(s: seq<Interval>, tol: real, r: Interval)
    requires tol >= 0.0 && AllProper(s) && ByStart(s)
    ensures r in Join(s, tol) <==> IsRun(Elements(s), r, tol)
  {
    if s != [] {
      ElementsCons(s);
      JoinFromIsRuns(s[0], s[1..], tol, r);
    }
  }

  lemma {:induction false} JoinFromSpaced(last: Interval, rest: seq<Interval>, tol: real)
    requires tol >= 0.0 && Proper(last) && AllProper(rest)
    ensures AllProper(JoinFrom(last, rest, tol)) && Spaced(JoinFrom(last, rest, tol), tol)
    decreases |rest|
  {
    if rest != [] {
      var c, tail := rest[0], rest[1..];
      if c.lo <= last.hi + tol {
        JoinFromSpaced(Hull(last, c), tail, tol);
      } else {
        JoinFromSpaced(c, tail, tol);
        var out := JoinFrom(c, tail, tol);
        forall j | 0 <= j < |out| ensures last.hi + tol < out[j].lo {
          assert j > 0 ==> out[0].hi + tol < out[j].lo;
        }
      }
    }
  }

  /** The outputs are in order and more than tol apart. */
  lemma JoinSpaced(s: seq<Interval>, tol: real)
    requires tol >= 0.0 && AllProper(s)
    ensures AllProper(Join(s, tol)) && Spaced(Join(s, tol), tol)
  {
    if s != [] { JoinFromSpaced(s[0], s[1..], tol); }
  }

  lemma HeadIsMember<T>(s: seq<T>)
    requires s != []
    ensures s[0] in s
  {
  }

  lemma {:induction false} SpacedUnique(a: seq<Interval>, b: seq<Interval>, tol: real)
    requires tol >= 0.0 && AllProper(a) && AllProper(b) && Spaced(a, tol) && Spaced(b, tol)
    requires forall r :: r in a <==> r in b
    ensures a == b
    decreases |a|
  {
    if a == [] {
      if b != [] { HeadIsMember(b); }
    } else {
      assert a[0] in b && (b == [] || b[0] in a);
      assert a[0] == b[0];
      forall r ensures r in a[1..] <==> r in b[1..] {
        if r in a[1..] { assert r in b && r != a[0]; }
        if r in b[1..] { assert r in a && r != b[0]; }
      }
      SpacedUnique(a[1..], b[1..], tol);
    }
  }

  /** The result does not depend on how ties in the start are ordered, nor on repeated
      segments: equal sets of segments join to the same list. */
  lemma JoinOrderIrrelevant(s: seq<Interval>, t: seq<Interval>, tol: real)
    requires tol >= 0.0 && AllProper(s) && AllProper(t) && ByStart(s) && ByStart(t)
    requires Elements(s) == Elements(t)
    ensures Join(s, tol) == Join(t, tol)
  {
    JoinSpaced(s, tol);
    JoinSpaced(t, tol);
    forall r ensures r in Join(s, tol) <==> r in Join(t, tol) {
      JoinIsRuns(s, tol, r);
      JoinIsRuns(t, tol, r);
    }
    SpacedUnique(Join(s, tol), Join(t, tol), tol);
  }

  lemma {:induction false} JoinFromFixes(last: Interval, rest: seq<Interval>, tol: real)
    requires Spaced([last] + rest, tol)
    ensures JoinFrom(last, rest, tol) == [last] + rest
    decreases |rest|
  {
    if rest != [] {
      var all := [last] + rest;
      assert all[0].hi + tol < all[1].lo;
      assert [rest[0]] + rest[1..] == rest;
      forall i, j | 0 <= i < j < |rest| ensures rest[i].hi + tol < rest[j].lo {
        assert all[i + 1].hi + tol < all[j + 1].lo;
      }
      JoinFromFixes(rest[0], rest[1..], tol);
    }
  }

  /** Joining again changes nothing. */
  lemma JoinIdempotent(s: seq<Interval>, tol: real)
    requires tol >= 0.0 && AllProper(s)
    ensures Join(Join(s, tol), tol) == Join(s, tol)
  {
    JoinSpaced(s, tol);
    var out := Join(s, tol);
    if out != [] {
      assert out == [out[0]] + out[1..];
      JoinFromFixes(out[0], out[1..], tol);
    }
  }

  predicate Within(a: Interval, r: Interval) { r.lo <= a.lo && a.hi <= r.hi }

  lemma {:induction false} JoinFromCovers(last: Interval, rest: seq<Interval>, tol: real, a: Interval)
    requires tol >= 0.0 && ByStart(rest) && (rest != [] ==> last.lo <= rest[0].lo)
    requires Within(a, last) || a in rest
    ensures exists r :: r in JoinFrom(last, rest, tol) && Within(a, r)
    decreases |rest|
  {
    if rest == [] {
      assert last in JoinFrom(last, rest, tol);
    } else {
      var c, tail := rest[0], rest[1..];
      if c.lo <= last.hi + tol {
        JoinFromCovers(Hull(last, c), tail, tol, a);
      } else if Within(a, last) {
        assert JoinFrom(last, rest, tol)[0] == last;
      } else {
        JoinFromCovers(c, tail, tol, a);
        var r :| r in JoinFrom(c, tail, tol) && Within(a, r);
        assert r in JoinFrom(last, rest, tol);
      }
    }
  }

  /** Every input segment lies inside one output segment. */
  lemma JoinCovers(s: seq<Interval>, tol: real, a: Interval)
    requires tol >= 0.0 && ByStart(s) && a in s
    ensures exists r :: r in Join(s, tol) && r.lo <= a.lo && a.hi <= r.hi
  {
    JoinFromCovers(s[0], s[1..], tol, a);
  }

  /** Position t is on an input segment or in a gap of at most tol between two of them. */
  ghost predicate Bridged(S: set<Interval>, t: real, tol: real) {
    || (exists a :: a in S && a.lo <= t <= a.hi)
    || (exists a, b :: a in S && b in S && a.hi < t < b.lo && b.lo <= a.hi + tol)
  }

  /** Every position on an output segment comes from the input or from a bridged gap. */
  lemma RunIsBridged(S: set<Interval>, r: Interval, t: real, tol: real)
    requires tol >= 0.0 && IsRun(S, r, tol) && r.lo <= t <= r.hi
    requires forall c :: c in S ==> Proper(c)
    ensures Bridged(S, t, tol)
  {
    var a :| a in S && a.lo == r.lo;
    var best := FurthestBefore(S, t, a);
    if best.hi < t {
      var b :| b in S && r.lo <= b.lo && b.hi == r.hi;
      assert b.lo > t;
      var c := FirstAfter(S, t, b);
      assert r.lo < c.lo <= r.hi;
      assert Reached(S, r.lo, c, tol);
      var d :| d in S && r.lo <= d.lo < c.lo && c.lo <= d.hi + tol;
      assert d.lo <= t;
      assert best.hi < t < c.lo && c.lo <= best.hi + tol;
    }
  }

  /** Among the intervals that start at or before t, one that ends last. */
  lemma {:induction false} FurthestBefore(S: set<Interval>, t: real, a: Interval) returns (best: Interval)
    requires a in S && a.lo <= t
    ensures best in S && best.lo <= t && forall c :: c in S && c.lo <= t ==> c.hi <= best.hi
    decreases S
  {
    if c :| c in S && c.lo <= t && c.hi > a.hi {
      var smaller := S - {a};
      best := FurthestBefore(smaller, t, c);
      assert forall x :: x in S ==> x == a || x in smaller;
    } else {
      best := a;
    }
  }

  /** Among the intervals that start after t, one that starts first. */
  lemma {:induction false} FirstAfter(S: set<Interval>, t: real, b: Interval) returns (first: Interval)
    requires b in S && b.lo > t
    ensures first in S && t < first.lo <= b.lo && forall c :: c in S && c.lo > t ==> first.lo <= c.lo
    decreases S
  {
    if c :| c in S && t < c.lo < b.lo {
      var smaller := S - {b};
      first := FirstAfter(smaller, t, c);
      assert forall x :: x in S ==> x == b || x in smaller;
    } else {
      first := b;
    }
  }
}
