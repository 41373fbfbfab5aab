/** snapByAttr (internal/pdftomd/tables.go): clusters edges along one coordinate by
    running average and moves each cluster to its mean. */
module Snapping {
  import opened Sorting

  datatype Edge = Edge(x0: real, y0: real, x1: real, y1: real, horizontal: bool)

  // ----- Snapping a list of positions -----

  /** Sum of the first k positions. */
  function Total(p: seq<real>, k: nat): real
    requires k <= |p|
  {
    if k == 0 then 0.0 else Total(p, k - 1) + p[k - 1]
  }

  function Mean(p: seq<real>, k: nat): real
    requires 0 < k <= |p|
  {
    Total(p, k) / (k as real)
  }

  /** Where the cluster that starts at index 0 and already holds k positions ends. */
  function ClusterEnd(p: seq<real>, tol: real, k: nat): (n: nat)
    requires 0 < k <= |p|
    ensures k <= n <= |p|
    ensures n < |p| ==> p[n] - Mean(p, n) > tol
    decreases |p| - k
  {
    if k < |p| && p[k] - Mean(p, k) <= tol then ClusterEnd(p, tol, k + 1) else k
  }

  function Repeat(x: real, n: nat): (r: seq<real>)
    ensures |r| == n && forall i :: 0 <= i < n ==> r[i] == x
  {
    seq(n, _ => x)
  }

  function Snap(p: seq<real>, tol: real): (r: seq<real>)
    ensures |r| == |p|
    decreases |p|
  {
    if p == [] then []
    else
      var n := ClusterEnd(p, tol, 1);
      Repeat(Mean(p, n), n) + Snap(p[n..], tol)
  }

  // ----- Means -----

  lemma MeanTimesCount(p: seq<real>, k: nat)
    requires 0 < k <= |p|
    ensures Mean(p, k) * (k as real) == Total(p, k)
  {
  }

  lemma MultiplyStrict(a: real, b: real, c: real)
    requires c > 0.0 && a > b
    ensures a * c > b * c
  {
    assert (a - b) * c > 0.0;
    assert a * c - b * c == (a - b) * c;
  }

  lemma Cancel(a: real, b: real, c: real)
    requires c > 0.0 && a * c <= b * c
    ensures a <= b
  {
    if a > b { MultiplyStrict(a, b, c); }
  }

  lemma QuotientBetween(t: real, c: real, lo: real, hi: real)
    requires c > 0.0 && lo * c <= t <= hi * c
    ensures lo <= t / c <= hi
  {
    assert (t / c) * c == t;
    Cancel(lo, t / c, c);
    Cancel(t / c, hi, c);
  }

  lemma MeanBetween(p: seq<real>, k: nat)
    requires Ascending(p) && 0 < k <= |p|
    ensures p[0] <= Mean(p, k) <= p[k - 1]
  {
    TotalBounds(p, k, p[0], p[k - 1]);
    QuotientBetween(Total(p, k), k as real, p[0], p[k - 1]);
  }

  lemma {:induction false} TotalBounds(p: seq<real>, k: nat, lo: real, hi: real)
    requires k <= |p| && forall i :: 0 <= i < k ==> lo <= p[i] <= hi
    ensures lo * (k as real) <= Total(p, k) <= hi * (k as real)
  {
    if k > 0 {
      TotalBounds(p, k - 1, lo, hi);
      OneMore(lo, k - 1);
      OneMore(hi, k - 1);
    }
  }

  lemma OneMore(x: real, k: nat)
    ensures x * ((k + 1) as real) == x * (k as real) + x
  {
    assert (k + 1) as real == k as real + 1.0;
    assert x * (k as real + 1.0) == x * (k as real) + x;
  }

  lemma {:induction false} TotalPrefix(a: seq<real>, b: seq<real>, k: nat)
    requires k <= |a|
    ensures Total(a + b, k) == Total(a, k)
  {
    if k > 0 { TotalPrefix(a, b, k - 1); }
  }

  lemma {:induction false} TotalConcat(a: seq<real>, b: seq<real>, k: nat)
    requires k <= |b|
    ensures Total(a + b, |a| + k) == Total(a, |a|) + Total(b, k)
  {
    if k == 0 { TotalPrefix(a, b, |a|); } else { TotalConcat(a, b, k - 1); }
  }

  lemma ReplacedByMean(p: seq<real>, n: nat)
    requires 0 < n <= |p|
    ensures Total(Repeat(Mean(p, n), n), n) == Total(p, n)
  {
    var m := Mean(p, n);
    TotalBounds(Repeat(m, n), n, m, m);
    MeanTimesCount(p, n);
  }

  // ----- What snapping guarantees -----

  /** Equal, or more than `gap` apart. */
  ghost predicate Separated(s: seq<real>, gap: real) {
    forall i, j :: 0 <= i < j < |s| ==> s[i] == s[j] || s[j] - s[i] > gap
  }

  lemma PrependCluster(m: real, n: nat, rest: seq<real>, tol: real)
    requires Ascending(rest) && Separated(rest, tol) && tol >= 0.0
    requires forall j :: 0 <= j < |rest| ==> rest[j] - m > tol
    ensures Ascending(Repeat(m, n) + rest) && Separated(Repeat(m, n) + rest, tol)
  {
    var s := Repeat(m, n) + rest;
    forall i, j | 0 <= i < j < |s| ensures s[i] <= s[j] && (s[i] == s[j] || s[j] - s[i] > tol) {
      assert i >= n ==> s[i] == rest[i - n];
      assert j >= n ==> s[j] == rest[j - n];
    }
  }

  /** Snapping keeps the order, leaves distinct positions more than the tolerance
      apart, and never moves the first position down. */
  lemma {:induction false} SnapSeparates(p: seq<real>, tol: real)
    requires Ascending(p) && tol >= 0.0
    ensures Ascending(Snap(p, tol)) && Separated(Snap(p, tol), tol)
    ensures p != [] ==> p[0] <= Snap(p, tol)[0]
    decreases |p|
  {
    if p != [] {
      var n := ClusterEnd(p, tol, 1);
      MeanBetween(p, n);
      SnapSeparates(p[n..], tol);
      var m, rest := Mean(p, n), Snap(p[n..], tol);
      forall j | 0 <= j < |rest| ensures rest[j] - m > tol {
        assert p[n..][0] <= rest[0] <= rest[j];
      }
      PrependCluster(m, n, rest, tol);
    }
  }

  lemma TotalSplit(p: seq<real>, n: nat)
    requires n <= |p|
    ensures Total(p, |p|) == Total(p, n) + Total(p[n..], |p| - n)
  {
    TotalConcat(p[..n], p[n..], |p| - n);
    TotalPrefix(p[..n], p[n..], n);
    assert p[..n] + p[n..] == p;
  }

  /** Snapping keeps the sum of the positions. */
  lemma {:induction false} SnapKeepsTotal(p: seq<real>, tol: real)
    ensures Total(Snap(p, tol), |p|) == Total(p, |p|)
    decreases |p|
  {
    if p != [] {
      var n := ClusterEnd(p, tol, 1);
      SnapKeepsTotal(p[n..], tol);
      ReplacedByMean(p, n);
      TotalConcat(Repeat(Mean(p, n), n), Snap(p[n..], tol), |p| - n);
      TotalSplit(p, n);
    }
  }

  lemma {:induction false} EqualRunCluster(q: seq<real>, tol: real, k: nat)
    requires Ascending(q) && Separated(q, tol) && tol >= 0.0 && 0 < k <= |q|
    requires forall i :: 0 <= i < k ==> q[i] == q[0]
    ensures var n := ClusterEnd(q, tol, k); Mean(q, n) == q[0] && forall i :: 0 <= i < n ==> q[i] == q[0]
    decreases |q| - k
  {
    MeanBetween(q, k);
    if k < |q| && q[k] - Mean(q, k) <= tol {
      assert !(q[k] - q[0] > tol);
      EqualRunCluster(q, tol, k + 1);
    }
  }

  /** Positions that are already equal or far apart stay where they are. */
  lemma {:induction false} SnapFixes(q: seq<real>, tol: real)
    requires Ascending(q) && Separated(q, tol) && tol >= 0.0
    ensures Snap(q, tol) == q
    decreases |q|
  {
    if q != [] {
      var n := ClusterEnd(q, tol, 1);
      EqualRunCluster(q, tol, 1);
      SnapFixes(q[n..], tol);
      assert q == q[..n] + q[n..] && q[..n] == Repeat(q[0], n);
    }
  }

  lemma SnapIdempotent(p: seq<real>, tol: real)
    requires Ascending(p) && tol >= 0.0
    ensures Snap(Snap(p, tol), tol) == Snap(p, tol)
  {
    SnapSeparates(p, tol);
    SnapFixes(Snap(p, tol), tol);
  }

  // ----- How far an edge moves -----

  /** tol/2 + tol/3 + ... + tol/n. */
  function Rise(tol: real, n: nat): real {
    if n <= 1 then 0.0 else Rise(tol, n - 1) + tol / (n as real)
  }

  lemma MeanGrows(t: real, m: real, m1: real, x: real, k: nat)
    requires 0 < k && m * (k as real) == t && m1 * ((k + 1) as real) == t + x
    ensures (m1 - m) * ((k + 1) as real) == x - m
    ensures (x - m1) * ((k + 1) as real) == (x - m) * (k as real)
  {
    assert (k + 1) as real == k as real + 1.0;
  }

  lemma DivideBound(x: real, y: real, c: real)
    requires c > 0.0 && x * c <= y
    ensures x <= y / c
  {
    assert (y / c) * c == y;
    Cancel(x, y / c, c);
  }

  /** `to` is a possible mean of a cluster of n edges that holds the position `from`. */
  ghost predicate WithinDrift(from: real, to: real, tol: real, n: nat) {
    n > 0 && to - from <= Rise(tol, n) && from - to <= tol - tol / (n as real)
  }

  /** One more edge x joins a cluster of k edges: the mean moves from m to m1. */
  lemma DriftStep(m: real, m1: real, x: real, tol: real, k: nat)
    requires 0 < k && tol >= 0.0 && x - m <= tol
    requires (m1 - m) * ((k + 1) as real) == x - m
    requires (x - m1) * ((k + 1) as real) == (x - m) * (k as real)
    ensures m1 - m <= tol / ((k + 1) as real)
    ensures x - m1 <= tol - tol / ((k + 1) as real)
  {
    var c := (k + 1) as real;
    DivideBound(m1 - m, tol, c);
    assert (x - m) * (k as real) <= tol * (k as real);
    assert (tol / c) * c == tol;
    Cancel(x - m1, tol - tol / c, c);
  }

  lemma DriftGrows(lo: real, hi: real, m: real, m1: real, x: real, tol: real, k: nat)
    requires 0 < k && tol >= 0.0 && x - m <= tol && lo <= x
    requires WithinDrift(lo, m, tol, k)
    requires (m1 - m) * ((k + 1) as real) == x - m
    requires (x - m1) * ((k + 1) as real) == (x - m) * (k as real)
    requires lo <= hi <= x
    ensures WithinDrift(hi, m1, tol, k + 1)
  {
    DriftStep(m, m1, x, tol, k);
    assert Rise(tol, k + 1) == Rise(tol, k) + tol / ((k + 1) as real);
  }

  lemma ClusterGrows(lo: real, hi: real, t: real, m: real, m1: real, x: real, tol: real, k: nat)
    requires 0 < k && tol >= 0.0 && x - m <= tol && lo <= hi <= x
    requires m == t / (k as real) && m1 == (t + x) / ((k + 1) as real)
    requires WithinDrift(lo, m, tol, k)
    ensures WithinDrift(hi, m1, tol, k + 1)
  {
    MeanGrows(t, m, m1, x, k);
    DriftGrows(lo, hi, m, m1, x, tol, k);
  }

  lemma ClusterGrowsAt(p: seq<real>, tol: real, k: nat, i: nat)
    requires 0 < k < |p| && i <= k && p[0] <= p[i] <= p[k]
    requires tol >= 0.0 && p[k] - Mean(p, k) <= tol
    requires WithinDrift(p[0], Mean(p, k), tol, k)
    ensures WithinDrift(p[i], Mean(p, k + 1), tol, k + 1)
  {
    ClusterGrows(p[0], p[i], Total(p, k), Mean(p, k), Mean(p, k + 1), p[k], tol, k);
  }

  lemma DriftStarts(p: seq<real>, tol: real)
    requires p != [] && tol >= 0.0
    ensures WithinDrift(p[0], Mean(p, 1), tol, 1)
  {
    assert Total(p, 1) == p[0];
  }

  /** While a cluster grows to n edges its mean rises above the lowest edge by at most
      tol/2 + ... + tol/n, and stays within tol * (n-1)/n of the newest edge. */
  lemma {:induction false} ClusterDrift(p: seq<real>, tol: real, n: nat, i: nat)
    requires Ascending(p) && tol >= 0.0 && i < n <= |p|
    requires forall k: nat :: 0 < k < n ==> p[k] - Mean(p, k) <= tol
    ensures WithinDrift(p[i], Mean(p, n), tol, n)
  {
    if n == 1 {
      DriftStarts(p, tol);
    } else {
      ClusterDrift(p, tol, n - 1, 0);
      ClusterGrowsAt(p, tol, n - 1, i);
    }
  }

  lemma {:induction false} ClusterAccepted(p: seq<real>, tol: real, k: nat)
    requires 0 < k <= |p|
    ensures forall i :: k <= i < ClusterEnd(p, tol, k) ==> p[i] - Mean(p, i) <= tol
    decreases |p| - k
  {
    if k < |p| && p[k] - Mean(p, k) <= tol {
      ClusterAccepted(p, tol, k + 1);
    }
  }

  lemma MeanRises(t: real, m: real, m1: real, x: real, k: nat)
    requires 0 < k && m * (k as real) == t && m1 * ((k + 1) as real) == t + x && m <= x
    ensures m <= m1
  {
    MeanGrows(t, m, m1, x, k);
    Cancel(0.0, m1 - m, (k + 1) as real);
  }

  lemma MeanRisesAt(p: seq<real>, k: nat)
    requires 0 < k < |p| && Mean(p, k) <= p[k]
    ensures Mean(p, k) <= Mean(p, k + 1)
  {
    MeanTimesCount(p, k);
    MeanTimesCount(p, k + 1);
    MeanRises(Total(p, k), Mean(p, k), Mean(p, k + 1), p[k], k);
  }

  /** A cluster that took a position takes an equal one. */
  lemma TakesEqual(p: seq<real>, tol: real, k: nat)
    requires Ascending(p) && tol >= 0.0 && 0 < k < |p| && p[k - 1] == p[k]
    requires k > 1 ==> p[k - 1] - Mean(p, k - 1) <= tol
    ensures p[k] - Mean(p, k) <= tol
  {
    if k == 1 {
      MeanBetween(p, 1);
    } else {
      MeanBetween(p, k - 1);
      MeanRisesAt(p, k - 1);
    }
  }

  /** A cluster never ends between equal positions. */
  lemma ClusterEndsAtStep(p: seq<real>, tol: real)
    requires Ascending(p) && tol >= 0.0 && p != []
    ensures var n := ClusterEnd(p, tol, 1); n < |p| ==> p[n - 1] < p[n]
  {
    var n := ClusterEnd(p, tol, 1);
    ClusterAccepted(p, tol, 1);
    if n < |p| && p[n - 1] == p[n] {
      TakesEqual(p, tol, n);
    }
  }

  /** Equal positions snap to the same place. */
  lemma {:induction false} SnapKeepsEqual(p: seq<real>, tol: real, i: nat, j: nat)
    requires Ascending(p) && tol >= 0.0 && i < j < |p| && p[i] == p[j]
    ensures Snap(p, tol)[i] == Snap(p, tol)[j]
    decreases |p|
  {
    var n := ClusterEnd(p, tol, 1);
    ClusterEndsAtStep(p, tol);
    if i >= n {
      SnapKeepsEqual(p[n..], tol, i - n, j - n);
    }
  }

  lemma CountInJoined(m: real, n: nat, rest: seq<real>)
    requires forall j :: 0 <= j < |rest| ==> rest[j] > m
    ensures multiset(Repeat(m, n) + rest)[m] == n
    ensures forall v :: v in rest ==> multiset(Repeat(m, n) + rest)[v] == multiset(rest)[v]
  {
    RepeatCount(m, n);
    assert multiset(Repeat(m, n) + rest) == multiset(Repeat(m, n)) + multiset(rest);
    assert m !in rest;
    forall v | v in rest ensures multiset(Repeat(m, n) + rest)[v] == multiset(rest)[v] {
      assert v !in Repeat(m, n);
    }
  }

  /** The first cluster takes n positions to m and every other one ends up above m. */
  lemma FirstCluster(p: seq<real>, tol: real)
    requires Ascending(p) && tol >= 0.0 && p != []
    ensures var n := ClusterEnd(p, tol, 1); var rest := Snap(p[n..], tol); var s := Snap(p, tol);
            && multiset(s)[Mean(p, n)] == n
            && forall v :: v in rest ==> multiset(s)[v] == multiset(rest)[v]
  {
    var n := ClusterEnd(p, tol, 1);
    var m, rest := Mean(p, n), Snap(p[n..], tol);
    SnapSeparates(p[n..], tol);
    MeanBetween(p, n);
    forall j | 0 <= j < |rest| ensures rest[j] > m {
      assert p[n..][0] <= rest[0] <= rest[j];
    }
    CountInJoined(m, n, rest);
  }

  lemma FirstClusterDisplacement(p: seq<real>, tol: real, i: nat)
    requires Ascending(p) && tol >= 0.0 && p != [] && i < ClusterEnd(p, tol, 1)
    ensures WithinDrift(p[i], Mean(p, ClusterEnd(p, tol, 1)), tol, ClusterEnd(p, tol, 1))
  {
    ClusterAccepted(p, tol, 1);
    ClusterDrift(p, tol, ClusterEnd(p, tol, 1), i);
  }

  /** The displacement of every position, in terms of the size n of its cluster (the
      number of positions that end up at the same place). */
  lemma {:induction false} SnapDisplacement(p: seq<real>, tol: real, i: nat)
    requires Ascending(p) && tol >= 0.0 && i < |p|
    ensures var s := Snap(p, tol); WithinDrift(p[i], s[i], tol, multiset(s)[s[i]])
    decreases |p|
  {
    var n := ClusterEnd(p, tol, 1);
    var rest := Snap(p[n..], tol);
    var s := Snap(p, tol);
    FirstCluster(p, tol);
    if i < n {
      FirstClusterDisplacement(p, tol, i);
    } else {
      SnapDisplacement(p[n..], tol, i - n);
      assert s[i] == rest[i - n] && rest[i - n] in rest && p[n..][i - n] == p[i];
    }
  }

  lemma {:induction false} RepeatCount(x: real, n: nat)
    ensures multiset(Repeat(x, n))[x] == n
  {
    if n > 0 {
      RepeatCount(x, n - 1);
      assert Repeat(x, n) == Repeat(x, n - 1) + [x];
    }
  }

  /** A cluster can be wider than the tolerance: the running average follows it. */
  lemma ClusterWiderThanTolerance()
    ensures Snap([0.0, 3.0, 4.5], 3.0) == [2.5, 2.5, 2.5]
  {
    var p := [0.0, 3.0, 4.5];
    assert Total(p, 1) == 0.0 && Total(p, 2) == 3.0 && Total(p, 3) == 7.5;
    assert Mean(p, 1) == 0.0 && Mean(p, 2) == 1.5 && Mean(p, 3) == 2.5;
    assert ClusterEnd(p, 3.0, 3) == 3 && ClusterEnd(p, 3.0, 2) == 3 && ClusterEnd(p, 3.0, 1) == 3;
    assert Snap(p[3..], 3.0) == [];
  }
}
