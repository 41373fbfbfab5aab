/** segmentsToEdges, snapByAttr and snapEdges (internal/pdftomd/tables.go) over
    arrays of edges that are sorted and rewritten in place. */
module SnapEdges {
  import opened Sorting
  import opened Snapping
  import opened Wrappers

  const SNAP_TOLERANCE: real := 3.0

  datatype Direction = Horizontal | Vertical | Diagonal

  datatype Segment = Segment(x0: real, y0: real, x1: real, y1: real, direction: Direction)

  function Position(horizontal: bool, e: Edge): real { if horizontal then e.y0 else e.x0 }

  function PositionOf(horizontal: bool): Edge -> real { e => Position(horizontal, e) }

  function MoveTo(horizontal: bool, e: Edge, v: real): Edge {
    if horizontal then e.(y0 := v, y1 := v) else e.(x0 := v, x1 := v)
  }

  function Positions(horizontal: bool, es: seq<Edge>): (ps: seq<real>)
    ensures |ps| == |es| && forall i :: 0 <= i < |es| ==> ps[i] == Position(horizontal, es[i])
  {
    seq(|es|, i requires 0 <= i < |es| => Position(horizontal, es[i]))
  }

  /** An axis-parallel edge with its ends in order. */
  predicate Straight(e: Edge) {
    if e.horizontal then e.y0 == e.y1 && e.x0 <= e.x1 else e.x0 == e.x1 && e.y0 <= e.y1
  }

  /** The straight edge of a segment: it spans the segment along its direction and lies
      halfway between its ends across it. */
  predicate IsEdgeOf(s: Segment, e: Edge) {
    var (a, b) := if e.horizontal then (s.x0, s.x1) else (s.y0, s.y1);
    var (lo, hi) := if e.horizontal then (e.x0, e.x1) else (e.y0, e.y1);
    && Straight(e) && e.horizontal == s.direction.Horizontal?
    && ((lo == a && hi == b) || (lo == b && hi == a))
    && 2.0 * Position(e.horizontal, e) == if e.horizontal then s.y0 + s.y1 else s.x0 + s.x1
  }

  /** Diagonals are dropped; every other segment becomes its edge, in order. */
  ghost predicate AreEdgesOf(segments: seq<Segment>, edges: seq<Edge>) {
    |edges| == |Kept(segments)| && forall i :: 0 <= i < |edges| ==> IsEdgeOf(Kept(segments)[i], edges[i])
  }

  lemma {:induction false} KeptMembers(segments: seq<Segment>)
    ensures forall s :: s in Kept(segments) <==> s in segments && !s.direction.Diagonal?
  {
    if segments != [] {
      KeptMembers(segments[..|segments| - 1]);
      assert segments == segments[..|segments| - 1] + [segments[|segments| - 1]];
    }
  }

  ghost predicate HasEdge(edges: seq<Edge>, s: Segment) { exists e :: e in edges && IsEdgeOf(s, e) }

  ghost predicate HasSegment(segments: seq<Segment>, e: Edge) {
    exists s :: s in segments && !s.direction.Diagonal? && IsEdgeOf(s, e)
  }

  /** Every segment but a diagonal one has its edge, and there are no other edges. */
  lemma EdgesOfAll(segments: seq<Segment>, edges: seq<Edge>)
    requires AreEdgesOf(segments, edges)
    ensures forall s :: s in segments && !s.direction.Diagonal? ==> HasEdge(edges, s)
    ensures forall e :: e in edges ==> HasSegment(segments, e)
  {
    var kept := Kept(segments);
    KeptMembers(segments);
    forall s | s in segments && !s.direction.Diagonal? ensures HasEdge(edges, s) {
      var i :| 0 <= i < |kept| && kept[i] == s;
      assert IsEdgeOf(kept[i], edges[i]);
    }
    forall e | e in edges ensures HasSegment(segments, e) {
      var i :| 0 <= i < |edges| && edges[i] == e;
      assert IsEdgeOf(kept[i], edges[i]) && kept[i] in kept;
    }
  }

  method SegmentsToEdges(segments: seq<Segment>) returns (edges: seq<Edge>)
    ensures AreEdgesOf(segments, edges)
    ensures forall s :: s in segments && !s.direction.Diagonal? ==> HasEdge(edges, s)
    ensures forall e :: e in edges ==> HasSegment(segments, e)
  {
    edges := [];
    for i := 0 to |segments|
      invariant AreEdgesOf(segments[..i], edges)
    {
      var s := segments[i];
      assert segments[..i + 1][..i] == segments[..i];
      if s.direction.Diagonal? {
        continue;
      }
      var e := Edge(Min(s.x0, s.x1), Min(s.y0, s.y1), Max(s.x0, s.x1), Max(s.y0, s.y1), s.direction.Horizontal?);
      if s.direction.Horizontal? {
        e := e.(y0 := (s.y0 + s.y1) / 2.0);
        e := e.(y1 := e.y0);
      } else {
        e := e.(x0 := (s.x0 + s.x1) / 2.0);
        e := e.(x1 := e.x0);
      }
      edges := edges + [e];
    }
    assert segments[..|segments|] == segments;
    EdgesOfAll(segments, edges);
  }

  function Kept(segments: seq<Segment>): seq<Segment> {
    if segments == [] then []
    else
      var last := segments[|segments| - 1];
      Kept(segments[..|segments| - 1]) + if last.direction.Diagonal? then [] else [last]
  }

  // ----- Clusters -----

  datatype Cluster = Cluster(edges: seq<nat>, sum: real)

  /** Whether position x joins an open cluster of n positions with the given sum, and
      where such a cluster moves to. The clustering below works for any choice. */
  type Joins = (real, nat, real) -> bool
  type Target = (real, nat) -> real

  function Average(sum: real, n: nat): real {
    if n == 0 then 0.0 else sum / (n as real)
  }

  function WithinTolerance(tol: real): Joins {
    (sum: real, n: nat, x: real) => x - Average(sum, n) <= tol
  }

  /** Sum of the k positions from `start` on. */
  function SumFrom(p: seq<real>, start: nat, k: nat): real
    requires start + k <= |p|
  {
    if k == 0 then 0.0 else SumFrom(p, start, k - 1) + p[start + k - 1]
  }

  /** Size of the cluster that opens at `start` and already holds k positions. */
  function SizeOf(p: seq<real>, joins: Joins, start: nat, k: nat): (n: nat)
    requires 0 < k && start + k <= |p|
    ensures k <= n && start + n <= |p|
    decreases |p| - k
  {
    if start + k < |p| && joins(SumFrom(p, start, k), k, p[start + k]) then SizeOf(p, joins, start, k + 1) else k
  }

  function Spread(p: seq<real>, joins: Joins, target: Target, start: nat): (r: seq<real>)
    requires start <= |p|
    ensures |r| == |p| - start
    decreases |p| - start
  {
    if start == |p| then []
    else
      var n := SizeOf(p, joins, start, 1);
      Repeat(target(SumFrom(p, start, n), n), n) + Spread(p, joins, target, start + n)
  }

  lemma {:induction false} SumFromIsTotal(p: seq<real>, start: nat, k: nat)
    requires start + k <= |p|
    ensures SumFrom(p, start, k) == Total(p[start..], k)
  {
    if k > 0 { SumFromIsTotal(p, start, k - 1); }
  }

  lemma {:induction false} SizeOfIsClusterEnd(p: seq<real>, tol: real, start: nat, k: nat)
    requires 0 < k && start + k <= |p|
    ensures SizeOf(p, WithinTolerance(tol), start, k) == ClusterEnd(p[start..], tol, k)
    decreases |p| - k
  {
    SumFromIsTotal(p, start, k);
    if start + k < |p| && p[start + k] - Mean(p[start..], k) <= tol {
      SizeOfIsClusterEnd(p, tol, start, k + 1);
    }
  }

  lemma {:induction false} SpreadIsSnap(p: seq<real>, tol: real, start: nat)
    requires start <= |p|
    ensures Spread(p, WithinTolerance(tol), Average, start) == Snap(p[start..], tol)
    decreases |p| - start
  {
    if start < |p| {
      var n := ClusterEnd(p[start..], tol, 1);
      SizeOfIsClusterEnd(p, tol, start, 1);
      SpreadIsSnap(p, tol, start + n);
      SnapTail(p, tol, start, n);
      AverageIsMean(p, start, n);
      SpreadTail(p, WithinTolerance(tol), Average, start, n);
    }
  }

  lemma SpreadTail(p: seq<real>, joins: Joins, target: Target, start: nat, n: nat)
    requires start < |p| && n == SizeOf(p, joins, start, 1)
    ensures Spread(p, joins, target, start) == Repeat(target(SumFrom(p, start, n), n), n) + Spread(p, joins, target, start + n)
  {
  }

  lemma SnapTail(p: seq<real>, tol: real, start: nat, n: nat)
    requires start < |p| && n == ClusterEnd(p[start..], tol, 1)
    ensures Snap(p[start..], tol) == Repeat(Mean(p[start..], n), n) + Snap(p[start + n..], tol)
  {
    assert p[start..][n..] == p[start + n..];
  }

  lemma AverageIsMean(p: seq<real>, start: nat, n: nat)
    requires 0 < n && start + n <= |p|
    ensures Average(SumFrom(p, start, n), n) == Mean(p[start..], n)
  {
    SumFromIsTotal(p, start, n);
  }

  ghost predicate NonEmpty(cs: seq<Cluster>) {
    forall i :: 0 <= i < |cs| ==> cs[i].edges != []
  }

  /** The indices the clusters hold, in order, and the value each of them moves to. */
  ghost function Indexed(cs: seq<Cluster>): seq<nat> {
    if cs == [] then [] else Indexed(cs[..|cs| - 1]) + cs[|cs| - 1].edges
  }

  ghost function Targets(cs: seq<Cluster>, target: Target): (r: seq<real>)
    ensures |r| == |Indexed(cs)|
  {
    if cs == [] then []
    else
      var last := cs[|cs| - 1];
      Targets(cs[..|cs| - 1], target) + Repeat(target(last.sum, |last.edges|), |last.edges|)
  }

  ghost function Indices(n: nat): (r: seq<nat>)
    ensures |r| == n && forall i :: 0 <= i < n ==> r[i] == i
  {
    seq(n, i requires 0 <= i < n => i)
  }

  /** One turn of the clustering loop: position i joins the open cluster or starts one. */
  function AddPosition(cs: seq<Cluster>, i: nat, x: real, joins: Joins): seq<Cluster>
    requires cs != []
  {
    var open := cs[|cs| - 1];
    if joins(open.sum, |open.edges|, x) then cs[|cs| - 1 := Cluster(open.edges + [i], open.sum + x)]
    else cs + [Cluster([i], x)]
  }

  /** After i positions the clusters hold the first i indices in order. */
  ghost predicate Layout(cs: seq<Cluster>, i: nat) {
    && cs != [] && NonEmpty(cs)
    && Indexed(cs) == Indices(i)
    && |cs[|cs| - 1].edges| <= i
    && |Indexed(cs[..|cs| - 1])| == i - |cs[|cs| - 1].edges|
  }

  lemma ConcatAssociates(a: seq<nat>, b: seq<nat>, c: seq<nat>)
    ensures a + (b + c) == (a + b) + c
  {
  }

  lemma AddPositionLayout(cs: seq<Cluster>, i: nat, x: real, joins: Joins)
    requires Layout(cs, i)
    ensures Layout(AddPosition(cs, i, x, joins), i + 1)
  {
    var cs' := AddPosition(cs, i, x, joins);
    var open := cs[|cs| - 1];
    assert Indices(i + 1) == Indices(i) + [i];
    if joins(open.sum, |open.edges|, x) {
      assert cs'[..|cs'| - 1] == cs[..|cs| - 1];
      var before := Indexed(cs[..|cs| - 1]);
      assert cs'[|cs'| - 1].edges == open.edges + [i];
      assert Indexed(cs') == before + (open.edges + [i]);
      ConcatAssociates(before, open.edges, [i]);
    } else {
      assert cs'[..|cs'| - 1] == cs;
      assert Indexed(cs') == Indexed(cs) + [i];
    }
  }

  lemma FirstLayout(x: real)
    ensures Layout([Cluster([0], x)], 1)
  {
    var cs := [Cluster([0], x)];
    assert cs[..0] == [];
    assert Indexed(cs) == [0] && Indices(1) == [0];
  }

  /** Everything before `start` has its spread values settled by the closed clusters. */
  ghost predicate Settled(p: seq<real>, joins: Joins, target: Target, closed: seq<Cluster>, start: nat)
    requires start <= |p|
  {
    Spread(p, joins, target, 0) == Targets(closed, target) + Spread(p, joins, target, start)
  }

  /** The open cluster: n positions from `start` on with the given sum, after `closed`. */
  ghost predicate Open(p: seq<real>, joins: Joins, target: Target, closed: seq<Cluster>, sum: real, start: nat, n: nat) {
    && 0 < n && start + n <= |p|
    && sum == SumFrom(p, start, n)
    && SizeOf(p, joins, start, 1) == SizeOf(p, joins, start, n)
    && Settled(p, joins, target, closed, start)
  }

  /** The state after i positions: the last cluster is open. */
  ghost predicate OpenAfter(p: seq<real>, joins: Joins, target: Target, cs: seq<Cluster>, i: nat) {
    && cs != [] && |cs[|cs| - 1].edges| <= i
    && Open(p, joins, target, cs[..|cs| - 1], cs[|cs| - 1].sum, i - |cs[|cs| - 1].edges|, |cs[|cs| - 1].edges|)
  }

  lemma ExtendOpen(p: seq<real>, joins: Joins, target: Target, closed: seq<Cluster>, sum: real, start: nat, n: nat)
    requires Open(p, joins, target, closed, sum, start, n) && start + n < |p| && joins(sum, n, p[start + n])
    ensures Open(p, joins, target, closed, sum + p[start + n], start, n + 1)
  {
  }

  lemma SpreadOpen(p: seq<real>, joins: Joins, target: Target, closed: seq<Cluster>, sum: real, start: nat, n: nat)
    requires Open(p, joins, target, closed, sum, start, n)
    requires start + n == |p| || !joins(sum, n, p[start + n])
    ensures Spread(p, joins, target, start) == Repeat(target(sum, n), n) + Spread(p, joins, target, start + n)
  {
    assert SizeOf(p, joins, start, n) == n;
  }

  lemma TargetsAppend(cs: seq<Cluster>, c: Cluster, target: Target)
    ensures Targets(cs + [c], target) == Targets(cs, target) + Repeat(target(c.sum, |c.edges|), |c.edges|)
  {
    assert (cs + [c])[..|cs|] == cs;
  }

  lemma CloseOpen(p: seq<real>, joins: Joins, target: Target, closed: seq<Cluster>, c: Cluster, start: nat)
    requires Open(p, joins, target, closed, c.sum, start, |c.edges|)
    requires start + |c.edges| == |p| || !joins(c.sum, |c.edges|, p[start + |c.edges|])
    ensures Settled(p, joins, target, closed + [c], start + |c.edges|)
  {
    SpreadOpen(p, joins, target, closed, c.sum, start, |c.edges|);
    SettleNext(closed, c, target, Spread(p, joins, target, 0), Spread(p, joins, target, start), Spread(p, joins, target, start + |c.edges|));
  }

  lemma SettleNext(closed: seq<Cluster>, c: Cluster, target: Target, all: seq<real>, from: seq<real>, rest: seq<real>)
    requires all == Targets(closed, target) + from && from == Repeat(target(c.sum, |c.edges|), |c.edges|) + rest
    ensures all == Targets(closed + [c], target) + rest
  {
    TargetsAppend(closed, c, target);
    Regroup(all, Targets(closed, target), Repeat(target(c.sum, |c.edges|), |c.edges|), rest);
  }

  lemma Regroup(all: seq<real>, a: seq<real>, b: seq<real>, c: seq<real>)
    requires all == a + (b + c)
    ensures all == (a + b) + c
  {
  }

  lemma OpenFirst(p: seq<real>, joins: Joins, target: Target, closed: seq<Cluster>, start: nat)
    requires start < |p| && Settled(p, joins, target, closed, start)
    ensures Open(p, joins, target, closed, p[start], start, 1)
  {
    assert SumFrom(p, start, 1) == SumFrom(p, start, 0) + p[start];
  }

  lemma OpenStep(p: seq<real>, joins: Joins, target: Target, cs: seq<Cluster>, i: nat)
    requires OpenAfter(p, joins, target, cs, i) && i < |p|
    ensures OpenAfter(p, joins, target, AddPosition(cs, i, p[i], joins), i + 1)
  {
    var closed, c := cs[..|cs| - 1], cs[|cs| - 1];
    var n := |c.edges|;
    assert closed + [c] == cs;
    LastAdded(cs, i, p[i], joins);
    if joins(c.sum, n, p[i]) {
      ExtendOpen(p, joins, target, closed, c.sum, i - n, n);
    } else {
      CloseOpen(p, joins, target, closed, c, i - n);
      OpenFirst(p, joins, target, cs, i);
    }
  }

  lemma LastAdded(cs: seq<Cluster>, i: nat, x: real, joins: Joins)
    requires cs != []
    ensures var c, cs' := cs[|cs| - 1], AddPosition(cs, i, x, joins);
            if joins(c.sum, |c.edges|, x)
            then cs' != [] && cs'[..|cs'| - 1] == cs[..|cs| - 1] && cs'[|cs'| - 1].sum == c.sum + x && |cs'[|cs'| - 1].edges| == |c.edges| + 1
            else cs' != [] && cs'[..|cs'| - 1] == cs && cs'[|cs'| - 1] == Cluster([i], x)
  {
  }

  lemma FirstOpen(p: seq<real>, joins: Joins, target: Target)
    requires p != []
    ensures OpenAfter(p, joins, target, [Cluster([0], p[0])], 1)
  {
    OpenFirst(p, joins, target, [], 0);
    assert [Cluster([0], p[0])][..0] == [];
  }

  /** The clusters of all positions move every index to its spread value. */
  lemma ClustersSpread(p: seq<real>, joins: Joins, target: Target, cs: seq<Cluster>)
    requires OpenAfter(p, joins, target, cs, |p|)
    ensures Targets(cs, target) == Spread(p, joins, target, 0)
  {
    var closed, c := cs[..|cs| - 1], cs[|cs| - 1];
    CloseOpen(p, joins, target, closed, c, |p| - |c.edges|);
    assert closed + [c] == cs;
    assert Targets(cs, target) + [] == Targets(cs, target);
  }

  // ----- snapByAttr -----

  /** Every edge of `after` is the edge of `sorted` at its index, moved across its
      direction to its snapped position. */
  ghost predicate Snapped(horizontal: bool, tol: real, sorted: seq<Edge>, after: seq<Edge>) {
    && |after| == |sorted|
    && var targets := Snap(Positions(horizontal, sorted), tol);
    && forall i :: 0 <= i < |sorted| ==> after[i] == MoveTo(horizontal, sorted[i], targets[i])
  }

  method SnapByAttr(edges: array<Edge>, tol: real, horizontal: bool) returns (ghost sorted: seq<Edge>)
    requires tol >= 0.0
    modifies edges
    ensures AscendingBy(sorted, PositionOf(horizontal)) && Permutes(sorted, old(edges[..]))
    ensures Snapped(horizontal, tol, sorted, edges[..])
  {
    if edges.Length == 0 {
      return edges[..];
    }
    var ordered := SortBy(edges[..], PositionOf(horizontal));
    PermutesFacts(ordered, edges[..]);
    sorted := ordered;
    forall i | 0 <= i < edges.Length {
      edges[i] := ordered[i];
    }
    assert edges[..] == sorted;
    var clusters := ClusterEdges(edges, tol, horizontal);
    MoveClusters(edges, clusters, horizontal);
  }

  method AddEdge(clusters: seq<Cluster>, i: nat, x: real, tol: real) returns (next: seq<Cluster>)
    requires clusters != [] && clusters[|clusters| - 1].edges != []
    ensures next == AddPosition(clusters, i, x, WithinTolerance(tol))
  {
    var last := clusters[|clusters| - 1];
    var avg := last.sum / (|last.edges| as real);
    if x - avg <= tol {
      next := clusters[|clusters| - 1 := Cluster(last.edges + [i], last.sum + x)];
    } else {
      next := clusters + [Cluster([i], x)];
    }
  }

  /** The clustering loop over the sorted edges. */
  method ClusterEdges(edges: array<Edge>, tol: real, horizontal: bool) returns (clusters: seq<Cluster>)
    requires edges.Length > 0
    ensures NonEmpty(clusters) && Indexed(clusters) == Indices(edges.Length)
    ensures Targets(clusters, Average) == Snap(Positions(horizontal, edges[..]), tol)
  {
    ghost var p := Positions(horizontal, edges[..]);
    ghost var joins := WithinTolerance(tol);
    clusters := [Cluster([0], Position(horizontal, edges[0]))];
    FirstLayout(p[0]);
    FirstOpen(p, joins, Average);
    for i := 1 to edges.Length
      invariant Layout(clusters, i) && OpenAfter(p, joins, Average, clusters, i)
    {
      AddPositionLayout(clusters, i, p[i], joins);
      OpenStep(p, joins, Average, clusters, i);
      clusters := AddEdge(clusters, i, Position(horizontal, edges[i]), tol);
    }
    ClustersSpread(p, joins, Average, clusters);
    SpreadIsSnap(p, tol, 0);
    assert p[0..] == p;
  }

  /** The inner loop: the members of one cluster, which are consecutive, move to `avg`. */
  method MoveMembers(edges: array<Edge>, members: seq<nat>, horizontal: bool, avg: real, ghost start: nat)
    requires start + |members| <= edges.Length && forall t :: 0 <= t < |members| ==> members[t] == start + t
    modifies edges
    ensures forall j :: start <= j < start + |members| ==> edges[j] == MoveTo(horizontal, old(edges[j]), avg)
    ensures forall j :: 0 <= j < start || start + |members| <= j < edges.Length ==> edges[j] == old(edges[j])
  {
    for t := 0 to |members|
      invariant forall j :: start <= j < start + t ==> edges[j] == MoveTo(horizontal, old(edges[j]), avg)
      invariant forall j :: 0 <= j < start || start + t <= j < edges.Length ==> edges[j] == old(edges[j])
    {
      var idx := members[t];
      edges[idx] := MoveTo(horizontal, edges[idx], avg);
    }
  }

  /** The final loop: every cluster moves its members to its average. */
  method MoveClusters(edges: array<Edge>, clusters: seq<Cluster>, horizontal: bool)
    requires NonEmpty(clusters) && Indexed(clusters) == Indices(edges.Length)
    modifies edges
    ensures forall j :: 0 <= j < edges.Length ==> edges[j] == MoveTo(horizontal, old(edges[j]), Targets(clusters, Average)[j])
  {
    ghost var start := 0;
    for c := 0 to |clusters|
      invariant start == |Indexed(clusters[..c])| <= edges.Length
      invariant Indexed(clusters[..c]) == Indices(start)
      invariant forall j :: 0 <= j < start ==> edges[j] == MoveTo(horizontal, old(edges[j]), Targets(clusters[..c], Average)[j])
      invariant forall j :: start <= j < edges.Length ==> edges[j] == old(edges[j])
    {
      var cl := clusters[c];
      ClusterIndices(clusters, c, edges.Length);
      TargetsOfNext(clusters, c, Average);
      MoveMembers(edges, cl.edges, horizontal, cl.sum / (|cl.edges| as real), start);
      start := start + |cl.edges|;
    }
    assert clusters[..|clusters|] == clusters;
  }

  lemma TargetsOfNext(cs: seq<Cluster>, c: nat, target: Target)
    requires c < |cs|
    ensures var before, after, n := Targets(cs[..c], target), Targets(cs[..c + 1], target), |cs[c].edges|;
            && |after| == |before| + n
            && (forall j :: 0 <= j < |before| ==> after[j] == before[j])
            && forall j :: |before| <= j < |before| + n ==> after[j] == target(cs[c].sum, n)
  {
    assert cs[..c + 1][..c] == cs[..c];
  }

  lemma {:induction false} IndexedPrefix(cs: seq<Cluster>, c: nat)
    requires c <= |cs|
    ensures |Indexed(cs[..c])| <= |Indexed(cs)| && Indexed(cs[..c]) == Indexed(cs)[..|Indexed(cs[..c])|]
    decreases |cs|
  {
    if c == |cs| {
      assert cs[..c] == cs;
    } else {
      IndexedPrefix(cs[..|cs| - 1], c);
      assert cs[..|cs| - 1][..c] == cs[..c];
    }
  }

  lemma ClusterIndices(cs: seq<Cluster>, c: nat, n: nat)
    requires c < |cs| && Indexed(cs) == Indices(n)
    ensures var start := |Indexed(cs[..c])|;
            && start + |cs[c].edges| <= n
            && Indexed(cs[..c + 1]) == Indices(start + |cs[c].edges|)
            && forall t :: 0 <= t < |cs[c].edges| ==> cs[c].edges[t] == start + t
  {
    IndexedPrefix(cs, c + 1);
    var before, both := Indexed(cs[..c]), Indexed(cs[..c + 1]);
    assert both == before + cs[c].edges by {
      assert cs[..c + 1][..c] == cs[..c];
    }
    assert |both| <= n && both == Indices(n)[..|both|] == Indices(|both|);
    forall t | 0 <= t < |cs[c].edges| ensures cs[c].edges[t] == |before| + t {
      assert both[|before| + t] == cs[c].edges[t];
    }
  }
}
