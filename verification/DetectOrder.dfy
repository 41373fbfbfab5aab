/** The detected tables depend only on which segments there are: not on their order, not on
    how a sort breaks ties, and not on the order in which a map of lines is visited. */
module DetectOrder {
  import opened Sorting
  import opened Snapping
  import opened SnapEdges
  import opened Joining
  import opened MergeEdges
  import opened TableCells
  import opened CellGroups
  import opened Crossings
  import opened DetectTables
  import opened Wrappers

  // ----- Edges -----

  /** The edge of a segment, if it is not diagonal. */
  function EdgeOf(): Segment -> seq<Edge> {
    (s: Segment) => match s.direction
      case Horizontal => [Edge(Min(s.x0, s.x1), (s.y0 + s.y1) / 2.0, Max(s.x0, s.x1), (s.y0 + s.y1) / 2.0, true)]
      case Vertical => [Edge((s.x0 + s.x1) / 2.0, Min(s.y0, s.y1), (s.x0 + s.x1) / 2.0, Max(s.y0, s.y1), false)]
      case Diagonal => []
  }

  lemma OnlyEdge(s: Segment, e: Edge)
    requires IsEdgeOf(s, e) && !s.direction.Diagonal?
    ensures EdgeOf()(s) == [e]
  {
  }

  lemma {:induction false} KeptHasNoDiagonal(segments: seq<Segment>)
    ensures forall i :: 0 <= i < |Kept(segments)| ==> !Kept(segments)[i].direction.Diagonal?
    decreases |segments|
  {
    if segments != [] { KeptHasNoDiagonal(segments[..|segments| - 1]); }
  }

  lemma {:induction false} EdgesAreCollected(segments: seq<Segment>, edges: seq<Edge>)
    requires AreEdgesOf(segments, edges)
    ensures edges == Collect(segments, EdgeOf())
    decreases |segments|
  {
    if segments != [] {
      var init, last := segments[..|segments| - 1], segments[|segments| - 1];
      if last.direction.Diagonal? {
        assert Kept(segments) == Kept(init);
        EdgesAreCollected(init, edges);
      } else {
        var n := |Kept(init)|;
        assert Kept(segments)[..n] == Kept(init) && Kept(segments)[n] == last;
        EdgesAreCollected(init, edges[..n]);
        OnlyEdge(last, edges[n]);
        assert edges == edges[..n] + [edges[n]];
      }
    }
  }

  function IfDirected(horizontal: bool): Edge -> seq<Edge> { (e: Edge) => if e.horizontal == horizontal then [e] else [] }

  lemma {:induction false} DirectionIsCollected(es: seq<Edge>, horizontal: bool)
    ensures InDirection(es, horizontal) == Collect(es, IfDirected(horizontal))
    decreases |es|
  {
    if es != [] { DirectionIsCollected(es[..|es| - 1], horizontal); }
  }

  lemma SameDirection(es: seq<Edge>, fs: seq<Edge>, horizontal: bool)
    requires Permutes(es, fs)
    ensures Permutes(InDirection(es, horizontal), InDirection(fs, horizontal))
  {
    DirectionIsCollected(es, horizontal);
    DirectionIsCollected(fs, horizontal);
    CollectPermutes(es, fs, IfDirected(horizontal));
  }

  // ----- Snapping -----

  /** Where a position goes, as a function of the position alone. */
  ghost function PlaceOf(from: seq<real>, to: seq<real>, x: real): real
    requires |from| == |to|
  {
    if i :| 0 <= i < |from| && from[i] == x then to[i] else x
  }

  lemma PlaceIs(p: seq<real>, tol: real, i: nat)
    requires Ascending(p) && tol >= 0.0 && i < |p|
    ensures PlaceOf(p, Snap(p, tol), p[i]) == Snap(p, tol)[i]
  {
    forall j, k | 0 <= j < k < |p| && p[j] == p[k] ensures Snap(p, tol)[j] == Snap(p, tol)[k] {
      SnapKeepsEqual(p, tol, j, k);
    }
  }

  ghost function Mover(horizontal: bool, from: seq<real>, to: seq<real>): Edge -> Edge
    requires |from| == |to|
  {
    e => MoveTo(horizontal, e, PlaceOf(from, to, Position(horizontal, e)))
  }

  lemma SnappedIsMap(horizontal: bool, sorted: seq<Edge>, out: seq<Edge>)
    requires AscendingBy(sorted, PositionOf(horizontal)) && Snapped(horizontal, SNAP_TOLERANCE, sorted, out)
    ensures var p := Positions(horizontal, sorted); out == Map(sorted, Mover(horizontal, p, Snap(p, SNAP_TOLERANCE)))
  {
    var p := Positions(horizontal, sorted);
    PositionsAscend(sorted, horizontal);
    forall i | 0 <= i < |sorted| ensures out[i] == Mover(horizontal, p, Snap(p, SNAP_TOLERANCE))(sorted[i]) {
      PlaceIs(p, SNAP_TOLERANCE, i);
      assert p[i] == Position(horizontal, sorted[i]);
    }
  }

  lemma SamePositions(horizontal: bool, s: seq<Edge>, t: seq<Edge>)
    requires AscendingBy(s, PositionOf(horizontal)) && AscendingBy(t, PositionOf(horizontal)) && Permutes(s, t)
    ensures Positions(horizontal, s) == Positions(horizontal, t)
  {
    PositionsAscend(s, horizontal);
    PositionsAscend(t, horizontal);
    MapPermutes(s, t, PositionOf(horizontal));
    assert Positions(horizontal, s) == Map(s, PositionOf(horizontal));
    assert Positions(horizontal, t) == Map(t, PositionOf(horizontal));
    AscendingUnique(Positions(horizontal, s), Positions(horizontal, t));
  }

  lemma SameSnap(es: seq<Edge>, fs: seq<Edge>, horizontal: bool, a: seq<Edge>, b: seq<Edge>)
    requires Permutes(es, fs) && IsSnapOf(es, horizontal, a) && IsSnapOf(fs, horizontal, b)
    ensures Permutes(a, b)
  {
    var s: seq<Edge> :| && AscendingBy(s, PositionOf(horizontal)) && Permutes(s, InDirection(es, horizontal))
                        && Snapped(horizontal, SNAP_TOLERANCE, s, a);
    var t: seq<Edge> :| && AscendingBy(t, PositionOf(horizontal)) && Permutes(t, InDirection(fs, horizontal))
                        && Snapped(horizontal, SNAP_TOLERANCE, t, b);
    SameDirection(es, fs, horizontal);
    SamePositions(horizontal, s, t);
    SnappedIsMap(horizontal, s, a);
    SnappedIsMap(horizontal, t, b);
    var p := Positions(horizontal, s);
    MapPermutes(s, t, Mover(horizontal, p, Snap(p, SNAP_TOLERANCE)));
  }

  lemma SameSnapped(es: seq<Edge>, fs: seq<Edge>, a: seq<Edge>, b: seq<Edge>)
    requires Permutes(es, fs) && IsSnapped(es, a) && IsSnapped(fs, b)
    ensures Permutes(a, b)
  {
    var hs, vs :| a == hs + vs && IsSnapOf(es, true, hs) && IsSnapOf(es, false, vs);
    var hs', vs' :| b == hs' + vs' && IsSnapOf(fs, true, hs') && IsSnapOf(fs, false, vs');
    SameSnap(es, fs, true, hs, hs');
    SameSnap(es, fs, false, vs, vs');
  }

  lemma SnappedLines(es: seq<Edge>, snapped: seq<Edge>)
    requires AllStraight(es) && IsSnapped(es, snapped)
    ensures AllStraight(snapped) && LinesApart(snapped, SNAP_TOLERANCE)
  {
    var hs, vs :| snapped == hs + vs && IsSnapOf(es, true, hs) && IsSnapOf(es, false, vs);
    SnapOfFacts(es, true, hs);
    SnapOfFacts(es, false, vs);
  }

  // ----- Joining -----

  lemma SameLineMembers(es: seq<Edge>, fs: seq<Edge>, k: LineKey)
    requires Permutes(es, fs)
    ensures Permutes(OnLine(es, k), OnLine(fs, k))
  {
    OnLineMembers(es, k);
    OnLineMembers(fs, k);
    forall e: Edge ensures multiset(OnLine(es, k))[e] == multiset(OnLine(fs, k))[e] {
      if KeyOf(e) != k {
        assert e !in OnLine(es, k) && e !in OnLine(fs, k);
      }
    }
  }

  lemma JoinTransfers(es: seq<Edge>, fs: seq<Edge>, out: seq<Edge>)
    requires Permutes(es, fs) && IsJoinEdges(es, out)
    ensures IsJoinEdges(fs, out)
  {
    PermutesFacts(es, fs);
    forall i | 0 <= i < |out| ensures OnLineOf(out[i], fs) {
      assert OnLineOf(out[i], es);
    }
    forall k ensures IsJoinOf(fs, k, Spans(OnLine(out, k))) {
      assert IsJoinOf(es, k, Spans(OnLine(out, k)));
      SameLineMembers(es, fs, k);
      var sorted :| IsSortedLine(es, k, sorted) && Spans(OnLine(out, k)) == Join(Spans(sorted), JOIN_TOLERANCE);
      assert IsSortedLine(fs, k, sorted);
    }
  }

  /** mergeEdges: equal segments give equal merged edges. */
  lemma SameMerged(es: seq<Edge>, fs: seq<Edge>, s: seq<Edge>, t: seq<Edge>, a: seq<Edge>, b: seq<Edge>)
    requires Permutes(es, fs) && AllStraight(fs)
    requires IsSnapped(es, s) && IsSnapped(fs, t) && IsJoinEdges(s, a) && IsJoinEdges(t, b)
    ensures Permutes(a, b)
  {
    SameSnapped(es, fs, s, t);
    SnappedLines(fs, t);
    JoinTransfers(s, t, a);
    JoinEdgesOrderIrrelevant(t, a, b);
  }

  // ----- Meeting points and cells -----

  ghost predicate SameMembers<T(!new)>(a: seq<T>, b: seq<T>) { forall x :: x in a <==> x in b }

  lemma CrossingMoves(a: seq<Edge>, b: seq<Edge>, k: Point)
    requires Permutes(a, b) && IsCrossing(a, k)
    ensures IsCrossing(b, k)
  {
    PermutesFacts(a, b);
    var v, h :| CrossAt(a, v, h, k);
    assert CrossAt(b, v, h, k);
  }

  lemma SamePoints(a: seq<Edge>, b: seq<Edge>, points: set<Point>, points': set<Point>)
    requires Permutes(a, b) && AreCrossings(a, points) && AreCrossings(b, points')
    ensures points == points'
  {
    forall k ensures k in points <==> k in points' {
      if k in points { CrossingMoves(a, b, k); }
      if k in points' { CrossingMoves(b, a, k); }
    }
  }

  /** Equal segments give equal merged edges. */
  lemma SameSegments(s: seq<Segment>, t: seq<Segment>, a: seq<Edge>, b: seq<Edge>)
    requires Permutes(s, t) && AreMerged(s, a) && AreMerged(t, b)
    ensures Permutes(a, b)
  {
    var es, u :| AreEdgesOf(s, es) && IsSnapped(es, u) && IsJoinEdges(u, a);
    var fs, v :| AreEdgesOf(t, fs) && IsSnapped(fs, v) && IsJoinEdges(v, b);
    EdgesAreCollected(s, es);
    EdgesAreCollected(t, fs);
    CollectPermutes(s, t, EdgeOf());
    EdgesAreStraight(t, fs);
    SameMerged(es, fs, u, v, a, b);
  }

  /** The reading order lists a set of cells in one way only. */
  lemma {:induction false} ReadingOrderUnique(a: seq<Cell>, b: seq<Cell>)
    requires ReadingOrder(a) && ReadingOrder(b) && SameMembers(a, b)
    ensures a == b
    decreases |a|
  {
    if a == [] {
      if b != [] { HeadIsMember(b); }
    } else {
      assert a[0] in b && b[0] in a;
      assert a[0] == b[0];
      forall c ensures c in a[1..] <==> c in b[1..] {
        if c in a[1..] { assert c in b && c != a[0]; }
        if c in b[1..] { assert c in a && c != b[0]; }
      }
      ReadingOrderUnique(a[1..], b[1..]);
    }
  }

  // ----- Tables -----

  ghost function CellSet(table: seq<Cell>): set<Cell> { set c | c in table }

  /** The tables without their order and that of their cells. */
  ghost function CellSets(tables: seq<seq<Cell>>): set<set<Cell>> { set t | t in tables :: CellSet(t) }

  lemma SameTable(cells: seq<Cell>, g: seq<nat>, h: seq<nat>, t: seq<Cell>, u: seq<Cell>)
    requires IsTable(cells, g, t) && IsTable(cells, h, u) && Members(g) == Members(h)
    ensures |t| == |u| && CellSet(t) == CellSet(u)
  {
    MembersSize(g);
    MembersSize(h);
    TableCellsOf(cells, g, h, t, u);
    TableCellsOf(cells, h, g, u, t);
  }

  lemma TableCellsOf(cells: seq<Cell>, g: seq<nat>, h: seq<nat>, t: seq<Cell>, u: seq<Cell>)
    requires IsTable(cells, g, t) && IsTable(cells, h, u) && Members(g) <= Members(h)
    ensures CellSet(t) <= CellSet(u)
  {
    forall c | c in CellSet(t) ensures c in CellSet(u) {
      var n :| 0 <= n < |t| && t[n] == c;
      assert g[n] in Members(h);
      var k :| 0 <= k < |h| && h[k] == g[n];
      assert u[k] == c;
    }
  }

  /** Each table of one list is in the other, possibly with its cells in another order. */
  lemma TableIsThere(cells: seq<Cell>, a: seq<seq<Cell>>, groups: seq<seq<nat>>, b: seq<seq<Cell>>, groups': seq<seq<nat>>, t: seq<Cell>)
    requires GroupsOf(cells, a, groups) && GroupsOf(cells, b, groups') && AllListed(cells, groups')
    requires t in Large(a)
    ensures CellSet(t) in CellSets(Large(b))
  {
    LargeMembers(a);
    LargeMembers(b);
    var i :| 0 <= i < |a| && a[i] == t;
    assert IsTable(cells, groups[i], t);
    MembersSize(groups[i]);
    assert Lists(groups', Members(groups[i]));
    var j :| 0 <= j < |groups'| && Members(groups'[j]) == Members(groups[i]);
    assert IsTable(cells, groups'[j], b[j]);
    SameTable(cells, groups[i], groups'[j], t, b[j]);
    assert b[j] in Large(b);
  }

  lemma SameTables(points: set<Point>, a: seq<seq<Cell>>, b: seq<seq<Cell>>)
    requires AreTables(points, a) && AreTables(points, b)
    ensures CellSets(a) == CellSets(b)
  {
    var cells, all, groups :| && ReadingOrder(cells) && (forall c :: c in cells <==> IsCell(points, c))
                              && GroupsOf(cells, all, groups) && AllListed(cells, groups) && a == Large(all);
    var cells', all', groups' :| && ReadingOrder(cells') && (forall c :: c in cells' <==> IsCell(points, c))
                                 && GroupsOf(cells', all', groups') && AllListed(cells', groups') && b == Large(all');
    ReadingOrderUnique(cells, cells');
    forall t | t in a ensures CellSet(t) in CellSets(b) {
      TableIsThere(cells, all, groups, all', groups', t);
    }
    forall t | t in b ensures CellSet(t) in CellSets(a) {
      TableIsThere(cells, all', groups', all, groups, t);
    }
  }

  /** Two detections on the same segments, listed in any order, find the same tables. */
  lemma DetectionIsStable(s: seq<Segment>, t: seq<Segment>, a: seq<seq<Cell>>, b: seq<seq<Cell>>)
    requires Permutes(s, t) && IsDetected(s, a) && IsDetected(t, b)
    ensures CellSets(a) == CellSets(b)
  {
    hide AreMerged, AreTables, AreCrossings, CellSets, Permutes;
    var es :| AreMerged(s, es) && TablesOf(es, a);
    var fs :| AreMerged(t, fs) && TablesOf(fs, b);
    SameSegments(s, t, es, fs);
    var points :| AreCrossings(es, points) && if |points| < 4 then a == [] else AreTables(points, a);
    var points' :| AreCrossings(fs, points') && if |points'| < 4 then b == [] else AreTables(points', b);
    SamePoints(es, fs, points, points');
    if |points| >= 4 {
      SameTables(points, a, b);
    }
  }
}
