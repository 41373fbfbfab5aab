/** DetectTables (internal/pdftomd/tables.go) from line segments to grouped cells: what
    each stage guarantees is what the next one relies on. */
module DetectTables {
  import opened Snapping
  import opened SnapEdges
  import opened MergeEdges
  import opened TableCells
  import opened CellGroups
  import opened Crossings

  const MIN_CELLS: nat := 4
  const MIN_INTERSECTIONS: nat := 4

  /** The cells of the tables lie side by side: all of positive area, no two of them
      overlap, and no corner is shared between different tables. */
  ghost predicate TidyTables(tables: seq<seq<Cell>>) {
    && (forall t :: 0 <= t < |tables| ==> |tables[t]| >= 4)
    && (forall t, i :: 0 <= t < |tables| && 0 <= i < |tables[t]| ==> tables[t][i].x0 < tables[t][i].x1 && tables[t][i].y0 < tables[t][i].y1)
    && (forall t, i, j :: 0 <= t < |tables| && 0 <= i < j < |tables[t]| ==> DisjointInteriors(tables[t][i], tables[t][j]))
    && (forall s, t, i, j :: 0 <= s < t < |tables| && 0 <= i < |tables[s]| && 0 <= j < |tables[t]| ==>
          DisjointInteriors(tables[s][i], tables[t][j]) && !SameCorner(tables[s][i], tables[t][j]))
  }

  lemma SubsetKeepsApart(es: seq<Edge>, kept: seq<Edge>, gap: real)
    requires LinesApart(es, gap) && forall e :: e in kept ==> e in es
    ensures LinesApart(kept, gap)
  {
  }

  /** The cells were built from the intersections of lines that are apart. */
  ghost predicate Sound(edges: seq<Edge>, m: map<Point, Intersection>, cells: seq<Cell>) {
    && LinesApart(edges, 3.0)
    && AreIntersections(InDirection(edges, false), InDirection(edges, true), m)
    && ReadingOrder(cells) && forall c :: c in cells <==> IsCell(m.Keys, c)
  }

  lemma DifferentCellsDisjoint(edges: seq<Edge>, m: map<Point, Intersection>, cells: seq<Cell>, a: nat, b: nat)
    requires Sound(edges, m, cells) && a < |cells| && b < |cells| && a != b
    ensures DisjointInteriors(cells[a], cells[b])
  {
    assert cells[a] in cells && cells[b] in cells;
    assert cells[a] != cells[b] by {
      var lo, hi := if a < b then a else b, if a < b then b else a;
      assert cells[lo].y0 < cells[hi].y0 || (cells[lo].y0 == cells[hi].y0 && cells[lo].x0 < cells[hi].x0);
    }
    CellsAreDisjoint(m.Keys, cells[a], cells[b]);
  }

  lemma TablesShareNoCorner(edges: seq<Edge>, m: map<Point, Intersection>, cells: seq<Cell>, g: seq<nat>, h: seq<nat>, i: nat, j: nat)
    requires Sound(edges, m, cells) && InRange(cells, g) && InRange(cells, h)
    requires IsComponent(cells, Members(g)) && Members(g) !! Members(h)
    requires i < |g| && j < |h|
    ensures !SameCorner(cells[g[i]], cells[h[j]])
  {
    assert g[i] in Members(g) && h[j] in Members(h);
    assert !Linked(cells, g[i], h[j]);
    assert cells[g[i]] in cells && cells[h[j]] in cells;
    CornerToleranceIsExact(edges, m, cells[g[i]], cells[h[j]]);
  }

  lemma GroupsAreTidy(edges: seq<Edge>, m: map<Point, Intersection>, cells: seq<Cell>, tables: seq<seq<Cell>>, groups: seq<seq<nat>>)
    requires Sound(edges, m, cells) && GroupsOf(cells, tables, groups)
    requires forall t :: 0 <= t < |tables| ==> |tables[t]| >= MIN_CELLS
    ensures TidyTables(tables)
  {
    forall t, i | 0 <= t < |tables| && 0 <= i < |tables[t]|
      ensures tables[t][i].x0 < tables[t][i].x1 && tables[t][i].y0 < tables[t][i].y1
    {
      assert IsTable(cells, groups[t], tables[t]);
      assert tables[t][i] in cells;
      CellsArePositive(m.Keys, tables[t][i]);
    }
    forall t, i, j | 0 <= t < |tables| && 0 <= i < j < |tables[t]| ensures DisjointInteriors(tables[t][i], tables[t][j]) {
      assert IsTable(cells, groups[t], tables[t]);
      DifferentCellsDisjoint(edges, m, cells, groups[t][i], groups[t][j]);
    }
    forall s, t, i, j | 0 <= s < t < |tables| && 0 <= i < |tables[s]| && 0 <= j < |tables[t]|
      ensures DisjointInteriors(tables[s][i], tables[t][j]) && !SameCorner(tables[s][i], tables[t][j])
    {
      assert IsTable(cells, groups[s], tables[s]) && IsTable(cells, groups[t], tables[t]);
      assert groups[s][i] in Members(groups[s]) && groups[t][j] in Members(groups[t]);
      DifferentCellsDisjoint(edges, m, cells, groups[s][i], groups[t][j]);
      TablesShareNoCorner(edges, m, cells, groups[s], groups[t], i, j);
    }
  }

  function Large(tables: seq<seq<Cell>>): seq<seq<Cell>> {
    if tables == [] then []
    else
      var last := tables[|tables| - 1];
      Large(tables[..|tables| - 1]) + if |last| >= MIN_CELLS then [last] else []
  }

  /** After the first t tables. */
  ghost predicate Sifted(cells: seq<Cell>, tables: seq<seq<Cell>>, groups: seq<seq<nat>>, t: nat,
                         large: seq<seq<Cell>>, kept: seq<seq<nat>>)
    requires t <= |tables|
  {
    && large == Large(tables[..t]) && GroupsOf(cells, large, kept)
    && (forall s :: 0 <= s < |large| ==> |large[s]| >= MIN_CELLS)
    && forall s, u :: 0 <= s < |kept| && t <= u < |groups| ==> Members(kept[s]) !! Members(groups[u])
  }

  lemma SiftOne(cells: seq<Cell>, tables: seq<seq<Cell>>, groups: seq<seq<nat>>, t: nat,
                large: seq<seq<Cell>>, kept: seq<seq<nat>>)
    requires GroupsOf(cells, tables, groups) && t < |tables| && Sifted(cells, tables, groups, t, large, kept)
    ensures if |tables[t]| < MIN_CELLS then Sifted(cells, tables, groups, t + 1, large, kept)
            else Sifted(cells, tables, groups, t + 1, large + [tables[t]], kept + [groups[t]])
  {
    assert tables[..t + 1][..t] == tables[..t];
    if |tables[t]| >= MIN_CELLS {
      AddGroup(cells, large, kept, tables[t], groups[t]);
    }
  }

  lemma AddGroup(cells: seq<Cell>, tables: seq<seq<Cell>>, groups: seq<seq<nat>>, table: seq<Cell>, g: seq<nat>)
    requires GroupsOf(cells, tables, groups) && IsTable(cells, g, table)
    requires forall s :: 0 <= s < |groups| ==> Members(groups[s]) !! Members(g)
    ensures GroupsOf(cells, tables + [table], groups + [g])
  {
    forall s | 0 <= s < |groups + [g]| ensures IsTable(cells, (groups + [g])[s], (tables + [table])[s]) {
      if s < |groups| { assert IsTable(cells, groups[s], tables[s]); }
    }
  }

  /** Tables with fewer than four cells are not rendered. */
  method LargeTables(cells: seq<Cell>, tables: seq<seq<Cell>>, ghost groups: seq<seq<nat>>)
    returns (large: seq<seq<Cell>>, ghost kept: seq<seq<nat>>)
    requires GroupsOf(cells, tables, groups)
    ensures large == Large(tables)
    ensures GroupsOf(cells, large, kept)
    ensures forall t :: 0 <= t < |large| ==> |large[t]| >= MIN_CELLS
  {
    large, kept := [], [];
    for t := 0 to |tables|
      invariant Sifted(cells, tables, groups, t, large, kept)
    {
      SiftOne(cells, tables, groups, t, large, kept);
      if |tables[t]| < MIN_CELLS {
        continue;
      }
      large, kept := large + [tables[t]], kept + [groups[t]];
    }
    assert tables[..|tables|] == tables;
  }

  /** The edges of the segments after snapping and joining. */
  ghost predicate AreMerged(segments: seq<Segment>, merged: seq<Edge>) {
    exists edges, snapped :: AreEdgesOf(segments, edges) && IsSnapped(edges, snapped) && IsJoinEdges(snapped, merged)
  }

  /** All points where long merged edges cross. */
  ghost predicate AreCrossings(merged: seq<Edge>, points: set<Point>) {
    forall k {:trigger k in points} {:trigger IsCrossing(merged, k)} :: k in points <==> IsCrossing(merged, k)
  }

  /** The components of at least four of the cells between these points. */
  ghost predicate AreTables(points: set<Point>, tables: seq<seq<Cell>>) {
    exists cells, all, groups ::
      && ReadingOrder(cells) && (forall c :: c in cells <==> IsCell(points, c))
      && GroupsOf(cells, all, groups) && AllListed(cells, groups) && tables == Large(all)
  }

  ghost predicate TablesOf(merged: seq<Edge>, tables: seq<seq<Cell>>) {
    exists points :: AreCrossings(merged, points) && if |points| < 4 then tables == [] else AreTables(points, tables)
  }

  ghost predicate IsDetected(segments: seq<Segment>, tables: seq<seq<Cell>>) {
    exists merged :: AreMerged(segments, merged) && TablesOf(merged, tables)
  }

  lemma DetectedBy(segments: seq<Segment>, edges: seq<Edge>, snapped: seq<Edge>, merged: seq<Edge>, points: set<Point>,
                   tables: seq<seq<Cell>>)
    requires AreEdgesOf(segments, edges) && IsSnapped(edges, snapped) && IsJoinEdges(snapped, merged)
    requires AreCrossings(merged, points) && if |points| < 4 then tables == [] else AreTables(points, tables)
    ensures IsDetected(segments, tables)
  {
    assert AreMerged(segments, merged) && TablesOf(merged, tables);
  }

  lemma EdgesAreStraight(segments: seq<Segment>, edges: seq<Edge>)
    requires AreEdgesOf(segments, edges)
    ensures AllStraight(edges)
  {
    forall i | 0 <= i < |edges| ensures Straight(edges[i]) {
      assert IsEdgeOf(Kept(segments)[i], edges[i]);
    }
  }

  lemma JoinedAreStraight(es: seq<Edge>, merged: seq<Edge>)
    requires IsJoinEdges(es, merged)
    ensures AllStraight(merged)
  {
    forall i | 0 <= i < |merged| ensures Straight(merged[i]) {
      assert OnLineOf(merged[i], es);
    }
  }

  lemma LongAreStraight(merged: seq<Edge>)
    requires AllStraight(merged)
    ensures AllStraight(LongEdges(merged))
  {
    LongEdgesMembers(merged);
    forall i | 0 <= i < |LongEdges(merged)| ensures Straight(LongEdges(merged)[i]) {
      assert LongEdges(merged)[i] in LongEdges(merged);
    }
  }

  lemma FoundAreCrossings(merged: seq<Edge>, m: map<Point, Intersection>)
    requires AllStraight(merged) && forall k :: k in m <==> NearAt(LongEdges(merged), k)
    ensures AreCrossings(merged, m.Keys) && |m| == |m.Keys|
  {
    forall k ensures k in m.Keys <==> IsCrossing(merged, k) {
      KeysAreCrossings(merged, k);
    }
  }

  /** Every corner of a cell of a table. */
  ghost predicate CornersOnRules(merged: seq<Edge>, tables: seq<seq<Cell>>) {
    forall t, i, c :: 0 <= t < |tables| && 0 <= i < |tables[t]| && 0 <= c < 4 ==> OnRules(merged, Corners(tables[t][i])[c])
  }

  lemma {:induction false} LargeMembers(tables: seq<seq<Cell>>)
    ensures forall t :: t in Large(tables) <==> t in tables && |t| >= 4
    decreases |tables|
  {
    if tables != [] {
      LargeMembers(tables[..|tables| - 1]);
      assert tables == tables[..|tables| - 1] + [tables[|tables| - 1]];
    }
  }

  lemma TableCellIsCell(points: set<Point>, tables: seq<seq<Cell>>, t: nat, i: nat)
    requires AreTables(points, tables) && t < |tables| && i < |tables[t]|
    ensures IsCell(points, tables[t][i])
  {
    var cells, all, groups :| && ReadingOrder(cells) && (forall c :: c in cells <==> IsCell(points, c))
                              && GroupsOf(cells, all, groups) && AllListed(cells, groups) && tables == Large(all);
    LargeMembers(all);
    assert tables[t] in all;
    var n :| 0 <= n < |all| && all[n] == tables[t];
    assert IsTable(cells, groups[n], all[n]);
    assert tables[t][i] in cells;
  }

  /** No table appears where no rules are: the corners of its cells lie on rules of both
      directions. */
  lemma TablesLieOnRules(segments: seq<Segment>, tables: seq<seq<Cell>>)
    requires IsDetected(segments, tables)
    ensures exists merged :: AreMerged(segments, merged) && CornersOnRules(merged, tables)
  {
    var merged :| AreMerged(segments, merged) && TablesOf(merged, tables);
    var edges, snapped :| AreEdgesOf(segments, edges) && IsSnapped(edges, snapped) && IsJoinEdges(snapped, merged);
    JoinedAreStraight(snapped, merged);
    var points :| AreCrossings(merged, points) && if |points| < 4 then tables == [] else AreTables(points, tables);
    forall t, i, c | 0 <= t < |tables| && 0 <= i < |tables[t]| && 0 <= c < 4
      ensures OnRules(merged, Corners(tables[t][i])[c])
    {
      TableCellIsCell(points, tables, t, i);
      CellCorners(points, tables[t][i]);
      CrossingOnRules(merged, Corners(tables[t][i])[c]);
    }
  }

  /** Steps 1 to 3: the long edges among the merged ones. */
  method LongMergedEdges(segments: seq<Segment>)
    returns (kept: seq<Edge>, ghost edges: seq<Edge>, ghost snapped: seq<Edge>, ghost merged: seq<Edge>)
    ensures AreEdgesOf(segments, edges) && IsSnapped(edges, snapped) && IsJoinEdges(snapped, merged)
    ensures AllStraight(merged) && kept == LongEdges(merged) && AllStraight(kept) && LinesApart(kept, 3.0)
  {
    var es := SegmentsToEdges(segments);
    EdgesAreStraight(segments, es);
    var all, s := MergeAll(es);
    edges, snapped, merged := es, s, all;
    kept := DropShort(all);
    LongEdgesMembers(all);
    SubsetKeepsApart(all, kept, 3.0);
    JoinedAreStraight(s, all);
    LongAreStraight(all);
  }

  /** Steps 5 to 7: the grouped cells, without the small groups. */
  method TablesBetween(kept: seq<Edge>, intersections: map<Point, Intersection>) returns (tables: seq<seq<Cell>>)
    requires LinesApart(kept, 3.0) && AreIntersections(InDirection(kept, false), InDirection(kept, true), intersections)
    ensures AreTables(intersections.Keys, tables) && TidyTables(tables)
  {
    var cells := BuildCells(intersections);
    assert Sound(kept, intersections, cells);
    var grouped := GroupCellsIntoTables(cells);
    ghost var groups :| GroupsOf(cells, grouped, groups) && AllListed(cells, groups);
    ghost var keptGroups;
    tables, keptGroups := LargeTables(cells, grouped, groups);
    GroupsAreTidy(kept, intersections, cells, tables, keptGroups);
  }

  method DetectCellTables(segments: seq<Segment>) returns (tables: seq<seq<Cell>>)
    ensures IsDetected(segments, tables)
    ensures TidyTables(tables)
  {
    tables := [];
    var kept;
    ghost var edges, snapped, merged;
    kept, edges, snapped, merged := LongMergedEdges(segments);
    var intersections := FindIntersections(kept);
    FoundAreCrossings(merged, intersections);
    if |intersections| >= MIN_INTERSECTIONS {
      tables := TablesBetween(kept, intersections);
    }
    DetectedBy(segments, edges, snapped, merged, intersections.Keys, tables);
  }
}
