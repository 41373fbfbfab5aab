/** groupCellsIntoTables (internal/pdftomd/tables.go): cells grouped by shared corners. */
module CellGroups {
  import opened Wrappers
  import opened Snapping
  import opened MergeEdges
  import opened TableCells

  // ----- Shared corners -----

  function Corners(c: Cell): seq<Point> {
    [(c.x0, c.y0), (c.x1, c.y0), (c.x0, c.y1), (c.x1, c.y1)]
  }

  predicate Close(p: Point, q: Point) {
    -1.0 < p.0 - q.0 < 1.0 && -1.0 < p.1 - q.1 < 1.0
  }

  predicate SharesCorner(a: Cell, b: Cell) {
    exists i, j :: 0 <= i < 4 && 0 <= j < 4 && Close(Corners(a)[i], Corners(b)[j])
  }

  lemma SharesCornerSymmetric(a: Cell, b: Cell)
    ensures SharesCorner(a, b) <==> SharesCorner(b, a)
  {
    if i, j :| 0 <= i < 4 && 0 <= j < 4 && Close(Corners(a)[i], Corners(b)[j]) {
      assert Close(Corners(b)[j], Corners(a)[i]);
    }
    if i, j :| 0 <= i < 4 && 0 <= j < 4 && Close(Corners(b)[i], Corners(a)[j]) {
      assert Close(Corners(a)[j], Corners(b)[i]);
    }
  }

  ghost predicate SameCorner(a: Cell, b: Cell) {
    exists i, j :: 0 <= i < 4 && 0 <= j < 4 && Corners(a)[i] == Corners(b)[j]
  }

  lemma CloseIsEqual(edges: seq<Edge>, m: map<Point, Intersection>, k: Point, l: Point)
    requires LinesApart(edges, 3.0)
    requires AreIntersections(InDirection(edges, false), InDirection(edges, true), m)
    requires k in m && l in m
    ensures Close(k, l) <==> k == l
  {
    GridIsApart(edges, m, k, l);
  }

  lemma CellCorners(keys: set<Point>, c: Cell)
    requires IsCell(keys, c)
    ensures forall i :: 0 <= i < 4 ==> Corners(c)[i] in keys
  {
  }

  /** On cells built from snapped edges the tolerance of 1 admits no false neighbour:
      cells are taken to touch exactly when they have a corner in common. */
  lemma CornerToleranceIsExact(edges: seq<Edge>, m: map<Point, Intersection>, a: Cell, b: Cell)
    requires LinesApart(edges, 3.0)
    requires AreIntersections(InDirection(edges, false), InDirection(edges, true), m)
    requires IsCell(m.Keys, a) && IsCell(m.Keys, b)
    ensures SharesCorner(a, b) <==> SameCorner(a, b)
  {
    CellCorners(m.Keys, a);
    CellCorners(m.Keys, b);
    if SharesCorner(a, b) {
      var i, j :| 0 <= i < 4 && 0 <= j < 4 && Close(Corners(a)[i], Corners(b)[j]);
      CloseIsEqual(edges, m, Corners(a)[i], Corners(b)[j]);
    }
    if SameCorner(a, b) {
      var i, j :| 0 <= i < 4 && 0 <= j < 4 && Corners(a)[i] == Corners(b)[j];
      CloseIsEqual(edges, m, Corners(a)[i], Corners(b)[j]);
    }
  }

  // ----- The touching graph on cell indices -----

  ghost predicate Linked(cells: seq<Cell>, i: nat, j: nat) {
    i < |cells| && j < |cells| && SharesCorner(cells[i], cells[j])
  }

  ghost predicate LinkAt(cells: seq<Cell>, p: seq<nat>, n: nat) { n + 1 < |p| && Linked(cells, p[n], p[n + 1]) }

  ghost predicate IsPath(cells: seq<Cell>, p: seq<nat>) {
    && p != [] && (forall n :: 0 <= n < |p| ==> p[n] < |cells|)
    && forall n {:trigger LinkAt(cells, p, n)} :: 0 <= n < |p| - 1 ==> LinkAt(cells, p, n)
  }

  ghost predicate Connected(cells: seq<Cell>, i: nat, j: nat) {
    exists p: seq<nat> :: IsPath(cells, p) && p[0] == i && p[|p| - 1] == j
  }

  ghost predicate Closed(cells: seq<Cell>, C: set<nat>) {
    forall i: nat, j: nat :: i in C && Linked(cells, i, j) ==> j in C
  }

  /** A connected component: every member reaches every other, and no link leaves. */
  ghost predicate IsComponent(cells: seq<Cell>, C: set<nat>) {
    && C != {} && (forall i :: i in C ==> i < |cells|)
    && (forall i, j :: i in C && j in C ==> Connected(cells, i, j))
    && Closed(cells, C)
  }

  lemma LinkedSymmetric(cells: seq<Cell>, i: nat, j: nat)
    requires Linked(cells, i, j)
    ensures Linked(cells, j, i)
  {
    SharesCornerSymmetric(cells[i], cells[j]);
  }

  lemma Reflexive(cells: seq<Cell>, i: nat)
    requires i < |cells|
    ensures Connected(cells, i, i)
  {
    assert IsPath(cells, [i]) && [i][0] == i;
  }

  lemma ConnectedStep(cells: seq<Cell>, i: nat, j: nat, k: nat)
    requires Connected(cells, i, j) && Linked(cells, j, k)
    ensures Connected(cells, i, k)
  {
    var p: seq<nat> :| IsPath(cells, p) && p[0] == i && p[|p| - 1] == j;
    var q := p + [k];
    forall n | 0 <= n < |q| - 1 ensures LinkAt(cells, q, n) {
      assert n < |p| - 1 ==> LinkAt(cells, p, n);
    }
    assert IsPath(cells, q) && q[0] == i && q[|q| - 1] == k;
  }

  lemma PathTail(cells: seq<Cell>, p: seq<nat>)
    requires IsPath(cells, p) && |p| > 1
    ensures IsPath(cells, p[1..])
  {
    var q := p[1..];
    forall n | 0 <= n < |q| - 1 ensures LinkAt(cells, q, n) {
      assert LinkAt(cells, p, n + 1);
    }
  }

  lemma {:induction false} PathConnects(cells: seq<Cell>, h: nat, i: nat, p: seq<nat>)
    requires Connected(cells, h, i) && IsPath(cells, p) && p[0] == i
    ensures Connected(cells, h, p[|p| - 1])
    decreases |p|
  {
    if |p| > 1 {
      assert LinkAt(cells, p, 0);
      ConnectedStep(cells, h, i, p[1]);
      var q := p[1..];
      PathTail(cells, p);
      PathConnects(cells, h, p[1], q);
    }
  }

  lemma {:induction false} PathReverses(cells: seq<Cell>, p: seq<nat>)
    requires IsPath(cells, p)
    ensures Connected(cells, p[|p| - 1], p[0])
    decreases |p|
  {
    if |p| == 1 {
      Reflexive(cells, p[0]);
    } else {
      var q := p[1..];
      PathTail(cells, p);
      PathReverses(cells, q);
      assert LinkAt(cells, p, 0);
      LinkedSymmetric(cells, p[0], p[1]);
      ConnectedStep(cells, p[|p| - 1], p[1], p[0]);
    }
  }

  lemma Transitive(cells: seq<Cell>, i: nat, j: nat, k: nat)
    requires Connected(cells, i, j) && Connected(cells, j, k)
    ensures Connected(cells, i, k)
  {
    var p: seq<nat> :| IsPath(cells, p) && p[0] == j && p[|p| - 1] == k;
    PathConnects(cells, i, j, p);
  }

  lemma Symmetric(cells: seq<Cell>, i: nat, j: nat)
    requires Connected(cells, i, j)
    ensures Connected(cells, j, i)
  {
    var p: seq<nat> :| IsPath(cells, p) && p[0] == i && p[|p| - 1] == j;
    PathReverses(cells, p);
  }

  lemma {:induction false} PathStaysInside(cells: seq<Cell>, C: set<nat>, p: seq<nat>)
    requires Closed(cells, C) && IsPath(cells, p) && p[0] in C
    ensures p[|p| - 1] in C
    decreases |p|
  {
    if |p| > 1 {
      assert LinkAt(cells, p, 0);
      var q := p[1..];
      PathTail(cells, p);
      PathStaysInside(cells, C, q);
    }
  }

  /** Components that meet are equal: the graph has one decomposition into components. */
  lemma ComponentsEqual(cells: seq<Cell>, C: set<nat>, D: set<nat>, i: nat)
    requires IsComponent(cells, C) && IsComponent(cells, D) && i in C && i in D
    ensures C == D
  {
    forall j ensures j in C <==> j in D {
      if j in C {
        var p: seq<nat> :| IsPath(cells, p) && p[0] == i && p[|p| - 1] == j;
        PathStaysInside(cells, D, p);
      }
      if j in D {
        var p: seq<nat> :| IsPath(cells, p) && p[0] == i && p[|p| - 1] == j;
        PathStaysInside(cells, C, p);
      }
    }
  }

  // ----- The grouping loops -----

  ghost function Members(g: seq<nat>): set<nat> { set n | 0 <= n < |g| :: g[n] }

  ghost predicate NoRepeats(g: seq<nat>) { forall i, j :: 0 <= i < j < |g| ==> g[i] != g[j] }

  predicate InRange(cells: seq<Cell>, g: seq<nat>) { forall n :: 0 <= n < |g| ==> g[n] < |cells| }

  function Pick(cells: seq<Cell>, g: seq<nat>): (r: seq<Cell>)
    requires InRange(cells, g)
    ensures |r| == |g|
  {
    seq(|g|, n requires 0 <= n < |g| => cells[g[n]])
  }

  /** A group that grows from its first index: connected to it and duplicate free. */
  ghost predicate Growing(cells: seq<Cell>, g: seq<nat>) {
    && g != [] && NoRepeats(g) && InRange(cells, g)
    && forall n :: 0 <= n < |g| ==> Connected(cells, g[0], g[n])
  }

  lemma GrowingExtends(cells: seq<Cell>, g: seq<nat>, n: nat, i: nat)
    requires Growing(cells, g) && n < |g| && Linked(cells, g[n], i) && i !in g
    ensures Growing(cells, g + [i])
  {
    ConnectedStep(cells, g[0], g[n], i);
  }

  lemma GrownIsComponent(cells: seq<Cell>, g: seq<nat>)
    requires Growing(cells, g) && Closed(cells, Members(g))
    ensures IsComponent(cells, Members(g))
  {
    assert g[0] in Members(g);
    forall i, j | i in Members(g) && j in Members(g) ensures Connected(cells, i, j) {
      var a :| 0 <= a < |g| && g[a] == i;
      var b :| 0 <= b < |g| && g[b] == j;
      Symmetric(cells, g[0], g[a]);
      Transitive(cells, g[a], g[0], g[b]);
    }
  }

  method CellTouchesGroup(c: Cell, group: seq<Cell>) returns (touches: bool)
    ensures touches <==> exists n :: 0 <= n < |group| && SharesCorner(c, group[n])
  {
    for n := 0 to |group|
      invariant forall k :: 0 <= k < n ==> !SharesCorner(c, group[k])
    {
      if SharesCorner(c, group[n]) {
        return true;
      }
    }
    return false;
  }

  ghost function UsedSet(used: seq<bool>): set<nat> { set i | 0 <= i < |used| && used[i] }

  /** No unused cell below `bound` touches the group. */
  ghost predicate Untouched(cells: seq<Cell>, used: seq<bool>, g: seq<nat>, bound: nat) {
    forall i: nat, n :: i < bound && i < |used| && !used[i] && 0 <= n < |g| ==> !Linked(cells, i, g[n])
  }

  /** The group in progress: g and its cells, all used, on top of the used set U. */
  ghost predicate Grouping(cells: seq<Cell>, used: seq<bool>, group: seq<Cell>, g: seq<nat>, U: set<nat>) {
    && |used| == |cells|
    && Growing(cells, g) && group == Pick(cells, g)
    && (forall n :: 0 <= n < |g| ==> used[g[n]])
    && UsedSet(used) - Members(g) == U
  }

  lemma GroupingGrows(cells: seq<Cell>, used: seq<bool>, group: seq<Cell>, g: seq<nat>, U: set<nat>, i: nat, n: nat)
    requires Grouping(cells, used, group, g, U)
    requires i < |cells| && !used[i] && n < |group| && SharesCorner(cells[i], group[n])
    ensures Grouping(cells, used[i := true], group + [cells[i]], g + [i], U)
  {
    assert Linked(cells, i, g[n]);
    LinkedSymmetric(cells, i, g[n]);
    GrowingExtends(cells, g, n, i);
    UseOne(used, used[i := true], g, i);
  }

  lemma ApartFromGroup(cells: seq<Cell>, group: seq<Cell>, g: seq<nat>, i: nat)
    requires InRange(cells, g) && group == Pick(cells, g) && i < |cells|
    requires forall n :: 0 <= n < |group| ==> !SharesCorner(cells[i], group[n])
    ensures forall n :: 0 <= n < |g| ==> !Linked(cells, i, g[n])
  {
    forall n | 0 <= n < |g| ensures !Linked(cells, i, g[n]) {
      assert group[n] == cells[g[n]];
    }
  }

  /** One pass over all cells, moving every unused cell that touches the group into it. */
  method Sweep(cells: seq<Cell>, used: array<bool>, group: seq<Cell>, ghost g: seq<nat>, ghost U: set<nat>)
    returns (group': seq<Cell>, changed: bool, ghost g': seq<nat>)
    requires Grouping(cells, used[..], group, g, U)
    modifies used
    ensures Grouping(cells, used[..], group', g', U) && g <= g'
    ensures !changed ==> g' == g && Untouched(cells, used[..], g, |cells|)
    ensures changed ==> |g'| > |g|
  {
    group', changed, g' := group, false, g;
    for i := 0 to |cells|
      invariant Grouping(cells, used[..], group', g', U) && g <= g'
      invariant !changed ==> g' == g && Untouched(cells, used[..], g, i)
      invariant changed ==> |g'| > |g|
    {
      if used[i] {
        continue;
      }
      var touches := CellTouchesGroup(cells[i], group');
      if touches {
        ghost var n :| 0 <= n < |group'| && SharesCorner(cells[i], group'[n]);
        GroupingGrows(cells, used[..], group', g', U, i, n);
        ghost var after := used[..][i := true];
        group' := group' + [cells[i]];
        g' := g' + [i];
        used[i] := true;
        assert used[..] == after;
        changed := true;
      } else {
        ApartFromGroup(cells, group', g', i);
      }
    }
  }

  lemma UseOne(before: seq<bool>, after: seq<bool>, g: seq<nat>, i: nat)
    requires i < |before| && !before[i] && after == before[i := true]
    ensures UsedSet(after) - Members(g + [i]) == UsedSet(before) - Members(g)
    ensures UsedSet(after) == UsedSet(before) + {i}
  {
    assert Members(g + [i]) == Members(g) + {i} by {
      assert forall n :: 0 <= n < |g| ==> (g + [i])[n] == g[n];
      assert (g + [i])[|g|] == i;
    }
  }

  /** Sweeps until nothing changes: the group becomes a whole component. */
  method GrowGroup(cells: seq<Cell>, used: array<bool>, start: nat) returns (group: seq<Cell>, ghost g: seq<nat>)
    requires used.Length == |cells| && start < |cells| && !used[start]
    requires Closed(cells, UsedSet(used[..]))
    modifies used
    ensures NoRepeats(g) && IsComponent(cells, Members(g)) && start in Members(g)
    ensures InRange(cells, g) && group == Pick(cells, g)
    ensures UsedSet(used[..]) == UsedSet(old(used[..])) + Members(g)
    ensures UsedSet(old(used[..])) !! Members(g)
  {
    ghost var before := used[..];
    ghost var U := UsedSet(before);
    group, g := [cells[start]], [start];
    used[start] := true;
    StartGrouping(cells, before, used[..], start);
    var changed := true;
    while changed
      invariant Grouping(cells, used[..], group, g, U) && g[0] == start
      invariant !changed ==> Untouched(cells, used[..], g, |cells|)
      decreases |cells| - |g|, changed
    {
      group, changed, g := Sweep(cells, used, group, g, U);
      GroupFits(cells, g);
    }
    GroupCloses(cells, used[..], g, U);
    GrownIsComponent(cells, g);
  }

  lemma StartGrouping(cells: seq<Cell>, before: seq<bool>, after: seq<bool>, start: nat)
    requires |before| == |cells| && start < |cells| && !before[start] && after == before[start := true]
    ensures Grouping(cells, after, [cells[start]], [start], UsedSet(before))
  {
    Reflexive(cells, start);
    UseOne(before, after, [], start);
    assert [] + [start] == [start];
  }

  lemma GroupFits(cells: seq<Cell>, g: seq<nat>)
    requires Growing(cells, g)
    ensures |g| <= |cells|
  {
    MembersSize(g);
    SubsetSize(Members(g), Below(|cells|));
  }

  ghost function Below(n: nat): (s: set<nat>)
    ensures |s| == n && forall i: nat :: i in s <==> i < n
  {
    if n == 0 then {} else Below(n - 1) + {n - 1}
  }

  lemma TouchedIsUsed(cells: seq<Cell>, used: seq<bool>, g: seq<nat>, n: nat, j: nat)
    requires |used| == |cells| && Untouched(cells, used, g, |cells|)
    requires n < |g| && Linked(cells, j, g[n])
    ensures used[j]
  {
  }

  lemma GroupCloses(cells: seq<Cell>, used: seq<bool>, g: seq<nat>, U: set<nat>)
    requires |used| == |cells| && Growing(cells, g) && Untouched(cells, used, g, |cells|)
    requires UsedSet(used) - Members(g) == U && Closed(cells, U)
    ensures Closed(cells, Members(g))
  {
    forall i: nat, j: nat | i in Members(g) && Linked(cells, i, j) ensures j in Members(g) {
      var n :| 0 <= n < |g| && g[n] == i;
      LinkedSymmetric(cells, i, j);
      TouchedIsUsed(cells, used, g, n, j);
      assert j in UsedSet(used);
      assert j in U ==> i in U;
    }
  }

  // ----- The result -----

  ghost predicate IsTable(cells: seq<Cell>, g: seq<nat>, table: seq<Cell>) {
    && NoRepeats(g) && |g| >= 2 && IsComponent(cells, Members(g))
    && InRange(cells, g) && table == Pick(cells, g)
  }

  /** Each table holds one component, and no two tables the same cells. */
  ghost predicate GroupsOf(cells: seq<Cell>, tables: seq<seq<Cell>>, groups: seq<seq<nat>>) {
    && |tables| == |groups|
    && (forall t :: 0 <= t < |groups| ==> IsTable(cells, groups[t], tables[t]))
    && (forall s, t :: 0 <= s < t < |groups| ==> Members(groups[s]) !! Members(groups[t]))
  }

  ghost predicate AllListed(cells: seq<Cell>, groups: seq<seq<nat>>) {
    forall C: set<nat> :: IsComponent(cells, C) && |C| >= 2 ==> Lists(groups, C)
  }

  /** Cell i's component is listed, unless the cell stands alone. */
  ghost predicate Placed(cells: seq<Cell>, groups: seq<seq<nat>>, i: nat) {
    exists C: set<nat> :: IsComponent(cells, C) && i in C && (|C| < 2 || Lists(groups, C))
  }

  ghost predicate Lists(groups: seq<seq<nat>>, C: set<nat>) {
    exists t :: 0 <= t < |groups| && Members(groups[t]) == C
  }

  ghost predicate Tabulated(cells: seq<Cell>, used: seq<bool>, tables: seq<seq<Cell>>, groups: seq<seq<nat>>) {
    && |tables| == |groups|
    && (forall t :: 0 <= t < |groups| ==> IsTable(cells, groups[t], tables[t]) && Members(groups[t]) <= UsedSet(used))
    && (forall s, t :: 0 <= s < t < |groups| ==> Members(groups[s]) !! Members(groups[t]))
    && forall i: nat {:trigger Placed(cells, groups, i)} :: i in UsedSet(used) ==> Placed(cells, groups, i)
  }

  lemma {:induction false} MembersSize(g: seq<nat>)
    requires NoRepeats(g)
    ensures |Members(g)| == |g|
    decreases |g|
  {
    if g == [] {
      assert Members(g) == {};
    } else {
      var rest, last := g[..|g| - 1], g[|g| - 1];
      MembersSize(rest);
      assert Members(g) == Members(rest) + {last} by {
        assert g == rest + [last];
        assert forall n :: 0 <= n < |rest| ==> rest[n] == g[n];
      }
      assert last !in Members(rest);
    }
  }

  lemma ClosedUnion(cells: seq<Cell>, A: set<nat>, B: set<nat>)
    requires Closed(cells, A) && Closed(cells, B)
    ensures Closed(cells, A + B)
  {
  }

  lemma StillPlaced(cells: seq<Cell>, groups: seq<seq<nat>>, groups': seq<seq<nat>>, i: nat)
    requires Placed(cells, groups, i) && groups <= groups'
    ensures Placed(cells, groups', i)
  {
    var C: set<nat> :| IsComponent(cells, C) && i in C && (|C| < 2 || Lists(groups, C));
    if Lists(groups, C) {
      var t :| 0 <= t < |groups| && Members(groups[t]) == C;
      assert Members(groups'[t]) == C;
    }
  }

  lemma AddDisjoint(groups: seq<seq<nat>>, g: seq<nat>, U: set<nat>)
    requires forall t :: 0 <= t < |groups| ==> Members(groups[t]) <= U
    requires forall s, t :: 0 <= s < t < |groups| ==> Members(groups[s]) !! Members(groups[t])
    requires U !! Members(g)
    ensures var all := groups + [g]; forall s, t :: 0 <= s < t < |all| ==> Members(all[s]) !! Members(all[t])
  {
  }

  lemma KeepTable(cells: seq<Cell>, used: seq<bool>, used': seq<bool>, tables: seq<seq<Cell>>, groups: seq<seq<nat>>,
                  group: seq<Cell>, g: seq<nat>)
    requires Tabulated(cells, used, tables, groups) && IsTable(cells, g, group)
    requires UsedSet(used') == UsedSet(used) + Members(g) && UsedSet(used) !! Members(g)
    ensures Tabulated(cells, used', tables + [group], groups + [g])
  {
    var groups', tables' := groups + [g], tables + [group];
    AddDisjoint(groups, g, UsedSet(used));
    forall t | 0 <= t < |groups'| ensures IsTable(cells, groups'[t], tables'[t]) && Members(groups'[t]) <= UsedSet(used') {
      if t < |groups| { assert IsTable(cells, groups[t], tables[t]); }
    }
    forall i: nat | i in UsedSet(used') ensures Placed(cells, groups', i) {
      if i in UsedSet(used) {
        StillPlaced(cells, groups, groups', i);
      } else {
        PlacedByLast(cells, groups, g, i);
      }
    }
  }

  lemma PlacedByLast(cells: seq<Cell>, groups: seq<seq<nat>>, g: seq<nat>, i: nat)
    requires IsComponent(cells, Members(g)) && i in Members(g)
    ensures Placed(cells, groups + [g], i)
  {
    assert Members((groups + [g])[|groups|]) == Members(g);
    assert Lists(groups + [g], Members(g));
  }

  lemma DropSingle(cells: seq<Cell>, used: seq<bool>, used': seq<bool>, tables: seq<seq<Cell>>, groups: seq<seq<nat>>, g: seq<nat>)
    requires Tabulated(cells, used, tables, groups)
    requires NoRepeats(g) && |g| < 2 && IsComponent(cells, Members(g))
    requires UsedSet(used') == UsedSet(used) + Members(g)
    ensures Tabulated(cells, used', tables, groups)
  {
    MembersSize(g);
    forall i: nat | i in UsedSet(used') ensures Placed(cells, groups, i) {
      assert i in UsedSet(used) || i in Members(g);
    }
  }

  /** groupCellsIntoTables: the tables are the connected components of at least two
      cells of the corner-sharing graph, each of them once and each complete. */
  method GroupCellsIntoTables(cells: seq<Cell>) returns (tables: seq<seq<Cell>>)
    ensures exists groups :: GroupsOf(cells, tables, groups) && AllListed(cells, groups)
  {
    tables := [];
    ghost var groups := [];
    var used := new bool[|cells|](_ => false);
    assert UsedSet(used[..]) == {};
    while true
      invariant Tabulated(cells, used[..], tables, groups) && Closed(cells, UsedSet(used[..]))
      decreases |cells| - |UsedSet(used[..])|
    {
      var start := FirstUnused(used);
      if start == used.Length {
        break;
      }
      ghost var before := used[..];
      var group, g := GrowGroup(cells, used, start);
      ClosedUnion(cells, UsedSet(before), Members(g));
      if |group| >= 2 {
        KeepTable(cells, before, used[..], tables, groups, group, g);
        tables := tables + [group];
        groups := groups + [g];
      } else {
        DropSingle(cells, before, used[..], tables, groups, g);
      }
      UsedGrows(before, used[..], start);
    }
    AllPlaced(cells, used[..], tables, groups);
    assert GroupsOf(cells, tables, groups);
  }

  method FirstUnused(used: array<bool>) returns (start: nat)
    ensures start <= used.Length && (start < used.Length ==> !used[start])
    ensures forall i :: 0 <= i < start ==> used[i]
  {
    start := 0;
    while start < used.Length && used[start]
      invariant start <= used.Length && forall i :: 0 <= i < start ==> used[i]
    {
      start := start + 1;
    }
  }

  lemma UsedGrows(before: seq<bool>, after: seq<bool>, start: nat)
    requires |before| == |after| && start < |before| && !before[start]
    requires UsedSet(before) <= UsedSet(after) && start in UsedSet(after)
    ensures |UsedSet(before)| < |UsedSet(after)| <= |after|
  {
    assert UsedSet(before) + {start} <= UsedSet(after);
    SubsetSize(UsedSet(before) + {start}, UsedSet(after));
    SubsetSize(UsedSet(after), Below(|after|));
  }

  lemma AllPlaced(cells: seq<Cell>, used: seq<bool>, tables: seq<seq<Cell>>, groups: seq<seq<nat>>)
    requires |used| == |cells| && (forall i :: 0 <= i < |used| ==> used[i])
    requires Tabulated(cells, used, tables, groups)
    ensures AllListed(cells, groups)
  {
    forall C: set<nat> | IsComponent(cells, C) && |C| >= 2 ensures Lists(groups, C) {
      var i :| i in C;
      assert i in UsedSet(used);
      assert Placed(cells, groups, i);
      var D: set<nat> :| IsComponent(cells, D) && i in D && (|D| < 2 || Lists(groups, D));
      ComponentsEqual(cells, C, D, i);
    }
  }
}
