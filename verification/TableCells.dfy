/** findIntersections and buildCells (internal/pdftomd/tables.go): where vertical and
    horizontal edges meet, and the elementary rectangles between the meeting points. */
module TableCells {
  import opened Wrappers
  import opened Sorting
  import opened Snapping
  import opened SnapEdges
  import opened MergeEdges
  import opened Rounding

  const INTERSECTION_TOLERANCE: real := 3.0
  const EDGE_MIN_LENGTH: real := 3.0

  type Point = (real, real)

  datatype Intersection = Intersection(x: real, y: real, vEdges: seq<nat>, hEdges: seq<nat>)

  datatype Cell = Cell(x0: real, y0: real, x1: real, y1: real)

  /** The third step of DetectTables: edges shorter than 3 are dropped. The comparison
      of edgeLength with the minimum is made on squares. */
  method DropShort(edges: seq<Edge>) returns (kept: seq<Edge>)
    ensures kept == LongEdges(edges)
  {
    kept := [];
    for i := 0 to |edges|
      invariant kept == LongEdges(edges[..i])
    {
      assert edges[..i + 1][..i] == edges[..i];
      if LongEnough(edges[i]) {
        kept := kept + [edges[i]];
      }
    }
    assert edges[..|edges|] == edges;
  }

  function LongEdges(edges: seq<Edge>): seq<Edge> {
    if edges == [] then []
    else LongEdges(edges[..|edges| - 1]) + if LongEnough(edges[|edges| - 1]) then [edges[|edges| - 1]] else []
  }

  lemma {:induction false} LongEdgesMembers(edges: seq<Edge>)
    ensures forall e :: e in LongEdges(edges) <==> e in edges && LongEnough(e)
    decreases |edges|
  {
    if edges != [] {
      LongEdgesMembers(edges[..|edges| - 1]);
      assert edges == edges[..|edges| - 1] + [edges[|edges| - 1]];
    }
  }

  predicate LongEnough(e: Edge) {
    var dx, dy := e.x1 - e.x0, e.y1 - e.y0;
    dx * dx + dy * dy >= EDGE_MIN_LENGTH * EDGE_MIN_LENGTH
  }

  // ----- Intersections -----

  predicate Meet(v: Edge, h: Edge) {
    && v.y0 <= h.y0 + INTERSECTION_TOLERANCE && v.y1 >= h.y0 - INTERSECTION_TOLERANCE
    && v.x0 >= h.x0 - INTERSECTION_TOLERANCE && v.x0 <= h.x1 + INTERSECTION_TOLERANCE
  }

  function KeyAt(v: Edge, h: Edge): Point { (Round10(v.x0), Round10(h.y0)) }

  /** Edges v and h of the two lists meet at key k. */
  predicate MeetAt(vs: seq<Edge>, hs: seq<Edge>, i: nat, j: nat, k: Point) {
    i < |vs| && j < |hs| && Meet(vs[i], hs[j]) && KeyAt(vs[i], hs[j]) == k
  }

  /** Pairs are visited row by row: all (i', j') with i' < i, and (i, j') with j' < j. */
  predicate Visited(a: nat, b: nat, i: nat, j: nat) { a < i || (a == i && b < j) }

  /** One entry of the map after the pairs before (i, j). */
  ghost predicate EntryOk(vs: seq<Edge>, hs: seq<Edge>, i: nat, j: nat, k: Point, ix: Intersection) {
    && Round10(ix.x) == k.0 && Round10(ix.y) == k.1
    && (forall a: nat :: a in ix.vEdges <==> exists b: nat :: Visited(a, b, i, j) && MeetAt(vs, hs, a, b, k))
    && (forall b: nat :: b in ix.hEdges <==> exists a: nat :: Visited(a, b, i, j) && MeetAt(vs, hs, a, b, k))
  }

  ghost predicate Found(vs: seq<Edge>, hs: seq<Edge>, i: nat, j: nat, m: map<Point, Intersection>) {
    && (forall k :: k in m <==> exists a: nat, b: nat :: Visited(a, b, i, j) && MeetAt(vs, hs, a, b, k))
    && (forall k :: k in m ==> EntryOk(vs, hs, i, j, k, m[k]))
  }

  method AppendUnique(s: seq<nat>, v: nat) returns (r: seq<nat>)
    ensures r == if v in s then s else s + [v]
  {
    for i := 0 to |s|
      invariant v !in s[..i]
    {
      if s[i] == v {
        return s;
      }
    }
    assert s[..|s|] == s;
    return s + [v];
  }

  lemma SkipPair(vs: seq<Edge>, hs: seq<Edge>, i: nat, j: nat, m: map<Point, Intersection>)
    requires i < |vs| && j < |hs| && !Meet(vs[i], hs[j]) && Found(vs, hs, i, j, m)
    ensures Found(vs, hs, i, j + 1, m)
  {
    forall k, a: nat, b: nat | MeetAt(vs, hs, a, b, k) ensures Visited(a, b, i, j) <==> Visited(a, b, i, j + 1) {
    }
    forall k | k in m ensures EntryOk(vs, hs, i, j + 1, k, m[k]) {
      assert EntryOk(vs, hs, i, j, k, m[k]);
    }
  }

  lemma NextRow(vs: seq<Edge>, hs: seq<Edge>, i: nat, m: map<Point, Intersection>)
    requires i < |vs| && Found(vs, hs, i, |hs|, m)
    ensures Found(vs, hs, i + 1, 0, m)
  {
    forall k, a: nat, b: nat | MeetAt(vs, hs, a, b, k) ensures Visited(a, b, i, |hs|) <==> Visited(a, b, i + 1, 0) {
    }
    forall k | k in m ensures EntryOk(vs, hs, i + 1, 0, k, m[k]) {
      assert EntryOk(vs, hs, i, |hs|, k, m[k]);
    }
  }

  lemma MeetPair(vs: seq<Edge>, hs: seq<Edge>, i: nat, j: nat, m: map<Point, Intersection>, ix: Intersection)
    requires i < |vs| && j < |hs| && Meet(vs[i], hs[j]) && Found(vs, hs, i, j, m)
    requires var k := KeyAt(vs[i], hs[j]);
             var was := if k in m then m[k] else Intersection(vs[i].x0, hs[j].y0, [], []);
             && ix.x == was.x && ix.y == was.y
             && (forall a :: a in ix.vEdges <==> a in was.vEdges || a == i)
             && (forall b :: b in ix.hEdges <==> b in was.hEdges || b == j)
    ensures Found(vs, hs, i, j + 1, m[KeyAt(vs[i], hs[j]) := ix])
  {
    var k := KeyAt(vs[i], hs[j]);
    var m' := m[k := ix];
    assert MeetAt(vs, hs, i, j, k) && Visited(i, j, i, j + 1);
    forall l, a: nat, b: nat | MeetAt(vs, hs, a, b, l)
      ensures Visited(a, b, i, j + 1) <==> Visited(a, b, i, j) || (a == i && b == j)
    {
    }
    forall l ensures l in m' <==> exists a: nat, b: nat :: Visited(a, b, i, j + 1) && MeetAt(vs, hs, a, b, l) {
      if l in m && l != k {
        var a: nat, b: nat :| Visited(a, b, i, j) && MeetAt(vs, hs, a, b, l);
        assert Visited(a, b, i, j + 1);
      }
      if a: nat, b: nat :| Visited(a, b, i, j + 1) && MeetAt(vs, hs, a, b, l) {
        assert l == k || Visited(a, b, i, j);
      }
    }
    forall l | l in m' ensures EntryOk(vs, hs, i, j + 1, l, m'[l]) {
      if l == k {
        EntryGrows(vs, hs, i, j, m, ix);
      } else {
        assert EntryOk(vs, hs, i, j, l, m[l]);
      }
    }
  }

  lemma EntryGrows(vs: seq<Edge>, hs: seq<Edge>, i: nat, j: nat, m: map<Point, Intersection>, ix: Intersection)
    requires i < |vs| && j < |hs| && Meet(vs[i], hs[j]) && Found(vs, hs, i, j, m)
    requires var k := KeyAt(vs[i], hs[j]);
             var was := if k in m then m[k] else Intersection(vs[i].x0, hs[j].y0, [], []);
             && ix.x == was.x && ix.y == was.y
             && (forall a :: a in ix.vEdges <==> a in was.vEdges || a == i)
             && (forall b :: b in ix.hEdges <==> b in was.hEdges || b == j)
    ensures EntryOk(vs, hs, i, j + 1, KeyAt(vs[i], hs[j]), ix)
  {
    var k := KeyAt(vs[i], hs[j]);
    assert k in m ==> EntryOk(vs, hs, i, j, k, m[k]);
    assert MeetAt(vs, hs, i, j, k) && Visited(i, j, i, j + 1);
    forall a: nat ensures a in ix.vEdges <==> exists b: nat :: Visited(a, b, i, j + 1) && MeetAt(vs, hs, a, b, k) {
      if b: nat :| Visited(a, b, i, j) && MeetAt(vs, hs, a, b, k) { assert Visited(a, b, i, j + 1); }
      if b: nat :| Visited(a, b, i, j + 1) && MeetAt(vs, hs, a, b, k) {
        assert a == i || Visited(a, b, i, j);
      }
    }
    forall b: nat ensures b in ix.hEdges <==> exists a: nat :: Visited(a, b, i, j + 1) && MeetAt(vs, hs, a, b, k) {
      if a: nat :| Visited(a, b, i, j) && MeetAt(vs, hs, a, b, k) { assert Visited(a, b, i, j + 1); }
      if a: nat :| Visited(a, b, i, j + 1) && MeetAt(vs, hs, a, b, k) {
        assert b == j || Visited(a, b, i, j);
      }
    }
  }

  /** The body of the double loop. */
  method VisitPair(vEdges: seq<Edge>, hEdges: seq<Edge>, i: nat, j: nat, m: map<Point, Intersection>)
    returns (result: map<Point, Intersection>)
    requires i < |vEdges| && j < |hEdges| && Found(vEdges, hEdges, i, j, m)
    ensures Found(vEdges, hEdges, i, j + 1, result)
  {
    var v, h := vEdges[i], hEdges[j];
    if !Meet(v, h) {
      SkipPair(vEdges, hEdges, i, j, m);
      return m;
    }
    var key := KeyAt(v, h);
    var ix := if key in m then m[key] else Intersection(v.x0, h.y0, [], []);
    var vList := AppendUnique(ix.vEdges, i);
    var hList := AppendUnique(ix.hEdges, j);
    ix := Intersection(ix.x, ix.y, vList, hList);
    MeetPair(vEdges, hEdges, i, j, m, ix);
    result := m[key := ix];
  }

  ghost predicate Meeting(vs: seq<Edge>, hs: seq<Edge>, k: Point) { exists i: nat, j: nat :: MeetAt(vs, hs, i, j, k) }

  ghost predicate RowMeets(vs: seq<Edge>, hs: seq<Edge>, i: nat, k: Point) { exists j: nat :: MeetAt(vs, hs, i, j, k) }

  ghost predicate ColumnMeets(vs: seq<Edge>, hs: seq<Edge>, j: nat, k: Point) { exists i: nat :: MeetAt(vs, hs, i, j, k) }

  /** The entry at k lists the vertical and the horizontal edges that meet there. */
  ghost predicate HoldsMeeting(vs: seq<Edge>, hs: seq<Edge>, k: Point, ix: Intersection) {
    && (forall i: nat {:trigger RowMeets(vs, hs, i, k)} {:trigger i in ix.vEdges} :: i in ix.vEdges <==> RowMeets(vs, hs, i, k))
    && (forall j: nat {:trigger ColumnMeets(vs, hs, j, k)} {:trigger j in ix.hEdges} :: j in ix.hEdges <==> ColumnMeets(vs, hs, j, k))
  }

  /** The keys are exactly the rounded meeting points of a vertical and a horizontal
      edge, and every entry lists exactly the edges that meet there. */
  ghost predicate AreIntersections(vs: seq<Edge>, hs: seq<Edge>, m: map<Point, Intersection>) {
    && (forall k {:trigger Meeting(vs, hs, k)} {:trigger k in m} :: k in m <==> Meeting(vs, hs, k))
    && forall k :: k in m ==> Round10(m[k].x) == k.0 && Round10(m[k].y) == k.1 && HoldsMeeting(vs, hs, k, m[k])
  }

  lemma NothingFound(vs: seq<Edge>, hs: seq<Edge>)
    ensures Found(vs, hs, 0, 0, map[])
  {
  }

  /** The inner loop: one vertical edge against every horizontal one. */
  method VisitRow(vEdges: seq<Edge>, hEdges: seq<Edge>, i: nat, m: map<Point, Intersection>)
    returns (result: map<Point, Intersection>)
    requires i < |vEdges| && Found(vEdges, hEdges, i, 0, m)
    ensures Found(vEdges, hEdges, i + 1, 0, result)
  {
    result := m;
    for j := 0 to |hEdges|
      invariant Found(vEdges, hEdges, i, j, result)
    {
      result := VisitPair(vEdges, hEdges, i, j, result);
    }
    NextRow(vEdges, hEdges, i, result);
  }

  method FindIntersections(edges: seq<Edge>) returns (result: map<Point, Intersection>)
    ensures AreIntersections(InDirection(edges, false), InDirection(edges, true), result)
    ensures AllStraight(edges) ==> forall k :: k in result <==> NearAt(edges, k)
  {
    var hEdges := Split(edges, true);
    var vEdges := Split(edges, false);
    result := map[];
    NothingFound(vEdges, hEdges);
    for i := 0 to |vEdges|
      invariant Found(vEdges, hEdges, i, 0, result)
    {
      result := VisitRow(vEdges, hEdges, i, result);
    }
    FoundAll(vEdges, hEdges, result);
    if AllStraight(edges) {
      forall k ensures k in result <==> NearAt(edges, k) {
        MeetingIsNear(edges, k);
        assert k in result <==> Meeting(vEdges, hEdges, k);
      }
    }
  }

  lemma FoundAll(vs: seq<Edge>, hs: seq<Edge>, m: map<Point, Intersection>)
    requires Found(vs, hs, |vs|, 0, m)
    ensures AreIntersections(vs, hs, m)
  {
    forall k, a: nat, b: nat | MeetAt(vs, hs, a, b, k) ensures Visited(a, b, |vs|, 0) {
    }
    forall k | k in m
      ensures Round10(m[k].x) == k.0 && Round10(m[k].y) == k.1
      ensures forall i: nat :: i in m[k].vEdges <==> exists j: nat :: MeetAt(vs, hs, i, j, k)
      ensures forall j: nat :: j in m[k].hEdges <==> exists i: nat :: MeetAt(vs, hs, i, j, k)
    {
      assert EntryOk(vs, hs, |vs|, 0, k, m[k]);
    }
  }

  // ----- Where edges meet, said without the comparisons of the code -----

  /** The point lies on the edge. */
  predicate OnEdge(e: Edge, p: Point) { e.x0 <= p.0 <= e.x1 && e.y0 <= p.1 <= e.y1 }

  predicate Within(p: Point, q: Point, d: real) { -d <= p.0 - q.0 <= d && -d <= p.1 - q.1 <= d }

  ghost predicate Near(e: Edge, f: Edge) {
    exists p, q :: OnEdge(e, p) && OnEdge(f, q) && Within(p, q, 3.0)
  }

  /** The comparisons of the code test exactly whether two edges come near each other. */
  lemma MeetIsNear(v: Edge, h: Edge)
    requires Straight(v) && !v.horizontal && Straight(h) && h.horizontal
    ensures Meet(v, h) <==> Near(v, h)
  {
    if Meet(v, h) {
      var y := if h.y0 < v.y0 then v.y0 else if h.y0 > v.y1 then v.y1 else h.y0;
      var x := if v.x0 < h.x0 then h.x0 else if v.x0 > h.x1 then h.x1 else v.x0;
      assert OnEdge(v, (v.x0, y)) && OnEdge(h, (x, h.y0)) && Within((v.x0, y), (x, h.y0), 3.0);
    }
    if Near(v, h) {
      var p, q :| OnEdge(v, p) && OnEdge(h, q) && Within(p, q, 3.0);
    }
  }

  /** A vertical and a horizontal edge come near each other at k. */
  ghost predicate NearPair(edges: seq<Edge>, v: Edge, h: Edge, k: Point) {
    && v in edges && !v.horizontal && h in edges && h.horizontal
    && Near(v, h) && k == (Round10(v.x0), Round10(h.y0))
  }

  ghost predicate NearAt(edges: seq<Edge>, k: Point) { exists v, h :: NearPair(edges, v, h, k) }

  lemma MeetingIsNear(edges: seq<Edge>, k: Point)
    requires AllStraight(edges)
    ensures Meeting(InDirection(edges, false), InDirection(edges, true), k) <==> NearAt(edges, k)
  {
    var vs, hs := InDirection(edges, false), InDirection(edges, true);
    InDirectionMembers(edges, false);
    InDirectionMembers(edges, true);
    if Meeting(vs, hs, k) {
      var i: nat, j: nat :| MeetAt(vs, hs, i, j, k);
      assert vs[i] in vs && hs[j] in hs;
      MeetIsNear(vs[i], hs[j]);
      assert NearPair(edges, vs[i], hs[j], k);
    }
    if NearAt(edges, k) {
      var v, h :| NearPair(edges, v, h, k);
      MeetIsNear(v, h);
      var i :| 0 <= i < |vs| && vs[i] == v;
      var j :| 0 <= j < |hs| && hs[j] == h;
      assert MeetAt(vs, hs, i, j, k);
    }
  }

  // ----- Cells -----

  ghost predicate WellKeyed(m: map<Point, Intersection>) {
    forall k :: k in m ==> Round10(m[k].x) == k.0 && Round10(m[k].y) == k.1
  }

  ghost function Columns(keys: set<Point>): set<real> { set k | k in keys :: k.0 }

  ghost function Rows(keys: set<Point>): set<real> { set k | k in keys :: k.1 }

  /** a and b are neighbours in S. */
  ghost predicate Adjacent(S: set<real>, a: real, b: real) {
    a in S && b in S && a < b && forall c :: c in S ==> c <= a || c >= b
  }

  /** An elementary rectangle: neighbouring coordinates, and all four corners present. */
  ghost predicate IsCell(keys: set<Point>, c: Cell) {
    && Adjacent(Columns(keys), c.x0, c.x1) && Adjacent(Rows(keys), c.y0, c.y1)
    && (c.x0, c.y0) in keys && (c.x1, c.y0) in keys && (c.x0, c.y1) in keys && (c.x1, c.y1) in keys
  }

  /** Row by row, left to right; in particular no cell twice. */
  ghost predicate ReadingOrder(cells: seq<Cell>) {
    forall i, j :: 0 <= i < j < |cells| ==>
      cells[i].y0 < cells[j].y0 || (cells[i].y0 == cells[j].y0 && cells[i].x0 < cells[j].x0)
  }

  lemma NoRepeatsAscendStrictly(xs: seq<real>)
    requires Ascending(xs) && forall x :: multiset(xs)[x] <= 1
    ensures StrictlyAscending(xs)
  {
    forall i, j | 0 <= i < j < |xs| ensures xs[i] < xs[j] {
      if xs[i] == xs[j] { RepeatedTwice(xs, i, j); }
    }
  }

  /** The keys of a float set, collected in any order and sorted. */
  method SortedKeys(s: set<real>) returns (xs: seq<real>)
    ensures StrictlyAscending(xs) && forall x :: x in xs <==> x in s
  {
    var collected: seq<real> := [];
    var left := s;
    while left != {}
      invariant left <= s
      invariant forall x :: x in collected <==> x in s - left
      invariant forall x :: multiset(collected)[x] <= 1
      decreases left
    {
      ghost var some := SomeMember(left);
      var x :| x in left;
      assert x !in collected && multiset(collected)[x] == 0;
      collected := collected + [x];
      left := left - {x};
    }
    xs := SortReals(collected);
    PermutesFacts(xs, collected);
    NoRepeatsAscendStrictly(xs);
  }

  lemma AdjacentInList(S: set<real>, xs: seq<real>, a: real, b: real)
    requires StrictlyAscending(xs) && forall x :: x in xs <==> x in S
    ensures Adjacent(S, a, b) <==> exists i :: 0 <= i < |xs| - 1 && xs[i] == a && xs[i + 1] == b
  {
    if Adjacent(S, a, b) {
      var i :| 0 <= i < |xs| && xs[i] == a;
      var j :| 0 <= j < |xs| && xs[j] == b;
      assert i < j;
      assert xs[i + 1] in S;
    }
    if i :| 0 <= i < |xs| - 1 && xs[i] == a && xs[i + 1] == b {
      forall c | c in S ensures c <= a || c >= b {
        var j :| 0 <= j < |xs| && xs[j] == c;
      }
    }
  }

  function CellAt(xs: seq<real>, ys: seq<real>, xi: nat, yi: nat): Cell
    requires xi + 1 < |xs| && yi + 1 < |ys|
  {
    Cell(xs[xi], ys[yi], xs[xi + 1], ys[yi + 1])
  }

  predicate CornersIn(keys: set<Point>, c: Cell) {
    (c.x0, c.y0) in keys && (c.x1, c.y0) in keys && (c.x0, c.y1) in keys && (c.x1, c.y1) in keys
  }

  predicate Earlier(a: nat, b: nat, xi: nat, yi: nat) { b < yi || (b == yi && a < xi) }

  /** Grid position (a, b) exists and holds cell c with all its corners. */
  predicate Holds(keys: set<Point>, xs: seq<real>, ys: seq<real>, a: nat, b: nat, c: Cell) {
    a + 1 < |xs| && b + 1 < |ys| && c == CellAt(xs, ys, a, b) && CornersIn(keys, c)
  }

  /** The cells listed after the grid positions before (xi, yi). */
  ghost predicate Listed(keys: set<Point>, xs: seq<real>, ys: seq<real>, xi: nat, yi: nat, cells: seq<Cell>) {
    && ReadingOrder(cells)
    && forall c :: c in cells <==> exists a: nat, b: nat :: Earlier(a, b, xi, yi) && Holds(keys, xs, ys, a, b, c)
  }

  lemma ListedBefore(keys: set<Point>, xs: seq<real>, ys: seq<real>, xi: nat, yi: nat, cells: seq<Cell>, i: nat)
    requires StrictlyAscending(xs) && StrictlyAscending(ys)
    requires xi + 1 < |xs| && yi + 1 < |ys| && Listed(keys, xs, ys, xi, yi, cells) && i < |cells|
    ensures var c := CellAt(xs, ys, xi, yi); cells[i].y0 < c.y0 || (cells[i].y0 == c.y0 && cells[i].x0 < c.x0)
  {
    assert cells[i] in cells;
    var a: nat, b: nat :| Earlier(a, b, xi, yi) && Holds(keys, xs, ys, a, b, cells[i]);
  }

  lemma ListOne(keys: set<Point>, xs: seq<real>, ys: seq<real>, xi: nat, yi: nat, cells: seq<Cell>, cells': seq<Cell>)
    requires StrictlyAscending(xs) && StrictlyAscending(ys)
    requires xi + 1 < |xs| && yi + 1 < |ys| && Listed(keys, xs, ys, xi, yi, cells)
    requires var c := CellAt(xs, ys, xi, yi); cells' == if CornersIn(keys, c) then cells + [c] else cells
    ensures Listed(keys, xs, ys, xi + 1, yi, cells')
  {
    var here := CellAt(xs, ys, xi, yi);
    forall i | 0 <= i < |cells| ensures cells[i].y0 < here.y0 || (cells[i].y0 == here.y0 && cells[i].x0 < here.x0) {
      ListedBefore(keys, xs, ys, xi, yi, cells, i);
    }
    forall c ensures c in cells' <==> exists a: nat, b: nat :: Earlier(a, b, xi + 1, yi) && Holds(keys, xs, ys, a, b, c) {
      if c in cells {
        var a: nat, b: nat :| Earlier(a, b, xi, yi) && Holds(keys, xs, ys, a, b, c);
        assert Earlier(a, b, xi + 1, yi);
      } else if c in cells' {
        assert Earlier(xi, yi, xi + 1, yi) && Holds(keys, xs, ys, xi, yi, c);
      }
      if a: nat, b: nat :| Earlier(a, b, xi + 1, yi) && Holds(keys, xs, ys, a, b, c) {
        assert Earlier(a, b, xi, yi) || (a == xi && b == yi);
      }
    }
  }

  lemma ListRow(keys: set<Point>, xs: seq<real>, ys: seq<real>, yi: nat, cells: seq<Cell>)
    requires Listed(keys, xs, ys, if xs == [] then 0 else |xs| - 1, yi, cells)
    ensures Listed(keys, xs, ys, 0, yi + 1, cells)
  {
    var end := if xs == [] then 0 else |xs| - 1;
    forall c, a: nat, b: nat | Holds(keys, xs, ys, a, b, c)
      ensures Earlier(a, b, end, yi) <==> Earlier(a, b, 0, yi + 1)
    {
    }
  }

  lemma ListedAll(keys: set<Point>, xs: seq<real>, ys: seq<real>, cells: seq<Cell>, c: Cell)
    requires StrictlyAscending(xs) && (forall x :: x in xs <==> x in Columns(keys))
    requires StrictlyAscending(ys) && (forall y :: y in ys <==> y in Rows(keys))
    requires Listed(keys, xs, ys, 0, if ys == [] then 0 else |ys| - 1, cells)
    ensures c in cells <==> IsCell(keys, c)
  {
    AdjacentInList(Columns(keys), xs, c.x0, c.x1);
    AdjacentInList(Rows(keys), ys, c.y0, c.y1);
    if IsCell(keys, c) {
      var a :| 0 <= a < |xs| - 1 && xs[a] == c.x0 && xs[a + 1] == c.x1;
      var b :| 0 <= b < |ys| - 1 && ys[b] == c.y0 && ys[b + 1] == c.y1;
      assert Earlier(a, b, 0, |ys| - 1) && Holds(keys, xs, ys, a, b, c);
    }
  }

  /** buildCells: exactly the elementary rectangles, in reading order. */
  method BuildCells(m: map<Point, Intersection>) returns (cells: seq<Cell>)
    requires WellKeyed(m)
    ensures ReadingOrder(cells)
    ensures forall c :: c in cells <==> IsCell(m.Keys, c)
  {
    var xSet := set k | k in m :: Round10(m[k].x);
    var ySet := set k | k in m :: Round10(m[k].y);
    assert xSet == Columns(m.Keys) && ySet == Rows(m.Keys);
    var xs := SortedKeys(xSet);
    var ys := SortedKeys(ySet);
    cells := [];
    for yi := 0 to if |ys| == 0 then 0 else |ys| - 1
      invariant Listed(m.Keys, xs, ys, 0, yi, cells)
    {
      for xi := 0 to if |xs| == 0 then 0 else |xs| - 1
        invariant Listed(m.Keys, xs, ys, xi, yi, cells)
      {
        ghost var before := cells;
        var c := CellAt(xs, ys, xi, yi);
        if CornersIn(m.Keys, c) {
          cells := cells + [c];
        }
        ListOne(m.Keys, xs, ys, xi, yi, before, cells);
      }
      ListRow(m.Keys, xs, ys, yi, cells);
    }
    forall c ensures c in cells <==> IsCell(m.Keys, c) {
      ListedAll(m.Keys, xs, ys, cells, c);
    }
  }

  // ----- What later stages rely on -----

  /** Cells have positive width and height. */
  lemma CellsArePositive(keys: set<Point>, c: Cell)
    requires IsCell(keys, c)
    ensures c.x0 < c.x1 && c.y0 < c.y1
  {
  }

  ghost predicate DisjointInteriors(c: Cell, d: Cell) {
    c.x1 <= d.x0 || d.x1 <= c.x0 || c.y1 <= d.y0 || d.y1 <= c.y0
  }

  /** Different cells do not overlap. */
  lemma CellsAreDisjoint(keys: set<Point>, c: Cell, d: Cell)
    requires IsCell(keys, c) && IsCell(keys, d) && c != d
    ensures DisjointInteriors(c, d)
  {
    AdjacentPairs(Columns(keys), c.x0, c.x1, d.x0, d.x1);
    AdjacentPairs(Rows(keys), c.y0, c.y1, d.y0, d.y1);
  }

  lemma AdjacentPairs(S: set<real>, a: real, b: real, c: real, d: real)
    requires Adjacent(S, a, b) && Adjacent(S, c, d)
    ensures (a == c && b == d) || b <= c || d <= a
  {
    assert c <= a || c >= b;
    assert a <= c || a >= d;
    assert d <= a || d >= b;
    assert b <= c || b >= d;
  }

  /** A vertical edge i and a horizontal edge j witness the corner k: they meet within
      the tolerance, and the corner is their position to within half a tenth. */
  ghost predicate Witnessed(vs: seq<Edge>, hs: seq<Edge>, k: Point) {
    exists i: nat, j: nat ::
      && MeetAt(vs, hs, i, j, k)
      && -0.05 <= vs[i].x0 - k.0 <= 0.05 && -0.05 <= hs[j].y0 - k.1 <= 0.05
  }

  lemma KeysAreWitnessed(vs: seq<Edge>, hs: seq<Edge>, m: map<Point, Intersection>, k: Point)
    requires AreIntersections(vs, hs, m) && k in m
    ensures Witnessed(vs, hs, k)
  {
    var i: nat, j: nat :| MeetAt(vs, hs, i, j, k);
    Round10Near(vs[i].x0);
    Round10Near(hs[j].y0);
  }

  /** All four corners of a cell are meeting points of real edges. */
  lemma CornersAreWitnessed(vs: seq<Edge>, hs: seq<Edge>, m: map<Point, Intersection>, c: Cell)
    requires AreIntersections(vs, hs, m) && IsCell(m.Keys, c)
    ensures Witnessed(vs, hs, (c.x0, c.y0)) && Witnessed(vs, hs, (c.x1, c.y0))
    ensures Witnessed(vs, hs, (c.x0, c.y1)) && Witnessed(vs, hs, (c.x1, c.y1))
  {
    KeysAreWitnessed(vs, hs, m, (c.x0, c.y0));
    KeysAreWitnessed(vs, hs, m, (c.x1, c.y0));
    KeysAreWitnessed(vs, hs, m, (c.x0, c.y1));
    KeysAreWitnessed(vs, hs, m, (c.x1, c.y1));
  }

  lemma {:induction false} InDirectionMembers(es: seq<Edge>, horizontal: bool)
    ensures forall e :: e in InDirection(es, horizontal) <==> e in es && e.horizontal == horizontal
  {
    if es != [] {
      InDirectionMembers(es[..|es| - 1], horizontal);
      assert es == es[..|es| - 1] + [es[|es| - 1]];
    }
  }

  /** On lines that are apart, two pairs of edges share a key only when they are on the
      same two lines: rounding to a tenth merges nothing. */
  lemma KeyInjective(edges: seq<Edge>, i: nat, j: nat, i': nat, j': nat, k: Point)
    requires LinesApart(edges, 3.0)
    requires MeetAt(InDirection(edges, false), InDirection(edges, true), i, j, k)
    requires MeetAt(InDirection(edges, false), InDirection(edges, true), i', j', k)
    ensures InDirection(edges, false)[i].x0 == InDirection(edges, false)[i'].x0
    ensures InDirection(edges, true)[j].y0 == InDirection(edges, true)[j'].y0
  {
    var vs, hs := InDirection(edges, false), InDirection(edges, true);
    InDirectionMembers(edges, false);
    InDirectionMembers(edges, true);
    assert vs[i] in vs && vs[i'] in vs && hs[j] in hs && hs[j'] in hs;
    RoundedApart(edges, vs[i], vs[i']);
    RoundedApart(edges, hs[j], hs[j']);
  }

  lemma RoundedApart(edges: seq<Edge>, e: Edge, f: Edge)
    requires LinesApart(edges, 3.0) && e in edges && f in edges && e.horizontal == f.horizontal
    ensures Across(e) == Across(f) || Round10(Across(e)) - Round10(Across(f)) > 2.9 || Round10(Across(f)) - Round10(Across(e)) > 2.9
  {
    if Across(e) - Across(f) > 3.0 { Round10KeepsApart(Across(f), Across(e)); }
    if Across(f) - Across(e) > 3.0 { Round10KeepsApart(Across(e), Across(f)); }
  }

  ghost predicate Apart(a: real, b: real) { a == b || a - b > 2.9 || b - a > 2.9 }

  /** The grid coordinates of snapped edges are equal or more than 2.9 apart. */
  lemma GridIsApart(edges: seq<Edge>, m: map<Point, Intersection>, k: Point, l: Point)
    requires LinesApart(edges, 3.0)
    requires AreIntersections(InDirection(edges, false), InDirection(edges, true), m)
    requires k in m && l in m
    ensures Apart(k.0, l.0) && Apart(k.1, l.1)
  {
    var vs, hs := InDirection(edges, false), InDirection(edges, true);
    var i: nat, j: nat :| MeetAt(vs, hs, i, j, k);
    var i': nat, j': nat :| MeetAt(vs, hs, i', j', l);
    InDirectionMembers(edges, false);
    InDirectionMembers(edges, true);
    assert vs[i] in vs && vs[i'] in vs && hs[j] in hs && hs[j'] in hs;
    RoundedApart(edges, vs[i], vs[i']);
    RoundedApart(edges, hs[j], hs[j']);
  }
}
