/** Where rules cross, said without the loops that look for it: two edges cross when they
    come within 3 of each other, and the crossing is at their positions rounded to a tenth. */
module Crossings {
  import opened Snapping
  import opened SnapEdges
  import opened MergeEdges
  import opened TableCells
  import opened Rounding

  /** A vertical and a horizontal edge of at least length 3 cross at k. */
  ghost predicate CrossAt(edges: seq<Edge>, v: Edge, h: Edge, k: Point) {
    && v in edges && !v.horizontal && v.y1 - v.y0 >= 3.0
    && h in edges && h.horizontal && h.x1 - h.x0 >= 3.0
    && Near(v, h) && k == (Round10(v.x0), Round10(h.y0))
  }

  ghost predicate IsCrossing(edges: seq<Edge>, k: Point) { exists v, h :: CrossAt(edges, v, h, k) }

  lemma SquareAtLeast(d: real)
    requires d >= 0.0
    ensures d * d >= 9.0 <==> d >= 3.0
  {
    if d >= 3.0 { assert d * d >= 3.0 * d; }
    if d < 3.0 { assert d * d <= 3.0 * d; }
  }

  lemma LongIffLength(e: Edge)
    requires Straight(e)
    ensures LongEnough(e) <==> if e.horizontal then e.x1 - e.x0 >= 3.0 else e.y1 - e.y0 >= 3.0
  {
    SquareAtLeast(if e.horizontal then e.x1 - e.x0 else e.y1 - e.y0);
  }

  /** The keys found among the edges that are not dropped are the crossings. */
  lemma KeysAreCrossings(edges: seq<Edge>, k: Point)
    requires AllStraight(edges)
    ensures NearAt(LongEdges(edges), k) <==> IsCrossing(edges, k)
  {
    if NearAt(LongEdges(edges), k) {
      var v, h :| NearPair(LongEdges(edges), v, h, k);
      LongMember(edges, v);
      LongMember(edges, h);
      assert CrossAt(edges, v, h, k);
    }
    if IsCrossing(edges, k) {
      var v, h :| CrossAt(edges, v, h, k);
      LongMember(edges, v);
      LongMember(edges, h);
      assert NearPair(LongEdges(edges), v, h, k);
    }
  }

  lemma LongMember(edges: seq<Edge>, e: Edge)
    requires AllStraight(edges)
    ensures e in LongEdges(edges) <==> e in edges && if e.horizontal then e.x1 - e.x0 >= 3.0 else e.y1 - e.y0 >= 3.0
    ensures e in edges ==> Straight(e)
  {
    LongEdgesMembers(edges);
    if e in edges {
      var i :| 0 <= i < |edges| && edges[i] == e;
      LongIffLength(e);
    }
  }

  /** Some point of a vertical and some point of a horizontal edge are within 3.05 of k. */
  ghost predicate OnRules(edges: seq<Edge>, k: Point) {
    && (exists v, p :: v in edges && !v.horizontal && OnEdge(v, p) && Within(p, k, 3.05))
    && (exists h, q :: h in edges && h.horizontal && OnEdge(h, q) && Within(q, k, 3.05))
  }

  /** Crossings lie on the rules, up to the tolerance and half a tenth. */
  lemma CrossingOnRules(edges: seq<Edge>, k: Point)
    requires AllStraight(edges) && IsCrossing(edges, k)
    ensures OnRules(edges, k)
  {
    var v, h :| CrossAt(edges, v, h, k);
    LongMember(edges, v);
    LongMember(edges, h);
    var p, q :| OnEdge(v, p) && OnEdge(h, q) && Within(p, q, 3.0);
    Round10Near(v.x0);
    Round10Near(h.y0);
    assert Within(p, k, 3.05) && Within(q, k, 3.05);
  }
}
