/** mergeEdges (internal/pdftomd/tables.go): snapEdges, then joinEdges over a map of
    lines that Go visits in any order. */
module MergeEdges {
  import opened Sorting
  import opened Snapping
  import opened SnapEdges
  import opened Joining
  import opened Rounding

  const JOIN_TOLERANCE: real := 3.0

  // ----- Lines -----

  datatype LineKey = LineKey(horizontal: bool, pos: real)

  function Across(e: Edge): real { Position(e.horizontal, e) }

  function KeyOf(e: Edge): LineKey { LineKey(e.horizontal, Round100(Across(e))) }

  function Span(e: Edge): Interval {
    if e.horizontal then Interval(e.x0, e.x1) else Interval(e.y0, e.y1)
  }

  function StartOf(): Edge -> real { e => Span(e).lo }

  function Spans(es: seq<Edge>): (r: seq<Interval>)
    ensures |r| == |es| && forall i :: 0 <= i < |es| ==> r[i] == Span(es[i])
  {
    seq(|es|, i requires 0 <= i < |es| => Span(es[i]))
  }

  function OnLine(es: seq<Edge>, k: LineKey): seq<Edge> {
    if es == [] then []
    else
      var last := es[|es| - 1];
      OnLine(es[..|es| - 1], k) + if KeyOf(last) == k then [last] else []
  }

  ghost predicate AllStraight(es: seq<Edge>) { forall i :: 0 <= i < |es| ==> Straight(es[i]) }

  /** Parallel edges lie on the same line or more than `gap` apart. */
  ghost predicate LinesApart(es: seq<Edge>, gap: real) {
    forall e, f :: e in es && f in es && e.horizontal == f.horizontal ==>
      Across(e) == Across(f) || Across(e) - Across(f) > gap || Across(f) - Across(e) > gap
  }

  lemma {:induction false} OnLineConcat(a: seq<Edge>, b: seq<Edge>, k: LineKey)
    ensures OnLine(a + b, k) == OnLine(a, k) + OnLine(b, k)
    decreases |b|
  {
    if b == [] {
      assert a + b == a;
    } else {
      assert (a + b)[..|a + b| - 1] == a + b[..|b| - 1];
      OnLineConcat(a, b[..|b| - 1], k);
    }
  }

  lemma {:induction false} OnLineMembers(es: seq<Edge>, k: LineKey)
    ensures forall e :: e in OnLine(es, k) <==> e in es && KeyOf(e) == k
    ensures multiset(OnLine(es, k)) <= multiset(es)
    ensures forall e :: KeyOf(e) == k ==> multiset(OnLine(es, k))[e] == multiset(es)[e]
  {
    if es != [] {
      var init, last := es[..|es| - 1], es[|es| - 1];
      OnLineMembers(init, k);
      assert es == init + [last];
      assert multiset(es) == multiset(init) + multiset{last};
      assert multiset(OnLine(es, k)) == multiset(OnLine(init, k)) + if KeyOf(last) == k then multiset{last} else multiset{};
      forall e ensures e in OnLine(es, k) <==> e in es && KeyOf(e) == k {
        assert e in es <==> e in init || e == last;
      }
    }
  }

  lemma {:induction false} OnLineAll(es: seq<Edge>, k: LineKey)
    requires forall i :: 0 <= i < |es| ==> KeyOf(es[i]) == k
    ensures OnLine(es, k) == es
  {
    if es != [] { OnLineAll(es[..|es| - 1], k); }
  }

  lemma {:induction false} OnLineNone(es: seq<Edge>, k: LineKey)
    requires forall i :: 0 <= i < |es| ==> KeyOf(es[i]) != k
    ensures OnLine(es, k) == []
  {
    if es != [] { OnLineNone(es[..|es| - 1], k); }
  }

  // ----- joinEdges -----

  /** `spans` is what the segments of line k of `es` join to, in whatever order a sort
      by start leaves them. */
  ghost predicate IsJoinOf(es: seq<Edge>, k: LineKey, spans: seq<Interval>) {
    exists sorted: seq<Edge> :: IsSortedLine(es, k, sorted) && spans == Join(Spans(sorted), JOIN_TOLERANCE)
  }

  ghost predicate IsSortedLine(es: seq<Edge>, k: LineKey, sorted: seq<Edge>) {
    AscendingBy(sorted, StartOf()) && Permutes(sorted, OnLine(es, k))
  }

  lemma SortedLineFacts(es: seq<Edge>, k: LineKey, sorted: seq<Edge>)
    requires AllStraight(es) && IsSortedLine(es, k, sorted)
    ensures ByStart(Spans(sorted)) && AllProper(Spans(sorted))
    ensures forall e :: e in sorted <==> e in OnLine(es, k)
  {
    PermutesFacts(sorted, OnLine(es, k));
    OnLineMembers(es, k);
    forall i, j | 0 <= i < j < |sorted| ensures Spans(sorted)[i].lo <= Spans(sorted)[j].lo {
      assert StartOf()(sorted[i]) <= StartOf()(sorted[j]);
    }
    forall i | 0 <= i < |sorted| ensures Proper(Spans(sorted)[i]) {
      assert sorted[i] in es;
    }
  }

  lemma SameSpans(s: seq<Edge>, t: seq<Edge>)
    requires forall e :: e in s ==> e in t
    ensures Elements(Spans(s)) <= Elements(Spans(t))
  {
    forall x | x in Elements(Spans(s)) ensures x in Elements(Spans(t)) {
      var i :| 0 <= i < |s| && Spans(s)[i] == x;
      assert s[i] in t;
      var j :| 0 <= j < |t| && t[j] == s[i];
      assert Spans(t)[j] == x;
    }
  }

  /** The joined spans of a line are determined by its segments. */
  lemma JoinOfUnique(es: seq<Edge>, k: LineKey, a: seq<Interval>, b: seq<Interval>)
    requires AllStraight(es) && IsJoinOf(es, k, a) && IsJoinOf(es, k, b)
    ensures a == b
  {
    var s :| IsSortedLine(es, k, s) && a == Join(Spans(s), JOIN_TOLERANCE);
    var t :| IsSortedLine(es, k, t) && b == Join(Spans(t), JOIN_TOLERANCE);
    SortedLineFacts(es, k, s);
    SortedLineFacts(es, k, t);
    SameSpans(s, t);
    SameSpans(t, s);
    JoinOrderIrrelevant(Spans(s), Spans(t), JOIN_TOLERANCE);
  }

  function WithEnd(e: Edge, hi: real): Edge {
    if e.horizontal then e.(x1 := hi) else e.(y1 := hi)
  }

  /** An edge that may appear on the joined line of `group`. */
  ghost predicate OfLine(e: Edge, group: seq<Edge>) {
    Straight(e) && exists f :: f in group && f.horizontal == e.horizontal && Across(f) == Across(e)
  }

  ghost predicate AllOfLine(es: seq<Edge>, group: seq<Edge>) {
    forall i :: 0 <= i < |es| ==> OfLine(es[i], group)
  }

  lemma LineMembers(line: seq<Edge>, group: seq<Edge>)
    requires AllStraight(group) && Permutes(line, group)
    ensures |line| == |group| && AllOfLine(line, group)
  {
    PermutesFacts(line, group);
    forall i | 0 <= i < |line| ensures OfLine(line[i], group) {
      assert line[i] in group;
    }
  }

  lemma LongerOfLine(e: Edge, hi: real, group: seq<Edge>)
    requires OfLine(e, group) && hi > Span(e).hi
    ensures OfLine(WithEnd(e, hi), group)
  {
    var f :| f in group && f.horizontal == e.horizontal && Across(f) == Across(e);
    assert f.horizontal == WithEnd(e, hi).horizontal && Across(f) == Across(WithEnd(e, hi));
  }

  lemma JoinedStart(line: seq<Edge>)
    requires line != []
    ensures Joined([line[0]], line, 1)
  {
    assert [line[0]][..0] == [];
    assert Spans(line)[1..] == Spans(line[1..]);
  }

  /** The body of the group loop: one line's segments in, the joined edges out. */
  method JoinLine(group: seq<Edge>) returns (merged: seq<Edge>, ghost sorted: seq<Edge>)
    requires group != [] && AllStraight(group)
    ensures AscendingBy(sorted, StartOf()) && Permutes(sorted, group)
    ensures Spans(merged) == Join(Spans(sorted), JOIN_TOLERANCE)
    ensures AllOfLine(merged, group)
  {
    var line := SortBy(group, StartOf());
    LineMembers(line, group);
    sorted := line;
    merged := [line[0]];
    JoinedStart(line);
    for i := 1 to |line|
      invariant merged != [] && AllOfLine(merged, group)
      invariant Joined(merged, line, i)
    {
      var e := line[i];
      var last := merged[|merged| - 1];
      if Span(e).lo <= Span(last).hi + JOIN_TOLERANCE {
        ghost var before := merged;
        if Span(e).hi > Span(last).hi {
          LongerOfLine(last, Span(e).hi, group);
          merged := merged[|merged| - 1 := WithEnd(last, Span(e).hi)];
        }
        JoinedExtends(before, line, i, merged);
      } else {
        JoinedSplits(merged, line, i);
        merged := merged + [e];
      }
    }
    JoinedDone(merged, line);
  }

  /** After i segments the merged edges, the last of them still open, lead to the join. */
  ghost predicate Joined(merged: seq<Edge>, line: seq<Edge>, i: nat) {
    && merged != [] && 0 < i <= |line|
    && Join(Spans(line), JOIN_TOLERANCE) ==
       Spans(merged[..|merged| - 1]) + JoinFrom(Span(merged[|merged| - 1]), Spans(line[i..]), JOIN_TOLERANCE)
  }

  lemma SpansTail(line: seq<Edge>, i: nat)
    requires i < |line|
    ensures Spans(line[i..]) == [Span(line[i])] + Spans(line[i + 1..])
    ensures Spans(line[i..])[1..] == Spans(line[i + 1..])
  {
  }

  lemma JoinedExtends(merged: seq<Edge>, line: seq<Edge>, i: nat, merged': seq<Edge>)
    requires Joined(merged, line, i) && i < |line|
    requires var last := merged[|merged| - 1]; var e := line[i];
             && Span(e).lo <= Span(last).hi + JOIN_TOLERANCE
             && merged' == if Span(e).hi > Span(last).hi then merged[|merged| - 1 := WithEnd(last, Span(e).hi)] else merged
    ensures Joined(merged', line, i + 1)
  {
    SpansTail(line, i);
    assert merged'[..|merged'| - 1] == merged[..|merged| - 1];
    assert Span(merged'[|merged'| - 1]) == Hull(Span(merged[|merged| - 1]), Span(line[i]));
  }

  lemma JoinedSplits(merged: seq<Edge>, line: seq<Edge>, i: nat)
    requires Joined(merged, line, i) && i < |line|
    requires Span(line[i]).lo > Span(merged[|merged| - 1]).hi + JOIN_TOLERANCE
    ensures Joined(merged + [line[i]], line, i + 1)
  {
    SpansTail(line, i);
    var merged' := merged + [line[i]];
    assert merged'[..|merged'| - 1] == merged;
    assert Spans(merged) == Spans(merged[..|merged| - 1]) + [Span(merged[|merged| - 1])];
  }

  lemma JoinedDone(merged: seq<Edge>, line: seq<Edge>)
    requires Joined(merged, line, |line|)
    ensures Spans(merged) == Join(Spans(line), JOIN_TOLERANCE)
  {
    assert Spans(line[|line|..]) == [];
    assert Spans(merged) == Spans(merged[..|merged| - 1]) + [Span(merged[|merged| - 1])];
  }

  /** e is straight and lies on the line of some edge of `es`. */
  ghost predicate OnLineOf(e: Edge, es: seq<Edge>) {
    Straight(e) && exists f :: f in es && KeyOf(f) == KeyOf(e) && Across(f) == Across(e)
  }

  ghost predicate AllOnLinesOf(out: seq<Edge>, es: seq<Edge>) {
    forall i :: 0 <= i < |out| ==> OnLineOf(out[i], es)
  }

  /** Lines of `es` whose keys are in `done` are joined in `out`; nothing else is there. */
  ghost predicate LinesJoined(es: seq<Edge>, done: set<LineKey>, out: seq<Edge>) {
    && (forall k :: k in done ==> IsJoinOf(es, k, Spans(OnLine(out, k))))
    && (forall i :: 0 <= i < |out| ==> KeyOf(out[i]) in done)
  }

  method GroupByLine(edges: seq<Edge>) returns (groups: map<LineKey, seq<Edge>>)
    ensures forall k :: k in groups <==> OnLine(edges, k) != []
    ensures forall k :: k in groups ==> groups[k] == OnLine(edges, k)
  {
    groups := map[];
    for i := 0 to |edges|
      invariant forall k :: k in groups <==> OnLine(edges[..i], k) != []
      invariant forall k :: k in groups ==> groups[k] == OnLine(edges[..i], k)
    {
      var e := edges[i];
      var k := KeyOf(e);
      assert edges[..i + 1][..i] == edges[..i];
      groups := groups[k := (if k in groups then groups[k] else []) + [e]];
    }
    assert edges[..|edges|] == edges;
  }

  /** joinEdges: every line of the result is the join of that line of the input, at the
      position of one of its edges, whatever order the lines are visited in. */
  method JoinEdges(edges: seq<Edge>) returns (result: seq<Edge>)
    requires AllStraight(edges)
    ensures forall k :: IsJoinOf(edges, k, Spans(OnLine(result, k)))
    ensures AllOnLinesOf(result, edges)
  {
    var groups := GroupByLine(edges);
    result := [];
    var left := groups.Keys;
    while left != {}
      invariant left <= groups.Keys
      invariant LinesJoined(edges, groups.Keys - left, result)
      invariant AllOnLinesOf(result, edges)
      decreases left
    {
      var k :| k in left;
      ghost var done := groups.Keys - left;
      result := AppendLine(edges, groups[k], k, result, done);
      left := left - {k};
      assert groups.Keys - left == done + {k};
    }
    assert groups.Keys - left == groups.Keys;
    AllLinesJoined(edges, groups.Keys, result);
  }

  method AppendLine(edges: seq<Edge>, group: seq<Edge>, k: LineKey, result: seq<Edge>, ghost done: set<LineKey>)
    returns (result': seq<Edge>)
    requires AllStraight(edges) && group == OnLine(edges, k) && group != [] && k !in done
    requires LinesJoined(edges, done, result) && AllOnLinesOf(result, edges)
    ensures LinesJoined(edges, done + {k}, result') && AllOnLinesOf(result', edges)
  {
    StraightGroup(edges, k);
    var merged, sorted := JoinLine(group);
    OfLineKeys(edges, k, merged);
    AddLine(edges, done, result, k, merged, sorted);
    result' := result + merged;
  }

  lemma AllLinesJoined(es: seq<Edge>, keys: set<LineKey>, out: seq<Edge>)
    requires LinesJoined(es, keys, out) && AllOnLinesOf(out, es)
    requires forall k :: k in keys <==> OnLine(es, k) != []
    ensures forall k :: IsJoinOf(es, k, Spans(OnLine(out, k)))
  {
    forall k ensures IsJoinOf(es, k, Spans(OnLine(out, k))) {
      if k !in keys { EmptyLine(es, k, out); }
    }
  }

  lemma StraightGroup(es: seq<Edge>, k: LineKey)
    requires AllStraight(es)
    ensures AllStraight(OnLine(es, k))
  {
    OnLineMembers(es, k);
    forall i | 0 <= i < |OnLine(es, k)| ensures Straight(OnLine(es, k)[i]) {
      assert OnLine(es, k)[i] in es;
    }
  }

  lemma OfLineKeys(es: seq<Edge>, k: LineKey, merged: seq<Edge>)
    requires AllOfLine(merged, OnLine(es, k))
    ensures AllOnLinesOf(merged, es)
    ensures forall i :: 0 <= i < |merged| ==> KeyOf(merged[i]) == k
  {
    OnLineMembers(es, k);
    forall i | 0 <= i < |merged| ensures KeyOf(merged[i]) == k && OnLineOf(merged[i], es) {
      var e := merged[i];
      assert OfLine(e, OnLine(es, k));
      var f :| f in OnLine(es, k) && f.horizontal == e.horizontal && Across(f) == Across(e);
      assert f in es && KeyOf(f) == k;
    }
  }

  lemma AddLine(es: seq<Edge>, done: set<LineKey>, out: seq<Edge>, k: LineKey, merged: seq<Edge>, sorted: seq<Edge>)
    requires LinesJoined(es, done, out) && k !in done
    requires IsSortedLine(es, k, sorted) && Spans(merged) == Join(Spans(sorted), JOIN_TOLERANCE)
    requires forall i :: 0 <= i < |merged| ==> KeyOf(merged[i]) == k
    ensures LinesJoined(es, done + {k}, out + merged)
  {
    forall j | j in done + {k} ensures IsJoinOf(es, j, Spans(OnLine(out + merged, j))) {
      OnLineConcat(out, merged, j);
      if j == k {
        OnLineNone(out, k);
        OnLineAll(merged, k);
        assert OnLine(out + merged, k) == merged;
      } else {
        OnLineNone(merged, j);
        assert OnLine(out + merged, j) == OnLine(out, j);
      }
    }
  }

  lemma EmptyLine(es: seq<Edge>, k: LineKey, out: seq<Edge>)
    requires OnLine(es, k) == [] && AllOnLinesOf(out, es)
    ensures IsJoinOf(es, k, Spans(OnLine(out, k)))
  {
    OnLineMembers(es, k);
    forall i | 0 <= i < |out| ensures KeyOf(out[i]) != k {
      assert OnLineOf(out[i], es);
    }
    OnLineNone(out, k);
    var none: seq<Edge> := [];
    assert IsSortedLine(es, k, none) && Spans(OnLine(out, k)) == Join(Spans(none), JOIN_TOLERANCE);
  }

  // ----- snapEdges -----

  function InDirection(es: seq<Edge>, horizontal: bool): seq<Edge> {
    if es == [] then []
    else
      var last := es[|es| - 1];
      InDirection(es[..|es| - 1], horizontal) + if last.horizontal == horizontal then [last] else []
  }

  lemma {:induction false} InDirectionFacts(es: seq<Edge>, horizontal: bool)
    requires AllStraight(es)
    ensures AllStraight(InDirection(es, horizontal))
    ensures forall i :: 0 <= i < |InDirection(es, horizontal)| ==> InDirection(es, horizontal)[i].horizontal == horizontal
  {
    if es != [] { InDirectionFacts(es[..|es| - 1], horizontal); }
  }

  ghost predicate IsSnapOf(es: seq<Edge>, horizontal: bool, out: seq<Edge>) {
    exists sorted: seq<Edge> ::
      && AscendingBy(sorted, PositionOf(horizontal)) && Permutes(sorted, InDirection(es, horizontal))
      && Snapped(horizontal, SNAP_TOLERANCE, sorted, out)
  }

  lemma PositionsAscend(sorted: seq<Edge>, horizontal: bool)
    requires AscendingBy(sorted, PositionOf(horizontal))
    ensures Ascending(Positions(horizontal, sorted))
  {
    forall i, j | 0 <= i < j < |sorted| ensures Position(horizontal, sorted[i]) <= Position(horizontal, sorted[j]) {
      assert PositionOf(horizontal)(sorted[i]) <= PositionOf(horizontal)(sorted[j]);
    }
  }

  lemma MovedEdges(sorted: seq<Edge>, horizontal: bool, out: seq<Edge>)
    requires AllStraight(sorted) && forall i :: 0 <= i < |sorted| ==> sorted[i].horizontal == horizontal
    requires Snapped(horizontal, SNAP_TOLERANCE, sorted, out)
    ensures AllStraight(out)
    ensures forall i :: 0 <= i < |out| ==> out[i].horizontal == horizontal
    ensures forall i :: 0 <= i < |out| ==> Across(out[i]) == Snap(Positions(horizontal, sorted), SNAP_TOLERANCE)[i]
  {
  }

  lemma ApartByTargets(out: seq<Edge>, targets: seq<real>, gap: real)
    requires |targets| == |out| && Separated(targets, gap)
    requires forall i :: 0 <= i < |out| ==> Across(out[i]) == targets[i]
    ensures LinesApart(out, gap)
  {
    forall e, f | e in out && f in out && e.horizontal == f.horizontal
      ensures Across(e) == Across(f) || Across(e) - Across(f) > gap || Across(f) - Across(e) > gap
    {
      var i :| 0 <= i < |out| && out[i] == e;
      var j :| 0 <= j < |out| && out[j] == f;
      assert targets[i] == Across(e) && targets[j] == Across(f);
    }
  }

  /** Snapped edges keep their direction and stay straight; their lines are apart. */
  lemma SnapOfFacts(es: seq<Edge>, horizontal: bool, out: seq<Edge>)
    requires AllStraight(es) && IsSnapOf(es, horizontal, out)
    ensures AllStraight(out) && LinesApart(out, SNAP_TOLERANCE)
    ensures forall i :: 0 <= i < |out| ==> out[i].horizontal == horizontal
  {
    var sorted: seq<Edge> :| && AscendingBy(sorted, PositionOf(horizontal)) && Permutes(sorted, InDirection(es, horizontal))
                             && Snapped(horizontal, SNAP_TOLERANCE, sorted, out);
    InDirectionFacts(es, horizontal);
    PermutesFacts(sorted, InDirection(es, horizontal));
    forall i | 0 <= i < |sorted| ensures Straight(sorted[i]) && sorted[i].horizontal == horizontal {
      assert sorted[i] in InDirection(es, horizontal);
    }
    MovedEdges(sorted, horizontal, out);
    PositionsAscend(sorted, horizontal);
    SnapSeparates(Positions(horizontal, sorted), SNAP_TOLERANCE);
    ApartByTargets(out, Snap(Positions(horizontal, sorted), SNAP_TOLERANCE), SNAP_TOLERANCE);
  }

  method Split(edges: seq<Edge>, horizontal: bool) returns (part: seq<Edge>)
    ensures part == InDirection(edges, horizontal)
  {
    part := [];
    for i := 0 to |edges|
      invariant part == InDirection(edges[..i], horizontal)
    {
      assert edges[..i + 1][..i] == edges[..i];
      if edges[i].horizontal == horizontal {
        part := part + [edges[i]];
      }
    }
    assert edges[..|edges|] == edges;
  }

  method SnapDirection(edges: seq<Edge>, horizontal: bool) returns (out: seq<Edge>)
    ensures IsSnapOf(edges, horizontal, out)
  {
    var part := Split(edges, horizontal);
    var a := new Edge[|part|](i requires 0 <= i < |part| => part[i]);
    assert a[..] == part;
    ghost var sorted := SnapByAttr(a, SNAP_TOLERANCE, horizontal);
    out := a[..];
  }

  /** snapEdges: the horizontal edges, then the vertical ones, each snapped. */
  ghost predicate IsSnapped(edges: seq<Edge>, snapped: seq<Edge>) {
    exists hs, vs :: snapped == hs + vs && IsSnapOf(edges, true, hs) && IsSnapOf(edges, false, vs)
  }

  /** mergeEdges: the lines of the result are more than the snap tolerance apart. */
  method MergeAll(edges: seq<Edge>) returns (merged: seq<Edge>, ghost snapped: seq<Edge>)
    requires AllStraight(edges)
    ensures IsSnapped(edges, snapped)
    ensures AllStraight(snapped) && LinesApart(snapped, SNAP_TOLERANCE)
    ensures IsJoinEdges(snapped, merged)
    ensures LinesApart(merged, SNAP_TOLERANCE)
  {
    var hs := SnapDirection(edges, true);
    var vs := SnapDirection(edges, false);
    SnapOfFacts(edges, true, hs);
    SnapOfFacts(edges, false, vs);
    snapped := hs + vs;
    merged := JoinEdges(hs + vs);
    JoinKeepsLinesApart(hs + vs, merged, SNAP_TOLERANCE);
  }

  // ----- mergeEdges as a whole -----

  lemma FarLinesHaveDistinctKeys(es: seq<Edge>, e: Edge, f: Edge)
    requires LinesApart(es, 3.0) && e in es && f in es && KeyOf(e) == KeyOf(f)
    ensures Across(e) == Across(f)
  {
    if Across(e) - Across(f) > 3.0 { Round100KeepsApart(Across(f), Across(e)); }
    if Across(f) - Across(e) > 3.0 { Round100KeepsApart(Across(e), Across(f)); }
  }

  /** Joining neither moves a line nor adds one. */
  lemma JoinKeepsLinesApart(es: seq<Edge>, out: seq<Edge>, gap: real)
    requires LinesApart(es, gap) && AllOnLinesOf(out, es)
    ensures LinesApart(out, gap)
  {
    forall e, f | e in out && f in out && e.horizontal == f.horizontal
      ensures Across(e) == Across(f) || Across(e) - Across(f) > gap || Across(f) - Across(e) > gap
    {
      var i :| 0 <= i < |out| && out[i] == e;
      var j :| 0 <= j < |out| && out[j] == f;
      assert OnLineOf(out[i], es) && OnLineOf(out[j], es);
      var e0 :| e0 in es && KeyOf(e0) == KeyOf(e) && Across(e0) == Across(e);
      var f0 :| f0 in es && KeyOf(f0) == KeyOf(f) && Across(f0) == Across(f);
    }
  }

  ghost predicate IsJoinEdges(es: seq<Edge>, out: seq<Edge>) {
    AllOnLinesOf(out, es) && forall k :: IsJoinOf(es, k, Spans(OnLine(out, k)))
  }

  lemma SameLineSameEdge(es: seq<Edge>, e: Edge, f: Edge)
    requires LinesApart(es, 3.0) && OnLineOf(e, es) && OnLineOf(f, es)
    requires KeyOf(e) == KeyOf(f) && Span(e) == Span(f)
    ensures e == f
  {
    var e0 :| e0 in es && KeyOf(e0) == KeyOf(e) && Across(e0) == Across(e);
    var f0 :| f0 in es && KeyOf(f0) == KeyOf(f) && Across(f0) == Across(f);
    FarLinesHaveDistinctKeys(es, e0, f0);
  }

  /** On snapped lines the result, as a multiset of edges, does not depend on the order
      in which the map of lines is visited, nor on how a sort breaks ties. */
  lemma JoinEdgesOrderIrrelevant(es: seq<Edge>, a: seq<Edge>, b: seq<Edge>)
    requires AllStraight(es) && LinesApart(es, 3.0)
    requires IsJoinEdges(es, a) && IsJoinEdges(es, b)
    ensures multiset(a) == multiset(b)
  {
    forall e: Edge ensures multiset(a)[e] == multiset(b)[e] {
      var k := KeyOf(e);
      SameLine(es, a, b, k);
      OnLineMembers(a, k);
      OnLineMembers(b, k);
    }
  }

  lemma SameLine(es: seq<Edge>, a: seq<Edge>, b: seq<Edge>, k: LineKey)
    requires AllStraight(es) && LinesApart(es, 3.0)
    requires IsJoinEdges(es, a) && IsJoinEdges(es, b)
    ensures OnLine(a, k) == OnLine(b, k)
  {
    var la, lb := OnLine(a, k), OnLine(b, k);
    JoinOfUnique(es, k, Spans(la), Spans(lb));
    OnLineMembers(a, k);
    OnLineMembers(b, k);
    forall i | 0 <= i < |la| ensures la[i] == lb[i] {
      assert Spans(la)[i] == Spans(lb)[i];
      assert la[i] in a && lb[i] in b;
      SameLineSameEdge(es, la[i], lb[i]);
    }
  }

  /** What joinEdges returned is its own join. */
  lemma JoinedStays(es: seq<Edge>, a: seq<Edge>)
    requires AllStraight(es) && IsJoinEdges(es, a)
    ensures AllStraight(a) && IsJoinEdges(a, a)
  {
    forall i | 0 <= i < |a| ensures Straight(a[i]) && OnLineOf(a[i], a) {
      assert OnLineOf(a[i], es);
    }
    forall k ensures IsJoinOf(a, k, Spans(OnLine(a, k))) {
      JoinedLineStays(es, a, k);
    }
  }

  lemma JoinedLineStays(es: seq<Edge>, a: seq<Edge>, k: LineKey)
    requires AllStraight(es) && IsJoinOf(es, k, Spans(OnLine(a, k)))
    ensures IsJoinOf(a, k, Spans(OnLine(a, k)))
  {
    var line := OnLine(a, k);
    var sorted :| IsSortedLine(es, k, sorted) && Spans(line) == Join(Spans(sorted), JOIN_TOLERANCE);
    SortedLineFacts(es, k, sorted);
    JoinSpaced(Spans(sorted), JOIN_TOLERANCE);
    JoinIdempotent(Spans(sorted), JOIN_TOLERANCE);
    forall i, j | 0 <= i < j < |line| ensures StartOf()(line[i]) <= StartOf()(line[j]) {
      assert Spans(line)[i].hi + JOIN_TOLERANCE < Spans(line)[j].lo && Proper(Spans(line)[i]);
    }
    assert IsSortedLine(a, k, line);
  }

  /** Joining the edges again gives the same edges: on snapped lines joinEdges is
      idempotent, whatever order either call visits its lines in. */
  lemma JoinEdgesIdempotent(es: seq<Edge>, a: seq<Edge>, b: seq<Edge>)
    requires AllStraight(es) && LinesApart(es, 3.0)
    requires IsJoinEdges(es, a) && IsJoinEdges(a, b)
    ensures multiset(a) == multiset(b)
  {
    JoinedStays(es, a);
    JoinKeepsLinesApart(es, a, 3.0);
    JoinEdgesOrderIrrelevant(a, a, b);
  }

  // ----- The merged edges, said without keys and loops -----

  /** The spans of the edges of a direction at a position. */
  ghost function SpansAt(es: seq<Edge>, horizontal: bool, pos: real): set<Interval> {
    set f | f in es && f.horizontal == horizontal && Across(f) == pos :: Span(f)
  }

  lemma OnOneLine(es: seq<Edge>, k: LineKey, f: Edge, sorted: seq<Edge>)
    requires LinesApart(es, 3.0) && f in es && KeyOf(f) == k && IsSortedLine(es, k, sorted)
    ensures Elements(Spans(sorted)) == SpansAt(es, f.horizontal, Across(f))
  {
    PermutesFacts(sorted, OnLine(es, k));
    OnLineMembers(es, k);
    forall x | x in Elements(Spans(sorted)) ensures x in SpansAt(es, f.horizontal, Across(f)) {
      var i :| 0 <= i < |sorted| && Spans(sorted)[i] == x;
      assert sorted[i] in sorted;
      FarLinesHaveDistinctKeys(es, sorted[i], f);
    }
    forall x | x in SpansAt(es, f.horizontal, Across(f)) ensures x in Elements(Spans(sorted)) {
      var e :| e in es && e.horizontal == f.horizontal && Across(e) == Across(f) && Span(e) == x;
      assert KeyOf(e) == k && e in sorted;
      var i :| 0 <= i < |sorted| && sorted[i] == e;
      assert Spans(sorted)[i] == x;
    }
  }

  /** The joined spans of the line through f are the maximal runs at its position. */
  lemma LineIsRuns(es: seq<Edge>, out: seq<Edge>, f: Edge, r: Interval)
    requires AllStraight(es) && LinesApart(es, 3.0) && IsJoinEdges(es, out) && f in es
    ensures r in Spans(OnLine(out, KeyOf(f))) <==> IsRun(SpansAt(es, f.horizontal, Across(f)), r, 3.0)
  {
    var k := KeyOf(f);
    assert IsJoinOf(es, k, Spans(OnLine(out, k)));
    var sorted :| IsSortedLine(es, k, sorted) && Spans(OnLine(out, k)) == Join(Spans(sorted), JOIN_TOLERANCE);
    SortedLineFacts(es, k, sorted);
    OnOneLine(es, k, f, sorted);
    JoinIsRuns(Spans(sorted), JOIN_TOLERANCE, r);
  }

  lemma JoinedIsRun(es: seq<Edge>, out: seq<Edge>, e: Edge)
    requires AllStraight(es) && LinesApart(es, 3.0) && IsJoinEdges(es, out) && e in out
    ensures Straight(e) && IsRun(SpansAt(es, e.horizontal, Across(e)), Span(e), 3.0)
  {
    var n :| 0 <= n < |out| && out[n] == e;
    assert OnLineOf(out[n], es);
    var f :| f in es && KeyOf(f) == KeyOf(e) && Across(f) == Across(e);
    OnLineMembers(out, KeyOf(f));
    var i :| 0 <= i < |OnLine(out, KeyOf(f))| && OnLine(out, KeyOf(f))[i] == e;
    assert Spans(OnLine(out, KeyOf(f)))[i] == Span(e);
    LineIsRuns(es, out, f, Span(e));
  }

  lemma RunIsJoined(es: seq<Edge>, out: seq<Edge>, e: Edge)
    requires AllStraight(es) && LinesApart(es, 3.0) && IsJoinEdges(es, out)
    requires Straight(e) && IsRun(SpansAt(es, e.horizontal, Across(e)), Span(e), 3.0)
    ensures e in out
  {
    var a :| a in SpansAt(es, e.horizontal, Across(e));
    var f :| f in es && f.horizontal == e.horizontal && Across(f) == Across(e) && Span(f) == a;
    LineIsRuns(es, out, f, Span(e));
    var line := OnLine(out, KeyOf(f));
    var i :| 0 <= i < |Spans(line)| && Spans(line)[i] == Span(e);
    OnLineMembers(out, KeyOf(f));
    assert line[i] in out;
    var n :| 0 <= n < |out| && out[n] == line[i];
    assert OnLineOf(out[n], es);
    var f' :| f' in es && KeyOf(f') == KeyOf(line[i]) && Across(f') == Across(line[i]);
    FarLinesHaveDistinctKeys(es, f, f');
    assert line[i] == e;
  }

  /** joinEdges on snapped lines returns exactly the maximal runs of each position: edges
      of one direction at one position, bridged over gaps of at most 3. */
  lemma JoinedAreRuns(es: seq<Edge>, out: seq<Edge>, e: Edge)
    requires AllStraight(es) && LinesApart(es, 3.0) && IsJoinEdges(es, out)
    ensures e in out <==> Straight(e) && IsRun(SpansAt(es, e.horizontal, Across(e)), Span(e), 3.0)
  {
    if e in out { JoinedIsRun(es, out, e); }
    if Straight(e) && IsRun(SpansAt(es, e.horizontal, Across(e)), Span(e), 3.0) { RunIsJoined(es, out, e); }
  }
}
