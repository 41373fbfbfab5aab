/** inferColumnBoundaries (internal/pdftomd/text_tables.go): columns of a
    table without vertical rules, from the gaps between its characters. */
module TextColumns {
  import opened Sorting
  import opened TableGrid

  const MIN_GAP: real := 10.0
  const SIGNIFICANT_GAP: real := 15.0
  const SLACK: real := 2.0

  datatype Gap = Gap(pos: real, size: real)

  // ----- Specification -----

  /** The gaps between neighbours, left to right, that are at least candidates. */
  function GapsOf(xs: seq<real>): seq<Gap> {
    if |xs| < 2 then []
    else
      var a, b := xs[|xs| - 2], xs[|xs| - 1];
      GapsOf(xs[..|xs| - 1]) + if b - a > MIN_GAP then [Gap((a + b) / 2.0, b - a)] else []
  }

  function SignificantPos(): Gap -> seq<real> {
    (g: Gap) => if g.size > SIGNIFICANT_GAP then [g.pos] else []
  }

  /** The positions of the gaps wider than 15. */
  function Significant(gaps: seq<Gap>): seq<real> { Collect(gaps, SignificantPos()) }

  /** Midpoints of the significant gaps, left to right. */
  function Middles(xs: seq<real>): seq<real> { Significant(GapsOf(xs)) }

  /** The boundaries in the order of the table: its sides around the middles. */
  function Boundaries(xs: seq<real>, left: real, right: real): seq<real> {
    [left] + Middles(xs) + [right]
  }

  // ----- The program -----

  method CollectGaps(xs: seq<real>) returns (gaps: seq<Gap>)
    requires xs != []
    ensures gaps == GapsOf(xs)
  {
    gaps := [];
    for i := 1 to |xs|
      invariant gaps == GapsOf(xs[..i])
    {
      assert xs[..i + 1][..i] == xs[..i];
      var g := xs[i] - xs[i - 1];
      if g > MIN_GAP {
        gaps := gaps + [Gap((xs[i - 1] + xs[i]) / 2.0, g)];
      }
    }
    assert xs[..|xs|] == xs;
  }

  /** m is the middle of a significant gap between neighbours j and j + 1. */
  ghost predicate MiddleAt(xs: seq<real>, m: real, j: nat) {
    j + 1 < |xs| && m == (xs[j] + xs[j + 1]) / 2.0 && xs[j + 1] - xs[j] > 15.0
  }

  lemma LastMiddle(xs: seq<real>)
    requires |xs| >= 2
    ensures var a, b := xs[|xs| - 2], xs[|xs| - 1];
            Middles(xs) == Middles(xs[..|xs| - 1]) + if b - a > 15.0 then [(a + b) / 2.0] else []
  {
    var a, b := xs[|xs| - 2], xs[|xs| - 1];
    var init := GapsOf(xs[..|xs| - 1]);
    if b - a > MIN_GAP {
      var last := Gap((a + b) / 2.0, b - a);
      CollectAppend(init, last, SignificantPos());
    } else {
      assert GapsOf(xs) == init;
    }
  }

  /** The middles are exactly those of the gaps wider than 15 between neighbours. */
  lemma {:induction false} MiddlesOfGaps(xs: seq<real>, m: real)
    ensures m in Middles(xs) <==> exists j :: MiddleAt(xs, m, j)
    decreases |xs|
  {
    if |xs| >= 2 {
      var init, n := xs[..|xs| - 1], |xs| - 2;
      LastMiddle(xs);
      MiddlesOfGaps(init, m);
      if m in Middles(init) {
        var j: nat :| MiddleAt(init, m, j);
        assert MiddleAt(xs, m, j);
      } else if m in Middles(xs) {
        assert MiddleAt(xs, m, n);
      }
      if j: nat :| MiddleAt(xs, m, j) {
        if j < n { assert MiddleAt(init, m, j); }
      }
    }
  }

  lemma BoundariesOfGaps(xs: seq<real>, left: real, right: real, boundaries: seq<real>)
    requires Permutes(boundaries, Boundaries(xs, left, right))
    ensures forall b :: b in boundaries <==> b == left || b == right || exists j :: MiddleAt(xs, b, j)
  {
    PermutesFacts(boundaries, Boundaries(xs, left, right));
    forall b ensures b in boundaries <==> b == left || b == right || exists j :: MiddleAt(xs, b, j) {
      MiddlesOfGaps(xs, b);
    }
  }

  method InferColumnBoundaries(xPositions: seq<real>, tableLeft: real, tableRight: real)
    returns (boundaries: seq<real>, ghost sorted: seq<real>)
    ensures xPositions == [] ==> boundaries == []
    ensures Ascending(sorted) && Permutes(sorted, xPositions)
    ensures xPositions != [] ==> Ascending(boundaries) && Permutes(boundaries, Boundaries(sorted, tableLeft, tableRight))
    ensures xPositions != [] ==>
            forall b :: b in boundaries <==> b == tableLeft || b == tableRight || exists j :: MiddleAt(sorted, b, j)
  {
    hide MiddleAt;
    if xPositions == [] {
      return [], [];
    }
    var xs := SortReals(xPositions);
    sorted := xs;
    PermutesFacts(sorted, xPositions);
    var gaps := CollectGaps(xs);
    var bySize := SortBy(gaps, (g: Gap) => -g.size);
    CollectPermutes(bySize, gaps, SignificantPos());
    boundaries := [tableLeft];
    for i := 0 to |bySize|
      invariant boundaries == [tableLeft] + Significant(bySize[..i])
    {
      assert bySize[..i + 1][..i] == bySize[..i];
      if bySize[i].size > SIGNIFICANT_GAP {
        boundaries := boundaries + [bySize[i].pos];
      }
    }
    assert bySize[..|bySize|] == bySize;
    boundaries := boundaries + [tableRight];
    PermutesAround([tableLeft], Significant(bySize), Middles(xs), [tableRight]);
    boundaries := SortReals(boundaries);
    BoundariesOfGaps(xs, tableLeft, tableRight, boundaries);
  }

  // ----- What the columns guarantee for the characters they were inferred from -----

  /** Sorted positions of characters collected within 5 of the table's sides. */
  ghost predicate Collected(xs: seq<real>, left: real, right: real) {
    && xs != [] && Ascending(xs) && left <= right
    && forall i :: 0 <= i < |xs| ==> left - 5.0 <= xs[i] <= right + 5.0
  }

  /** The middles come from gaps, later middles from later gaps. */
  ghost predicate Sources(xs: seq<real>, ms: seq<real>, at: seq<nat>) {
    && |at| == |ms|
    && (forall k :: 0 <= k < |at| ==> MiddleAt(xs, ms[k], at[k]))
    && (forall k, l :: 0 <= k < l < |at| ==> at[k] < at[l])
  }

  lemma SourcesOfPrefix(xs: seq<real>, ms: seq<real>, at: seq<nat>)
    requires xs != [] && Sources(xs[..|xs| - 1], ms, at)
    ensures Sources(xs, ms, at)
    ensures forall k :: 0 <= k < |at| ==> at[k] + 2 < |xs|
  {
    forall k | 0 <= k < |at| ensures MiddleAt(xs, ms[k], at[k]) && at[k] + 2 < |xs| {
      assert MiddleAt(xs[..|xs| - 1], ms[k], at[k]);
    }
  }

  lemma SourcesAppend(xs: seq<real>, ms: seq<real>, at: seq<nat>, m: real)
    requires |xs| >= 2 && Sources(xs, ms, at) && MiddleAt(xs, m, |xs| - 2)
    requires forall k :: 0 <= k < |at| ==> at[k] + 2 < |xs|
    ensures Sources(xs, ms + [m], at + [|xs| - 2])
  {
  }

  lemma {:induction false} MiddlesFromGaps(xs: seq<real>) returns (at: seq<nat>)
    ensures Sources(xs, Middles(xs), at)
    decreases |xs|
  {
    at := [];
    if |xs| >= 2 {
      var before := Middles(xs[..|xs| - 1]);
      at := MiddlesFromGaps(xs[..|xs| - 1]);
      SourcesOfPrefix(xs, before, at);
      LastMiddle(xs);
      var a, b := xs[|xs| - 2], xs[|xs| - 1];
      if b - a > SIGNIFICANT_GAP {
        SourcesAppend(xs, before, at, (a + b) / 2.0);
        at := at + [|xs| - 2];
      }
    }
  }

  /** Interior boundaries lie more than 2.5 inside the table and more than 15 apart. */
  lemma MiddlesInside(xs: seq<real>, left: real, right: real, k: nat, l: nat)
    requires Collected(xs, left, right) && k < |Middles(xs)| && l < |Middles(xs)|
    ensures left + 2.5 < Middles(xs)[k] < right - 2.5
    ensures k < l ==> Middles(xs)[l] - Middles(xs)[k] > 15.0
  {
    var at := MiddlesFromGaps(xs);
    assert MiddleAt(xs, Middles(xs)[k], at[k]) && MiddleAt(xs, Middles(xs)[l], at[l]);
  }

  lemma BoundariesAscend(xs: seq<real>, left: real, right: real)
    requires Collected(xs, left, right)
    ensures Ascending(Boundaries(xs, left, right))
  {
    var b, ms := Boundaries(xs, left, right), Middles(xs);
    forall i, j | 0 <= i < j < |b| ensures b[i] <= b[j] {
      if 0 < i { MiddlesInside(xs, left, right, i - 1, i - 1); }
      if j < |b| - 1 { MiddlesInside(xs, left, right, j - 1, j - 1); }
      if 0 < i && j < |b| - 1 { MiddlesInside(xs, left, right, i - 1, j - 1); }
    }
  }

  /** The final sort moves nothing: the result is the sides around the middles. */
  lemma InferredBoundaries(xs: seq<real>, left: real, right: real, b: seq<real>)
    requires Collected(xs, left, right)
    requires Ascending(b) && Permutes(b, Boundaries(xs, left, right))
    ensures b == Boundaries(xs, left, right)
  {
    BoundariesAscend(xs, left, right);
    AscendingUnique(b, Boundaries(xs, left, right));
  }

  /** A collected character is more than 7.5 away from every interior boundary. */
  lemma ClearOfBoundaries(xs: seq<real>, n: nat, k: nat)
    requires Ascending(xs) && n < |xs| && k < |Middles(xs)|
    ensures xs[n] - Middles(xs)[k] > 7.5 || Middles(xs)[k] - xs[n] > 7.5
  {
    var at := MiddlesFromGaps(xs);
    assert MiddleAt(xs, Middles(xs)[k], at[k]);
    assert n <= at[k] ==> xs[n] <= xs[at[k]];
    assert n > at[k] ==> xs[at[k] + 1] <= xs[n];
  }

  /** Column i encloses c: every interior boundary up to i lies clearly to the left of c
      and every later one clearly to the right. */
  ghost predicate Encloses(b: seq<real>, i: nat, c: real) {
    && i + 1 < |b|
    && (forall k :: 0 < k <= i ==> b[k] + 7.5 < c)
    && (forall k :: i < k < |b| - 1 ==> c + 7.5 < b[k])
  }

  /** The slack of findIdx never shifts a collected character into another column: one
      within the slack of the table gets the one column that encloses it, any other
      gets none. */
  lemma CollectedCharacterColumn(xs: seq<real>, left: real, right: real, n: nat)
    requires Collected(xs, left, right) && n < |xs|
    ensures var b, c := Boundaries(xs, left, right), xs[n];
            if left - 2.0 <= c < right + 2.0
            then FindIdx(b, SLACK, c) >= 0 && Encloses(b, FindIdx(b, SLACK, c), c)
            else FindIdx(b, SLACK, c) == -1
    ensures forall i, j :: Encloses(Boundaries(xs, left, right), i, xs[n]) && Encloses(Boundaries(xs, left, right), j, xs[n]) ==> i == j
  {
    var b, c := Boundaries(xs, left, right), xs[n];
    BoundariesAscend(xs, left, right);
    forall k | 0 < k < |b| - 1 ensures b[k] + 7.5 < c || c + 7.5 < b[k] {
      ClearOfBoundaries(xs, n, k - 1);
    }
    forall i, j | Encloses(b, i, c) && Encloses(b, j, c) ensures i == j {
      EnclosingUnique(b, i, j, c);
    }
    var r := FindIdx(b, SLACK, c);
    if r >= 0 {
      FoundEncloses(b, c, r);
      assert b[0] - SLACK <= b[r] - SLACK <= c < b[r + 1] + SLACK <= b[|b| - 1] + SLACK;
    } else {
      NotFoundOutside(b, c, 0);
    }
  }

  lemma EnclosingUnique(b: seq<real>, i: nat, j: nat, c: real)
    requires Encloses(b, i, c) && Encloses(b, j, c)
    ensures i == j
  {
    assert 0 < i ==> b[i] + 7.5 < c;
    assert 0 < j ==> b[j] + 7.5 < c;
  }

  lemma FoundEncloses(b: seq<real>, c: real, r: nat)
    requires Ascending(b) && r + 1 < |b| && b[r] - SLACK <= c < b[r + 1] + SLACK
    requires forall k :: 0 < k < |b| - 1 ==> b[k] + 7.5 < c || c + 7.5 < b[k]
    ensures Encloses(b, r, c)
  {
    forall k | 0 < k <= r ensures b[k] + 7.5 < c {
      assert b[k] <= b[r];
    }
    forall k | r < k < |b| - 1 ensures c + 7.5 < b[k] {
      assert b[r + 1] <= b[k];
    }
  }

  /** Neighbouring columns with slack leave no hole between the table's sides. */
  lemma {:induction false} NotFoundOutside(b: seq<real>, c: real, i: nat)
    requires Ascending(b) && i + 1 < |b| && FindFrom(b, SLACK, c, i) == -1
    ensures c < b[i] - SLACK || c >= b[|b| - 1] + SLACK
    decreases |b| - i
  {
    if i + 2 < |b| {
      NotFoundOutside(b, c, i + 1);
    }
  }
}
