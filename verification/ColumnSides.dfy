/** Text columns stay what they are: the phases of columnBoxes (internal/pdftomd/columns.go)
    join nothing across a gap between columns, and join all boxes of a column that share a
    vertical line. */
module ColumnSides {
  import opened Rects
  import opened Sorting
  import opened ColumnBlocks
  import opened ColumnStacks
  import opened ColumnMerge
  import opened ReadingOrder

  // ----- Across a gap -----

  /** The rectangle lies left of the gap from c1 to c2 or right of it. */
  predicate Sided(r: Rect, c1: real, c2: real) { r.x1 <= c1 || c2 <= r.x0 }

  ghost predicate AllSided(rs: seq<Rect>, c1: real, c2: real) { forall r :: r in rs ==> Sided(r, c1, c2) }

  ghost predicate AllWide(rs: seq<Rect>) { forall r :: r in rs ==> r.x0 <= r.x1 }

  /** Wide rectangles on the sides of a gap wider than 3. */
  ghost predicate Split(rs: seq<Rect>, c1: real, c2: real) { c2 - c1 > 3.0 && AllSided(rs, c1, c2) && AllWide(rs) }

  /** Rectangles that overlap horizontally, or whose sides are near each other, are on the
      same side of the gap, and so is their union. */
  lemma UnionSided(a: Rect, b: Rect, c1: real, c2: real)
    requires c2 - c1 > 3.0 && Sided(a, c1, c2) && Sided(b, c1, c2) && a.x0 <= a.x1 && b.x0 <= b.x1
    requires (b.x0 <= a.x1 && a.x0 <= b.x1) || (Near(b.x0, a.x0, 3.0) && Near(b.x1, a.x1, 3.0))
    ensures Sided(Union(a, b), c1, c2) && Union(a, b).x0 <= Union(a, b).x1
  {
  }

  lemma SplitMembers(a: seq<Rect>, b: seq<Rect>, c1: real, c2: real)
    requires Split(a, c1, c2) && forall r :: r in b ==> r in a
    ensures Split(b, c1, c2)
  {
  }

  lemma SplitUpdate(rs: seq<Rect>, i: nat, x: Rect, c1: real, c2: real)
    requires Split(rs, c1, c2) && i < |rs| && Sided(x, c1, c2) && x.x0 <= x.x1
    ensures Split(rs[i := x], c1, c2)
  {
    forall r | r in rs[i := x] ensures Sided(r, c1, c2) && r.x0 <= r.x1 {
      assert r == x || r in rs;
    }
  }

  lemma PlacedSplit(before: seq<Rect>, bb: Rect, after: seq<Rect>, c1: real, c2: real)
    requires PlacedBox(before, bb, after) && Split(before, c1, c2) && Sided(bb, c1, c2) && bb.x0 <= bb.x1
    ensures Split(after, c1, c2)
  {
    if after != before + [bb] {
      var j: nat :| Fits(before, j, bb) && after == before[j := Union(bb, before[j])];
      assert before[j] in before;
      UnionSided(bb, before[j], c1, c2);
      SplitUpdate(before, j, Union(bb, before[j]), c1, c2);
    }
  }

  lemma {:induction false} PlacingSplit(bboxes: seq<Rect>, trace: seq<seq<Rect>>, i: nat, c1: real, c2: real)
    requires Placing(bboxes, trace) && i < |bboxes| && Split(bboxes, c1, c2)
    ensures Split(trace[i], c1, c2)
  {
    assert bboxes[i] in bboxes;
    if i > 0 {
      PlacingSplit(bboxes, trace, i - 1, c1, c2);
      PlacedSplit(trace[i - 1], bboxes[i], trace[i], c1, c2);
    }
  }

  lemma CleanedSplit(blocks: seq<Rect>, cleaned: seq<Rect>, c1: real, c2: real)
    requires IsCleaned(blocks, cleaned) && Split(blocks, c1, c2)
    ensures Split(cleaned, c1, c2)
  {
    if |blocks| >= 2 {
      DedupeElements(blocks);
      PermutesFacts(cleaned, Dedupe(blocks));
      SplitMembers(blocks, cleaned, c1, c2);
    }
  }

  lemma WidenedSplit(blocks: seq<Rect>, i: nat, c1: real, c2: real)
    requires Split(blocks, c1, c2) && i < |blocks|
    ensures Split(blocks[i := Widened(blocks, blocks[i])], c1, c2)
  {
    var b, w := blocks[i], Widened(blocks, blocks[i]);
    assert b in blocks;
    WidenedIsOutermost(blocks, b, w);
    var r :| r in blocks && r.x0 == w.x0 && Near(r.x0, b.x0, SIDE_TOLERANCE);
    var s :| s in blocks && s.x1 == w.x1 && Near(s.x1, b.x1, SIDE_TOLERANCE);
    SplitUpdate(blocks, i, w, c1, c2);
  }

  lemma {:induction false} SnappedSplit(blocks: seq<Rect>, n: nat, c1: real, c2: real)
    requires Split(blocks, c1, c2) && n <= |blocks|
    ensures Split(SnappedTo(blocks, n), c1, c2)
  {
    if n > 0 {
      SnappedSplit(blocks, n - 1, c1, c2);
      WidenedSplit(SnappedTo(blocks, n - 1), n - 1, c1, c2);
    }
  }

  lemma {:induction false} StackFromSplit(last: Rect, rest: seq<Rect>, c1: real, c2: real)
    requires Split([last] + rest, c1, c2)
    ensures Split(StackFrom(last, rest), c1, c2)
    decreases |rest|
  {
    assert last in [last] + rest;
    if rest != [] {
      assert rest[0] in [last] + rest && forall r :: r in rest[1..] ==> r in [last] + rest;
      if Stacks(last, rest[0]) {
        UnionSided(last, rest[0], c1, c2);
        StackFromSplit(Union(last, rest[0]), rest[1..], c1, c2);
      } else {
        assert [rest[0]] + rest[1..] == rest;
        SplitMembers([last] + rest, rest, c1, c2);
        StackFromSplit(rest[0], rest[1..], c1, c2);
      }
    }
  }

  lemma StackedSplit(blocks: seq<Rect>, result: seq<Rect>, c1: real, c2: real)
    requires IsStacked(blocks, result) && Split(blocks, c1, c2)
    ensures Split(result, c1, c2)
  {
    if |blocks| >= 2 {
      var sorted :| InStackOrder(blocks, sorted) && result == Stack(sorted);
      SnappedSplit(blocks, |blocks|, c1, c2);
      PermutesFacts(sorted, SnappedTo(blocks, |blocks|));
      SplitMembers(SnappedTo(blocks, |blocks|), sorted, c1, c2);
      assert [sorted[0]] + sorted[1..] == sorted;
      StackFromSplit(sorted[0], sorted[1..], c1, c2);
    }
  }

  lemma JoinSplit(pending: seq<Rect>, done: seq<Rect>, i: nat, c1: real, c2: real)
    requires Split(pending, c1, c2) && 0 < i < |pending| && Joinable(pending, done, i)
    ensures Split(JoinAt(pending, i), c1, c2)
  {
    assert pending[0] in pending && pending[i] in pending;
    UnionSided(pending[0], pending[i], c1, c2);
    SplitUpdate(pending, 0, Union(pending[0], pending[i]), c1, c2);
    SplitMembers(pending[0 := Union(pending[0], pending[i])], JoinAt(pending, i), c1, c2);
  }

  lemma {:induction false} PassSplit(pending: seq<Rect>, done: seq<Rect>, i: nat, c1: real, c2: real)
    requires Split(pending, c1, c2) && i < |pending|
    ensures Split(Pass(pending, done, i), c1, c2)
    decreases i
  {
    if i > 0 && Joinable(pending, done, i) {
      JoinSplit(pending, done, i, c1, c2);
      PassSplit(JoinAt(pending, i), done, i - 1, c1, c2);
    } else if i > 0 {
      PassSplit(pending, done, i - 1, c1, c2);
    }
  }

  lemma {:induction false} SettleSplit(pending: seq<Rect>, done: seq<Rect>, c1: real, c2: real)
    requires pending != [] && Split(pending, c1, c2)
    ensures Split(Settle(pending, done), c1, c2)
    decreases |pending|
  {
    var p := Pass(pending, done, |pending| - 1);
    PassSplit(pending, done, |pending| - 1, c1, c2);
    if |p| < |pending| { SettleSplit(p, done, c1, c2); }
  }

  lemma {:induction false} MergeSplit(pending: seq<Rect>, done: seq<Rect>, c1: real, c2: real)
    requires Split(pending, c1, c2) && Split(done, c1, c2)
    ensures Split(Merge(pending, done), c1, c2)
    decreases |pending|
  {
    if pending != [] {
      var p := Settle(pending, done);
      SettleSplit(pending, done, c1, c2);
      assert p[0] in p;
      SplitMembers(p, p[1..], c1, c2);
      MergeSplit(p[1..], done + [p[0]], c1, c2);
    }
  }

  // ----- One rectangle for each column -----

  /** A column of the page: its sides, and a vertical line that all its boxes cross. */
  datatype Strip = Strip(left: real, line: real, right: real)

  predicate InStrip(r: Rect, s: Strip) { s.left <= r.x0 <= s.line <= r.x1 <= s.right }

  /** Columns from left to right with gaps wider than 3 between them. */
  ghost predicate Apart(strips: seq<Strip>) {
    forall i, j :: 0 <= i < j < |strips| ==> strips[i].right + 3.0 < strips[j].left
  }

  ghost predicate AllInStrips(strips: seq<Strip>, rs: seq<Rect>) {
    forall r :: r in rs ==> exists k :: 0 <= k < |strips| && InStrip(r, strips[k])
  }

  ghost predicate SameStrip(strips: seq<Strip>, r: Rect, s: Rect) {
    exists k :: 0 <= k < |strips| && InStrip(r, strips[k]) && InStrip(s, strips[k])
  }

  /** Each rectangle lies in a column, and no column has two. */
  ghost predicate OnePerStrip(strips: seq<Strip>, rs: seq<Rect>) {
    && AllInStrips(strips, rs)
    && (forall r, s :: r in rs && s in rs && SameStrip(strips, r, s) ==> r == s)
    && (forall r :: multiset(rs)[r] <= 1)
  }

  lemma StripsApart(strips: seq<Strip>, r: Rect, s: Rect)
    requires Apart(strips) && AllInStrips(strips, [r, s])
    ensures SameStrip(strips, r, s) || r.x1 + 3.0 < s.x0 || s.x1 + 3.0 < r.x0
    ensures SameStrip(strips, r, s) ==> s.x0 <= r.x1 && r.x0 <= s.x1
  {
    assert r in [r, s] && s in [r, s];
    var k :| 0 <= k < |strips| && InStrip(r, strips[k]);
    var l :| 0 <= l < |strips| && InStrip(s, strips[l]);
    if k < l { assert strips[k].right + 3.0 < strips[l].left; }
    if l < k { assert strips[l].right + 3.0 < strips[k].left; }
  }

  lemma StripUnique(strips: seq<Strip>, r: Rect, k: nat, l: nat)
    requires Apart(strips) && k < |strips| && l < |strips| && InStrip(r, strips[k]) && InStrip(r, strips[l])
    ensures k == l
  {
  }

  lemma UnionInStrip(strips: seq<Strip>, r: Rect, s: Rect)
    requires SameStrip(strips, r, s)
    ensures AllInStrips(strips, [Union(r, s)])
    ensures Apart(strips) ==> forall t :: AllInStrips(strips, [t]) && SameStrip(strips, Union(r, s), t) ==> SameStrip(strips, r, t)
  {
    var k :| 0 <= k < |strips| && InStrip(r, strips[k]) && InStrip(s, strips[k]);
    assert InStrip(Union(r, s), strips[k]);
    if Apart(strips) {
      forall t | AllInStrips(strips, [t]) && SameStrip(strips, Union(r, s), t) ensures SameStrip(strips, r, t) {
        var l :| 0 <= l < |strips| && InStrip(Union(r, s), strips[l]) && InStrip(t, strips[l]);
        StripUnique(strips, Union(r, s), k, l);
      }
    }
  }

  /** A box joins the rectangle of its column, or becomes its first. */
  lemma PlacedInStrip(strips: seq<Strip>, before: seq<Rect>, bb: Rect, after: seq<Rect>)
    requires Apart(strips) && OnePerStrip(strips, before) && AllInStrips(strips, [bb]) && PlacedBox(before, bb, after)
    ensures OnePerStrip(strips, after)
  {
    if j: nat :| Fits(before, j, bb) && after == before[j := Union(bb, before[j])] {
      assert before[j] in before;
      StripsApart(strips, bb, before[j]);
      ReplacedInStrip(strips, before, j, bb, after);
    } else {
      assert after == before + [bb];
      forall r | r in before ensures !SameStrip(strips, bb, r) {
        if SameStrip(strips, bb, r) {
          var j :| 0 <= j < |before| && before[j] == r;
          StripFits(strips, before, j, bb);
        }
      }
      AddedInStrip(strips, before, bb);
    }
  }

  lemma StripFits(strips: seq<Strip>, blocks: seq<Rect>, j: nat, bb: Rect)
    requires Apart(strips) && OnePerStrip(strips, blocks) && AllInStrips(strips, [bb])
    requires j < |blocks| && SameStrip(strips, bb, blocks[j])
    ensures Fits(blocks, j, bb)
  {
    var u := Union(bb, blocks[j]);
    assert blocks[j] in blocks;
    StripsApart(strips, bb, blocks[j]);
    UnionInStrip(strips, bb, blocks[j]);
    forall i | 0 <= i < |blocks| && blocks[i] != blocks[j] ensures !Touch(u, blocks[i]) {
      assert blocks[i] in blocks;
      StripsApart(strips, u, blocks[i]);
      if SameStrip(strips, u, blocks[i]) {
        assert SameStrip(strips, bb, blocks[i]);
        SameStripTransitive(strips, blocks[j], bb, blocks[i]);
      }
    }
  }

  lemma SameStripTransitive(strips: seq<Strip>, r: Rect, s: Rect, t: Rect)
    requires Apart(strips) && SameStrip(strips, s, r) && SameStrip(strips, s, t)
    ensures SameStrip(strips, r, t)
  {
    var k :| 0 <= k < |strips| && InStrip(s, strips[k]) && InStrip(r, strips[k]);
    var l :| 0 <= l < |strips| && InStrip(s, strips[l]) && InStrip(t, strips[l]);
    StripUnique(strips, s, k, l);
  }

  lemma AddedInStrip(strips: seq<Strip>, before: seq<Rect>, bb: Rect)
    requires OnePerStrip(strips, before) && AllInStrips(strips, [bb])
    requires forall r :: r in before ==> !SameStrip(strips, bb, r)
    ensures OnePerStrip(strips, before + [bb])
  {
    assert bb in [bb];
    var k :| 0 <= k < |strips| && InStrip(bb, strips[k]);
    assert SameStrip(strips, bb, bb);
    assert bb !in before;
    forall r, s | r in before + [bb] && s in before + [bb] && SameStrip(strips, r, s) ensures r == s {
      assert SameStrip(strips, s, r);
    }
  }

  lemma ReplacedInStrip(strips: seq<Strip>, before: seq<Rect>, j: nat, bb: Rect, after: seq<Rect>)
    requires Apart(strips) && OnePerStrip(strips, before) && j < |before| && SameStrip(strips, bb, before[j])
    requires after == before[j := Union(bb, before[j])]
    ensures OnePerStrip(strips, after)
  {
    var rest, u := before[..j] + before[j + 1..], Union(bb, before[j]);
    RemoveOne(before, j);
    assert after[..j] + after[j + 1..] == rest && after[j] == u;
    RemoveOne(after, j);
    OthersInStrip(strips, before, j, rest);
    UnionInStrip(strips, bb, before[j]);
    forall r | r in rest ensures !SameStrip(strips, u, r) {
      assert AllInStrips(strips, [r]);
      if SameStrip(strips, u, r) { SameStripTransitive(strips, before[j], bb, r); }
    }
    AddedInStrip(strips, rest, u);
    OnePermutes(strips, rest + [u], after);
  }

  lemma OthersInStrip(strips: seq<Strip>, before: seq<Rect>, j: nat, rest: seq<Rect>)
    requires OnePerStrip(strips, before) && j < |before| && multiset(before) == multiset(rest) + multiset{before[j]}
    ensures OnePerStrip(strips, rest)
    ensures forall r :: r in rest ==> r in before && !SameStrip(strips, before[j], r)
  {
    forall r ensures multiset(rest)[r] <= 1 { assert multiset(before)[r] <= 1; }
    forall r | r in rest ensures r in before && !SameStrip(strips, before[j], r) {
      assert r in multiset(rest) && r in multiset(before);
      assert multiset(before)[before[j]] <= 1;
      assert r != before[j] && before[j] in before;
    }
  }

  lemma OnePermutes(strips: seq<Strip>, a: seq<Rect>, b: seq<Rect>)
    requires OnePerStrip(strips, a) && Permutes(b, a)
    ensures OnePerStrip(strips, b)
  {
    PermutesFacts(b, a);
  }

  lemma {:induction false} PlacingInStrips(strips: seq<Strip>, bboxes: seq<Rect>, trace: seq<seq<Rect>>, i: nat)
    requires Apart(strips) && AllInStrips(strips, bboxes) && Placing(bboxes, trace) && i < |bboxes|
    ensures OnePerStrip(strips, trace[i])
  {
    assert bboxes[i] in bboxes;
    assert AllInStrips(strips, [bboxes[i]]);
    if i == 0 {
      assert trace[0] == [bboxes[0]];
    } else {
      PlacingInStrips(strips, bboxes, trace, i - 1);
      PlacedInStrip(strips, trace[i - 1], bboxes[i], trace[i]);
    }
  }

  lemma {:induction false} DedupeFewer(blocks: seq<Rect>)
    ensures multiset(Dedupe(blocks)) <= multiset(blocks)
    decreases |blocks|
  {
    if |blocks| >= 2 {
      var init := blocks[..|blocks| - 1];
      DedupeFewer(init);
      assert blocks == init + [blocks[|blocks| - 1]];
    }
  }

  lemma CleanedInStrips(strips: seq<Strip>, blocks: seq<Rect>, cleaned: seq<Rect>)
    requires IsCleaned(blocks, cleaned) && OnePerStrip(strips, blocks)
    ensures OnePerStrip(strips, cleaned)
  {
    if |blocks| >= 2 {
      DedupeFewer(blocks);
      DedupeElements(blocks);
      forall r ensures multiset(Dedupe(blocks))[r] <= 1 { assert multiset(blocks)[r] <= 1; }
      OnePermutes(strips, Dedupe(blocks), cleaned);
    }
  }

  lemma NearIsSame(strips: seq<Strip>, rs: seq<Rect>, r: Rect, s: Rect)
    requires Apart(strips) && OnePerStrip(strips, rs) && r in rs && s in rs
    requires Near(r.x0, s.x0, 3.0) || Near(r.x1, s.x1, 3.0)
    ensures r == s
  {
    StripsApart(strips, r, s);
    WideInStrips(strips, r, s, s);
  }

  /** Alone in its column a rectangle finds no side to snap to but its own. */
  lemma WidenedAlone(strips: seq<Strip>, blocks: seq<Rect>, b: Rect)
    requires Apart(strips) && OnePerStrip(strips, blocks) && b in blocks
    ensures Widened(blocks, b) == b
  {
    var w := Widened(blocks, b);
    WidenedIsOutermost(blocks, b, w);
    var r :| r in blocks && r.x0 == w.x0 && Near(r.x0, b.x0, SIDE_TOLERANCE);
    NearIsSame(strips, blocks, r, b);
    var s :| s in blocks && s.x1 == w.x1 && Near(s.x1, b.x1, SIDE_TOLERANCE);
    NearIsSame(strips, blocks, s, b);
  }

  lemma WideInStrips(strips: seq<Strip>, b: Rect, r: Rect, s: Rect)
    requires AllInStrips(strips, [b, r, s])
    ensures b.x0 <= b.x1 && r.x0 <= r.x1 && s.x0 <= s.x1
  {
    assert b in [b, r, s] && r in [b, r, s] && s in [b, r, s];
  }

  lemma {:induction false} SnappedAlone(strips: seq<Strip>, blocks: seq<Rect>, n: nat)
    requires Apart(strips) && OnePerStrip(strips, blocks) && n <= |blocks|
    ensures SnappedTo(blocks, n) == blocks
  {
    if n > 0 {
      SnappedAlone(strips, blocks, n - 1);
      assert blocks[n - 1] in blocks;
      WidenedAlone(strips, blocks, blocks[n - 1]);
    }
  }

  lemma DifferInStrips(strips: seq<Strip>, rs: seq<Rect>, i: nat, j: nat)
    requires Apart(strips) && OnePerStrip(strips, rs) && i < j < |rs|
    ensures rs[i].x1 + 3.0 < rs[j].x0 || rs[j].x1 + 3.0 < rs[i].x0
    ensures rs[i].x0 <= rs[i].x1 && rs[j].x0 <= rs[j].x1
  {
    assert rs[i] in rs && rs[j] in rs;
    if rs[i] == rs[j] { RepeatedTwice(rs, i, j); }
    StripsApart(strips, rs[i], rs[j]);
    WideInStrips(strips, rs[i], rs[j], rs[j]);
  }

  lemma {:induction false} StackNothing(last: Rect, rest: seq<Rect>)
    requires forall i :: 0 <= i < |rest| ==> !Stacks(([last] + rest)[i], rest[i])
    ensures StackFrom(last, rest) == [last] + rest
    decreases |rest|
  {
    if rest != [] {
      assert ([last] + rest)[0] == last && [rest[0]] + rest[1..] == rest;
      forall i | 0 <= i < |rest| - 1 ensures !Stacks(([rest[0]] + rest[1..])[i], rest[1..][i]) {
        assert !Stacks(([last] + rest)[i + 1], rest[i + 1]);
      }
      StackNothing(rest[0], rest[1..]);
    }
  }

  lemma StackedInStrips(strips: seq<Strip>, blocks: seq<Rect>, result: seq<Rect>)
    requires Apart(strips) && OnePerStrip(strips, blocks) && IsStacked(blocks, result)
    ensures OnePerStrip(strips, result)
  {
    if |blocks| >= 2 {
      var sorted :| InStackOrder(blocks, sorted) && result == Stack(sorted);
      SnappedAlone(strips, blocks, |blocks|);
      OnePermutes(strips, blocks, sorted);
      PermutesFacts(sorted, blocks);
      var last, rest := sorted[0], sorted[1..];
      assert sorted == [last] + rest;
      forall i | 0 <= i < |rest| ensures !Stacks(([last] + rest)[i], rest[i]) {
        DifferInStrips(strips, sorted, i, i + 1);
      }
      StackNothing(last, rest);
    }
  }

  lemma {:induction false} PassNothing(strips: seq<Strip>, pending: seq<Rect>, done: seq<Rect>, i: nat)
    requires Apart(strips) && OnePerStrip(strips, pending) && i < |pending|
    ensures Pass(pending, done, i) == pending
    decreases i
  {
    if i > 0 {
      DifferInStrips(strips, pending, 0, i);
      PassNothing(strips, pending, done, i - 1);
    }
  }

  lemma TailInStrips(strips: seq<Strip>, rs: seq<Rect>)
    requires rs != [] && OnePerStrip(strips, rs)
    ensures OnePerStrip(strips, rs[1..])
  {
    assert rs == [rs[0]] + rs[1..];
    assert forall r :: r in rs[1..] ==> r in rs;
    forall r ensures multiset(rs[1..])[r] <= 1 { assert multiset(rs)[r] <= 1; }
  }

  lemma {:induction false} MergeNothing(strips: seq<Strip>, pending: seq<Rect>, done: seq<Rect>)
    requires Apart(strips) && OnePerStrip(strips, pending)
    ensures Merge(pending, done) == done + pending
    decreases |pending|
  {
    if pending == [] {
      assert done + [] == done;
    } else {
      PassNothing(strips, pending, done, |pending| - 1);
      assert pending == [pending[0]] + pending[1..];
      TailInStrips(strips, pending);
      MergeNothing(strips, pending[1..], done + [pending[0]]);
      assert done + [pending[0]] + pending[1..] == done + pending;
    }
  }

  /** The one rectangle of a column is around all its boxes. */
  lemma ColumnHoldsItsBoxes(strips: seq<Strip>, k: nat, box: Rect, columns: seq<Rect>)
    requires Apart(strips) && k < |strips| && InStrip(box, strips[k]) && OnePerStrip(strips, columns) && Covers(columns, box)
    ensures exists c :: c in columns && InStrip(c, strips[k]) && Contains(c, box)
    ensures forall c :: c in columns && InStrip(c, strips[k]) ==> Contains(c, box)
  {
    var c :| c in columns && Contains(c, box);
    var l :| 0 <= l < |strips| && InStrip(c, strips[l]);
    OverlapIsSame(strips, k, l, box, c);
    forall d | d in columns && InStrip(d, strips[k]) ensures d == c {
      assert SameStrip(strips, c, d);
    }
  }

  lemma OverlapIsSame(strips: seq<Strip>, k: nat, l: nat, box: Rect, c: Rect)
    requires Apart(strips) && k < |strips| && l < |strips| && InStrip(box, strips[k]) && InStrip(c, strips[l]) && Contains(c, box)
    ensures k == l
  {
  }
}
