/** columnBoxes (internal/pdftomd/columns.go): the three phases together. */
module ColumnBoxes {
  import opened Rects
  import opened Sorting
  import opened ColumnBlocks
  import opened ColumnStacks
  import opened ColumnMerge
  import opened ReadingOrder
  import opened ColumnSides

  ghost predicate IsMerged(blocks: seq<Rect>, result: seq<Rect>) {
    if |blocks| < 2 then result == blocks else InReadingOrder(Merge(blocks, []), result)
  }

  method PhaseThree(blocks: seq<Rect>) returns (result: seq<Rect>)
    ensures IsMerged(blocks, result)
    ensures Regroups(blocks, result)
    ensures AllNonEmpty(blocks) && PairwiseApart(blocks) ==> PairwiseApart(result)
  {
    if |blocks| < 2 {
      RegroupsSelf(blocks);
      return blocks;
    }
    var merged := MergeCompatible(blocks);
    result := SortForReading(merged);
    PermutesFacts(result, merged);
    SameElementsRegroup(merged, result);
    RegroupsTransitive(blocks, merged, result);
    if AllNonEmpty(blocks) && PairwiseApart(blocks) {
      RegroupsNonEmpty(blocks, merged);
      ApartPermutes(merged, result);
    }
  }

  // ----- The whole -----

  function TopThenLeft(): Rect -> (real, real) { (r: Rect) => (r.y0, r.x0) }

  ghost predicate TopsFirst(rs: seq<Rect>) {
    forall i, j :: 0 <= i < j < |rs| ==> rs[i].y0 < rs[j].y0 || (rs[i].y0 == rs[j].y0 && rs[i].x0 <= rs[j].x0)
  }

  /** The boxes in reading position, placed, cleaned, stacked and merged, in that order. */
  ghost predicate IsColumns(bboxes: seq<Rect>, columns: seq<Rect>) {
    exists sorted, trace, cleaned, stacked ::
      && TopsFirst(sorted) && Permutes(sorted, bboxes)
      && Placing(sorted, trace) && IsCleaned(trace[|sorted| - 1], cleaned)
      && IsStacked(cleaned, stacked) && IsMerged(stacked, columns)
  }

  /** columnBoxes over the collected text boxes: every box lies inside a returned
      rectangle, no returned rectangle is empty or holds no box, and the overall
      bounding rectangle is that of the boxes. */
  method ColumnBoxes(bboxes: seq<Rect>) returns (columns: seq<Rect>)
    requires AllNonEmpty(bboxes)
    ensures if bboxes == [] then columns == [] else IsColumns(bboxes, columns)
    ensures forall r :: r in bboxes ==> Covers(columns, r)
    ensures forall c :: c in columns ==> HoldsOne(bboxes, c)
    ensures forall h :: Bounds(h, bboxes) <==> Bounds(h, columns)
    ensures AllNonEmpty(columns)
    ensures forall c1, c2 :: c2 - c1 > 3.0 && AllSided(bboxes, c1, c2) ==> AllSided(columns, c1, c2)
    ensures forall strips :: Apart(strips) && AllInStrips(strips, bboxes) ==> OnePerStrip(strips, columns)
  {
    if bboxes == [] {
      return [];
    }
    var sorted := SortByPair(bboxes, TopThenLeft());
    PermutesFacts(sorted, bboxes);
    SameElementsRegroup(bboxes, sorted);
    var nblocks, trace := PhaseOne(sorted);
    RegroupsTransitive(bboxes, sorted, nblocks);
    var cleaned := CleanBlocks(nblocks);
    RegroupsTransitive(bboxes, nblocks, cleaned);
    var stacked := PhaseTwo(cleaned);
    RegroupsTransitive(bboxes, cleaned, stacked);
    columns := PhaseThree(stacked);
    RegroupsTransitive(bboxes, stacked, columns);
    RegroupsNonEmpty(bboxes, columns);
    RegroupsSummary(bboxes, columns);
    assert IsColumns(bboxes, columns);
    forall c1, c2 | c2 - c1 > 3.0 && AllSided(bboxes, c1, c2) ensures AllSided(columns, c1, c2) {
      ColumnsStaySplit(bboxes, columns, c1, c2);
    }
    forall strips | Apart(strips) && AllInStrips(strips, bboxes) ensures OnePerStrip(strips, columns) {
      ColumnsOnePerStrip(strips, bboxes, columns);
    }
  }

  /** A gap wider than 3 that no box reaches into separates the returned rectangles. */
  lemma ColumnsStaySplit(bboxes: seq<Rect>, columns: seq<Rect>, c1: real, c2: real)
    requires AllNonEmpty(bboxes) && IsColumns(bboxes, columns) && c2 - c1 > 3.0
    requires forall r :: r in bboxes ==> r.x1 <= c1 || c2 <= r.x0
    ensures forall r :: r in columns ==> r.x1 <= c1 || c2 <= r.x0
  {
    var sorted, trace, cleaned, stacked :|
      && TopsFirst(sorted) && Permutes(sorted, bboxes)
      && Placing(sorted, trace) && IsCleaned(trace[|sorted| - 1], cleaned)
      && IsStacked(cleaned, stacked) && IsMerged(stacked, columns);
    PermutesFacts(sorted, bboxes);
    NonEmptyIsWide(bboxes);
    assert Split(sorted, c1, c2);
    PlacingSplit(sorted, trace, |sorted| - 1, c1, c2);
    CleanedSplit(trace[|sorted| - 1], cleaned, c1, c2);
    StackedSplit(cleaned, stacked, c1, c2);
    MergedSplit(stacked, columns, c1, c2);
  }

  lemma NonEmptyIsWide(rs: seq<Rect>)
    requires AllNonEmpty(rs)
    ensures AllWide(rs)
  {
    forall r | r in rs ensures r.x0 <= r.x1 {
      var i :| 0 <= i < |rs| && rs[i] == r;
      assert !IsEmpty(rs[i]);
    }
  }

  lemma MergedSplit(blocks: seq<Rect>, result: seq<Rect>, c1: real, c2: real)
    requires IsMerged(blocks, result) && Split(blocks, c1, c2)
    ensures Split(result, c1, c2)
  {
    if |blocks| >= 2 {
      MergeSplit(blocks, [], c1, c2);
      PermutesFacts(result, Merge(blocks, []));
      SplitMembers(Merge(blocks, []), result, c1, c2);
    }
  }

  /** If the boxes of each column share a vertical line and the columns are more than 3
      apart, each column that has a box gets exactly one rectangle. */
  lemma ColumnsOnePerStrip(strips: seq<Strip>, bboxes: seq<Rect>, columns: seq<Rect>)
    requires Apart(strips) && AllInStrips(strips, bboxes) && IsColumns(bboxes, columns)
    ensures OnePerStrip(strips, columns)
  {
    var sorted, trace, cleaned, stacked :|
      && TopsFirst(sorted) && Permutes(sorted, bboxes)
      && Placing(sorted, trace) && IsCleaned(trace[|sorted| - 1], cleaned)
      && IsStacked(cleaned, stacked) && IsMerged(stacked, columns);
    PermutesFacts(sorted, bboxes);
    PlacingInStrips(strips, sorted, trace, |sorted| - 1);
    CleanedInStrips(strips, trace[|sorted| - 1], cleaned);
    StackedInStrips(strips, cleaned, stacked);
    MergedInStrips(strips, stacked, columns);
  }

  lemma MergedInStrips(strips: seq<Strip>, blocks: seq<Rect>, result: seq<Rect>)
    requires Apart(strips) && OnePerStrip(strips, blocks) && IsMerged(blocks, result)
    ensures OnePerStrip(strips, result)
  {
    if |blocks| >= 2 {
      MergeNothing(strips, blocks, []);
      assert [] + blocks == blocks;
      OnePermutes(strips, blocks, result);
    }
  }

  lemma RegroupsSummary(a: seq<Rect>, b: seq<Rect>)
    requires Regroups(a, b)
    ensures forall r :: r in a ==> Covers(b, r)
    ensures forall s :: s in b ==> HoldsOne(a, s)
    ensures forall h :: Bounds(h, a) <==> Bounds(h, b)
  {
    forall h ensures Bounds(h, a) <==> Bounds(h, b) {
      RegroupsKeepsHull(a, b, h);
    }
  }
}
