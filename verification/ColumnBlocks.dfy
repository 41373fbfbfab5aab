/** Phase 1 of columnBoxes and cleanBlocks (internal/pdftomd/columns.go): text boxes
    placed into blocks one by one, duplicates dropped, equal bottoms sorted. */
module ColumnBlocks {
  import opened Rects
  import opened Sorting

  // ----- Phase 1: boxes into columns -----

  predicate Beside(a: Rect, b: Rect) { a.x1 < b.x0 || b.x1 < a.x0 }

  method CanExtend(temp: Rect, self: Rect, others: seq<Rect>) returns (ok: bool)
    ensures ok <==> forall i :: 0 <= i < |others| && others[i] != self ==> !Touch(temp, others[i])
  {
    for i := 0 to |others|
      invariant forall k :: 0 <= k < i && others[k] != self ==> !Touch(temp, others[k])
    {
      if others[i] == self {
        continue;
      }
      if Touch(temp, others[i]) {
        return false;
      }
    }
    return true;
  }

  /** Block j can take in bb: they are not beside each other and their union touches no
      block but copies of j. */
  ghost predicate Fits(blocks: seq<Rect>, j: nat, bb: Rect) {
    && j < |blocks| && !Beside(blocks[j], bb)
    && forall i :: 0 <= i < |blocks| && blocks[i] != blocks[j] ==> !Touch(Union(bb, blocks[j]), blocks[i])
  }

  /** One box is placed: it extends the first block it fits, or opens a new one. */
  ghost predicate PlacedBox(before: seq<Rect>, bb: Rect, after: seq<Rect>) {
    || (exists j: nat :: Fits(before, j, bb) && (forall k: nat :: k < j ==> !Fits(before, k, bb))
          && after == before[j := Union(bb, before[j])])
    || (after == before + [bb] && forall k: nat :: !Fits(before, k, bb))
  }

  method PlaceBox(blocks: seq<Rect>, bb: Rect) returns (placed: seq<Rect>)
    ensures PlacedBox(blocks, bb, placed)
  {
    for j := 0 to |blocks|
      invariant forall k: nat :: k < j ==> !Fits(blocks, k, bb)
    {
      var nbb := blocks[j];
      if nbb.x1 < bb.x0 || bb.x1 < nbb.x0 {
        continue;
      }
      var temp := Union(bb, nbb);
      var ok := CanExtend(temp, nbb, blocks);
      if ok {
        assert Fits(blocks, j, bb);
        return blocks[j := temp];
      }
    }
    return blocks + [bb];
  }

  lemma PlacedRegroups(before: seq<Rect>, bb: Rect, after: seq<Rect>)
    requires PlacedBox(before, bb, after)
    ensures Regroups(before + [bb], after)
  {
    var a := before + [bb];
    assert bb == a[|before|];
    if after == a {
      RegroupsSelf(a);
    } else {
      var j: nat :| Fits(before, j, bb) && after == before[j := Union(bb, before[j])];
      assert after[j] == Union(bb, before[j]) && a[j] == before[j];
      forall t | t in a ensures t == bb || t == before[j] || t in after {
        var k :| 0 <= k < |a| && a[k] == t;
        if k < |before| && k != j { assert after[k] == t; }
      }
      forall t | t in after ensures t == Union(bb, before[j]) || t in a {
        var k :| 0 <= k < |after| && after[k] == t;
        if k != j { assert a[k] == t; }
      }
      MergeRegroups(a, after, bb, before[j]);
    }
  }

  /** The blocks are the outcome of placing the boxes one after the other. */
  ghost predicate Placing(bboxes: seq<Rect>, trace: seq<seq<Rect>>) {
    && bboxes != [] && |trace| == |bboxes| && trace[0] == [bboxes[0]]
    && forall i :: 0 < i < |bboxes| ==> PlacedBox(trace[i - 1], bboxes[i], trace[i])
  }

  lemma {:induction false} PlacingRegroups(bboxes: seq<Rect>, trace: seq<seq<Rect>>, i: nat)
    requires Placing(bboxes, trace) && i < |bboxes|
    ensures Regroups(bboxes[..i + 1], trace[i])
  {
    if i == 0 {
      assert bboxes[..1] == [bboxes[0]];
      RegroupsSelf(trace[0]);
    } else {
      PlacingRegroups(bboxes, trace, i - 1);
      RegroupsAppend(bboxes[..i], trace[i - 1], bboxes[i]);
      PlacedRegroups(trace[i - 1], bboxes[i], trace[i]);
      assert bboxes[..i + 1] == bboxes[..i] + [bboxes[i]];
      RegroupsTransitive(bboxes[..i + 1], trace[i - 1] + [bboxes[i]], trace[i]);
    }
  }

  method PhaseOne(bboxes: seq<Rect>) returns (blocks: seq<Rect>, ghost trace: seq<seq<Rect>>)
    requires bboxes != []
    ensures Placing(bboxes, trace) && blocks == trace[|bboxes| - 1]
    ensures Regroups(bboxes, blocks)
  {
    blocks := [bboxes[0]];
    trace := [blocks];
    for i := 1 to |bboxes|
      invariant |trace| == i && trace[0] == [bboxes[0]] && blocks == trace[i - 1]
      invariant forall k :: 0 < k < i ==> PlacedBox(trace[k - 1], bboxes[k], trace[k])
    {
      blocks := PlaceBox(blocks, bboxes[i]);
      trace := trace + [blocks];
    }
    PlacingRegroups(bboxes, trace, |bboxes| - 1);
    assert bboxes[..|bboxes|] == bboxes;
  }

  // ----- Cleaning -----

  /** Drops a block equal to its predecessor. */
  function Dedupe(blocks: seq<Rect>): seq<Rect> {
    if |blocks| < 2 then blocks
    else
      var last := blocks[|blocks| - 1];
      Dedupe(blocks[..|blocks| - 1]) + if last == blocks[|blocks| - 2] then [] else [last]
  }

  lemma {:induction false} DedupeElements(blocks: seq<Rect>)
    ensures forall r :: r in Dedupe(blocks) <==> r in blocks
  {
    if |blocks| >= 2 {
      var init := blocks[..|blocks| - 1];
      DedupeElements(init);
      assert blocks == init + [blocks[|blocks| - 1]];
      assert init[|init| - 1] in init;
    }
  }

  /** Start of the run of blocks with the same bottom that index i belongs to: a run is
      as long as bottoms stay within tol of its first block's. */
  function RunStart(blocks: seq<Rect>, tol: real, i: nat): (r: nat)
    requires i < |blocks|
    ensures r <= i
  {
    if i == 0 then 0
    else
      var before := RunStart(blocks, tol, i - 1);
      if -tol <= blocks[i].y1 - blocks[before].y1 <= tol then before else i
  }

  function Left(): Rect -> real { (r: Rect) => r.x0 }

  /** Every run is sorted left to right and keeps its blocks. */
  ghost predicate RunsSorted(blocks: seq<Rect>, sorted: seq<Rect>, tol: real) {
    && Permutes(sorted, blocks)
    && (forall i :: 0 <= i < |blocks| && RunStart(blocks, tol, i) == i ==> i <= |sorted| && Permutes(sorted[..i], blocks[..i]))
    && (forall i, j :: 0 <= i < j < |blocks| && j < |sorted| && RunStart(blocks, tol, i) == RunStart(blocks, tol, j) ==>
          sorted[i].x0 <= sorted[j].x0)
  }

  /** Runs that end before index i0 are sorted; the rest is untouched. */
  ghost predicate RunsSortedTo(blocks: seq<Rect>, cur: seq<Rect>, tol: real, i0: nat) {
    && |cur| == |blocks| && i0 <= |blocks| && cur[i0..] == blocks[i0..]
    && (forall i :: 0 <= i <= i0 && (i == |blocks| || RunStart(blocks, tol, i) == i) ==> Permutes(cur[..i], blocks[..i]))
    && (forall i, j :: 0 <= i < j < i0 && RunStart(blocks, tol, i) == RunStart(blocks, tol, j) ==> cur[i].x0 <= cur[j].x0)
  }

  lemma {:induction false} RunStartIsStart(blocks: seq<Rect>, tol: real, i: nat)
    requires i < |blocks|
    ensures RunStart(blocks, tol, RunStart(blocks, tol, i)) == RunStart(blocks, tol, i)
  {
    if i > 0 { RunStartIsStart(blocks, tol, i - 1); }
  }

  lemma {:induction false} RunStartMonotone(blocks: seq<Rect>, tol: real, i: nat, j: nat)
    requires i <= j < |blocks|
    ensures RunStart(blocks, tol, i) <= RunStart(blocks, tol, j)
  {
    if i < j { RunStartMonotone(blocks, tol, i, j - 1); }
  }

  /** Sorting one whole run [i0, i) in place. */
  lemma SortRun(blocks: seq<Rect>, cur: seq<Rect>, next: seq<Rect>, run: seq<Rect>, tol: real, i0: nat, i: nat)
    requires RunsSortedTo(blocks, cur, tol, i0) && i0 < i <= |blocks|
    requires forall k :: i0 <= k < i ==> RunStart(blocks, tol, k) == i0
    requires AscendingBy(run, Left()) && Permutes(run, blocks[i0..i]) && next == cur[..i0] + run + cur[i..]
    ensures RunsSortedTo(blocks, next, tol, i)
  {
    PermutesFacts(run, blocks[i0..i]);
    assert next[..i] == next[..i0] + run && next[..i0] == cur[..i0];
    assert blocks[..i] == blocks[..i0] + blocks[i0..i];
    assert next[i..] == cur[i..] == blocks[i..] by {
      assert cur[i..] == cur[i0..][i - i0..] && blocks[i..] == blocks[i0..][i - i0..];
    }
    RunStartIsStart(blocks, tol, i0);
    forall k | 0 <= k <= i && (k == |blocks| || RunStart(blocks, tol, k) == k) ensures Permutes(next[..k], blocks[..k]) {
      if k <= i0 {
        assert next[..k] == cur[..k];
      } else {
        assert k == i;
      }
    }
    forall a, b | 0 <= a < b < i && RunStart(blocks, tol, a) == RunStart(blocks, tol, b) ensures next[a].x0 <= next[b].x0 {
      if b < i0 {
        assert next[a] == cur[a] && next[b] == cur[b];
      } else {
        assert a >= i0;
        WithinRun(cur, next, run, i0, i, a, b);
      }
    }
  }

  lemma WithinRun(cur: seq<Rect>, next: seq<Rect>, run: seq<Rect>, i0: nat, i: nat, a: nat, b: nat)
    requires i0 <= a < b < i <= |cur| && |run| == i - i0 && next == cur[..i0] + run + cur[i..] && AscendingBy(run, Left())
    ensures next[a].x0 <= next[b].x0
  {
    assert next[a] == run[a - i0] && next[b] == run[b - i0];
    assert Left()(run[a - i0]) <= Left()(run[b - i0]);
  }

  /** Sorts the run [i0, i) of the slice in place. */
  method SortOneRun(blocks: array<Rect>, i0: nat, i: nat, tol: real, ghost original: seq<Rect>)
    requires i0 < i <= blocks.Length && RunsSortedTo(original, blocks[..], tol, i0)
    requires InRun(original, tol, i0, i)
    modifies blocks
    ensures RunsSortedTo(original, blocks[..], tol, i)
  {
    ghost var cur := blocks[..];
    assert cur[i0..i] == original[i0..i] by {
      assert cur[i0..][..i - i0] == original[i0..][..i - i0];
    }
    var run := SortBy(blocks[i0..i], Left());
    PermutesFacts(run, original[i0..i]);
    forall k | 0 <= k < |run| {
      blocks[i0 + k] := run[k];
    }
    assert blocks[..] == cur[..i0] + run + cur[i..];
    SortRun(original, cur, blocks[..], run, tol, i0, i);
  }

  method SortSameBottom(blocks: array<Rect>, tol: real)
    requires tol >= 0.0
    modifies blocks
    ensures RunsSorted(old(blocks[..]), blocks[..], tol)
  {
    if blocks.Length == 0 {
      return;
    }
    ghost var original := blocks[..];
    var i0 := 0;
    var y1 := blocks[0].y1;
    RunsBegin(original, tol);
    for i := 1 to blocks.Length
      invariant i0 < i && y1 == original[i0].y1
      invariant RunsSortedTo(original, blocks[..], tol, i0)
      invariant InRun(original, tol, i0, i)
    {
      Untouched(original, blocks[..], tol, i0, i);
      ExtendRun(original, tol, i0, i);
      if !(-tol <= blocks[i].y1 - y1 <= tol) {
        SortOneRun(blocks, i0, i, tol, original);
        Untouched(original, blocks[..], tol, i, i);
        y1 := blocks[i].y1;
        i0 := i;
      }
    }
    SortOneRun(blocks, i0, blocks.Length, tol, original);
    AllRunsSorted(original, blocks[..], tol);
  }

  ghost predicate InRun(blocks: seq<Rect>, tol: real, i0: nat, i: nat) {
    i0 < i <= |blocks| && forall k :: i0 <= k < i ==> RunStart(blocks, tol, k) == i0
  }

  lemma RunsBegin(blocks: seq<Rect>, tol: real)
    requires blocks != []
    ensures RunsSortedTo(blocks, blocks, tol, 0) && InRun(blocks, tol, 0, 1)
  {
  }

  lemma ExtendRun(blocks: seq<Rect>, tol: real, i0: nat, i: nat)
    requires InRun(blocks, tol, i0, i) && i < |blocks|
    ensures if -tol <= blocks[i].y1 - blocks[i0].y1 <= tol then InRun(blocks, tol, i0, i + 1) else InRun(blocks, tol, i, i + 1)
  {
    assert RunStart(blocks, tol, i - 1) == i0;
  }

  lemma Untouched(blocks: seq<Rect>, cur: seq<Rect>, tol: real, i0: nat, i: nat)
    requires RunsSortedTo(blocks, cur, tol, i0) && i0 <= i < |blocks|
    ensures cur[i] == blocks[i]
  {
    assert cur[i0..][i - i0] == blocks[i0..][i - i0];
  }

  lemma AllRunsSorted(blocks: seq<Rect>, cur: seq<Rect>, tol: real)
    requires RunsSortedTo(blocks, cur, tol, |blocks|)
    ensures RunsSorted(blocks, cur, tol)
  {
    assert cur[..|blocks|] == cur && blocks[..|blocks|] == blocks;
  }

  ghost predicate IsCleaned(blocks: seq<Rect>, cleaned: seq<Rect>) {
    if |blocks| < 2 then cleaned == blocks else RunsSorted(Dedupe(blocks), cleaned, 3.0)
  }

  method CleanBlocks(blocks: seq<Rect>) returns (cleaned: seq<Rect>)
    ensures IsCleaned(blocks, cleaned)
    ensures Regroups(blocks, cleaned)
  {
    if |blocks| < 2 {
      RegroupsSelf(blocks);
      return blocks;
    }
    cleaned := [];
    for i := 0 to |blocks|
      invariant cleaned == Dedupe(blocks[..i])
    {
      assert blocks[..i + 1][..i] == blocks[..i];
      if i > 0 && blocks[i] == blocks[i - 1] {
        continue;
      }
      cleaned := cleaned + [blocks[i]];
    }
    assert blocks[..|blocks|] == blocks;
    var a := new Rect[|cleaned|](i requires 0 <= i < |cleaned| => cleaned[i]);
    assert a[..] == cleaned;
    SortSameBottom(a, 3.0);
    DedupeElements(blocks);
    PermutesFacts(a[..], cleaned);
    cleaned := a[..];
    SameElementsRegroup(blocks, cleaned);
  }
}
