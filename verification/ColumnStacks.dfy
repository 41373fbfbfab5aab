/** joinPhase2 (internal/pdftomd/columns.go): sides snapped in place, blocks that stack
    on their predecessor joined. */
module ColumnStacks {
  import opened Rects
  import opened Sorting

  // ----- Phase 2: snap the sides, join what stacks -----

  const SIDE_TOLERANCE: real := 3.0
  const STACK_TOLERANCE: real := 10.0

  predicate Near(a: real, b: real, tol: real) { -tol <= a - b <= tol }

  /** w is block b widened to the outermost left and right side within tolerance. */
  ghost predicate IsWidened(blocks: seq<Rect>, b: Rect, w: Rect) {
    && w.y0 == b.y0 && w.y1 == b.y1
    && w.x0 <= b.x0 && b.x1 <= w.x1
    && (exists r :: r in blocks && r.x0 == w.x0 && Near(r.x0, b.x0, SIDE_TOLERANCE))
    && (exists r :: r in blocks && r.x1 == w.x1 && Near(r.x1, b.x1, SIDE_TOLERANCE))
    && (forall r :: r in blocks && Near(r.x0, b.x0, SIDE_TOLERANCE) ==> w.x0 <= r.x0)
    && (forall r :: r in blocks && Near(r.x1, b.x1, SIDE_TOLERANCE) ==> r.x1 <= w.x1)
  }

  /** The smallest left side among x0 and those of the blocks near it. */
  function NearLeft(blocks: seq<Rect>, x0: real): real {
    if blocks == [] then x0
    else
      var best, last := NearLeft(blocks[..|blocks| - 1], x0), blocks[|blocks| - 1].x0;
      if Near(last, x0, SIDE_TOLERANCE) && last < best then last else best
  }

  function NearRight(blocks: seq<Rect>, x1: real): real {
    if blocks == [] then x1
    else
      var best, last := NearRight(blocks[..|blocks| - 1], x1), blocks[|blocks| - 1].x1;
      if Near(last, x1, SIDE_TOLERANCE) && last > best then last else best
  }

  function Widened(blocks: seq<Rect>, b: Rect): Rect {
    b.(x0 := NearLeft(blocks, b.x0), x1 := NearRight(blocks, b.x1))
  }

  lemma {:induction false} NearLeftIsLeast(blocks: seq<Rect>, x0: real)
    ensures NearLeft(blocks, x0) <= x0
    ensures NearLeft(blocks, x0) == x0 || exists r :: r in blocks && r.x0 == NearLeft(blocks, x0) && Near(r.x0, x0, SIDE_TOLERANCE)
    ensures forall r :: r in blocks && Near(r.x0, x0, SIDE_TOLERANCE) ==> NearLeft(blocks, x0) <= r.x0
  {
    if blocks != [] {
      NearLeftIsLeast(blocks[..|blocks| - 1], x0);
      assert blocks == blocks[..|blocks| - 1] + [blocks[|blocks| - 1]];
    }
  }

  lemma {:induction false} NearRightIsGreatest(blocks: seq<Rect>, x1: real)
    ensures x1 <= NearRight(blocks, x1)
    ensures NearRight(blocks, x1) == x1 || exists r :: r in blocks && r.x1 == NearRight(blocks, x1) && Near(r.x1, x1, SIDE_TOLERANCE)
    ensures forall r :: r in blocks && Near(r.x1, x1, SIDE_TOLERANCE) ==> r.x1 <= NearRight(blocks, x1)
  {
    if blocks != [] {
      NearRightIsGreatest(blocks[..|blocks| - 1], x1);
      assert blocks == blocks[..|blocks| - 1] + [blocks[|blocks| - 1]];
    }
  }

  /** The folds of the loop find the outermost sides, and nothing else meets that
      description. */
  lemma WidenedIsOutermost(blocks: seq<Rect>, b: Rect, w: Rect)
    requires b in blocks
    ensures IsWidened(blocks, b, w) <==> w == Widened(blocks, b)
  {
    NearLeftIsLeast(blocks, b.x0);
    NearRightIsGreatest(blocks, b.x1);
  }

  method Widen(blocks: seq<Rect>, b: Rect) returns (w: Rect)
    ensures w == Widened(blocks, b)
  {
    var minX0, maxX1 := b.x0, b.x1;
    for j := 0 to |blocks|
      invariant minX0 == NearLeft(blocks[..j], b.x0) && maxX1 == NearRight(blocks[..j], b.x1)
    {
      assert blocks[..j + 1][..j] == blocks[..j];
      var bb := blocks[j];
      if Near(bb.x0, b.x0, SIDE_TOLERANCE) && bb.x0 < minX0 {
        minX0 := bb.x0;
      }
      if Near(bb.x1, b.x1, SIDE_TOLERANCE) && bb.x1 > maxX1 {
        maxX1 := bb.x1;
      }
    }
    assert blocks[..|blocks|] == blocks;
    w := b.(x0 := minX0, x1 := maxX1);
  }

  /** The blocks after the first n turns: each is widened to sides already widened. */
  ghost function SnappedTo(blocks: seq<Rect>, n: nat): (r: seq<Rect>)
    requires n <= |blocks|
    ensures |r| == |blocks|
  {
    if n == 0 then blocks
    else var cur := SnappedTo(blocks, n - 1); cur[n - 1 := Widened(cur, cur[n - 1])]
  }

  lemma {:induction false} SnappedFacts(blocks: seq<Rect>, n: nat)
    requires n <= |blocks|
    ensures Regroups(blocks, SnappedTo(blocks, n))
    ensures forall k :: n <= k < |blocks| ==> SnappedTo(blocks, n)[k] == blocks[k]
    ensures forall k :: 0 <= k < n ==> SidesSnapped(blocks[k], SnappedTo(blocks, n)[k])
  {
    if n == 0 {
      RegroupsSelf(blocks);
    } else {
      SnappedFacts(blocks, n - 1);
      var cur := SnappedTo(blocks, n - 1);
      WidenedIsOutermost(cur, cur[n - 1], Widened(cur, cur[n - 1]));
      WidenRegroups(cur, n - 1, Widened(cur, cur[n - 1]));
      RegroupsTransitive(blocks, cur, SnappedTo(blocks, n));
    }
  }

  lemma WidenStaysInside(blocks: seq<Rect>, i: nat, w: Rect, h: Rect)
    requires i < |blocks| && IsWidened(blocks, blocks[i], w) && Bounds(h, blocks)
    ensures Contains(h, w)
  {
    var r :| r in blocks && r.x0 == w.x0;
    var s :| s in blocks && s.x1 == w.x1;
    assert Contains(h, r) && Contains(h, s) && Contains(h, blocks[i]);
  }

  lemma WidenRegroups(blocks: seq<Rect>, i: nat, w: Rect)
    requires i < |blocks| && IsWidened(blocks, blocks[i], w)
    ensures Regroups(blocks, blocks[i := w])
  {
    forall h | Bounds(h, blocks) ensures Contains(h, w) {
      WidenStaysInside(blocks, i, w, h);
    }
    ReplaceRegroups(blocks, i, w);
  }

  lemma ReplaceRegroups(blocks: seq<Rect>, i: nat, w: Rect)
    requires i < |blocks| && Contains(w, blocks[i])
    requires forall h :: Bounds(h, blocks) ==> Contains(h, w)
    ensures Regroups(blocks, blocks[i := w])
  {
    var b := blocks[i := w];
    assert b[i] == w;
    forall r | r in blocks ensures Covers(b, r) {
      var k :| 0 <= k < |blocks| && blocks[k] == r;
      if k != i { assert b[k] == r && Contains(r, r); }
    }
    forall s | s in b ensures HoldsOne(blocks, s) {
      assert s == w || (s in blocks && Contains(s, s));
    }
  }

  /** A block after snapping: sides moved out by at most the tolerance, nothing else. */
  ghost predicate SidesSnapped(before: Rect, after: Rect) {
    && after.y0 == before.y0 && after.y1 == before.y1
    && 0.0 <= before.x0 - after.x0 <= SIDE_TOLERANCE && 0.0 <= after.x1 - before.x1 <= SIDE_TOLERANCE
  }

  /** Blocks are widened in place one after the other. */
  method SnapSides(blocks: array<Rect>)
    modifies blocks
    ensures blocks[..] == SnappedTo(old(blocks[..]), blocks.Length)
  {
    ghost var original := blocks[..];
    for i := 0 to blocks.Length
      invariant blocks[..] == SnappedTo(original, i)
    {
      ghost var cur := blocks[..];
      assert blocks[i] == cur[i];
      blocks[i] := Widen(blocks[..], blocks[i]);
      assert blocks[..] == cur[i := Widened(cur, cur[i])];
    }
  }

  predicate Stacks(r0: Rect, r: Rect) {
    Near(r.x0, r0.x0, SIDE_TOLERANCE) && Near(r.x1, r0.x1, SIDE_TOLERANCE) && Near(r0.y1, r.y0, STACK_TOLERANCE)
  }

  /** Each block joins the one before it when it stacks on it. */
  function StackFrom(last: Rect, rest: seq<Rect>): seq<Rect>
    decreases |rest|
  {
    if rest == [] then [last]
    else if Stacks(last, rest[0]) then StackFrom(Union(last, rest[0]), rest[1..])
    else [last] + StackFrom(rest[0], rest[1..])
  }

  function Stack(blocks: seq<Rect>): seq<Rect> {
    if blocks == [] then [] else StackFrom(blocks[0], blocks[1..])
  }

  lemma {:induction false} StackFromRegroups(last: Rect, rest: seq<Rect>)
    ensures Regroups([last] + rest, StackFrom(last, rest))
    decreases |rest|
  {
    var all := [last] + rest;
    if rest == [] {
      assert all == [last];
      RegroupsSelf(all);
    } else {
      var c, tail := rest[0], rest[1..];
      assert rest == [c] + tail;
      if Stacks(last, c) {
        var merged := [Union(last, c)] + tail;
        assert all[0] == last && all[1] == c && merged[0] == Union(last, c);
        MergeRegroups(all, merged, last, c);
        StackFromRegroups(Union(last, c), tail);
        RegroupsTransitive(all, merged, StackFrom(last, rest));
      } else {
        StackFromRegroups(c, tail);
        RegroupsPrepend(last, rest, StackFrom(c, tail));
      }
    }
  }

  lemma RegroupsPrepend(x: Rect, a: seq<Rect>, b: seq<Rect>)
    requires Regroups(a, b)
    ensures Regroups([x] + a, [x] + b)
  {
    RegroupsAppend(a, b, x);
    SameElementsRegroup([x] + a, a + [x]);
    SameElementsRegroup(b + [x], [x] + b);
    RegroupsTransitive([x] + a, a + [x], b + [x]);
    RegroupsTransitive([x] + a, b + [x], [x] + b);
  }

  // ----- What stacking does, block by block -----

  /** b continues the stack a downwards: sides within 3, bottom and top within 10. */
  predicate Follows(a: Rect, b: Rect) {
    -3.0 <= b.x0 - a.x0 <= 3.0 && -3.0 <= b.x1 - a.x1 <= 3.0 && -10.0 <= a.y1 - b.y0 <= 10.0
  }

  function UnionOf(rs: seq<Rect>): Rect
    requires rs != []
  {
    if |rs| == 1 then rs[0] else Union(UnionOf(rs[..|rs| - 1]), rs[|rs| - 1])
  }

  /** Every block of the group continues the union of those before it. */
  ghost predicate Chained(group: seq<Rect>) {
    group != [] && forall i :: 0 < i < |group| ==> Follows(UnionOf(group[..i]), group[i])
  }

  function Flat(groups: seq<seq<Rect>>): seq<Rect> {
    if groups == [] then [] else groups[0] + Flat(groups[1..])
  }

  /** The blocks in order, cut into the longest groups that chain; each result is the union
      of a group. */
  ghost predicate Grouped(blocks: seq<Rect>, groups: seq<seq<Rect>>, result: seq<Rect>) {
    && Flat(groups) == blocks && |result| == |groups|
    && (forall g :: 0 <= g < |groups| ==> Chained(groups[g]) && result[g] == UnionOf(groups[g]))
    && (forall g :: 0 <= g < |groups| - 1 ==> !Follows(result[g], groups[g + 1][0]))
  }

  lemma ChainGrows(open: seq<Rect>, r: Rect)
    requires Chained(open) && Follows(UnionOf(open), r)
    ensures Chained(open + [r]) && UnionOf(open + [r]) == Union(UnionOf(open), r)
  {
    var more := open + [r];
    assert more[..|open|] == open;
    forall i | 0 < i < |more| ensures Follows(UnionOf(more[..i]), more[i]) {
      if i < |open| { assert more[..i] == open[..i]; }
    }
  }

  lemma {:induction false} StackFromGroups(open: seq<Rect>, rest: seq<Rect>) returns (groups: seq<seq<Rect>>)
    requires Chained(open)
    ensures Grouped(open + rest, groups, StackFrom(UnionOf(open), rest))
    ensures groups != [] && open <= groups[0]
    decreases |rest|
  {
    if rest == [] {
      groups := [open];
      assert groups[1..] == [] && open + [] == open + rest;
    } else if Stacks(UnionOf(open), rest[0]) {
      ChainGrows(open, rest[0]);
      groups := StackFromGroups(open + [rest[0]], rest[1..]);
      assert open + [rest[0]] + rest[1..] == open + rest;
    } else {
      var more := StackFromGroups([rest[0]], rest[1..]);
      groups := [open] + more;
      assert groups[1..] == more && [rest[0]] + rest[1..] == rest;
      StackFromLater(open, rest, more, StackFrom(rest[0], rest[1..]));
    }
  }

  lemma StackFromLater(open: seq<Rect>, rest: seq<Rect>, more: seq<seq<Rect>>, result: seq<Rect>)
    requires Chained(open) && rest != [] && !Follows(UnionOf(open), rest[0])
    requires Grouped(rest, more, result) && more != [] && more[0] != [] && more[0][0] == rest[0]
    ensures Grouped(open + rest, [open] + more, [UnionOf(open)] + result)
  {
    var groups, all := [open] + more, [UnionOf(open)] + result;
    assert groups[1..] == more;
    forall g | 0 <= g < |groups| ensures Chained(groups[g]) && all[g] == UnionOf(groups[g]) {
      if g > 0 { assert groups[g] == more[g - 1] && all[g] == result[g - 1]; }
    }
    forall g | 0 <= g < |groups| - 1 ensures !Follows(all[g], groups[g + 1][0]) {
      if g > 0 { assert groups[g + 1] == more[g] && all[g] == result[g - 1] && !Follows(result[g - 1], more[g][0]); }
    }
  }

  /** The stacks are the unions of the longest chains of the blocks in order. */
  lemma StackGroups(blocks: seq<Rect>) returns (groups: seq<seq<Rect>>)
    requires blocks != []
    ensures Grouped(blocks, groups, Stack(blocks))
  {
    assert [blocks[0]] + blocks[1..] == blocks;
    groups := StackFromGroups([blocks[0]], blocks[1..]);
  }

  /** After i blocks the result, its last block still open, leads to the full stack. */
  ghost predicate Stacking(blocks: seq<Rect>, result: seq<Rect>, i: nat) {
    && result != [] && i <= |blocks|
    && result[..|result| - 1] + StackFrom(result[|result| - 1], blocks[i..]) == Stack(blocks)
  }

  lemma StackStep(blocks: seq<Rect>, result: seq<Rect>, i: nat)
    requires Stacking(blocks, result, i) && i < |blocks|
    ensures var r0 := result[|result| - 1];
            Stacking(blocks, if Stacks(r0, blocks[i]) then result[|result| - 1 := Union(r0, blocks[i])] else result + [blocks[i]], i + 1)
  {
    var r0, init := result[|result| - 1], result[..|result| - 1];
    assert blocks[i..][0] == blocks[i] && blocks[i..][1..] == blocks[i + 1..];
    if Stacks(r0, blocks[i]) {
      assert result[|result| - 1 := Union(r0, blocks[i])][..|result| - 1] == init;
    } else {
      assert (result + [blocks[i]])[..|result|] == init + [r0];
    }
  }

  method StackBlocks(blocks: seq<Rect>) returns (result: seq<Rect>)
    requires blocks != []
    ensures result == Stack(blocks)
    ensures Regroups(blocks, result)
  {
    result := [blocks[0]];
    assert Stacking(blocks, result, 1);
    for i := 1 to |blocks|
      invariant Stacking(blocks, result, i)
    {
      StackStep(blocks, result, i);
      var r0, r := result[|result| - 1], blocks[i];
      if Stacks(r0, r) {
        result := result[|result| - 1 := Union(r0, r)];
      } else {
        result := result + [r];
      }
    }
    StackDone(blocks, result);
    StackFromRegroups(blocks[0], blocks[1..]);
    assert [blocks[0]] + blocks[1..] == blocks;
  }

  lemma StackDone(blocks: seq<Rect>, result: seq<Rect>)
    requires Stacking(blocks, result, |blocks|)
    ensures result == Stack(blocks)
  {
    assert blocks[|blocks|..] == [];
    assert result == result[..|result| - 1] + [result[|result| - 1]];
  }

  function LeftThenTop(): Rect -> (real, real) { (r: Rect) => (r.x0, r.y0) }

  /** The snapped blocks in order of their left, then top side. */
  ghost predicate InStackOrder(blocks: seq<Rect>, sorted: seq<Rect>) {
    && (forall i, j :: 0 <= i < j < |sorted| ==> PairLe((sorted[i].x0, sorted[i].y0), (sorted[j].x0, sorted[j].y0)))
    && Permutes(sorted, SnappedTo(blocks, |blocks|))
  }

  method SnapAndSort(blocks: seq<Rect>) returns (sorted: seq<Rect>)
    ensures InStackOrder(blocks, sorted)
  {
    var a := new Rect[|blocks|](i requires 0 <= i < |blocks| => blocks[i]);
    assert a[..] == blocks;
    SnapSides(a);
    sorted := SortByPair(a[..], LeftThenTop());
  }

  lemma StackOrderRegroups(blocks: seq<Rect>, sorted: seq<Rect>)
    requires InStackOrder(blocks, sorted)
    ensures Regroups(blocks, sorted) && |sorted| == |blocks|
  {
    var snapped := SnappedTo(blocks, |blocks|);
    SnappedFacts(blocks, |blocks|);
    PermutesFacts(sorted, snapped);
    SameElementsRegroup(snapped, sorted);
    RegroupsTransitive(blocks, snapped, sorted);
  }

  ghost predicate IsStacked(blocks: seq<Rect>, result: seq<Rect>) {
    if |blocks| < 2 then result == blocks else exists sorted :: InStackOrder(blocks, sorted) && result == Stack(sorted)
  }

  method PhaseTwo(blocks: seq<Rect>) returns (result: seq<Rect>)
    ensures IsStacked(blocks, result)
    ensures Regroups(blocks, result)
  {
    if |blocks| < 2 {
      RegroupsSelf(blocks);
      return blocks;
    }
    var ordered := SnapAndSort(blocks);
    StackOrderRegroups(blocks, ordered);
    result := StackBlocks(ordered);
    RegroupsTransitive(blocks, ordered, result);
  }
}
