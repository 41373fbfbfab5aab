/** The sort for reading order at the end of joinPhase3 (internal/pdftomd/columns.go). */
module ReadingOrder {
  import opened Rects
  import opened Sorting
  import opened ColumnMerge

  // ----- Reading order -----

  /** r lies to the left of box and overlaps it vertically at an end of r. */
  predicate LeftOf(r: Rect, box: Rect) {
    r.x1 < box.x0 && ((box.y0 <= r.y0 <= box.y1) || (box.y0 <= r.y1 <= box.y1))
  }

  function ReadingKey(rects: seq<Rect>, box: Rect): (real, real) {
    if rects == [] then (box.y0, box.x0)
    else
      var key, r := ReadingKey(rects[..|rects| - 1], box), rects[|rects| - 1];
      if LeftOf(r, box) && (r.y0 < key.0 || (r.y0 == key.0 && r.x0 < key.1)) then (r.y0, box.x0) else key
  }

  /** The top or the bottom of r is at a height of the box. */
  predicate LevelAtEnd(r: Rect, box: Rect) { box.y0 <= r.y0 <= box.y1 || box.y0 <= r.y1 <= box.y1 }

  /** The key's first part is the highest top among the box and everything left of it. */
  lemma {:induction false} ReadingKeyIsHighest(rects: seq<Rect>, box: Rect)
    ensures var key := ReadingKey(rects, box);
            && key.1 == box.x0 && key.0 <= box.y0
            && (key.0 == box.y0 || exists r :: r in rects && r.x1 < box.x0 && LevelAtEnd(r, box) && r.y0 == key.0)
            && (forall r :: r in rects && r.x1 < box.x0 && LevelAtEnd(r, box) ==> key.0 <= r.y0)
  {
    if rects != [] {
      var init, r := rects[..|rects| - 1], rects[|rects| - 1];
      assert rects == init + [r];
      ReadingKeyIsHighest(init, box);
      var key := ReadingKey(init, box);
      if key.0 != box.y0 {
        var s :| s in init && LeftOf(s, box) && s.y0 == key.0;
        assert s in rects;
      }
    }
  }

  method KeyFor(rects: seq<Rect>, box: Rect) returns (key: (real, real))
    ensures key == ReadingKey(rects, box)
  {
    key := (box.y0, box.x0);
    for i := 0 to |rects|
      invariant key == ReadingKey(rects[..i], box)
    {
      assert rects[..i + 1][..i] == rects[..i];
      var r := rects[i];
      if r.x1 < box.x0 && ((box.y0 <= r.y0 && r.y0 <= box.y1) || (box.y0 <= r.y1 && r.y1 <= box.y1)) {
        if r.y0 < key.0 || (r.y0 == key.0 && r.x0 < key.1) {
          key := (r.y0, box.x0);
        }
      }
    }
    assert rects[..|rects|] == rects;
  }

  datatype SortEntry = SortEntry(rect: Rect, key: (real, real))

  function EntryKey(): SortEntry -> (real, real) { (e: SortEntry) => e.key }

  ghost predicate InReadingOrder(rects: seq<Rect>, sorted: seq<Rect>) {
    && Permutes(sorted, rects)
    && forall i, j :: 0 <= i < j < |sorted| ==> PairLe(ReadingKey(rects, sorted[i]), ReadingKey(rects, sorted[j]))
  }

  function RectOf(): SortEntry -> Rect { (e: SortEntry) => e.rect }

  method SortForReading(rects: seq<Rect>) returns (sorted: seq<Rect>)
    ensures InReadingOrder(rects, sorted)
  {
    var entries: seq<SortEntry> := [];
    for i := 0 to |rects|
      invariant |entries| == i
      invariant forall k :: 0 <= k < i ==> entries[k] == SortEntry(rects[k], ReadingKey(rects, rects[k]))
    {
      var key := KeyFor(rects, rects[i]);
      entries := entries + [SortEntry(rects[i], key)];
    }
    var ordered := SortByPair(entries, EntryKey());
    PermutesFacts(ordered, entries);
    sorted := Map(ordered, RectOf());
    assert Map(entries, RectOf()) == rects;
    MapPermutes(ordered, entries, RectOf());
    forall i, j | 0 <= i < j < |sorted| ensures PairLe(ReadingKey(rects, sorted[i]), ReadingKey(rects, sorted[j])) {
      assert ordered[i] in entries && ordered[j] in entries;
      assert PairLe(EntryKey()(ordered[i]), EntryKey()(ordered[j]));
    }
  }

  lemma {:induction false} ApartPermutes(a: seq<Rect>, b: seq<Rect>)
    requires Permutes(a, b) && PairwiseApart(a)
    requires AllNonEmpty(a)
    ensures PairwiseApart(b)
  {
    PermutesFacts(a, b);
    forall i, j | 0 <= i < j < |b| ensures !Touch(b[i], b[j]) {
      if b[i] == b[j] {
        RepeatedTwice(b, i, j);
        ApartNoRepeats(a, b[i]);
      } else {
        assert b[i] in a && b[j] in a;
        var k :| 0 <= k < |a| && a[k] == b[i];
        var l :| 0 <= l < |a| && a[l] == b[j];
        TouchSymmetric(a[k], a[l]);
      }
    }
  }

  lemma ApartDiffer(a: seq<Rect>, i: nat, j: nat)
    requires PairwiseApart(a) && AllNonEmpty(a) && i < j < |a|
    ensures a[i] != a[j]
  {
    TouchesPart(a[j], a[j]);
  }

  lemma {:induction false} ApartNoRepeats(a: seq<Rect>, r: Rect)
    requires PairwiseApart(a) && AllNonEmpty(a)
    ensures multiset(a)[r] <= 1
    decreases |a|
  {
    if a != [] {
      var init, last := a[..|a| - 1], a[|a| - 1];
      assert a == init + [last];
      ApartNoRepeats(init, r);
      if r in init {
        var k :| 0 <= k < |init| && init[k] == r;
        ApartDiffer(a, k, |a| - 1);
      }
    }
  }
}
