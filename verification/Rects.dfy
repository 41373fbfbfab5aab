/** Rectangles of internal/pdftomd/columns.go and what merging a list of them keeps. */
module Rects {
  import opened Wrappers

  datatype Rect = Rect(x0: real, y0: real, x1: real, y1: real)

  function Union(a: Rect, b: Rect): Rect {
    Rect(Min(a.x0, b.x0), Min(a.y0, b.y0), Max(a.x1, b.x1), Max(a.y1, b.y1))
  }

  function Intersect(a: Rect, b: Rect): Rect {
    var r := Rect(Max(a.x0, b.x0), Max(a.y0, b.y0), Min(a.x1, b.x1), Min(a.y1, b.y1));
    if r.x0 >= r.x1 || r.y0 >= r.y1 then Rect(0.0, 0.0, 0.0, 0.0) else r
  }

  predicate IsEmpty(r: Rect) { r.x0 >= r.x1 || r.y0 >= r.y1 }

  predicate Touch(a: Rect, b: Rect) { !IsEmpty(Intersect(a, b)) }

  /** Rectangles touch exactly if their interiors overlap. */
  lemma TouchIsOverlap(a: Rect, b: Rect)
    ensures Touch(a, b) <==>
            && a.x0 < a.x1 && b.x0 < b.x1 && a.x0 < b.x1 && b.x0 < a.x1
            && a.y0 < a.y1 && b.y0 < b.y1 && a.y0 < b.y1 && b.y0 < a.y1
  {
  }

  /** The union is the least rectangle around both. */
  lemma UnionIsLeast(a: Rect, b: Rect, h: Rect)
    ensures Contains(h, Union(a, b)) <==> Contains(h, a) && Contains(h, b)
  {
  }

  predicate Contains(a: Rect, b: Rect) {
    a.x0 <= b.x0 && a.y0 <= b.y0 && b.x1 <= a.x1 && b.y1 <= a.y1
  }

  // ----- What every phase keeps -----

  ghost predicate Covers(a: seq<Rect>, r: Rect) { exists s :: s in a && Contains(s, r) }

  ghost predicate HoldsOne(a: seq<Rect>, s: Rect) { exists r :: r in a && Contains(s, r) }

  /** h bounds the whole list; two lists have the same hull when the same rectangles
      bound them. */
  ghost predicate Bounds(h: Rect, a: seq<Rect>) { forall r :: r in a ==> Contains(h, r) }

  /** b regroups a: every rectangle of a lies inside one of b, every rectangle of b holds
      one of a, and b reaches nowhere that a does not. */
  ghost predicate Regroups(a: seq<Rect>, b: seq<Rect>) {
    && (forall r {:trigger Covers(b, r)} :: r in a ==> Covers(b, r))
    && (forall s {:trigger HoldsOne(a, s)} :: s in b ==> HoldsOne(a, s))
    && (forall h :: Bounds(h, a) ==> Bounds(h, b))
  }

  lemma RegroupsSelf(a: seq<Rect>)
    ensures Regroups(a, a)
  {
    forall r | r in a ensures Covers(a, r) && HoldsOne(a, r) {
      assert Contains(r, r);
    }
  }

  lemma SameElementsRegroup(a: seq<Rect>, b: seq<Rect>)
    requires forall r :: r in a <==> r in b
    ensures Regroups(a, b)
  {
    forall r | r in a ensures Covers(b, r) && HoldsOne(a, r) {
      assert r in b && Contains(r, r);
    }
    forall h | Bounds(h, a) ensures Bounds(h, b) {
    }
  }

  lemma CoversThrough(a: seq<Rect>, b: seq<Rect>, c: seq<Rect>, r: Rect)
    requires Covers(b, r) && forall s {:trigger Covers(c, s)} :: s in b ==> Covers(c, s)
    ensures Covers(c, r)
  {
    var s :| s in b && Contains(s, r);
    assert Covers(c, s);
    var t :| t in c && Contains(t, s);
    assert Contains(t, r);
  }

  lemma HoldsThrough(a: seq<Rect>, b: seq<Rect>, t: Rect)
    requires HoldsOne(b, t) && forall s {:trigger HoldsOne(a, s)} :: s in b ==> HoldsOne(a, s)
    ensures HoldsOne(a, t)
  {
    var s :| s in b && Contains(t, s);
    assert HoldsOne(a, s);
    var r :| r in a && Contains(s, r);
    assert Contains(t, r);
  }

  lemma RegroupsTransitive(a: seq<Rect>, b: seq<Rect>, c: seq<Rect>)
    requires Regroups(a, b) && Regroups(b, c)
    ensures Regroups(a, c)
  {
    forall r | r in a ensures Covers(c, r) { CoversThrough(a, b, c, r); }
    forall t | t in c ensures HoldsOne(a, t) { HoldsThrough(a, b, t); }
    forall h | Bounds(h, a) ensures Bounds(h, c) {
      assert Bounds(h, b);
    }
  }

  /** Regrouping does not change the overall bounding rectangle. */
  lemma RegroupsKeepsHull(a: seq<Rect>, b: seq<Rect>, h: Rect)
    requires Regroups(a, b)
    ensures Bounds(h, a) <==> Bounds(h, b)
  {
    if Bounds(h, b) {
      forall r | r in a ensures Contains(h, r) {
        assert Covers(b, r);
        var s :| s in b && Contains(s, r);
        assert Contains(h, s);
      }
    }
  }

  /** Two rectangles replaced by their union, the others kept. */
  lemma MergeRegroups(a: seq<Rect>, b: seq<Rect>, r: Rect, s: Rect)
    requires r in a && s in a
    requires forall t :: t in a ==> t == r || t == s || t in b
    requires forall t :: t in b ==> t == Union(r, s) || t in a
    requires Union(r, s) in b
    ensures Regroups(a, b)
  {
    var u := Union(r, s);
    assert Contains(u, r) && Contains(u, s);
    forall t | t in a ensures Covers(b, t) {
      assert Contains(t, t);
    }
    forall t | t in b ensures HoldsOne(a, t) {
      assert Contains(t, t);
    }
    forall h | Bounds(h, a) ensures Bounds(h, b) {
      assert Contains(h, r) && Contains(h, s) && Contains(h, u);
    }
  }

  lemma RegroupsAppend(a: seq<Rect>, b: seq<Rect>, x: Rect)
    requires Regroups(a, b)
    ensures Regroups(a + [x], b + [x])
  {
    var a', b' := a + [x], b + [x];
    assert x in a' && x in b' && Contains(x, x);
    forall r | r in a' ensures Covers(b', r) {
      if r in a {
        assert Covers(b, r);
        var s :| s in b && Contains(s, r);
        assert s in b';
      }
    }
    forall s | s in b' ensures HoldsOne(a', s) {
      if s in b {
        assert HoldsOne(a, s);
        var r :| r in a && Contains(s, r);
        assert r in a';
      }
    }
    forall h | Bounds(h, a') ensures Bounds(h, b') {
      assert Bounds(h, a);
    }
  }

  ghost predicate AllNonEmpty(a: seq<Rect>) { forall i :: 0 <= i < |a| ==> !IsEmpty(a[i]) }

  lemma LargerNonEmpty(s: Rect, r: Rect)
    requires Contains(s, r) && !IsEmpty(r)
    ensures !IsEmpty(s)
  {
  }

  lemma RegroupsNonEmpty(a: seq<Rect>, b: seq<Rect>)
    requires Regroups(a, b) && AllNonEmpty(a)
    ensures AllNonEmpty(b)
  {
    forall i | 0 <= i < |b| ensures !IsEmpty(b[i]) {
      assert HoldsOne(a, b[i]);
      var r :| r in a && Contains(b[i], r);
      var k :| 0 <= k < |a| && a[k] == r;
      LargerNonEmpty(b[i], r);
    }
  }

  ghost predicate PairwiseApart(a: seq<Rect>) {
    forall i, j :: 0 <= i < j < |a| ==> !Touch(a[i], a[j])
  }
}
