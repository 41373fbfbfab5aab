/** sort.Slice and sort.Float64s: some ascending permutation, nothing more. */
module Sorting {
  ghost predicate AscendingBy<T(!new)>(s: seq<T>, key: T -> real) {
    forall i, j :: 0 <= i < j < |s| ==> key(s[i]) <= key(s[j])
  }

  ghost predicate Ascending(s: seq<real>) {
    forall i, j :: 0 <= i < j < |s| ==> s[i] <= s[j]
  }

  ghost predicate StrictlyAscending(s: seq<real>) {
    forall i, j :: 0 <= i < j < |s| ==> s[i] < s[j]
  }

  ghost predicate Permutes<T>(a: seq<T>, b: seq<T>) {
    multiset(a) == multiset(b)
  }

  lemma PermutesFacts<T>(a: seq<T>, b: seq<T>)
    requires Permutes(a, b)
    ensures |a| == |b|
    ensures forall x :: x in a <==> x in b
  {
    assert |multiset(a)| == |multiset(b)|;
    forall x ensures x in a <==> x in b {
      assert x in a <==> x in multiset(a);
      assert x in b <==> x in multiset(b);
    }
  }

  lemma SplicePermutes<T>(s: seq<T>, i: nat, x: T)
    requires i <= |s|
    ensures Permutes(s[..i] + [x] + s[i..], s + [x])
  {
    assert s == s[..i] + s[i..];
  }

  ghost predicate SortedBy<T(!new)>(s: seq<T>, le: (T, T) -> bool) {
    forall i, j :: 0 <= i < j < |s| ==> le(s[i], s[j])
  }

  /** The order of a sort: any two elements compare, and comparisons chain. */
  ghost predicate IsOrder<T(!new)>(le: (T, T) -> bool) {
    && (forall a, b :: le(a, b) || le(b, a))
    && (forall a, b, c :: le(a, b) && le(b, c) ==> le(a, c))
  }

  lemma SpliceSorts<T(!new)>(s: seq<T>, le: (T, T) -> bool, i: nat, x: T)
    requires IsOrder(le) && SortedBy(s, le) && i <= |s|
    requires i > 0 ==> le(s[i - 1], x)
    requires forall j :: i <= j < |s| ==> le(x, s[j])
    ensures SortedBy(s[..i] + [x] + s[i..], le)
  {
    var r := s[..i] + [x] + s[i..];
    forall a, b | 0 <= a < b < |r| ensures le(r[a], r[b]) {
      assert a < i ==> r[a] == s[a] && (a == i - 1 || le(s[a], s[i - 1]));
      assert a > i ==> r[a] == s[a - 1];
      assert b < i ==> r[b] == s[b];
      assert b > i ==> r[b] == s[b - 1];
    }
  }

  /** Inserts x behind the last element that does not come after it. */
  method Insert<T(!new)>(s: seq<T>, le: (T, T) -> bool, x: T) returns (r: seq<T>)
    requires IsOrder(le) && SortedBy(s, le)
    ensures SortedBy(r, le) && Permutes(r, s + [x])
  {
    var i := |s|;
    while i > 0 && !le(s[i - 1], x)
      invariant 0 <= i <= |s|
      invariant forall j :: i <= j < |s| ==> le(x, s[j])
    {
      i := i - 1;
    }
    r := s[..i] + [x] + s[i..];
    SpliceSorts(s, le, i, x);
    SplicePermutes(s, i, x);
  }

  method Sort<T(!new)>(s: seq<T>, le: (T, T) -> bool) returns (r: seq<T>)
    requires IsOrder(le)
    ensures SortedBy(r, le) && Permutes(r, s)
  {
    r := [];
    for i := 0 to |s|
      invariant SortedBy(r, le) && Permutes(r, s[..i])
    {
      r := Insert(r, le, s[i]);
      assert s[..i + 1] == s[..i] + [s[i]];
    }
    assert s[..|s|] == s;
  }

  method SortBy<T(!new)>(s: seq<T>, key: T -> real) returns (r: seq<T>)
    ensures AscendingBy(r, key) && Permutes(r, s)
  {
    var le := (a, b) => key(a) <= key(b);
    r := Sort(s, le);
    assert forall i, j :: 0 <= i < j < |r| ==> le(r[i], r[j]);
  }

  /** Ascending by the first key, then by the second. */
  ghost predicate AscendingByPair<T(!new)>(s: seq<T>, key: T -> (real, real)) {
    forall i, j :: 0 <= i < j < |s| ==> PairLe(key(s[i]), key(s[j]))
  }

  predicate PairLe(a: (real, real), b: (real, real)) { a.0 < b.0 || (a.0 == b.0 && a.1 <= b.1) }

  method SortByPair<T(!new)>(s: seq<T>, key: T -> (real, real)) returns (r: seq<T>)
    ensures AscendingByPair(r, key) && Permutes(r, s)
  {
    var le := (a, b) => PairLe(key(a), key(b));
    r := Sort(s, le);
    assert forall i, j :: 0 <= i < j < |r| ==> le(r[i], r[j]);
  }

  method SortReals(s: seq<real>) returns (r: seq<real>)
    ensures Ascending(r) && Permutes(r, s)
  {
    r := SortBy(s, (x: real) => x);
    assert forall i :: 0 <= i < |r| ==> ((x: real) => x)(r[i]) == r[i];
  }

  function Map<A, B>(a: seq<A>, f: A -> B): (r: seq<B>)
    ensures |r| == |a| && forall i :: 0 <= i < |a| ==> r[i] == f(a[i])
  {
    seq(|a|, i requires 0 <= i < |a| => f(a[i]))
  }

  lemma RemoveOne<T>(s: seq<T>, k: nat)
    requires k < |s|
    ensures multiset(s) == multiset(s[..k] + s[k + 1..]) + multiset{s[k]}
  {
    assert s == s[..k] + [s[k]] + s[k + 1..];
  }

  lemma RemoveFirst<T>(s: seq<T>)
    requires s != []
    ensures multiset(s) == multiset(s[1..]) + multiset{s[0]}
  {
    assert s == [s[0]] + s[1..];
  }

  lemma CancelOne<T>(a: multiset<T>, b: multiset<T>, x: T)
    requires a + multiset{x} == b + multiset{x}
    ensures a == b
  {
    assert a == (a + multiset{x}) - multiset{x};
    assert b == (b + multiset{x}) - multiset{x};
  }

  /** Taking the first of a away from a permutation of a. */
  lemma PermutesWithoutFirst<T>(a: seq<T>, b: seq<T>) returns (pre: seq<T>, post: seq<T>)
    requires Permutes(a, b) && a != []
    ensures b == pre + [a[0]] + post && Permutes(a[1..], pre + post)
  {
    PermutesFacts(a, b);
    assert a[0] in b;
    var k :| 0 <= k < |b| && b[k] == a[0];
    RemoveFirst(a);
    RemoveOne(b, k);
    CancelOne(multiset(a[1..]), multiset(b[..k] + b[k + 1..]), a[0]);
    pre, post := b[..k], b[k + 1..];
  }

  /** Mapping keeps permutations. */
  lemma {:induction false} MapPermutes<A, B>(a: seq<A>, b: seq<A>, f: A -> B)
    requires Permutes(a, b)
    ensures Permutes(Map(a, f), Map(b, f))
    decreases |a|
  {
    PermutesFacts(a, b);
    if a != [] {
      var pre, post := PermutesWithoutFirst(a, b);
      MapPermutes(a[1..], pre + post, f);
      RemoveFirst(Map(a, f));
      assert Map(a, f)[1..] == Map(a[1..], f);
      MapRemoves(b, pre, a[0], post, f);
    }
  }

  lemma MapRemoves<A, B>(a: seq<A>, pre: seq<A>, x: A, post: seq<A>, f: A -> B)
    requires a == pre + [x] + post
    ensures multiset(Map(a, f)) == multiset(Map(pre + post, f)) + multiset{f(x)}
  {
    assert Map(a, f) == Map(pre, f) + [f(x)] + Map(post, f);
    assert Map(pre + post, f) == Map(pre, f) + Map(post, f);
    MoveMiddle(Map(pre, f), [f(x)], Map(post, f));
  }

  lemma MoveMiddle<T>(x: seq<T>, y: seq<T>, z: seq<T>)
    ensures multiset(x + y + z) == multiset(x + z) + multiset(y)
  {
  }

  lemma RepeatedTwice<T>(s: seq<T>, i: nat, j: nat)
    requires i < j < |s| && s[i] == s[j]
    ensures multiset(s)[s[i]] >= 2
  {
    assert s == s[..j] + s[j..];
    assert s[..j][i] == s[i] && s[j..][0] == s[i];
  }

  /** Concatenation of f over the list: a filter and a map in one. */
  function Collect<A, B>(a: seq<A>, f: A -> seq<B>): seq<B> {
    if a == [] then [] else Collect(a[..|a| - 1], f) + f(a[|a| - 1])
  }

  lemma {:induction false} CollectConcat<A, B>(a: seq<A>, b: seq<A>, f: A -> seq<B>)
    ensures Collect(a + b, f) == Collect(a, f) + Collect(b, f)
    decreases |b|
  {
    if b == [] {
      assert a + b == a;
    } else {
      assert (a + b)[..|a + b| - 1] == a + b[..|b| - 1];
      CollectConcat(a, b[..|b| - 1], f);
    }
  }

  lemma CollectAppend<A, B>(a: seq<A>, x: A, f: A -> seq<B>)
    ensures Collect(a + [x], f) == Collect(a, f) + f(x)
  {
    assert (a + [x])[..|a|] == a;
  }

  lemma CollectAround<A, B>(pre: seq<A>, x: A, post: seq<A>, f: A -> seq<B>)
    ensures Collect(pre + [x] + post, f) == Collect(pre, f) + f(x) + Collect(post, f)
  {
    CollectConcat(pre + [x], post, f);
    CollectAppend(pre, x, f);
  }

  /** One element less: a is pre and post around x. */
  lemma CollectRemoves<A, B>(a: seq<A>, pre: seq<A>, x: A, post: seq<A>, f: A -> seq<B>)
    requires a == pre + [x] + post
    ensures multiset(Collect(a, f)) == multiset(Collect(pre + post, f)) + multiset(f(x))
  {
    CollectAround(pre, x, post, f);
    CollectConcat(pre, post, f);
    MoveMiddle(Collect(pre, f), f(x), Collect(post, f));
  }

  lemma CollectFirst<A, B>(a: seq<A>, f: A -> seq<B>)
    requires a != []
    ensures multiset(Collect(a, f)) == multiset(Collect(a[1..], f)) + multiset(f(a[0]))
  {
    var none: seq<A> := [];
    assert a == none + [a[0]] + a[1..];
    assert none + a[1..] == a[1..];
    CollectRemoves(a, none, a[0], a[1..], f);
  }

  /** What is collected does not depend on the order of the list. */
  lemma {:induction false} CollectPermutes<A, B>(a: seq<A>, b: seq<A>, f: A -> seq<B>)
    requires Permutes(a, b)
    ensures Permutes(Collect(a, f), Collect(b, f))
    decreases |a|
  {
    PermutesFacts(a, b);
    if a != [] {
      var pre, post := PermutesWithoutFirst(a, b);
      CollectPermutes(a[1..], pre + post, f);
      CollectFirst(a, f);
      CollectRemoves(b, pre, a[0], post, f);
    }
  }

  lemma PermutesAround<T>(x: seq<T>, a: seq<T>, b: seq<T>, y: seq<T>)
    requires Permutes(a, b)
    ensures Permutes(x + a + y, x + b + y)
  {
  }

  /** An ascending list of reals is determined by its contents. */
  lemma {:induction false} AscendingUnique(a: seq<real>, b: seq<real>)
    requires Ascending(a) && Ascending(b) && Permutes(a, b)
    ensures a == b
    decreases |a|
  {
    PermutesFacts(a, b);
    if a != [] {
      assert a[0] in b && b[0] in a;
      assert a[0] == b[0];
      RemoveFirst(a);
      RemoveFirst(b);
      CancelOne(multiset(a[1..]), multiset(b[1..]), a[0]);
      AscendingUnique(a[1..], b[1..]);
    }
  }
}
