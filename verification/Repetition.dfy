/** truncateRepetition (internal/server/vlm.go): the scan that cuts repetition
    loops out of model output, against a decomposition of the original text. */
module Repetition {
  import opened Wrappers

  const MIN_WINDOW: nat := 10
  const MAX_WINDOW: nat := 200
  const MIN_REPEATS: nat := 3

  // ----- Repetition loops, declaratively -----

  function Block(t: seq<byte>, w: nat, k: nat): seq<byte>
    requires (k + 1) * w <= |t|
  {
    assert k * w + w == (k + 1) * w;
    t[k * w..(k + 1) * w]
  }

  lemma BlocksFit(w: nat, k: nat, n: nat)
    requires k < n
    ensures (k + 1) * w <= n * w
  {
  }

  /** `t` starts with the same w-byte word n times in a row. */
  ghost predicate StartsWithCopies(t: seq<byte>, w: nat, n: nat) {
    && n * w <= |t|
    && forall k: nat :: k < n ==> (k + 1) * w <= |t| && Block(t, w, k) == t[..w]
  }

  /** The first `len` bytes of `t` are a repetition loop. */
  ghost predicate Loop(t: seq<byte>, len: nat) {
    exists w: nat, n: nat :: 10 <= w <= 200 && n >= 3 && len == n * w && StartsWithCopies(t, w, n)
  }

  ghost predicate LongestLoop(t: seq<byte>, len: nat) {
    Loop(t, len) && forall m: nat :: Loop(t, m) ==> m <= len
  }

  ghost predicate NoLoop(t: seq<byte>) {
    forall m: nat :: !Loop(t, m)
  }

  // ----- The decomposition -----

  datatype Piece = Kept(b: byte) | Cut(block: seq<byte>)

  function Text(p: Piece): seq<byte> {
    match p case Kept(b) => [b] case Cut(block) => block
  }

  function Flatten(ps: seq<Piece>): seq<byte> {
    if ps == [] then [] else Text(ps[0]) + Flatten(ps[1..])
  }

  function Survivors(ps: seq<Piece>): seq<byte> {
    if ps == [] then [] else (match ps[0] case Kept(b) => [b] case Cut(_) => []) + Survivors(ps[1..])
  }

  ghost predicate PieceOk(p: Piece, t: seq<byte>) {
    match p
    case Kept(_) => NoLoop(t)
    case Cut(block) => LongestLoop(t, |block|)
  }

  /** `ps` splits `s`, left to right, into kept bytes and cut blocks: a cut is the
      longest loop of the original text at its position, a kept byte starts none. */
  ghost predicate IsDecomposition(s: seq<byte>, ps: seq<Piece>) {
    && Flatten(ps) == s
    && forall i: nat :: i < |ps| ==>
         PieceOk(ps[i], Flatten(ps[i..]))
  }

  // ----- Facts about loops -----

  lemma {:induction false} CopiesShrink(t: seq<byte>, w: nat, n: nat, m: nat)
    requires StartsWithCopies(t, w, n) && m <= n
    ensures StartsWithCopies(t, w, m)
  {
    if m < n { BlocksFit(w, m, n); }
    forall k: nat | k < m ensures (k + 1) * w <= |t| && Block(t, w, k) == t[..w] {
      assert (k + 1) * w <= |t| && Block(t, w, k) == t[..w];
    }
  }

  lemma LoopLength(t: seq<byte>, len: nat)
    requires Loop(t, len)
    ensures 30 <= len <= |t|
  {
    var w: nat, n: nat :| 10 <= w <= 200 && n >= 3 && len == n * w && StartsWithCopies(t, w, n);
    ProductAtLeast(n, w, 3, 10);
  }

  lemma ProductAtLeast(n: nat, w: nat, n0: nat, w0: nat)
    requires n >= n0 && w >= w0
    ensures n * w >= n0 * w0
  {
    assert n * w >= n0 * w;
    assert n0 * w >= n0 * w0;
  }

  lemma LoopFor(t: seq<byte>, w: nat, n: nat)
    requires 10 <= w <= 200 && n >= 3 && StartsWithCopies(t, w, n)
    ensures Loop(t, n * w)
  {
  }

  lemma ShortTextHasNoLoop(t: seq<byte>)
    requires |t| < 30
    ensures NoLoop(t)
  {
    forall m: nat ensures !Loop(t, m) {
      if Loop(t, m) { LoopLength(t, m); }
    }
  }

  // ----- The pure scan -----

  ghost function LongestUpTo(t: seq<byte>, n: nat): nat {
    if Loop(t, n) then n else if n == 0 then 0 else LongestUpTo(t, n - 1)
  }

  lemma {:induction false} LongestUpToIsMax(t: seq<byte>, n: nat)
    ensures LongestUpTo(t, n) <= n
    ensures LongestUpTo(t, n) > 0 ==> Loop(t, LongestUpTo(t, n))
    ensures forall m: nat :: m <= n && Loop(t, m) ==> m <= LongestUpTo(t, n)
  {
    if n > 0 && !Loop(t, n) {
      LongestUpToIsMax(t, n - 1);
    }
  }

  ghost function Longest(t: seq<byte>): (r: nat)
    ensures r <= |t|
    ensures r > 0 ==> LongestLoop(t, r)
    ensures r == 0 ==> NoLoop(t)
  {
    LongestUpToIsMax(t, |t|);
    assert forall m: nat :: Loop(t, m) ==> 30 <= m <= |t| by {
      forall m: nat | Loop(t, m) ensures 30 <= m <= |t| { LoopLength(t, m); }
    }
    LongestUpTo(t, |t|)
  }

  ghost function Scan(s: seq<byte>): seq<byte> {
    if s == [] then []
    else if Longest(s) > 0 then Scan(s[Longest(s)..])
    else [s[0]] + Scan(s[1..])
  }

  lemma {:induction false} ScanOfLoopFree(s: seq<byte>)
    requires |s| < 30
    ensures Scan(s) == s
  {
    ShortTextHasNoLoop(s);
    if s != [] { ScanOfLoopFree(s[1..]); }
  }

  lemma {:induction false} ScanNeverGrows(s: seq<byte>)
    ensures |Scan(s)| <= |s|
    decreases |s|
  {
    if s != [] {
      if Longest(s) > 0 { ScanNeverGrows(s[Longest(s)..]); } else { ScanNeverGrows(s[1..]); }
    }
  }

  // ----- The scan and the decomposition -----

  lemma FlattenCons(p: Piece, ps: seq<Piece>)
    ensures Flatten([p] + ps) == Text(p) + Flatten(ps)
    ensures Survivors([p] + ps) == (match p case Kept(b) => [b] case Cut(_) => []) + Survivors(ps)
  {
    assert ([p] + ps)[1..] == ps;
  }

  lemma ConsDecomposition(p: Piece, rest: seq<byte>, ps: seq<Piece>)
    requires IsDecomposition(rest, ps) && PieceOk(p, Text(p) + rest)
    ensures IsDecomposition(Text(p) + rest, [p] + ps)
  {
    var all := [p] + ps;
    FlattenCons(p, ps);
    forall i: nat | i < |all| ensures PieceOk(all[i], Flatten(all[i..])) {
      if i == 0 {
        assert all[0..] == all;
      } else {
        assert all[i] == ps[i - 1] && all[i..] == ps[i - 1..];
      }
    }
  }

  /** Every text has such a decomposition and the scan keeps its survivors. */
  lemma {:induction false} ScanDecomposes(s: seq<byte>) returns (ps: seq<Piece>)
    ensures IsDecomposition(s, ps) && Survivors(ps) == Scan(s)
    decreases |s|
  {
    if s == [] {
      ps := [];
    } else {
      var n := if Longest(s) > 0 then Longest(s) else 1;
      var p := if Longest(s) > 0 then Cut(s[..n]) else Kept(s[0]);
      var rest := ScanDecomposes(s[n..]);
      assert Text(p) + s[n..] == s;
      ConsDecomposition(p, s[n..], rest);
      FlattenCons(p, rest);
      ps := [p] + rest;
    }
  }

  lemma DecompositionTail(s: seq<byte>, ps: seq<Piece>, n: nat)
    requires IsDecomposition(s, ps) && ps != []
    requires n == |Text(ps[0])|
    ensures n <= |s| && IsDecomposition(s[n..], ps[1..])
  {
    var rest := ps[1..];
    forall i: nat | i < |rest|
      ensures PieceOk(rest[i], Flatten(rest[i..]))
    {
      assert rest[i] == ps[i + 1] && rest[i..] == ps[i + 1..];
    }
  }

  /** The decomposition is unique, so it alone determines what survives. */
  lemma {:induction false} DecompositionUnique(s: seq<byte>, ps: seq<Piece>)
    requires IsDecomposition(s, ps)
    ensures Survivors(ps) == Scan(s)
    decreases |ps|
  {
    if ps != [] {
      assert ps[0..] == ps;
      var n := |Text(ps[0])|;
      if ps[0].Cut? { LoopLength(s, n); }
      DecompositionTail(s, ps, n);
      DecompositionUnique(s[n..], ps[1..]);
    }
  }

  /** A text survives unchanged exactly when no position of it starts a loop. */
  lemma {:induction false} UnchangedIffLoopFree(s: seq<byte>)
    ensures Scan(s) == s <==> forall o: nat :: o <= |s| ==> NoLoop(s[o..])
    decreases |s|
  {
    if s == [] {
      ShortTextHasNoLoop(s);
      assert forall o: nat :: o <= |s| ==> s[o..] == s;
    } else if Longest(s) > 0 {
      ScanNeverGrows(s[Longest(s)..]);
      assert s[0..] == s && Loop(s, Longest(s));
      assert !NoLoop(s[0..]);
    } else {
      UnchangedIffLoopFree(s[1..]);
      assert s == [s[0]] + s[1..] && s[0..] == s;
      assert (forall o: nat :: o <= |s[1..]| ==> NoLoop(s[1..][o..])) <==> (forall o: nat :: o <= |s| ==> NoLoop(s[o..])) by {
        assert forall o: nat :: o < |s| ==> s[1..][o..] == s[o + 1..];
        assert forall o: nat :: 0 < o <= |s| ==> s[o..] == s[1..][o - 1..];
      }
    }
  }

  // ----- The loops of the program -----

  lemma OneMoreCopy(t: seq<byte>, w: nat, n: nat)
    requires StartsWithCopies(t, w, n) && n * w + w <= |t| && t[n * w..n * w + w] == t[..w]
    ensures StartsWithCopies(t, w, n + 1) && (n + 1) * w == n * w + w
  {
    assert (n + 1) * w == n * w + w;
    forall k: nat | k < n + 1 ensures (k + 1) * w <= |t| && Block(t, w, k) == t[..w] {
      if k == n {
        assert Block(t, w, n) == t[n * w..n * w + w];
      } else {
        assert (k + 1) * w <= |t| && Block(t, w, k) == t[..w];
      }
    }
  }

  lemma NoMoreCopies(t: seq<byte>, w: nat, n: nat, m: nat)
    requires n < m && (n * w + w > |t| || t[n * w..n * w + w] != t[..w])
    ensures !StartsWithCopies(t, w, m)
  {
    assert (n + 1) * w == n * w + w;
    if StartsWithCopies(t, w, m) {
      CopiesShrink(t, w, m, n + 1);
      LastCopy(t, w, n);
    }
  }

  lemma LastCopy(t: seq<byte>, w: nat, n: nat)
    requires StartsWithCopies(t, w, n + 1)
    ensures n * w + w <= |t| && t[n * w..n * w + w] == t[..w]
  {
    assert (n + 1) * w == n * w + w;
    assert Block(t, w, n) == t[n * w..n * w + w];
  }

  lemma OneCopy(t: seq<byte>, w: nat)
    requires w <= |t|
    ensures StartsWithCopies(t, w, 1) && 1 * w == w
  {
    assert Block(t, w, 0) == t[..w];
  }

  /** Counts how often the word at position i repeats. */
  method CountRepeats(b: seq<byte>, i: nat, window: nat) returns (repeats: nat)
    requires window > 0 && i + window <= |b|
    ensures repeats >= 1 && StartsWithCopies(b[i..], window, repeats)
    ensures forall n: nat :: StartsWithCopies(b[i..], window, n) ==> n <= repeats
  {
    ghost var t := b[i..];
    repeats := 1;
    OneCopy(t, window);
    var j := i + window;
    while j + window <= |b|
      invariant j == i + repeats * window
      invariant repeats >= 1 && StartsWithCopies(t, window, repeats)
      decreases |b| - j
    {
      ghost var at := repeats * window;
      assert b[j..j + window] == t[at..at + window] && b[i..i + window] == t[..window];
      if b[j..j + window] == b[i..i + window] {
        OneMoreCopy(t, window, repeats);
        repeats := repeats + 1;
        j := j + window;
      } else {
        break;
      }
    }
    forall n: nat | StartsWithCopies(t, window, n) ensures n <= repeats {
      if n > repeats {
        NoMoreCopies(t, window, repeats, n);
      }
    }
  }

  /** The longest loop at position i, 0 when there is none. */
  method BestLoop(b: seq<byte>, i: nat) returns (bestLen: nat)
    requires i <= |b|
    ensures bestLen == Longest(b[i..])
  {
    ghost var t := b[i..];
    bestLen := 0;
    var window := MIN_WINDOW;
    while window <= MAX_WINDOW && i + window * MIN_REPEATS <= |b|
      invariant MIN_WINDOW <= window <= MAX_WINDOW + 1
      invariant bestLen > 0 ==> Loop(t, bestLen)
      invariant forall w: nat, n: nat ::
                  MIN_WINDOW <= w < window && n >= MIN_REPEATS && StartsWithCopies(t, w, n) ==> n * w <= bestLen
    {
      var repeats := CountRepeats(b, i, window);
      ghost var before := bestLen;
      if repeats >= MIN_REPEATS {
        var blockLen := window * repeats;
        LoopFor(t, window, repeats);
        if blockLen > bestLen {
          bestLen := blockLen;
        }
      }
      forall w: nat, n: nat | MIN_WINDOW <= w < window + 1 && n >= MIN_REPEATS && StartsWithCopies(t, w, n)
        ensures n * w <= bestLen
      {
        if w == window { ProductAtLeast(repeats, window, n, window); } else { assert n * w <= before; }
      }
      window := window + 1;
    }
    forall m: nat | Loop(t, m) ensures m <= bestLen {
      var w: nat, n: nat :| 10 <= w <= 200 && n >= 3 && m == n * w && StartsWithCopies(t, w, n);
      ProductAtLeast(n, w, MIN_REPEATS, w);
      assert w < window;
    }
    if bestLen > 0 { LoopLength(t, bestLen); }
  }

  /** The text already kept, followed by what the scan makes of the rest. */
  ghost function Progress(b: seq<byte>, i: nat): seq<byte>
    requires i <= |b|
  {
    b[..i] + Scan(b[i..])
  }

  lemma CutStep(b: seq<byte>, i: nat)
    requires i < |b| && Longest(b[i..]) > 0
    ensures var n := Longest(b[i..]);
            i + n <= |b| && Progress(b[..i] + b[i + n..], i) == Progress(b, i)
  {
    var n := Longest(b[i..]);
    var cut := b[..i] + b[i + n..];
    assert b[i..][n..] == b[i + n..] == cut[i..] && cut[..i] == b[..i];
  }

  lemma KeepStep(b: seq<byte>, i: nat)
    requires i < |b| && Longest(b[i..]) == 0
    ensures Progress(b, i + 1) == Progress(b, i)
  {
    assert b[i..][1..] == b[i + 1..];
    assert b[..i + 1] == b[..i] + [b[i]];
  }

  /** truncateRepetition; `trim` stands for strings.TrimSpace, which runs only after
      a cut. Each iteration shortens what is left to scan. */
  method TruncateRepetition(s: seq<byte>, trim: seq<byte> -> seq<byte>) returns (r: seq<byte>)
    ensures r == if Scan(s) == s then s else trim(Scan(s))
  {
    var b := s;
    var changed := false;
    var i := 0;
    assert s[..0] == [] && s[0..] == s;
    while i + MIN_WINDOW * MIN_REPEATS <= |b|
      invariant i <= |b| <= |s|
      invariant Progress(b, i) == Scan(s)
      invariant changed <==> |b| < |s|
      invariant !changed ==> b == s
      decreases |b| - i
    {
      var bestLen := BestLoop(b, i);
      if bestLen > 0 {
        CutStep(b, i);
        b := b[..i] + b[i + bestLen..];
        changed := true;
      } else {
        KeepStep(b, i);
        i := i + 1;
      }
    }
    ScanOfLoopFree(b[i..]);
    assert b == b[..i] + b[i..] == Scan(s);
    if changed {
      return trim(b);
    }
    return s;
  }
}
