/** The clean-up at the end of columnToMarkdown (internal/pdftomd/markdown.go), said without
    its loops: what strings.ReplaceAll and strings.TrimSpace do to a text. */
module Cleaning {
  import opened Spans
  import opened Markdown

  ghost function Glue(parts: seq<string>, between: string): string {
    if parts == [] then "" else if |parts| == 1 then parts[0] else parts[0] + between + Glue(parts[1..], between)
  }

  ghost predicate Occurs(pattern: string, s: string, k: int) {
    0 <= k && k + |pattern| <= |s| && s[k..k + |pattern|] == pattern
  }

  ghost predicate Absent(pattern: string, s: string) { forall k :: !Occurs(pattern, s, k) }

  /** The parts of s between the occurrences of the pattern, found from the left. */
  ghost predicate SplitsInto(s: string, pattern: string, parts: seq<string>) {
    && parts != [] && s == Glue(parts, pattern)
    && (forall i, k :: 0 <= i < |parts| - 1 && 0 <= k < |parts[i]| ==> !Occurs(pattern, parts[i] + pattern, k))
    && Absent(pattern, parts[|parts| - 1])
  }

  ghost predicate IsReplaced(s: string, pattern: string, sub: string, r: string) {
    exists parts :: SplitsInto(s, pattern, parts) && r == Glue(parts, sub)
  }

  lemma GlueFirst(first: string, rest: seq<string>, between: string)
    requires rest != []
    ensures Glue([first] + rest, between) == first + between + Glue(rest, between)
  {
    assert ([first] + rest)[1..] == rest;
  }

  lemma GlueLonger(c: char, parts: seq<string>, between: string)
    requires parts != []
    ensures Glue([[c] + parts[0]] + parts[1..], between) == [c] + Glue(parts, between)
  {
    if |parts| == 1 {
      assert [[c] + parts[0]] + parts[1..] == [[c] + parts[0]];
    } else {
      GlueFirst([c] + parts[0], parts[1..], between);
      assert [c] + parts[0] + between + Glue(parts[1..], between) == [c] + (parts[0] + between + Glue(parts[1..], between));
    }
  }

  lemma SplitsAtOnce(s: string, pattern: string, parts: seq<string>)
    requires pattern != "" && |s| >= |pattern| && s[..|pattern|] == pattern && SplitsInto(s[|pattern|..], pattern, parts)
    ensures SplitsInto(s, pattern, [""] + parts)
  {
    GlueFirst("", parts, pattern);
    assert s == pattern + s[|pattern|..];
    assert "" + pattern == pattern;
    var all := [""] + parts;
    forall i, k | 0 <= i < |all| - 1 && 0 <= k < |all[i]| ensures !Occurs(pattern, all[i] + pattern, k) {
      assert all[i] == parts[i - 1];
    }
    assert all[|all| - 1] == parts[|parts| - 1];
  }

  lemma SplitsLater(s: string, pattern: string, parts: seq<string>)
    requires pattern != "" && |s| >= |pattern| && s[..|pattern|] != pattern && SplitsInto(s[1..], pattern, parts)
    ensures SplitsInto(s, pattern, [[s[0]] + parts[0]] + parts[1..])
  {
    var all := [[s[0]] + parts[0]] + parts[1..];
    GlueLonger(s[0], parts, pattern);
    assert s == [s[0]] + s[1..];
    var first := [s[0]] + parts[0];
    if |parts| == 1 {
      assert first == s;
      forall k ensures !Occurs(pattern, first, k) {
        if k > 0 && Occurs(pattern, first, k) { assert Occurs(pattern, parts[0], k - 1); }
      }
    } else {
      GlueFirst(first, parts[1..], pattern);
      assert all[|all| - 1] == parts[|parts| - 1];
      forall k | 0 <= k < |first| ensures !Occurs(pattern, first + pattern, k) {
        FirstPartOccurs(s, pattern, parts[0], Glue(parts[1..], pattern), k);
      }
    }
    forall i, k | 0 <= i < |all| - 1 && 0 <= k < |all[i]| ensures !Occurs(pattern, all[i] + pattern, k) {
      if i > 0 { assert all[i] == parts[i]; }
    }
  }

  lemma FirstPartOccurs(s: string, pattern: string, part: string, rest: string, k: nat)
    requires s != "" && s == [s[0]] + part + pattern + rest && |s| >= |pattern| && s[..|pattern|] != pattern
    requires forall j :: 0 <= j < |part| ==> !Occurs(pattern, part + pattern, j)
    requires k < 1 + |part|
    ensures !Occurs(pattern, [s[0]] + part + pattern, k)
  {
    var t := [s[0]] + part + pattern;
    if Occurs(pattern, t, k) {
      if k > 0 {
        assert (part + pattern)[k - 1..k - 1 + |pattern|] == t[k..k + |pattern|];
        assert Occurs(pattern, part + pattern, k - 1);
      }
    }
  }

  /** strings.ReplaceAll replaces the occurrences found from the left, and nothing else. */
  lemma {:induction false} ReplaceIsReplaced(s: string, pattern: string, sub: string) returns (parts: seq<string>)
    requires pattern != ""
    ensures SplitsInto(s, pattern, parts) && ReplaceText(s, pattern, sub) == Glue(parts, sub)
    decreases |s|
  {
    if |s| < |pattern| {
      parts := [s];
    } else if s[..|pattern|] == pattern {
      var rest := ReplaceIsReplaced(s[|pattern|..], pattern, sub);
      parts := [""] + rest;
      SplitsAtOnce(s, pattern, rest);
      GlueFirst("", rest, sub);
      assert "" + sub == sub;
    } else {
      var rest := ReplaceIsReplaced(s[1..], pattern, sub);
      parts := [[s[0]] + rest[0]] + rest[1..];
      SplitsLater(s, pattern, rest);
      GlueLonger(s[0], rest, sub);
    }
  }

  /** t is s without the white space at its ends. */
  ghost predicate IsTrimmed(s: string, t: string, space: char -> bool) {
    && (t != "" ==> !space(t[0]) && !space(t[|t| - 1]))
    && exists i, j :: 0 <= i <= j <= |s| && t == s[i..j] && Blank(s[..i], space) && Blank(s[j..], space)
  }

  lemma {:induction false} TrimBounds(s: string, space: char -> bool) returns (i: nat, j: nat)
    ensures i <= j <= |s| && Trim(s, space) == s[i..j] && Blank(s[..i], space) && Blank(s[j..], space)
    ensures i < j ==> !space(s[i]) && !space(s[j - 1])
    decreases |s|
  {
    if s == "" {
      i, j := 0, 0;
    } else if space(s[0]) {
      i, j := TrimBounds(s[1..], space);
      i, j := i + 1, j + 1;
      assert s[1..][..i - 1] == s[1..i] && s[1..][j - 1..] == s[j..];
      forall k | 0 <= k < i ensures space(s[k]) {
        assert k > 0 ==> s[1..][..i - 1][k - 1] == s[k];
      }
    } else if space(s[|s| - 1]) {
      var init := s[..|s| - 1];
      i, j := TrimBounds(init, space);
      assert init[..i] == s[..i] && init[i..j] == s[i..j];
      forall k | j <= k < |s| ensures space(s[k]) {
        assert k < |s| - 1 ==> init[j..][k - j] == s[k];
      }
    } else {
      i, j := 0, |s|;
    }
  }

  lemma TrimIsTrimmed(s: string, space: char -> bool)
    ensures IsTrimmed(s, Trim(s, space), space)
  {
    var i, j := TrimBounds(s, space);
  }

  /** Spaces before line breaks go, three line breaks become two, and the ends are trimmed. */
  ghost predicate IsCleaned(s: string, md: string, space: char -> bool) {
    exists once, twice ::
      IsReplaced(s, " \n", "\n", once) && IsReplaced(once, "\n\n\n", "\n\n", twice) && IsTrimmed(twice, md, space)
  }

  lemma CleanUpIsCleaned(s: string, space: char -> bool)
    ensures IsCleaned(s, CleanUp(s, space), space)
  {
    var once := ReplaceText(s, " \n", "\n");
    var twice := ReplaceText(once, "\n\n\n", "\n\n");
    var p := ReplaceIsReplaced(s, " \n", "\n");
    var q := ReplaceIsReplaced(once, "\n\n\n", "\n\n");
    assert IsReplaced(s, " \n", "\n", once) && IsReplaced(once, "\n\n\n", "\n\n", twice);
    TrimIsTrimmed(twice, space);
  }
}
